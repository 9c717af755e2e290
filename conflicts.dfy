/**
 * The two formulations of "this date range collides with a stored reservation":
 * the web controllers' loop predicate and the API's three-clause `$or` query,
 * and the invariant the reservation store is meant to keep.
 */
module Conflicts {
  import opened Results
  import opened ReservationModel

  /**
   * The web controllers' test (controllers/reservationsController.js): boundary-inclusive,
   * so a stay ending on the day another begins collides with it.
   */
  predicate Overlaps(start: Instant, end: Instant, existingStart: Instant, existingEnd: Instant) {
    start <= existingEnd && end >= existingStart
  }

  /** The API's query (services/reservations.js): the stored range holds the new start,
      or holds the new end, or lies inside the new range. */
  predicate FilterMatches(start: Instant, end: Instant, existingStart: Instant, existingEnd: Instant) {
    || (existingStart <= start && existingEnd >= start)
    || (existingStart <= end && existingEnd >= end)
    || (existingStart >= start && existingEnd <= end)
  }

  /** Overlap does not depend on which range is the new one. */
  lemma OverlapsSymmetric(s1: Instant, e1: Instant, s2: Instant, e2: Instant)
    ensures Overlaps(s1, e1, s2, e2) == Overlaps(s2, e2, s1, e1)
  {
  }

  /** Whatever the ranges, a loop hit is a query hit: the query never misses a collision. */
  lemma OverlapsImpliesFilter(s: Instant, e: Instant, xs: Instant, xe: Instant)
    ensures Overlaps(s, e, xs, xe) ==> FilterMatches(s, e, xs, xe)
  {
  }

  /** For ranges that do not run backwards, the query and the loop agree exactly. */
  lemma FilterEquivOverlaps(s: Instant, e: Instant, xs: Instant, xe: Instant)
    requires s <= e && xs <= xe
    ensures FilterMatches(s, e, xs, xe) <==> Overlaps(s, e, xs, xe)
  {
  }

  /** A new range that runs backwards: stored [10, 20], proposed start 15 and end 5.
      The query reports a collision; the loop does not. */
  lemma FilterDiffersOnInvertedRequest()
    ensures FilterMatches(15, 5, 10, 20) && !Overlaps(15, 5, 10, 20)
  {
  }

  /** A stored range that runs backwards: stored [6, 3], proposed [4, 5].
      The query reports a collision; the loop does not. */
  lemma FilterDiffersOnInvertedStored()
    ensures FilterMatches(4, 5, 6, 3) && !Overlaps(4, 5, 6, 3)
  {
  }

  /** Reservation `id` is on catway `catway` and is not the excluded one (`_id: { $ne }`). */
  predicate OnCatway(rows: map<nat, Reservation>, id: nat, catway: int, exclude: Option<nat>) {
    id in rows && rows[id].catwayNumber == catway && exclude != Some(id)
  }

  /** Some reservation in scope overlaps [start, end] in the loop's sense. */
  predicate AnyOverlap(rows: map<nat, Reservation>, catway: int, exclude: Option<nat>, start: Instant, end: Instant) {
    exists id | id in rows :: OnCatway(rows, id, catway, exclude)
      && Overlaps(start, end, rows[id].startDate, rows[id].endDate)
  }

  /** Some reservation in scope matches the three-clause query for [start, end]. */
  predicate AnyFilterMatch(rows: map<nat, Reservation>, catway: int, exclude: Option<nat>, start: Instant, end: Instant) {
    exists id | id in rows :: OnCatway(rows, id, catway, exclude)
      && FilterMatches(start, end, rows[id].startDate, rows[id].endDate)
  }

  /** No two distinct reservations on the same catway overlap. */
  ghost predicate NoOverlap(rows: map<nat, Reservation>) {
    forall i, j :: i in rows && j in rows && i != j && rows[i].catwayNumber == rows[j].catwayNumber
      ==> !Overlaps(rows[i].startDate, rows[i].endDate, rows[j].startDate, rows[j].endDate)
  }

  /** Every stored reservation passes `save()`'s validation. */
  ghost predicate AllSaveable(rows: map<nat, Reservation>) {
    forall id :: id in rows ==> Saveable(rows[id])
  }

  /** The invariant of the reservation store. */
  ghost predicate Consistent(rows: map<nat, Reservation>) {
    NoOverlap(rows) && AllSaveable(rows)
  }

  /** The query finds a hit whenever the loop would. */
  lemma AnyOverlapImpliesFilter(rows: map<nat, Reservation>, catway: int, exclude: Option<nat>, start: Instant, end: Instant)
    ensures AnyOverlap(rows, catway, exclude, start, end) ==> AnyFilterMatch(rows, catway, exclude, start, end)
  {
    if AnyOverlap(rows, catway, exclude, start, end) {
      var id :| id in rows && OnCatway(rows, id, catway, exclude)
        && Overlaps(start, end, rows[id].startDate, rows[id].endDate);
      OverlapsImpliesFilter(start, end, rows[id].startDate, rows[id].endDate);
    }
  }

  /** Over a store of valid reservations and a forward range, both scans report the same. */
  lemma AnyFilterMatchIffOverlap(rows: map<nat, Reservation>, catway: int, exclude: Option<nat>, start: Instant, end: Instant)
    requires AllSaveable(rows) && start <= end
    ensures AnyFilterMatch(rows, catway, exclude, start, end) <==> AnyOverlap(rows, catway, exclude, start, end)
  {
    AnyOverlapImpliesFilter(rows, catway, exclude, start, end);
    if AnyFilterMatch(rows, catway, exclude, start, end) {
      var id :| id in rows && OnCatway(rows, id, catway, exclude)
        && FilterMatches(start, end, rows[id].startDate, rows[id].endDate);
      FilterEquivOverlaps(start, end, rows[id].startDate, rows[id].endDate);
    }
  }

  /**
   * Adding reservation `r` under a fresh identifier keeps the store consistent when `r` is
   * valid and overlaps nothing on its catway.
   */
  lemma InsertKeepsConsistent(rows: map<nat, Reservation>, id: nat, r: Reservation)
    requires Consistent(rows) && id !in rows
    requires Saveable(r) && !AnyOverlap(rows, r.catwayNumber, None, r.startDate, r.endDate)
    ensures Consistent(rows[id := r])
  {
    var after := rows[id := r];
    forall i, j | i in after && j in after && i != j && after[i].catwayNumber == after[j].catwayNumber
      ensures !Overlaps(after[i].startDate, after[i].endDate, after[j].startDate, after[j].endDate)
    {
      if i == id {
        assert OnCatway(rows, j, r.catwayNumber, None);
      } else if j == id {
        assert OnCatway(rows, i, r.catwayNumber, None);
        OverlapsSymmetric(after[i].startDate, after[i].endDate, r.startDate, r.endDate);
      }
    }
  }

  /**
   * Replacing reservation `id` by `r` on the same catway keeps the store consistent when
   * `r` is valid and overlaps nothing else on its catway.
   */
  lemma ReplaceKeepsConsistent(rows: map<nat, Reservation>, id: nat, r: Reservation)
    requires Consistent(rows) && id in rows && r.catwayNumber == rows[id].catwayNumber
    requires Saveable(r) && !AnyOverlap(rows, r.catwayNumber, Some(id), r.startDate, r.endDate)
    ensures Consistent(rows[id := r])
  {
    var after := rows[id := r];
    forall i, j | i in after && j in after && i != j && after[i].catwayNumber == after[j].catwayNumber
      ensures !Overlaps(after[i].startDate, after[i].endDate, after[j].startDate, after[j].endDate)
    {
      if i == id {
        assert OnCatway(rows, j, r.catwayNumber, Some(id));
      } else if j == id {
        assert OnCatway(rows, i, r.catwayNumber, Some(id));
        OverlapsSymmetric(after[i].startDate, after[i].endDate, r.startDate, r.endDate);
      }
    }
  }

  /** Removing a reservation never creates an overlap. */
  lemma RemoveKeepsConsistent(rows: map<nat, Reservation>, id: nat)
    requires Consistent(rows)
    ensures Consistent(rows - {id})
  {
  }
}
