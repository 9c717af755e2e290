/**
 * The JSON API over reservations (services/reservations.js): conflicts are found with the
 * three-clause range query, updates go through `findByIdAndUpdate`.
 */
module ReservationService {
  import opened Results
  import opened ReservationModel
  import opened Conflicts
  import opened ReservationStore
  import opened CatwayModel

  // ---------------------------------------------------------------- create

  /** POST /catways/{id}/reservations: 404 without the catway, 400 on a query hit, else save. */
  ghost function CreateOutcome(rows: map<nat, Reservation>, catways: set<int>, newId: nat,
                               catwayNumber: int, form: ReservationForm): Outcome
  {
    if catwayNumber !in catways then
      Outcome(NotFound, rows)
    else if AnyFilterMatch(rows, catwayNumber, None, form.startDate, form.endDate) then
      Outcome(Conflict, rows)
    else
      var r := NewReservation(catwayNumber, form.clientName, form.boatName, form.startDate, form.endDate);
      if Saveable(r) then Outcome(Ok, rows[newId := r]) else Outcome(StoreError, rows)
  }

  method CreateReservation(table: ReservationTable, catways: CatwayTable, catwayNumber: int, form: ReservationForm)
    returns (status: Status, created: Option<Doc>)
    requires table.Valid() && catways.Valid()
    modifies table
    ensures table.Valid()
    ensures Outcome(status, table.rows)
         == CreateOutcome(old(table.rows), catways.docs.Keys, old(table.nextId), catwayNumber, form)
    ensures created == if status == Ok then Some(Doc(old(table.nextId), table.rows[old(table.nextId)])) else None
    ensures Consistent(old(table.rows)) ==> Consistent(table.rows)
  {
    if Consistent(table.rows) {
      CreateKeepsConsistent(table.rows, catways.docs.Keys, table.nextId, catwayNumber, form);
    }
    if catwayNumber !in catways.docs {
      return NotFound, None;
    }
    var start, end := form.startDate, form.endDate;
    var hit := table.FindOne((d: Doc) => d.reservation.catwayNumber == catwayNumber
                                  && FilterMatches(start, end, d.reservation.startDate, d.reservation.endDate));
    if hit.Some? {
      assert OnCatway(table.rows, hit.value.id, catwayNumber, None);
      return Conflict, None;
    }
    var id := table.Save(NewReservation(catwayNumber, form.clientName, form.boatName, start, end));
    if id.None? {
      return StoreError, None;
    }
    return Ok, Some(Doc(id.value, table.rows[id.value]));
  }

  /** A create that succeeds keeps the store consistent: every saved range ends after it starts
      and overlaps nothing on its catway. */
  lemma CreateKeepsConsistent(rows: map<nat, Reservation>, catways: set<int>, newId: nat,
                              catwayNumber: int, form: ReservationForm)
    requires Consistent(rows) && newId !in rows
    ensures Consistent(CreateOutcome(rows, catways, newId, catwayNumber, form).rows)
  {
    var o := CreateOutcome(rows, catways, newId, catwayNumber, form);
    if o.status == Ok {
      AnyOverlapImpliesFilter(rows, catwayNumber, None, form.startDate, form.endDate);
      InsertKeepsConsistent(rows, newId,
        NewReservation(catwayNumber, form.clientName, form.boatName, form.startDate, form.endDate));
    }
  }

  /** On a consistent store and a forward range, the API reports a conflict exactly when the
      loop's boundary-inclusive test finds a reservation on that catway. */
  lemma CreateConflictIffOverlap(rows: map<nat, Reservation>, catways: set<int>, newId: nat,
                                 catwayNumber: int, form: ReservationForm)
    requires AllSaveable(rows) && form.startDate <= form.endDate
    ensures CreateOutcome(rows, catways, newId, catwayNumber, form).status == Conflict
        <==> catwayNumber in catways && AnyOverlap(rows, catwayNumber, None, form.startDate, form.endDate)
  {
    AnyFilterMatchIffOverlap(rows, catwayNumber, None, form.startDate, form.endDate);
  }

  /** A successful create adds exactly one reservation, under the fresh identifier, with the
      given catway, the trimmed names and the given dates; nothing else changes. */
  lemma CreateOkAddsOne(rows: map<nat, Reservation>, catways: set<int>, newId: nat,
                        catwayNumber: int, form: ReservationForm)
    requires newId !in rows
    requires CreateOutcome(rows, catways, newId, catwayNumber, form).status == Ok
    ensures var after := CreateOutcome(rows, catways, newId, catwayNumber, form).rows;
      && after.Keys == rows.Keys + {newId}
      && (forall id :: id in rows ==> after[id] == rows[id])
      && after[newId].catwayNumber == catwayNumber
      && after[newId].clientName == Text.Trim(form.clientName)
      && after[newId].boatName == Text.Trim(form.boatName)
      && after[newId].startDate == form.startDate < form.endDate == after[newId].endDate
  {
  }

  // ---------------------------------------------------------------- update

  /**
   * PUT /catways/{id}/reservations/{rid} as the code is written: the range is re-checked only
   * when a date is supplied, a missing side falls back to the stored one, the scope is the stored
   * catway minus the reservation itself, and then the whole body is applied by an update query.
   */
  ghost function UpdateAsWritten(rows: map<nat, Reservation>, id: nat, p: Patch): (o: Outcome)
    ensures o.status == NotFound <==> id !in rows
    ensures o.status == Conflict ==> p.startDate.Some? || p.endDate.Some?
    ensures id in rows ==>
      (o.status == Conflict <==>
        (p.startDate.Some? || p.endDate.Some?)
        && AnyFilterMatch(rows, rows[id].catwayNumber, Some(id),
                          p.startDate.GetOr(rows[id].startDate), p.endDate.GetOr(rows[id].endDate)))
    ensures id in rows && o.status != Conflict ==> (o.status == Ok <==> PatchPassesValidators(p))
    ensures id in rows && o.status != Conflict && o.status != Ok ==> o.status == StoreError
    ensures o.status != Ok ==> o.rows == rows
    ensures o.status == Ok ==> o.rows.Keys == rows.Keys && o.rows[id] == ApplyPatch(rows[id], p)
    ensures forall k :: k in rows && k != id ==> k in o.rows && o.rows[k] == rows[k]
  {
    if id !in rows then
      Outcome(NotFound, rows)
    else
      var r := rows[id];
      var start := p.startDate.GetOr(r.startDate);
      var end := p.endDate.GetOr(r.endDate);
      if (p.startDate.Some? || p.endDate.Some?) && AnyFilterMatch(rows, r.catwayNumber, Some(id), start, end) then
        Outcome(Conflict, rows)
      else if !PatchPassesValidators(p) then
        Outcome(StoreError, rows)
      else
        Outcome(Ok, rows[id := ApplyPatch(r, p)])
  }

  /** The update query skips the pre-save hook: a lone reservation [10, 20] sent `endDate: 5`
      is stored running backwards. */
  lemma UpdateAsWrittenStoresInvertedRange()
    ensures var rows := map[0 := Reservation(1, "Durand", "Mistral", 10, 20)];
      var o := UpdateAsWritten(rows, 0, Patch(None, None, None, None, Some(5)));
      && Consistent(rows) && o.status == Ok && o.rows[0].endDate < o.rows[0].startDate && !Consistent(o.rows)
  {
    var rows := map[0 := Reservation(1, "Durand", "Mistral", 10, 20)];
    var p := Patch(None, None, None, None, Some(5));
    assert !AnyFilterMatch(rows, 1, Some(0), 10, 5);
  }

  /** A body carrying `catwayNumber` moves the reservation without checking the target catway:
      [10, 20] on catway 1 lands on top of [10, 20] on catway 2. */
  lemma UpdateAsWrittenMovesIntoConflict()
    ensures var rows := map[0 := Reservation(1, "Durand", "Mistral", 10, 20), 1 := Reservation(2, "Martin", "Alize", 10, 20)];
      var o := UpdateAsWritten(rows, 0, Patch(Some(2), None, None, None, None));
      && Consistent(rows) && o.status == Ok && o.rows[0].catwayNumber == o.rows[1].catwayNumber == 2
      && !NoOverlap(o.rows)
  {
    var rows := map[0 := Reservation(1, "Durand", "Mistral", 10, 20), 1 := Reservation(2, "Martin", "Alize", 10, 20)];
    var o := UpdateAsWritten(rows, 0, Patch(Some(2), None, None, None, None));
    assert o.rows[0] == Reservation(2, "Durand", "Mistral", 10, 20);
    assert Overlaps(o.rows[0].startDate, o.rows[0].endDate, o.rows[1].startDate, o.rows[1].endDate);
  }

  /**
   * The update with the two gaps closed: the catway cannot be changed through the body (it is
   * the conflict scope), and a result whose end is not after its start is refused as `save()`
   * would refuse it. Everything else is as written.
   */
  ghost function UpdateOutcome(rows: map<nat, Reservation>, id: nat, p: Patch): Outcome {
    var o := UpdateAsWritten(rows, id, p.(catwayNumber := None));
    if o.status == Ok && id in o.rows && !EndAfterStart(o.rows[id]) then Outcome(StoreError, rows) else o
  }

  /** Past the conflict check, the corrected update succeeds exactly when the update validators
      pass and the patched range, on the stored catway, ends after it starts. */
  lemma UpdateSucceedsIff(rows: map<nat, Reservation>, id: nat, p: Patch)
    requires id in rows && UpdateOutcome(rows, id, p).status != Conflict
    ensures UpdateOutcome(rows, id, p).status == Ok
        <==> PatchPassesValidators(p) && EndAfterStart(ApplyPatch(rows[id], p.(catwayNumber := None)))
    ensures UpdateOutcome(rows, id, p).status != Ok ==> UpdateOutcome(rows, id, p).status == StoreError
  {
  }

  method UpdateReservation(table: ReservationTable, id: nat, p: Patch) returns (status: Status, updated: Option<Reservation>)
    requires table.Valid()
    modifies table
    ensures table.Valid() && table.nextId == old(table.nextId)
    ensures Outcome(status, table.rows) == UpdateOutcome(old(table.rows), id, p)
    ensures updated == if status == Ok then Some(table.rows[id]) else None
    ensures Consistent(old(table.rows)) ==> Consistent(table.rows)
  {
    if Consistent(table.rows) {
      UpdateKeepsConsistent(table.rows, id, p);
    }
    if id !in table.rows {
      return NotFound, None;
    }
    var current := table.rows[id];
    var body := p.(catwayNumber := None);
    var start := body.startDate.GetOr(current.startDate);
    var end := body.endDate.GetOr(current.endDate);
    if body.startDate.Some? || body.endDate.Some? {
      var catway := current.catwayNumber;
      var hit := table.FindOne((d: Doc) => d.id != id && d.reservation.catwayNumber == catway
                                    && FilterMatches(start, end, d.reservation.startDate, d.reservation.endDate));
      if hit.Some? {
        assert OnCatway(table.rows, hit.value.id, catway, Some(id));
        return Conflict, None;
      }
    }
    if PatchPassesValidators(body) && !EndAfterStart(ApplyPatch(current, body)) {
      return StoreError, None;
    }
    var valid;
    valid, updated := table.FindByIdAndUpdate(id, body);
    status := if valid then Ok else StoreError;
  }

  /** Every update leaves the store consistent. */
  lemma UpdateKeepsConsistent(rows: map<nat, Reservation>, id: nat, p: Patch)
    requires Consistent(rows)
    ensures Consistent(UpdateOutcome(rows, id, p).rows)
  {
    var o := UpdateOutcome(rows, id, p);
    if o.status == Ok {
      var r := rows[id];
      var body := p.(catwayNumber := None);
      var r' := ApplyPatch(r, body);
      assert o.rows == rows[id := r'];
      if body.startDate.Some? || body.endDate.Some? {
        AnyOverlapImpliesFilter(rows, r.catwayNumber, Some(id), r'.startDate, r'.endDate);
      } else {
        forall k | OnCatway(rows, k, r.catwayNumber, Some(id))
          ensures !Overlaps(r'.startDate, r'.endDate, rows[k].startDate, rows[k].endDate)
        {
          OverlapsSymmetric(r'.startDate, r'.endDate, rows[k].startDate, rows[k].endDate);
        }
      }
      ReplaceKeepsConsistent(rows, id, r');
    }
  }

  /** With no date in the body no range check runs, so the answer is never a conflict. */
  lemma UpdateWithoutDatesNeverConflicts(rows: map<nat, Reservation>, id: nat, p: Patch)
    requires p.startDate.None? && p.endDate.None?
    ensures UpdateOutcome(rows, id, p).status != Conflict
    ensures UpdateOutcome(rows, id, p).status == Ok ==>
      UpdateOutcome(rows, id, p).rows[id].startDate == rows[id].startDate
      && UpdateOutcome(rows, id, p).rows[id].endDate == rows[id].endDate
  {
  }

  /**
   * On a consistent store the update reports a conflict exactly when a date is supplied and
   * the resolved range (a missing side taken from the stored reservation) overlaps, in the loop's
   * sense, another reservation on the stored catway.
   */
  lemma UpdateConflictIffOverlap(rows: map<nat, Reservation>, id: nat, p: Patch)
    requires AllSaveable(rows) && id in rows
    requires p.startDate.GetOr(rows[id].startDate) <= p.endDate.GetOr(rows[id].endDate)
    ensures UpdateOutcome(rows, id, p).status == Conflict
        <==> (p.startDate.Some? || p.endDate.Some?)
             && AnyOverlap(rows, rows[id].catwayNumber, Some(id),
                           p.startDate.GetOr(rows[id].startDate), p.endDate.GetOr(rows[id].endDate))
  {
    AnyFilterMatchIffOverlap(rows, rows[id].catwayNumber, Some(id),
                             p.startDate.GetOr(rows[id].startDate), p.endDate.GetOr(rows[id].endDate));
  }

  /** A reservation alone on its catway can be moved to any dates without a conflict. */
  lemma UpdateAloneNeverConflicts(rows: map<nat, Reservation>, id: nat, p: Patch)
    requires id in rows
    requires forall k :: k in rows && k != id ==> rows[k].catwayNumber != rows[id].catwayNumber
    ensures UpdateOutcome(rows, id, p).status != Conflict
  {
  }

  /** Updating an unknown identifier reports 404 and changes nothing. */
  lemma UpdateUnknownIsNotFound(rows: map<nat, Reservation>, id: nat, p: Patch)
    requires id !in rows
    ensures UpdateOutcome(rows, id, p) == Outcome(NotFound, rows)
  {
  }

  // ---------------------------------------------------------------- delete and queries

  method DeleteReservation(table: ReservationTable, id: nat) returns (status: Status)
    requires table.Valid()
    modifies table
    ensures table.Valid() && table.nextId == old(table.nextId)
    ensures Outcome(status, table.rows) == RemoveOutcome(old(table.rows), id)
    ensures Consistent(old(table.rows)) ==> Consistent(table.rows)
  {
    if Consistent(table.rows) {
      RemoveKeepsOthers(table.rows, id);
    }
    var deleted := table.FindByIdAndDelete(id);
    status := if deleted.Some? then Ok else NotFound;
  }

  /** GET /catways/{id}/reservations/{rid}: the reservation, or 404. */
  method GetReservationById(table: ReservationTable, id: nat) returns (status: Status, found: Option<Reservation>)
    ensures status == Ok <==> id in table.rows
    ensures status != Ok ==> status == NotFound && found == None
    ensures status == Ok ==> found == Some(table.rows[id])
  {
    if id in table.rows {
      return Ok, Some(table.rows[id]);
    }
    return NotFound, None;
  }

  /** GET /reservations: every reservation, latest start first. */
  method GetAllReservations(table: ReservationTable) returns (docs: seq<Doc>)
    ensures forall d :: d in docs <==> d.id in table.rows && d.reservation == table.rows[d.id]
    ensures Ordering.Distinct(docs) && StartDescending(docs)
  {
    docs := table.FindByStartDesc((d: Doc) => true);
  }

  /** GET /catways/{id}/reservations: the reservations of one catway, latest start first. */
  method GetReservationsByCatway(table: ReservationTable, catwayNumber: int) returns (docs: seq<Doc>)
    ensures forall d :: d in docs <==> d.id in table.rows && d.reservation == table.rows[d.id]
                                       && d.reservation.catwayNumber == catwayNumber
    ensures Ordering.Distinct(docs) && StartDescending(docs)
  {
    docs := table.FindByStartDesc((d: Doc) => d.reservation.catwayNumber == catwayNumber);
  }

  /** GET /reservations/current: the reservations running on `today` (both ends included),
      latest start first; the clock reading is a parameter. */
  method GetCurrentReservations(table: ReservationTable, today: Instant) returns (docs: seq<Doc>)
    ensures forall d :: d in docs <==> d.id in table.rows && d.reservation == table.rows[d.id]
                                       && d.reservation.startDate <= today <= d.reservation.endDate
    ensures Ordering.Distinct(docs) && StartDescending(docs)
  {
    docs := table.FindByStartDesc((d: Doc) => d.reservation.startDate <= today && d.reservation.endDate >= today);
  }
}
