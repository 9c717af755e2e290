/**
 * The web forms over reservations (controllers/reservationsController.js): conflicts are
 * found by a loop with a `hasConflict` flag over the reservations of the catway, and an
 * update reassigns all four fields of the loaded document before `save()`.
 */
module ReservationsController {
  import opened Results
  import opened ReservationModel
  import opened Conflicts
  import opened ReservationStore
  import opened CatwayModel
  import Ordering
  import ReservationService

  /** The scan over the fetched reservations: stops at the first boundary-inclusive overlap. */
  method HasConflict(existing: seq<Doc>, start: Instant, end: Instant) returns (hasConflict: bool)
    ensures hasConflict <==>
      exists i :: 0 <= i < |existing| && Overlaps(start, end, existing[i].reservation.startDate, existing[i].reservation.endDate)
  {
    hasConflict := false;
    for i := 0 to |existing|
      invariant !hasConflict
      invariant forall k :: 0 <= k < i ==>
        !Overlaps(start, end, existing[k].reservation.startDate, existing[k].reservation.endDate)
    {
      var existingStart := existing[i].reservation.startDate;
      var existingEnd := existing[i].reservation.endDate;
      if start <= existingEnd && end >= existingStart {
        hasConflict := true;
        break;
      }
    }
  }

  // ---------------------------------------------------------------- create

  /** POST of the add form: unknown catway, then the loop's conflict test, then `save()`. */
  ghost function CreateOutcome(rows: map<nat, Reservation>, catways: set<int>, newId: nat,
                               catwayNumber: int, form: ReservationForm): Outcome
  {
    if catwayNumber !in catways then
      Outcome(NotFound, rows)
    else if AnyOverlap(rows, catwayNumber, None, form.startDate, form.endDate) then
      Outcome(Conflict, rows)
    else
      var r := NewReservation(catwayNumber, form.clientName, form.boatName, form.startDate, form.endDate);
      if Saveable(r) then Outcome(Ok, rows[newId := r]) else Outcome(StoreError, rows)
  }

  method CreateReservation(table: ReservationTable, catways: CatwayTable, catwayNumber: int, form: ReservationForm)
    returns (status: Status)
    requires table.Valid() && catways.Valid()
    modifies table
    ensures table.Valid()
    ensures Outcome(status, table.rows)
         == CreateOutcome(old(table.rows), catways.docs.Keys, old(table.nextId), catwayNumber, form)
    ensures Consistent(old(table.rows)) ==> Consistent(table.rows)
  {
    if Consistent(table.rows) {
      CreateKeepsConsistent(table.rows, catways.docs.Keys, table.nextId, catwayNumber, form);
    }
    if catwayNumber !in catways.docs {
      return NotFound;
    }
    var start, end := form.startDate, form.endDate;
    var existingReservations := table.Find((d: Doc) => d.reservation.catwayNumber == catwayNumber);
    var hasConflict := HasConflict(existingReservations, start, end);
    if hasConflict {
      var i :| 0 <= i < |existingReservations| && Overlaps(start, end,
        existingReservations[i].reservation.startDate, existingReservations[i].reservation.endDate);
      assert OnCatway(table.rows, existingReservations[i].id, catwayNumber, None);
      return Conflict;
    }
    assert !AnyOverlap(table.rows, catwayNumber, None, start, end) by {
      forall id | OnCatway(table.rows, id, catwayNumber, None)
        ensures !Overlaps(start, end, table.rows[id].startDate, table.rows[id].endDate)
      {
        assert Doc(id, table.rows[id]) in existingReservations;
      }
    }
    var id := table.Save(NewReservation(catwayNumber, form.clientName, form.boatName, start, end));
    status := if id.Some? then Ok else StoreError;
  }

  /** After a successful web create the store is still consistent: the new reservation
      overlaps none already on its catway. */
  lemma CreateKeepsConsistent(rows: map<nat, Reservation>, catways: set<int>, newId: nat,
                              catwayNumber: int, form: ReservationForm)
    requires Consistent(rows) && newId !in rows
    ensures Consistent(CreateOutcome(rows, catways, newId, catwayNumber, form).rows)
  {
    if CreateOutcome(rows, catways, newId, catwayNumber, form).status == Ok {
      InsertKeepsConsistent(rows, newId,
        NewReservation(catwayNumber, form.clientName, form.boatName, form.startDate, form.endDate));
    }
  }

  /** The two create paths agree on every store of valid reservations and every forward range. */
  lemma CreateAgreesWithApi(rows: map<nat, Reservation>, catways: set<int>, newId: nat,
                            catwayNumber: int, form: ReservationForm)
    requires AllSaveable(rows) && form.startDate <= form.endDate
    ensures CreateOutcome(rows, catways, newId, catwayNumber, form)
         == ReservationService.CreateOutcome(rows, catways, newId, catwayNumber, form)
  {
    AnyFilterMatchIffOverlap(rows, catwayNumber, None, form.startDate, form.endDate);
  }

  /** On a backwards range they part: stored [10, 20], proposed 15 to 5. The API answers with
      a conflict; the web form passes the scan and is refused by the pre-save hook. */
  lemma CreateDiffersFromApiOnInvertedRange()
    ensures var rows := map[0 := Reservation(1, "Durand", "Mistral", 10, 20)];
      var form := ReservationForm("Martin", "Alize", 15, 5);
      && CreateOutcome(rows, {1}, 1, 1, form).status == StoreError
      && ReservationService.CreateOutcome(rows, {1}, 1, 1, form).status == Conflict
  {
    var rows := map[0 := Reservation(1, "Durand", "Mistral", 10, 20)];
    assert OnCatway(rows, 0, 1, None) && FilterMatches(15, 5, 10, 20);
    assert !AnyOverlap(rows, 1, None, 15, 5);
  }

  /** Touching endpoints collide: with [1, 10] stored on catway 3, [10, 15] is refused. */
  lemma CreateTouchingEndIsConflict(clientName: string, boatName: string)
    ensures var rows := map[0 := Reservation(3, clientName, boatName, 1, 10)];
      CreateOutcome(rows, {3}, 1, 3, ReservationForm(clientName, boatName, 10, 15)).status == Conflict
  {
    var rows := map[0 := Reservation(3, clientName, boatName, 1, 10)];
    assert OnCatway(rows, 0, 3, None) && Overlaps(10, 15, 1, 10);
  }

  /** ... and [11, 20], starting the day after, is stored. */
  lemma CreateAfterEndIsAccepted(clientName: string, boatName: string)
    requires Text.Trim(clientName) != [] && Text.Trim(boatName) != []
    ensures var rows := map[0 := Reservation(3, clientName, boatName, 1, 10)];
      var o := CreateOutcome(rows, {3}, 1, 3, ReservationForm(clientName, boatName, 11, 20));
      o.status == Ok && 1 in o.rows && o.rows[1].startDate == 11
  {
  }

  // ---------------------------------------------------------------- update

  /** POST of the edit form: all four fields are taken from the form, the scan excludes the
      reservation itself and covers its stored catway, then the document is saved. */
  ghost function UpdateOutcome(rows: map<nat, Reservation>, id: nat, form: ReservationForm): Outcome {
    if id !in rows then
      Outcome(NotFound, rows)
    else
      var r := rows[id];
      if AnyOverlap(rows, r.catwayNumber, Some(id), form.startDate, form.endDate) then
        Outcome(Conflict, rows)
      else
        var edited := NewReservation(r.catwayNumber, form.clientName, form.boatName, form.startDate, form.endDate);
        if Saveable(edited) then Outcome(Ok, rows[id := edited]) else Outcome(StoreError, rows)
  }

  method UpdateReservation(table: ReservationTable, id: nat, form: ReservationForm) returns (status: Status)
    requires table.Valid()
    modifies table
    ensures table.Valid() && table.nextId == old(table.nextId)
    ensures Outcome(status, table.rows) == UpdateOutcome(old(table.rows), id, form)
    ensures Consistent(old(table.rows)) ==> Consistent(table.rows)
  {
    if Consistent(table.rows) {
      UpdateKeepsConsistent(table.rows, id, form);
    }
    if id !in table.rows {
      return NotFound;
    }
    var reservation := table.rows[id];
    var start, end := form.startDate, form.endDate;
    var catway := reservation.catwayNumber;
    var existingReservations := table.Find((d: Doc) => d.id != id && d.reservation.catwayNumber == catway);
    var hasConflict := HasConflict(existingReservations, start, end);
    if hasConflict {
      var i :| 0 <= i < |existingReservations| && Overlaps(start, end,
        existingReservations[i].reservation.startDate, existingReservations[i].reservation.endDate);
      assert OnCatway(table.rows, existingReservations[i].id, catway, Some(id));
      return Conflict;
    }
    assert !AnyOverlap(table.rows, catway, Some(id), start, end) by {
      forall k | OnCatway(table.rows, k, catway, Some(id))
        ensures !Overlaps(start, end, table.rows[k].startDate, table.rows[k].endDate)
      {
        assert Doc(k, table.rows[k]) in existingReservations;
      }
    }
    reservation := reservation.(clientName := Text.Trim(form.clientName), boatName := Text.Trim(form.boatName));
    reservation := reservation.(startDate := start, endDate := end);
    var ok := table.Resave(id, reservation);
    status := if ok then Ok else StoreError;
  }

  /** Every web update leaves the store consistent, and a refused one changes nothing. */
  lemma UpdateKeepsConsistent(rows: map<nat, Reservation>, id: nat, form: ReservationForm)
    requires Consistent(rows)
    ensures Consistent(UpdateOutcome(rows, id, form).rows)
    ensures UpdateOutcome(rows, id, form).status != Ok ==> UpdateOutcome(rows, id, form).rows == rows
  {
    var o := UpdateOutcome(rows, id, form);
    if o.status == Ok {
      var r := rows[id];
      ReplaceKeepsConsistent(rows, id,
        NewReservation(r.catwayNumber, form.clientName, form.boatName, form.startDate, form.endDate));
    }
  }

  /** A successful web update sets the names and dates from the form and keeps the catway. */
  lemma UpdateOkSetsFields(rows: map<nat, Reservation>, id: nat, form: ReservationForm)
    requires UpdateOutcome(rows, id, form).status == Ok
    ensures var after := UpdateOutcome(rows, id, form).rows;
      && id in rows && after.Keys == rows.Keys
      && after[id].catwayNumber == rows[id].catwayNumber
      && after[id].clientName == Text.Trim(form.clientName) && after[id].boatName == Text.Trim(form.boatName)
      && after[id].startDate == form.startDate && after[id].endDate == form.endDate
      && (forall k :: k in rows && k != id ==> after[k] == rows[k])
  {
  }

  /** A reservation alone on its catway can be moved to any dates without a conflict. */
  lemma UpdateAloneNeverConflicts(rows: map<nat, Reservation>, id: nat, form: ReservationForm)
    requires id in rows
    requires forall k :: k in rows && k != id ==> rows[k].catwayNumber != rows[id].catwayNumber
    ensures UpdateOutcome(rows, id, form).status != Conflict
  {
  }

  /** When the API body carries all four fields and the store is valid, the corrected API update
      and the web update give the same answer and the same store. */
  lemma UpdateAgreesWithApi(rows: map<nat, Reservation>, id: nat, form: ReservationForm)
    requires AllSaveable(rows) && form.startDate <= form.endDate
    ensures UpdateOutcome(rows, id, form)
         == ReservationService.UpdateOutcome(rows, id,
              Patch(None, Some(form.clientName), Some(form.boatName), Some(form.startDate), Some(form.endDate)))
  {
    if id in rows {
      AnyFilterMatchIffOverlap(rows, rows[id].catwayNumber, Some(id), form.startDate, form.endDate);
    }
  }

  // ---------------------------------------------------------------- delete and list

  method DeleteReservation(table: ReservationTable, id: nat) returns (status: Status)
    requires table.Valid()
    modifies table
    ensures table.Valid() && table.nextId == old(table.nextId)
    ensures Outcome(status, table.rows) == RemoveOutcome(old(table.rows), id)
    ensures Consistent(old(table.rows)) ==> Consistent(table.rows)
  {
    if Consistent(table.rows) {
      RemoveKeepsOthers(table.rows, id);
    }
    var reservation := table.FindByIdAndDelete(id);
    if reservation.None? {
      return NotFound;
    }
    return Ok;
  }

  /** The list page: every reservation, latest start first. */
  method ListReservations(table: ReservationTable) returns (reservations: seq<Doc>)
    ensures forall d :: d in reservations <==> d.id in table.rows && d.reservation == table.rows[d.id]
    ensures Ordering.Distinct(reservations) && StartDescending(reservations)
  {
    reservations := table.FindByStartDesc((d: Doc) => true);
  }
}
