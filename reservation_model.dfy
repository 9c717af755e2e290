/** The reservation document: its fields, its setters and what `save()` validates. */
module ReservationModel {
  import opened Results
  import opened Text

  /** A calendar date, read as an instant on an integer time line. */
  type Instant = int

  /** A reservation of one catway by one client and boat, from startDate to endDate. */
  datatype Reservation = Reservation(
    catwayNumber: int,
    clientName: string,
    boatName: string,
    startDate: Instant,
    endDate: Instant)

  /** A stored reservation together with the identifier the store assigned to it. */
  datatype Doc = Doc(id: nat, reservation: Reservation)

  /**
   * `new Reservation({...})`: the `trim` setters of clientName and boatName run
   * when the document is built.
   */
  function NewReservation(catwayNumber: int, clientName: string, boatName: string,
                          startDate: Instant, endDate: Instant): Reservation
  {
    Reservation(catwayNumber, Trim(clientName), Trim(boatName), startDate, endDate)
  }

  /**
   * The `required` validators of the text fields: a missing value and one that is empty
   * once trimmed are both refused (catwayNumber and the dates are always present here).
   */
  predicate HasRequiredFields(r: Reservation) {
    r.clientName != [] && r.boatName != []
  }

  /** The pre-save hook: it throws when `endDate <= startDate`. */
  predicate EndAfterStart(r: Reservation) {
    !(r.endDate <= r.startDate)
  }

  /** What `save()` lets through: the schema validators, then the pre-save hook. */
  predicate Saveable(r: Reservation) {
    HasRequiredFields(r) && EndAfterStart(r)
  }

  /** The fields a create form or a create request carries besides the catway number. */
  datatype ReservationForm = ReservationForm(clientName: string, boatName: string, startDate: Instant, endDate: Instant)

  /** A request body for the API update: every field may be absent. */
  datatype Patch = Patch(
    catwayNumber: Option<int>,
    clientName: Option<string>,
    boatName: Option<string>,
    startDate: Option<Instant>,
    endDate: Option<Instant>)

  /** The fields a patch supplies replace the stored ones; text goes through the `trim` setter. */
  function ApplyPatch(r: Reservation, p: Patch): Reservation {
    Reservation(
      p.catwayNumber.GetOr(r.catwayNumber),
      if p.clientName.Some? then Trim(p.clientName.value) else r.clientName,
      if p.boatName.Some? then Trim(p.boatName.value) else r.boatName,
      p.startDate.GetOr(r.startDate),
      p.endDate.GetOr(r.endDate))
  }

  /**
   * Update validators (`runValidators: true`): `required` is checked on the supplied
   * text fields only; the pre-save hook is not run by an update query.
   */
  predicate PatchPassesValidators(p: Patch) {
    && (p.clientName.Some? ==> Trim(p.clientName.value) != [])
    && (p.boatName.Some? ==> Trim(p.boatName.value) != [])
  }

  /** Sort key of `.sort({ startDate: -1 })`: latest start first. */
  function StartDescKey(d: Doc): int {
    -d.reservation.startDate
  }

  /** `docs` are ordered by startDate, latest first. */
  ghost predicate StartDescending(docs: seq<Doc>) {
    forall i, j :: 0 <= i < j < |docs| ==> docs[i].reservation.startDate >= docs[j].reservation.startDate
  }
}
