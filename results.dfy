/** Outcomes shared by every handler of the marina back office. */
module Results {

  /** A value that may be absent: a request field that was not sent, a document that was not found. */
  datatype Option<+T> = None | Some(value: T) {

    /** The value if present, otherwise the fallback (JavaScript's `a || b` on a field). */
    function GetOr(fallback: T): T {
      if Some? then value else fallback
    }
  }

  /**
   * What a handler reports, with HTTP statuses and redirect messages reduced to their meaning:
   *   Ok         - 200/201, or a "success" redirect
   *   NotFound   - 404, or a "non trouvé" redirect / form error
   *   Conflict   - 400 "déjà réservé": the date range collides with a stored reservation
   *   Duplicate  - 400 "existe déjà" / "déjà utilisé": the unique key is taken
   *   Mismatch   - password and its confirmation differ
   *   Forbidden  - an account tried to delete itself
   *   StoreError - 500, or a generic error redirect: a validator or a unique index threw
   */
  datatype Status = Ok | NotFound | Conflict | Duplicate | Mismatch | Forbidden | StoreError
}
