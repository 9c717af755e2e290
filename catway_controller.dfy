/** The web forms over catways (controllers/catwayController.js). */
module CatwayController {
  import opened Results
  import opened CatwayModel

  /** The list page: every catway once, by increasing number. */
  method ListCatways(table: CatwayTable) returns (catways: seq<Catway>)
    requires table.Valid()
    ensures forall c :: c in catways <==> c.catwayNumber in table.docs && table.docs[c.catwayNumber] == c
    ensures |catways| == |table.docs|
    ensures forall i, j :: 0 <= i < j < |catways| ==> catways[i].catwayNumber < catways[j].catwayNumber
  {
    catways := table.FindAllSorted();
  }

  /**
   * POST of the add form: a taken number re-renders the form and stores nothing; otherwise
   * the catway is built from the parsed number, the type and the state, and saved.
   */
  method CreateCatway(table: CatwayTable, catwayNumber: int, catwayType: Option<string>, catwayState: Option<string>)
    returns (status: Status)
    requires table.Valid()
    modifies table
    ensures table.Valid()
    ensures catwayNumber in old(table.docs) ==> status == Duplicate
    ensures catwayNumber !in old(table.docs) && BuildCatway(catwayNumber, catwayType, catwayState).None? ==> status == StoreError
    ensures status == Ok <==> catwayNumber !in old(table.docs) && BuildCatway(catwayNumber, catwayType, catwayState).Some?
    ensures status == Ok ==> table.docs == old(table.docs)[catwayNumber := BuildCatway(catwayNumber, catwayType, catwayState).value]
    ensures status != Ok ==> table.docs == old(table.docs)
  {
    var existing := catwayNumber in table.docs;
    if existing {
      return Duplicate;
    }
    var catway := BuildCatway(catwayNumber, catwayType, catwayState);
    if catway.None? {
      return StoreError;
    }
    var ok := table.Save(catway.value);
    status := Ok;
  }

  /** POST of the edit form: only the state changes; an unknown number redirects with an error. */
  method UpdateCatway(table: CatwayTable, catwayNumber: int, catwayState: string) returns (status: Status)
    requires table.Valid()
    modifies table
    ensures table.Valid()
    ensures catwayState == [] ==> status == StoreError
    ensures catwayState != [] && catwayNumber !in old(table.docs) ==> status == NotFound
    ensures status == Ok <==> catwayState != [] && catwayNumber in old(table.docs)
    ensures status == Ok ==> table.docs == old(table.docs)[catwayNumber := old(table.docs)[catwayNumber].(catwayState := catwayState)]
    ensures status != Ok ==> table.docs == old(table.docs)
  {
    var valid, catway := table.FindOneAndUpdateState(catwayNumber, catwayState);
    if !valid {
      return StoreError;
    }
    if catway.None? {
      return NotFound;
    }
    return Ok;
  }

  /** POST of the delete button: removes that catway only; an unknown number redirects with an error. */
  method DeleteCatway(table: CatwayTable, catwayNumber: int) returns (status: Status)
    requires table.Valid()
    modifies table
    ensures table.Valid()
    ensures status == Ok <==> catwayNumber in old(table.docs)
    ensures status != Ok ==> status == NotFound
    ensures table.docs == old(table.docs) - {catwayNumber}
  {
    var catway := table.FindOneAndDelete(catwayNumber);
    if catway.None? {
      return NotFound;
    }
    return Ok;
  }
}
