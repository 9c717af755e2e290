/** The JSON API over catways (services/catways.js). */
module CatwayService {
  import opened Results
  import opened CatwayModel

  /** GET /catways: every catway once, by increasing number. */
  method GetAllCatways(table: CatwayTable) returns (catways: seq<Catway>)
    requires table.Valid()
    ensures forall c :: c in catways <==> c.catwayNumber in table.docs && table.docs[c.catwayNumber] == c
    ensures |catways| == |table.docs|
    ensures forall i, j :: 0 <= i < j < |catways| ==> catways[i].catwayNumber < catways[j].catwayNumber
  {
    catways := table.FindAllSorted();
  }

  /** GET /catways/{id}: the catway with that number, or 404. */
  method GetCatwayByNumber(table: CatwayTable, catwayNumber: int) returns (status: Status, catway: Option<Catway>)
    requires table.Valid()
    ensures status == Ok <==> catwayNumber in table.docs
    ensures status != Ok ==> status == NotFound && catway == None
    ensures status == Ok ==> catway == Some(table.docs[catwayNumber]) && catway.value.catwayNumber == catwayNumber
  {
    if catwayNumber in table.docs {
      return Ok, Some(table.docs[catwayNumber]);
    }
    return NotFound, None;
  }

  /**
   * POST /catways: 400 when the number is taken (the table is unchanged), 500 when validation
   * fails, otherwise 201 with exactly one catway added.
   */
  method CreateCatway(table: CatwayTable, catwayNumber: int, catwayType: Option<string>, catwayState: Option<string>)
    returns (status: Status, created: Option<Catway>)
    requires table.Valid()
    modifies table
    ensures table.Valid()
    ensures catwayNumber in old(table.docs) ==> status == Duplicate && table.docs == old(table.docs)
    ensures catwayNumber !in old(table.docs) && BuildCatway(catwayNumber, catwayType, catwayState).None?
            ==> status == StoreError && table.docs == old(table.docs)
    ensures status == Ok <==> catwayNumber !in old(table.docs) && BuildCatway(catwayNumber, catwayType, catwayState).Some?
    ensures status == Ok ==> created == BuildCatway(catwayNumber, catwayType, catwayState)
                             && table.docs == old(table.docs)[catwayNumber := created.value]
                             && |table.docs| == |old(table.docs)| + 1
    ensures status != Ok ==> created == None
  {
    if catwayNumber in table.docs {
      return Duplicate, None;
    }
    var catway := BuildCatway(catwayNumber, catwayType, catwayState);
    if catway.None? {
      return StoreError, None;
    }
    var ok := table.Save(catway.value);
    return Ok, catway;
  }

  /** PUT /catways/{id}: only catwayState changes; number and type stay as they were. */
  method UpdateCatway(table: CatwayTable, catwayNumber: int, catwayState: string)
    returns (status: Status, updated: Option<Catway>)
    requires table.Valid()
    modifies table
    ensures table.Valid()
    ensures catwayState == [] ==> status == StoreError
    ensures catwayState != [] && catwayNumber !in old(table.docs) ==> status == NotFound
    ensures status == Ok <==> catwayState != [] && catwayNumber in old(table.docs)
    ensures status == Ok ==> && updated.Some?
                             && updated.value.catwayNumber == catwayNumber
                             && updated.value.catwayType == old(table.docs)[catwayNumber].catwayType
                             && updated.value.catwayState == catwayState
                             && table.docs == old(table.docs)[catwayNumber := updated.value]
    ensures status != Ok ==> updated == None && table.docs == old(table.docs)
  {
    var valid;
    valid, updated := table.FindOneAndUpdateState(catwayNumber, catwayState);
    if !valid {
      return StoreError, None;
    }
    if updated.Some? {
      return Ok, updated;
    }
    return NotFound, None;
  }

  /** DELETE /catways/{id}: removes that catway only; the reservations on it are not touched
      (the reservation table is outside this method's frame). */
  method DeleteCatway(table: CatwayTable, catwayNumber: int) returns (status: Status)
    requires table.Valid()
    modifies table
    ensures table.Valid()
    ensures status == Ok <==> catwayNumber in old(table.docs)
    ensures status != Ok ==> status == NotFound
    ensures table.docs == old(table.docs) - {catwayNumber}
  {
    var catway := table.FindOneAndDelete(catwayNumber);
    if catway.Some? {
      return Ok;
    }
    return NotFound;
  }
}
