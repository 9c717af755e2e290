/** The catway document (a numbered berth) and the catway collection. */
module CatwayModel {
  import opened Results
  import Ordering

  /** The `enum: ['long', 'short']` of catwayType. */
  datatype CatwayType = Long | Short

  datatype Catway = Catway(catwayNumber: int, catwayType: CatwayType, catwayState: string)

  /** Default of catwayState. */
  const DefaultState: string := "bon \U{E9}tat"

  /**
   * `new Catway({ catwayNumber, catwayType, catwayState })` followed by validation.
   * An omitted type defaults to `short` and an omitted state to "bon état"; a type
   * outside the enumeration, or a state sent empty, fails validation (None).
   */
  function BuildCatway(catwayNumber: int, catwayType: Option<string>, catwayState: Option<string>): (c: Option<Catway>)
    ensures c.Some? <==> (catwayType.None? || catwayType.value in {"long", "short"}) && catwayState != Some([])
    ensures c.Some? ==> c.value.catwayNumber == catwayNumber
    ensures c.Some? && catwayType.None? ==> c.value.catwayType == Short
    ensures c.Some? && catwayState.None? ==> c.value.catwayState == DefaultState
    ensures c.Some? && catwayState.Some? ==> c.value.catwayState == catwayState.value
  {
    var kind :=
      if catwayType == Some("long") then Some(Long)
      else if catwayType.None? || catwayType == Some("short") then Some(Short)
      else None;
    var state := catwayState.GetOr(DefaultState);
    if kind.None? || state == [] then None else Some(Catway(catwayNumber, kind.value, state))
  }

  /** Sort key of `.sort({ catwayNumber: 1 })`. */
  function NumberKey(c: Catway): int {
    c.catwayNumber
  }

  /** The catway collection, indexed by its unique catwayNumber. */
  class CatwayTable {
    var docs: map<int, Catway>

    /** The unique index: each catway is stored under its own number. */
    ghost predicate Valid()
      reads this
    {
      forall n :: n in docs ==> docs[n].catwayNumber == n
    }

    constructor ()
      ensures Valid() && docs == map[]
    {
      docs := map[];
    }

    /** `Catway.find()`: every stored catway once, in the order the cursor yields them. */
    method FindAll() returns (cs: seq<Catway>)
      requires Valid()
      ensures forall c :: c in cs <==> c.catwayNumber in docs && docs[c.catwayNumber] == c
      ensures |cs| == |docs|
      ensures Ordering.Distinct(cs)
    {
      var stored := docs;
      var ns := Ordering.KeysOf(stored);
      cs := seq(|ns|, i requires 0 <= i < |ns| => stored[ns[i]]);
      forall i, j | 0 <= i < j < |cs| ensures cs[i] != cs[j] {
        assert cs[i].catwayNumber == ns[i] && cs[j].catwayNumber == ns[j];
      }
      forall i | 0 <= i < |cs| ensures cs[i].catwayNumber in docs && docs[cs[i].catwayNumber] == cs[i] {
        assert ns[i] in ns;
        assert cs[i] == stored[ns[i]];
        assert stored == docs;
        assert stored[ns[i]].catwayNumber == ns[i];
      }
      forall c: Catway | c.catwayNumber in docs && docs[c.catwayNumber] == c ensures c in cs {
        var i :| 0 <= i < |ns| && ns[i] == c.catwayNumber;
        assert cs[i] == c;
      }
      Ordering.DistinctKeysCount(ns, docs.Keys);
    }

    /** `Catway.find().sort({ catwayNumber: 1 })`: every catway once, by increasing number. */
    method FindAllSorted() returns (cs: seq<Catway>)
      requires Valid()
      ensures forall c :: c in cs <==> c.catwayNumber in docs && docs[c.catwayNumber] == c
      ensures |cs| == |docs|
      ensures forall i, j :: 0 <= i < j < |cs| ==> cs[i].catwayNumber < cs[j].catwayNumber
    {
      var found := FindAll();
      cs := Ordering.SortBy(found, NumberKey);
      Ordering.DistinctPermutation(found, cs);
      assert forall c :: c in cs <==> c in found by {
        forall c: Catway ensures c in cs <==> c in found {
          assert c in cs <==> c in multiset(cs);
        }
      }
      assert |cs| == |found| by {
        assert |multiset(cs)| == |multiset(found)|;
      }
      forall i, j | 0 <= i < j < |cs| ensures cs[i].catwayNumber < cs[j].catwayNumber {
        assert NumberKey(cs[i]) <= NumberKey(cs[j]);
        assert cs[i] in found && cs[j] in found;
      }
    }

    /** `catway.save()`: the unique index refuses a number already stored. */
    method Save(c: Catway) returns (ok: bool)
      requires Valid()
      modifies this
      ensures Valid()
      ensures ok == (c.catwayNumber !in old(docs))
      ensures docs == if ok then old(docs)[c.catwayNumber := c] else old(docs)
    {
      ok := c.catwayNumber !in docs;
      if ok {
        docs := docs[c.catwayNumber := c];
      }
    }

    /**
     * `Catway.findOneAndUpdate({ catwayNumber }, { catwayState }, { runValidators: true })`:
     * the `required` validator refuses an empty state before the query runs; otherwise only
     * the state of the matching catway changes.
     */
    method FindOneAndUpdateState(catwayNumber: int, catwayState: string) returns (valid: bool, updated: Option<Catway>)
      requires Valid()
      modifies this
      ensures Valid()
      ensures valid == (catwayState != [])
      ensures updated.Some? <==> valid && catwayNumber in old(docs)
      ensures updated.Some? ==> updated.value == old(docs)[catwayNumber].(catwayState := catwayState)
      ensures docs == if updated.Some? then old(docs)[catwayNumber := updated.value] else old(docs)
    {
      valid := catwayState != [];
      if !valid || catwayNumber !in docs {
        return valid, None;
      }
      var c := docs[catwayNumber].(catwayState := catwayState);
      docs := docs[catwayNumber := c];
      updated := Some(c);
    }

    /** `Catway.findOneAndDelete({ catwayNumber })`: removes that catway and nothing else. */
    method FindOneAndDelete(catwayNumber: int) returns (deleted: Option<Catway>)
      requires Valid()
      modifies this
      ensures Valid()
      ensures deleted == if catwayNumber in old(docs) then Some(old(docs)[catwayNumber]) else None
      ensures docs == old(docs) - {catwayNumber}
    {
      deleted := if catwayNumber in docs then Some(docs[catwayNumber]) else None;
      docs := docs - {catwayNumber};
    }
  }
}
