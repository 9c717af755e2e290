/** The reservation collection and the document-store operations the handlers call on it. */
module ReservationStore {
  import opened Results
  import opened ReservationModel
  import opened Conflicts
  import Ordering

  /** The status a handler reports together with the collection it leaves behind. */
  datatype Outcome = Outcome(status: Status, rows: map<nat, Reservation>)

  /** `findByIdAndDelete`, as both delivery surfaces use it: 404 when absent, else exactly that reservation goes. */
  ghost function RemoveOutcome(rows: map<nat, Reservation>, id: nat): Outcome {
    if id in rows then Outcome(Ok, rows - {id}) else Outcome(NotFound, rows)
  }

  /** Deleting keeps the store consistent and removes nothing but the reservation named. */
  lemma RemoveKeepsOthers(rows: map<nat, Reservation>, id: nat)
    requires Consistent(rows)
    ensures Consistent(RemoveOutcome(rows, id).rows)
    ensures RemoveOutcome(rows, id).status == Ok <==> id in rows
    ensures id !in RemoveOutcome(rows, id).rows
    ensures forall k :: k in rows && k != id ==> k in RemoveOutcome(rows, id).rows && RemoveOutcome(rows, id).rows[k] == rows[k]
  {
    RemoveKeepsConsistent(rows, id);
  }

  /** The reservation collection; identifiers are handed out in increasing order. */
  class ReservationTable {
    var rows: map<nat, Reservation>
    var nextId: nat

    /** Every stored identifier was handed out before `nextId`. */
    ghost predicate Valid()
      reads this
    {
      forall id :: id in rows ==> id < nextId
    }

    constructor ()
      ensures Valid() && rows == map[]
    {
      rows := map[];
      nextId := 0;
    }

    /** `Reservation.find(filter)`: each matching document once, in the cursor's order. */
    method Find(filter: Doc -> bool) returns (docs: seq<Doc>)
      ensures forall d :: d in docs <==> d.id in rows && d.reservation == rows[d.id] && filter(d)
      ensures Ordering.Distinct(docs)
    {
      var stored := rows;
      var ids := Ordering.KeysOf<nat, Reservation>(stored);
      docs := [];
      for i := 0 to |ids|
        invariant forall d :: d in docs <==> d.id in ids[..i] && d.id in stored && d.reservation == stored[d.id] && filter(d)
        invariant Ordering.Distinct(docs)
      {
        var d := Doc(ids[i], stored[ids[i]]);
        assert ids[..i + 1] == ids[..i] + [ids[i]];
        assert ids[i] !in ids[..i];
        if filter(d) {
          docs := docs + [d];
        }
      }
      assert ids[..|ids|] == ids;
    }

    /** `Reservation.findOne(filter)`: some matching document, or none when nothing matches. */
    method FindOne(filter: Doc -> bool) returns (hit: Option<Doc>)
      ensures hit.Some? ==> hit.value.id in rows && hit.value.reservation == rows[hit.value.id] && filter(hit.value)
      ensures hit.None? ==> forall id :: id in rows ==> !filter(Doc(id, rows[id]))
    {
      if exists id :: id in rows && filter(Doc(id, rows[id])) {
        var id :| id in rows && filter(Doc(id, rows[id]));
        hit := Some(Doc(id, rows[id]));
      } else {
        hit := None;
      }
    }

    /** `Reservation.find(filter).sort({ startDate: -1 })`. */
    method FindByStartDesc(filter: Doc -> bool) returns (docs: seq<Doc>)
      ensures forall d :: d in docs <==> d.id in rows && d.reservation == rows[d.id] && filter(d)
      ensures Ordering.Distinct(docs)
      ensures StartDescending(docs)
    {
      var found := Find(filter);
      docs := Ordering.SortBy(found, StartDescKey);
      Ordering.DistinctPermutation(found, docs);
      assert forall d :: d in docs <==> d in found by {
        forall d: Doc ensures d in docs <==> d in found {
          assert d in docs <==> d in multiset(docs);
        }
      }
      forall i, j | 0 <= i < j < |docs|
        ensures docs[i].reservation.startDate >= docs[j].reservation.startDate
      {
        assert StartDescKey(docs[i]) <= StartDescKey(docs[j]);
      }
    }

    /** `new Reservation(...).save()`: validation, then an insert under a fresh identifier. */
    method Save(r: Reservation) returns (id: Option<nat>)
      requires Valid()
      modifies this
      ensures Valid()
      ensures id == if Saveable(r) then Some(old(nextId)) else None
      ensures rows == if Saveable(r) then old(rows)[old(nextId) := r] else old(rows)
    {
      if !Saveable(r) {
        return None;
      }
      id := Some(nextId);
      rows := rows[nextId := r];
      nextId := nextId + 1;
    }

    /** `reservation.save()` on a loaded document whose fields were reassigned. */
    method Resave(id: nat, r: Reservation) returns (ok: bool)
      requires Valid() && id in rows
      modifies this
      ensures Valid() && nextId == old(nextId)
      ensures ok == Saveable(r)
      ensures rows == if ok then old(rows)[id := r] else old(rows)
    {
      ok := Saveable(r);
      if ok {
        rows := rows[id := r];
      }
    }

    /**
     * `Reservation.findByIdAndUpdate(id, body, { new: true, runValidators: true })`: the
     * update validators run first; the pre-save hook does not run.
     */
    method FindByIdAndUpdate(id: nat, p: Patch) returns (valid: bool, updated: Option<Reservation>)
      requires Valid()
      modifies this
      ensures Valid() && nextId == old(nextId)
      ensures valid == PatchPassesValidators(p)
      ensures updated == if valid && id in old(rows) then Some(ApplyPatch(old(rows)[id], p)) else None
      ensures rows == if updated.Some? then old(rows)[id := updated.value] else old(rows)
    {
      valid := PatchPassesValidators(p);
      if !valid || id !in rows {
        return valid, None;
      }
      var r := ApplyPatch(rows[id], p);
      rows := rows[id := r];
      updated := Some(r);
    }

    /** `Reservation.findByIdAndDelete(id)`. */
    method FindByIdAndDelete(id: nat) returns (deleted: Option<Reservation>)
      requires Valid()
      modifies this
      ensures Valid() && nextId == old(nextId)
      ensures deleted == if id in old(rows) then Some(old(rows)[id]) else None
      ensures Outcome(if deleted.Some? then Ok else NotFound, rows) == RemoveOutcome(old(rows), id)
    {
      deleted := if id in rows then Some(rows[id]) else None;
      rows := rows - {id};
    }
  }
}
