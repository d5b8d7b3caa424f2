/** A MongoDB collection seen as an in-memory table: a sequence of records
    in insertion order whose ids are pairwise distinct, together with the
    lookups and writes the controllers issue (`findById`,
    `findByIdAndUpdate`, `findByIdAndDelete`) and the reply shapes the
    controllers send back. */
module Table {
  import opened Js

  /** A document id (`_id`). */
  type Id = nat

  predicate DistinctIds<R>(t: seq<R>, idOf: R -> Id) {
    forall i, j :: 0 <= i < j < |t| ==> idOf(t[i]) != idOf(t[j])
  }

  predicate HasId<R>(t: seq<R>, id: Id, idOf: R -> Id) {
    exists i :: 0 <= i < |t| && idOf(t[i]) == id
  }

  /** `findById`: the record with that id, if any. */
  function Find<R>(t: seq<R>, id: Id, idOf: R -> Id): (r: Option<R>)
    ensures r.Some? <==> HasId(t, id, idOf)
    ensures r.Some? ==> r.value in t && idOf(r.value) == id
  {
    if t == [] then None
    else if idOf(t[0]) == id then Some(t[0])
    else
      var r := Find(t[1..], id, idOf);
      assert HasId(t[1..], id, idOf) ==> HasId(t, id, idOf);
      assert HasId(t, id, idOf) && idOf(t[0]) != id ==> HasId(t[1..], id, idOf) by {
        if HasId(t, id, idOf) && idOf(t[0]) != id {
          var i :| 0 <= i < |t| && idOf(t[i]) == id;
          assert idOf(t[1..][i - 1]) == id;
        }
      }
      r
  }

  /** With distinct ids, the record `Find` returns is the only one with that id. */
  lemma {:induction false} FindUnique<R>(t: seq<R>, id: Id, idOf: R -> Id, k: nat)
    requires DistinctIds(t, idOf)
    requires k < |t| && idOf(t[k]) == id
    ensures Find(t, id, idOf) == Some(t[k])
  {
    if k > 0 {
      assert idOf(t[0]) != id;
      assert DistinctIds(t[1..], idOf);
      FindUnique(t[1..], id, idOf, k - 1);
    }
  }

  /** `findByIdAndDelete`: every record except the ones with that id, in order. */
  function Remove<R>(t: seq<R>, id: Id, idOf: R -> Id): (r: seq<R>)
    ensures |r| <= |t|
  {
    if t == [] then []
    else if idOf(t[0]) == id then Remove(t[1..], id, idOf)
    else [t[0]] + Remove(t[1..], id, idOf)
  }

  /** After a removal no record carries the id. */
  lemma {:induction false} RemoveLeavesNoId<R>(t: seq<R>, id: Id, idOf: R -> Id)
    ensures !HasId(Remove(t, id, idOf), id, idOf)
  {
    if t != [] {
      RemoveLeavesNoId(t[1..], id, idOf);
      var rest := Remove(t[1..], id, idOf);
      if idOf(t[0]) != id {
        var r := [t[0]] + rest;
        forall i | 0 <= i < |r| ensures idOf(r[i]) != id {
          if i > 0 { assert r[i] == rest[i - 1]; }
        }
      }
    }
  }

  /** Removing an id no record has changes nothing. */
  lemma {:induction false} RemoveAbsent<R>(t: seq<R>, id: Id, idOf: R -> Id)
    requires !HasId(t, id, idOf)
    ensures Remove(t, id, idOf) == t
  {
    if t != [] {
      assert idOf(t[0]) != id;
      assert !HasId(t[1..], id, idOf);
      RemoveAbsent(t[1..], id, idOf);
      assert [t[0]] + t[1..] == t;
    }
  }

  /** Removal keeps the surviving records in their original relative order:
      removing from a concatenation removes from each part. */
  lemma {:induction false} RemoveConcat<R>(a: seq<R>, b: seq<R>, id: Id, idOf: R -> Id)
    ensures Remove(a + b, id, idOf) == Remove(a, id, idOf) + Remove(b, id, idOf)
  {
    if a == [] {
      assert a + b == b;
    } else {
      assert (a + b)[0] == a[0] && (a + b)[1..] == a[1..] + b;
      RemoveConcat(a[1..], b, id, idOf);
    }
  }

  /** Deleting a present id from a table with distinct ids drops exactly one record. */
  lemma {:induction false} RemoveOne<R>(t: seq<R>, id: Id, idOf: R -> Id, k: nat)
    requires DistinctIds(t, idOf)
    requires k < |t| && idOf(t[k]) == id
    ensures Remove(t, id, idOf) == t[..k] + t[k + 1..]
  {
    assert t == t[..k] + [t[k]] + t[k + 1..];
    RemoveConcat(t[..k] + [t[k]], t[k + 1..], id, idOf);
    RemoveConcat(t[..k], [t[k]], id, idOf);
    var before, after := t[..k], t[k + 1..];
    assert !HasId(before, id, idOf) by {
      forall i | 0 <= i < |before| ensures idOf(before[i]) != id { assert before[i] == t[i]; }
    }
    assert !HasId(after, id, idOf) by {
      forall i | 0 <= i < |after| ensures idOf(after[i]) != id { assert after[i] == t[k + 1 + i]; }
    }
    RemoveAbsent(before, id, idOf);
    RemoveAbsent(after, id, idOf);
    assert Remove([t[k]], id, idOf) == [];
  }

  /** Removal keeps only records that were there and keeps ids distinct. */
  lemma {:induction false} RemoveKeeps<R>(t: seq<R>, id: Id, idOf: R -> Id)
    requires DistinctIds(t, idOf)
    ensures DistinctIds(Remove(t, id, idOf), idOf)
    ensures forall x :: x in Remove(t, id, idOf) ==> x in t
  {
    if t != [] {
      assert DistinctIds(t[1..], idOf);
      RemoveKeeps(t[1..], id, idOf);
      var rest := Remove(t[1..], id, idOf);
      if idOf(t[0]) != id {
        var r := [t[0]] + rest;
        forall i, j | 0 <= i < j < |r| ensures idOf(r[i]) != idOf(r[j]) {
          if i == 0 {
            assert r[j] in t[1..];
            var m :| 0 <= m < |t[1..]| && t[1..][m] == r[j];
            assert t[1 + m] == r[j];
          } else {
            assert r[i] == rest[i - 1] && r[j] == rest[j - 1];
          }
        }
      }
    }
  }

  /** `findByIdAndUpdate` with the whole new record: the record with that id
      is replaced, every other record and the order are kept. */
  function Replace<R>(t: seq<R>, id: Id, x: R, idOf: R -> Id): (r: seq<R>)
    ensures |r| == |t|
    ensures forall i :: 0 <= i < |t| ==> r[i] == (if idOf(t[i]) == id then x else t[i])
  {
    if t == [] then [] else [if idOf(t[0]) == id then x else t[0]] + Replace(t[1..], id, x, idOf)
  }

  /** With distinct ids, replacing a present id rewrites exactly its one position. */
  lemma ReplaceOne<R>(t: seq<R>, id: Id, x: R, idOf: R -> Id, k: nat)
    requires DistinctIds(t, idOf)
    requires k < |t| && idOf(t[k]) == id
    ensures Replace(t, id, x, idOf) == t[k := x]
  {
    forall i | 0 <= i < |t| && i != k ensures idOf(t[i]) != id {
      if i < k { assert idOf(t[i]) != idOf(t[k]); } else { assert idOf(t[k]) != idOf(t[i]); }
    }
  }

  /** The reply a controller sends for one record. */
  datatype Reply<R, E> = Ok(record: R) | Created(record: R) | Deleted | NotFound | Invalid(error: E)

  /** HTTP status of a reply. */
  function Status<R, E>(r: Reply<R, E>): nat {
    match r
    case Ok(_) => 200
    case Created(_) => 201
    case Deleted => 200
    case NotFound => 404
    case Invalid(_) => 400
  }
}
