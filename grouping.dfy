/** Grouping a list into a dictionary of lists, as the admin Skills page and
    the public Skills section do with `reduce`: for each element the group
    under its key is created when missing and the element is pushed onto it.
    A JavaScript object used as a dictionary becomes a `map` from key to list. */
module Grouping {

  /** The elements of `xs` whose key is `k`, in input order. */
  function Members<T>(xs: seq<T>, key: T -> string, k: string): (r: seq<T>)
    ensures |r| <= |xs|
    ensures forall i :: 0 <= i < |r| ==> key(r[i]) == k
  {
    if xs == [] then []
    else
      var init := Members(xs[..|xs| - 1], key, k);
      if key(xs[|xs| - 1]) == k then init + [xs[|xs| - 1]] else init
  }

  /** The dictionary the `reduce` builds, element by element from the front. */
  function Grouped<T>(xs: seq<T>, key: T -> string): map<string, seq<T>> {
    if xs == [] then map[]
    else
      var g := Grouped(xs[..|xs| - 1], key);
      var k := key(xs[|xs| - 1]);
      g[k := (if k in g then g[k] else []) + [xs[|xs| - 1]]]
  }

  /** The dictionary has a group exactly for the keys that occur, each group
      holds exactly the elements with that key in input order, and no group
      is empty. */
  lemma {:induction false} GroupedHoldsMembers<T>(xs: seq<T>, key: T -> string)
    ensures forall k :: k in Grouped(xs, key) <==> exists i :: 0 <= i < |xs| && key(xs[i]) == k
    ensures forall k :: k in Grouped(xs, key) ==> Grouped(xs, key)[k] == Members(xs, key, k) && Grouped(xs, key)[k] != []
  {
    if xs != [] {
      var init := xs[..|xs| - 1];
      GroupedHoldsMembers(init, key);
      forall k ensures k in Grouped(xs, key) <==> exists i :: 0 <= i < |xs| && key(xs[i]) == k {
        if exists i :: 0 <= i < |init| && key(init[i]) == k {
          var i :| 0 <= i < |init| && key(init[i]) == k;
          assert xs[i] == init[i];
        }
        if exists i :: 0 <= i < |xs| && key(xs[i]) == k {
          var i :| 0 <= i < |xs| && key(xs[i]) == k;
          if i < |init| { assert init[i] == xs[i]; }
        }
      }
      forall k | k !in Grouped(init, key) ensures Members(init, key, k) == [] {
        if Members(init, key, k) != [] {
          MembersOccur(init, key, k);
        }
      }
    }
  }

  /** A non-empty group means some element has that key. */
  lemma {:induction false} MembersOccur<T>(xs: seq<T>, key: T -> string, k: string)
    requires Members(xs, key, k) != []
    ensures exists i :: 0 <= i < |xs| && key(xs[i]) == k
  {
    var init := xs[..|xs| - 1];
    if key(xs[|xs| - 1]) != k {
      MembersOccur(init, key, k);
      var i :| 0 <= i < |init| && key(init[i]) == k;
      assert xs[i] == init[i];
    }
  }

  /** Groups keep input order: grouping a concatenation appends the groups. */
  lemma {:induction false} MembersConcat<T>(a: seq<T>, b: seq<T>, key: T -> string, k: string)
    ensures Members(a + b, key, k) == Members(a, key, k) + Members(b, key, k)
  {
    if b == [] {
      assert a + b == a;
    } else {
      var b' := b[..|b| - 1];
      assert (a + b)[..|a + b| - 1] == a + b';
      assert (a + b)[|a + b| - 1] == b[|b| - 1];
      MembersConcat(a, b', key, k);
    }
  }

  /** Every element lands in the group of its own key. */
  lemma {:induction false} EveryElementIsGrouped<T>(xs: seq<T>, key: T -> string, i: nat)
    requires i < |xs|
    ensures xs[i] in Members(xs, key, key(xs[i]))
  {
    assert xs == xs[..i] + [xs[i]] + xs[i + 1..];
    MembersConcat(xs[..i] + [xs[i]], xs[i + 1..], key, key(xs[i]));
    MembersConcat(xs[..i], [xs[i]], key, key(xs[i]));
    assert Members([xs[i]], key, key(xs[i])) == [xs[i]] by {
      assert [xs[i]][..0] == [];
    }
  }

  /** The total size of the groups named by `ks`. */
  function GroupSizes<T>(xs: seq<T>, key: T -> string, ks: seq<string>): nat {
    if ks == [] then 0 else |Members(xs, key, ks[0])| + GroupSizes(xs, key, ks[1..])
  }

  /** No key is listed twice. */
  predicate NoDuplicates(ks: seq<string>) {
    ks == [] || (ks[0] !in ks[1..] && NoDuplicates(ks[1..]))
  }

  /** Non-empty keys that start with pairwise different letters are distinct. */
  lemma {:induction false} NoDuplicatesByFirstLetter(ks: seq<string>)
    requires forall i :: 0 <= i < |ks| ==> ks[i] != ""
    requires forall i, j :: 0 <= i < j < |ks| ==> ks[i][0] != ks[j][0]
    ensures NoDuplicates(ks)
  {
    if ks != [] {
      assert forall j :: 0 <= j < |ks[1..]| ==> ks[1..][j] == ks[j + 1];
      NoDuplicatesByFirstLetter(ks[1..]);
    }
  }

  lemma {:induction false} GroupSizesStep<T>(xs: seq<T>, x: T, key: T -> string, ks: seq<string>)
    requires NoDuplicates(ks)
    ensures GroupSizes(xs + [x], key, ks) == GroupSizes(xs, key, ks) + (if key(x) in ks then 1 else 0)
  {
    if ks != [] {
      var ys := xs + [x];
      assert ys[..|ys| - 1] == xs && ys[|ys| - 1] == x;
      GroupSizesStep(xs, x, key, ks[1..]);
      assert key(x) in ks <==> key(x) == ks[0] || key(x) in ks[1..];
    }
  }

  /** Over a list of distinct keys that names every key occurring, the group
      sizes add up to the number of elements. */
  lemma {:induction false} GroupSizesCount<T>(xs: seq<T>, key: T -> string, ks: seq<string>)
    requires NoDuplicates(ks)
    requires forall i :: 0 <= i < |xs| ==> key(xs[i]) in ks
    ensures GroupSizes(xs, key, ks) == |xs|
  {
    if xs == [] {
      GroupSizesEmpty(key, ks);
    } else {
      var init := xs[..|xs| - 1];
      assert forall i :: 0 <= i < |init| ==> init[i] == xs[i];
      GroupSizesCount(init, key, ks);
      assert init + [xs[|xs| - 1]] == xs;
      GroupSizesStep(init, xs[|xs| - 1], key, ks);
    }
  }

  lemma {:induction false} GroupSizesEmpty<T>(key: T -> string, ks: seq<string>)
    ensures GroupSizes([], key, ks) == 0
  {
    if ks != [] { GroupSizesEmpty(key, ks[1..]); }
  }

  /** The keys of the dictionary in the order the `reduce` creates them,
      which is the order `Object.entries` lists string keys in. */
  function KeyOrder<T>(xs: seq<T>, key: T -> string): seq<string> {
    if xs == [] then []
    else
      var ks := KeyOrder(xs[..|xs| - 1], key);
      var k := key(xs[|xs| - 1]);
      if k in ks then ks else ks + [k]
  }

  /** `ks` lists distinct keys, and each key before any other listed after it
      occurs in `xs` ahead of every element with that later key. */
  predicate FirstOccurrenceOrder<T>(xs: seq<T>, key: T -> string, ks: seq<string>) {
    && (forall i, j :: 0 <= i < j < |ks| ==> ks[i] != ks[j])
    && (forall i, j, q :: 0 <= i < j < |ks| && 0 <= q < |xs| && key(xs[q]) == ks[j] ==>
          exists p :: 0 <= p < q && key(xs[p]) == ks[i])
  }

  /** The key order names exactly the keys that occur, each once, in the
      order of their first occurrence. */
  lemma {:induction false} KeyOrderIsFirstOccurrence<T>(xs: seq<T>, key: T -> string)
    ensures forall k :: k in KeyOrder(xs, key) <==> exists i :: 0 <= i < |xs| && key(xs[i]) == k
    ensures FirstOccurrenceOrder(xs, key, KeyOrder(xs, key))
  {
    if xs != [] {
      var init := xs[..|xs| - 1];
      var last := |xs| - 1;
      var k := key(xs[last]);
      var ks0 := KeyOrder(init, key);
      var ks := KeyOrder(xs, key);
      KeyOrderIsFirstOccurrence(init, key);
      assert forall q :: 0 <= q < |init| ==> init[q] == xs[q];
      forall c ensures c in ks <==> exists i :: 0 <= i < |xs| && key(xs[i]) == c {
        if exists i :: 0 <= i < |xs| && key(xs[i]) == c {
          var i :| 0 <= i < |xs| && key(xs[i]) == c;
          if i < last { assert key(init[i]) == c; }
        }
      }
      forall i, j, q | 0 <= i < j < |ks| && 0 <= q < |xs| && key(xs[q]) == ks[j]
        ensures exists p :: 0 <= p < q && key(xs[p]) == ks[i]
      {
        if j < |ks0| {
          assert ks[i] == ks0[i] && ks[j] == ks0[j];
          if q == last {
            var q' :| 0 <= q' < |init| && key(init[q']) == ks0[j];
            var p :| 0 <= p < q' && key(init[p]) == ks0[i];
            assert key(xs[p]) == ks[i];
          } else {
            assert key(init[q]) == ks0[j];
            var p :| 0 <= p < q && key(init[p]) == ks0[i];
            assert key(xs[p]) == ks[i];
          }
        } else {
          assert ks[j] == k && k !in ks0 && ks[i] == ks0[i];
          assert ks0[i] in ks0;
          var p :| 0 <= p < |init| && key(init[p]) == ks0[i];
          assert key(xs[p]) == ks[i];
        }
      }
    }
  }

  /** The `reduce`: looks the key up, creates the group when it is missing,
      and pushes the element onto it. `keys` records the order in which the
      groups are created. */
  method GroupBy<T>(xs: seq<T>, key: T -> string) returns (acc: map<string, seq<T>>, keys: seq<string>)
    ensures acc == Grouped(xs, key)
    ensures keys == KeyOrder(xs, key)
  {
    acc := map[];
    keys := [];
    var i := 0;
    while i < |xs|
      invariant 0 <= i <= |xs|
      invariant acc == Grouped(xs[..i], key)
      invariant keys == KeyOrder(xs[..i], key)
      invariant forall k :: k in keys <==> k in acc
    {
      var k := key(xs[i]);
      if k !in acc {
        acc := acc[k := []];
        keys := keys + [k];
      }
      acc := acc[k := acc[k] + [xs[i]]];
      assert xs[..i + 1][..i] == xs[..i];
      i := i + 1;
    }
    assert xs[..i] == xs;
  }
}
