/** Ordering of listing results. A MongoDB `sort({a: 1, b: -1})` clause is
    modelled as sorting by a two-part integer key compared lexicographically;
    a descending component is negated when the key is built. */
module Ordering {

  datatype Key = Key(major: int, minor: int)

  predicate KeyLe(a: Key, b: Key) {
    a.major < b.major || (a.major == b.major && a.minor <= b.minor)
  }

  predicate SortedBy<T>(s: seq<T>, key: T -> Key) {
    forall i, j :: 0 <= i < j < |s| ==> KeyLe(key(s[i]), key(s[j]))
  }

  /** Inserts `x` before the first element it does not follow. */
  function Insert<T>(x: T, s: seq<T>, key: T -> Key): (r: seq<T>)
    requires SortedBy(s, key)
    ensures SortedBy(r, key)
    ensures multiset(r) == multiset(s) + multiset{x}
  {
    if s == [] || KeyLe(key(x), key(s[0])) then
      assert s == [] || forall j :: 0 <= j < |s| ==> KeyLe(key(s[0]), key(s[j]));
      [x] + s
    else
      var tail := Insert(x, s[1..], key);
      var rest := s[1..] + [x];
      assert multiset(tail) == multiset(rest);
      assert forall j :: 0 <= j < |rest| ==> KeyLe(key(s[0]), key(rest[j]));
      BoundCarries(key(s[0]), tail, rest, key);
      assert s == [s[0]] + s[1..];
      [s[0]] + tail
  }

  /** A lower bound on the keys of a list bounds those of any permutation. */
  lemma BoundCarries<T>(b: Key, t: seq<T>, u: seq<T>, key: T -> Key)
    requires multiset(t) == multiset(u)
    requires forall i :: 0 <= i < |u| ==> KeyLe(b, key(u[i]))
    ensures forall i :: 0 <= i < |t| ==> KeyLe(b, key(t[i]))
  {
    forall i | 0 <= i < |t| ensures KeyLe(b, key(t[i])) {
      assert t[i] in multiset(u);
      var j :| 0 <= j < |u| && u[j] == t[i];
    }
  }

  /** The listing order: a permutation of `s` sorted by `key`. */
  function SortBy<T>(s: seq<T>, key: T -> Key): (r: seq<T>)
    ensures SortedBy(r, key)
    ensures multiset(r) == multiset(s)
  {
    if s == [] then []
    else
      assert s == [s[0]] + s[1..];
      Insert(s[0], SortBy(s[1..], key), key)
  }
}
