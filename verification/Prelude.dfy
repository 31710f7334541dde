/** Vocabulary shared by every module: variable keys and results that may carry an error. */
module Prelude {

  /** A variable key. The original uses a 64-bit index; only its identity and order matter. */
  type Key = nat

  datatype Option<+T> = None | Some(value: T)

  /** The errors the modelled code raises as exceptions. */
  datatype Error =
    | KeyAlreadyExists(key: Key)
    | KeyDoesNotExist(key: Key)
    | WrongSize
    | NoBasisKeys
    | NoRootLink
    | NotConnected
    | InconsistentJointAngles
    | InfiniteLoop

  datatype Result<+T> = Ok(value: T) | Err(error: Error)

  ghost predicate NoDuplicates<T>(s: seq<T>) {
    forall i, j :: 0 <= i < j < |s| ==> s[i] != s[j]
  }

  /** The elements of a sequence as a set. */
  function Elements(s: seq<Key>): (r: set<Key>)
    ensures forall x :: x in r <==> x in s
  {
    set x | x in s
  }

  /** A longer prefix adds one element. */
  lemma PrefixElements(s: seq<Key>, i: nat)
    requires i < |s|
    ensures Elements(s[..i + 1]) == Elements(s[..i]) + {s[i]}
    ensures NoDuplicates(s) ==> s[i] !in Elements(s[..i])
  {
    assert s[..i + 1] == s[..i] + [s[i]];
  }

  /** The first key of an ordered key set. */
  function MinKey(s: set<Key>): (k: Key)
    requires s != {}
    ensures k in s && forall x :: x in s ==> k <= x
  {
    MinKeyExists(s);
    assert exists k :: IsLeast(s, k);
    var k :| k in s && forall x :: x in s ==> k <= x;
    k
  }

  /** A key set in ascending order, as the original's containers iterate it. */
  function SortedKeys(s: set<Key>): (r: seq<Key>)
    ensures Elements(r) == s
    decreases |s|
  {
    if s == {} then []
    else
      var k := MinKey(s);
      assert |s - {k}| < |s|;
      var rest := SortedKeys(s - {k});
      assert forall x :: x in [k] + rest <==> x == k || x in Elements(rest);
      [k] + rest
  }

  ghost predicate Ascends(s: seq<Key>) {
    forall i, j :: 0 <= i < j < |s| ==> s[i] < s[j]
  }

  lemma {:induction false} SortedKeysAscend(s: set<Key>)
    ensures Ascends(SortedKeys(s)) && NoDuplicates(SortedKeys(s)) && |SortedKeys(s)| == |s|
    decreases |s|
  {
    if s != {} {
      var k := MinKey(s);
      assert |s - {k}| == |s| - 1;
      SortedKeysAscend(s - {k});
      AscendsFrom(k, SortedKeys(s - {k}));
    }
  }

  lemma AscendsFrom(k: Key, rest: seq<Key>)
    requires Ascends(rest) && forall x :: x in Elements(rest) ==> k < x
    ensures Ascends([k] + rest) && NoDuplicates([k] + rest)
  {
    var all := [k] + rest;
    forall i, j | 0 <= i < j < |all| ensures all[i] < all[j] {
      assert all[j] in Elements(rest);
    }
  }

  ghost predicate IsLeast(s: set<Key>, k: Key) {
    k in s && forall x :: x in s ==> k <= x
  }

  lemma MinKeyExists(s: set<Key>)
    requires s != {}
    ensures exists k :: IsLeast(s, k)
  {
    var k := LeastKey(s);
  }

  lemma {:induction false} LeastKey(s: set<Key>) returns (least: Key)
    requires s != {}
    ensures IsLeast(s, least)
  {
    var k :| k in s;
    var rest := s - {k};
    if rest == {} {
      assert s == {k};
      least := k;
    } else {
      var m := LeastKey(rest);
      least := if k <= m then k else m;
      assert forall x :: x in s ==> x == k || x in rest;
    }
  }
}
