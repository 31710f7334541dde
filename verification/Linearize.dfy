/**
 * The Jacobian of a substitute factor (SubstituteFactor::unwhitenedError with its optional
 * output): linearization commutes with substitution.
 */
module Linearize {
  import opened Prelude
  import opened LinearAlgebra
  import opened Factors
  import opened Substitute

  /** The recover Jacobians of a manifold point fit the base blocks they are multiplied with. */
  ghost predicate RecoverFits(point: ManifoldValue, index: map<Key, nat>, baseH: seq<Matrix>, n: nat) {
    forall k :: k in point.values && k in index ==>
      && k in point.recover && index[k] < |baseH| && baseH[index[k]].rows == n
      && baseH[index[k]].cols == point.recover[k].rows && point.recover[k].cols == point.dim
  }

  // ---------------------------------------------------------------------------------------
  // One slot

  /** The accumulated block of a manifold variable: the first product starts it, the others add. */
  function SlotOver(keys: seq<Key>, point: ManifoldValue, index: map<Key, nat>, baseH: seq<Matrix>,
                    ghost n: nat): (h: Option<Matrix>)
    requires RecoverFits(point, index, baseH, n) && Elements(keys) <= point.values.Keys
    ensures h.Some? ==> h.value.rows == n && h.value.cols == point.dim
  {
    if keys == [] then None
    else
      var k := keys[|keys| - 1];
      assert k in Elements(keys);
      assert Elements(keys[..|keys| - 1]) <= Elements(keys);
      var acc := SlotOver(keys[..|keys| - 1], point, index, baseH, n);
      if k !in index then acc
      else
        var product := Multiply(baseH[index[k]], point.recover[k]);
        match acc case None => Some(product) case Some(h) => Some(MatrixPlus(h, product))
  }

  /** What each base variable on the manifold contributes to the error for manifold step `v`. */
  ghost function Contributions(keys: seq<Key>, point: ManifoldValue, index: map<Key, nat>, baseH: seq<Matrix>, n: nat,
                               v: Vector): (t: map<Key, Vector>)
    requires RecoverFits(point, index, baseH, n) && Elements(keys) <= point.values.Keys && |v| == point.dim
    ensures Uniform(t, n)
  {
    assert forall k :: k in keys ==> k in Elements(keys);
    map k | k in keys && k in index :: Apply(baseH[index[k]], Apply(point.recover[k], v))
  }

  /** The accumulated block applied to a step is the sum of the contributions. */
  lemma {:induction false} SlotSumsContributions(keys: seq<Key>, point: ManifoldValue, index: map<Key, nat>,
                                                 baseH: seq<Matrix>, n: nat, v: Vector)
    requires RecoverFits(point, index, baseH, n) && Elements(keys) <= point.values.Keys && |v| == point.dim
    requires NoDuplicates(keys)
    ensures var h := SlotOver(keys, point, index, baseH, n); var t := Contributions(keys, point, index, baseH, n, v);
      && (h.None? <==> t == map[])
      && (h.Some? ==> Apply(h.value, v) == Sum(t, n))
  {
    if keys != [] {
      var before, k := keys[..|keys| - 1], keys[|keys| - 1];
      assert keys == before + [k];
      assert k in Elements(keys) && Elements(before) <= Elements(keys);
      hide SlotOver, Contributions, RecoverFits, Uniform;
      SlotSumsContributions(before, point, index, baseH, n, v);
      if k in index {
        ExtendSlot(before, k, point, index, baseH, n, v);
      } else {
        SkipKey(before, k, point, index, baseH, n, v);
      }
    }
  }

  /** A variable the factor does not look at contributes nothing. */
  lemma SkipKey(before: seq<Key>, k: Key, point: ManifoldValue, index: map<Key, nat>, baseH: seq<Matrix>, n: nat,
                v: Vector)
    requires RecoverFits(point, index, baseH, n) && |v| == point.dim && k !in index
    requires Elements(before + [k]) <= point.values.Keys
    ensures Elements(before) <= point.values.Keys
    ensures SlotOver(before + [k], point, index, baseH, n) == SlotOver(before, point, index, baseH, n)
    ensures Contributions(before + [k], point, index, baseH, n, v) == Contributions(before, point, index, baseH, n, v)
  {
    assert Elements(before) <= Elements(before + [k]);
    assert (before + [k])[..|before|] == before;
    assert forall j :: j in before + [k] <==> j in before || j == k;
  }

  lemma ExtendSlot(before: seq<Key>, k: Key, point: ManifoldValue, index: map<Key, nat>, baseH: seq<Matrix>, n: nat,
                   v: Vector)
    requires RecoverFits(point, index, baseH, n) && |v| == point.dim
    requires Elements(before) <= point.values.Keys && k in point.values && k in index && k !in before
    requires Elements(before + [k]) <= point.values.Keys
    requires var h := SlotOver(before, point, index, baseH, n);
      var t := Contributions(before, point, index, baseH, n, v);
      (h.None? <==> t == map[]) && (h.Some? ==> Apply(h.value, v) == Sum(t, n))
    ensures var h := SlotOver(before + [k], point, index, baseH, n);
      var t := Contributions(before + [k], point, index, baseH, n, v);
      h.Some? && t != map[] && Apply(h.value, v) == Sum(t, n)
  {
    var t := Contributions(before, point, index, baseH, n, v);
    var product := Multiply(baseH[index[k]], point.recover[k]);
    var c := Apply(baseH[index[k]], Apply(point.recover[k], v));
    ApplyMultiply(baseH[index[k]], point.recover[k], v);
    assert (before + [k])[..|before|] == before;
    assert Contributions(before + [k], point, index, baseH, n, v) == t[k := c];
    SumAdd(t, n, k, c);
    match SlotOver(before, point, index, baseH, n) {
      case None =>
        PlusZero(c);
      case Some(h) =>
        ApplyMatrixPlus(h, product, v);
        PlusCommutes(Apply(h, v), c);
    }
  }

  lemma PlusCommutes(a: Vector, b: Vector)
    requires |a| == |b|
    ensures Plus(a, b) == Plus(b, a)
  {
  }

  /** The loop over one manifold variable's base keys. `None` means the block is never written. */
  method ManifoldSlot(point: ManifoldValue, index: map<Key, nat>, baseH: seq<Matrix>, ghost n: nat)
    returns (h: Option<Matrix>)
    requires RecoverFits(point, index, baseH, n)
    ensures h == SlotOver(SortedKeys(point.values.Keys), point, index, baseH, n)
  {
    var keys := SortedKeys(point.values.Keys);
    h := None;
    for i := 0 to |keys|
      invariant Elements(keys[..i]) <= point.values.Keys
      invariant h == SlotOver(keys[..i], point, index, baseH, n)
    {
      PrefixElements(keys, i);
      assert keys[i] in Elements(keys);
      assert keys[..i + 1][..i] == keys[..i];
      var k := keys[i];
      if k in index {
        var product := Multiply(baseH[index[k]], point.recover[k]);
        match h {
          case None => h := Some(product);
          case Some(m) => h := Some(MatrixPlus(m, product));
        }
      }
    }
    assert keys[..|keys|] == keys;
  }

  // ---------------------------------------------------------------------------------------
  // Sums regrouped by owner

  ghost function Select(t: map<Key, Vector>, keys: set<Key>): map<Key, Vector> {
    map k | k in t && k in keys :: t[k]
  }

  /** The keys owned by some of the given slots. */
  ghost function OwnedBy(owner: map<Key, Key>, slots: set<Key>): set<Key> {
    set k | k in owner && owner[k] in slots
  }

  ghost function SumSeq(vs: seq<Vector>, n: nat): (v: Vector)
    requires forall i :: 0 <= i < |vs| ==> |vs[i]| == n
    ensures |v| == n
  {
    if vs == [] then Zero(n) else Plus(SumSeq(vs[..|vs| - 1], n), vs[|vs| - 1])
  }

  /** Value `v` is the sum of the terms that slot `key` owns. */
  ghost predicate SumsOwned(t: map<Key, Vector>, owner: map<Key, Key>, key: Key, v: Vector, n: nat)
    requires Uniform(t, n)
  {
    v == Sum(Select(t, OwnedBy(owner, {key})), n)
  }

  lemma JoinOwned(t: map<Key, Vector>, owner: map<Key, Key>, slots: set<Key>, key: Key, n: nat)
    requires Uniform(t, n) && key !in slots
    ensures Sum(Select(t, OwnedBy(owner, slots + {key})), n)
         == Plus(Sum(Select(t, OwnedBy(owner, slots)), n), Sum(Select(t, OwnedBy(owner, {key})), n))
  {
    var a, b := Select(t, OwnedBy(owner, slots)), Select(t, OwnedBy(owner, {key}));
    assert a.Keys !! b.Keys;
    assert Select(t, OwnedBy(owner, slots + {key})) == a + b;
    SumUnion(a, b, n);
  }

  lemma {:induction false} SlotsSumOwnedTerms(t: map<Key, Vector>, owner: map<Key, Key>, slots: seq<Key>,
                                              vs: seq<Vector>, n: nat)
    requires Uniform(t, n) && |vs| == |slots| && NoDuplicates(slots)
    requires forall i :: 0 <= i < |vs| ==> |vs[i]| == n && SumsOwned(t, owner, slots[i], vs[i], n)
    ensures SumSeq(vs, n) == Sum(Select(t, OwnedBy(owner, Elements(slots))), n)
  {
    if vs == [] {
      assert Select(t, OwnedBy(owner, Elements(slots))) == map[];
    } else {
      var last := |vs| - 1;
      SlotsSumOwnedTerms(t, owner, slots[..last], vs[..last], n);
      PrefixElements(slots, last);
      assert slots[..last + 1] == slots;
      assert SumsOwned(t, owner, slots[last], vs[last], n);
      JoinOwned(t, owner, Elements(slots[..last]), slots[last], n);
    }
  }

  /** Regrouping: when every term without an owner is zero, the slots sum up to all terms. */
  lemma SlotsSumAllTerms(t: map<Key, Vector>, owner: map<Key, Key>, slots: seq<Key>, vs: seq<Vector>, n: nat)
    requires Uniform(t, n) && |vs| == |slots| && NoDuplicates(slots)
    requires forall i :: 0 <= i < |vs| ==> |vs[i]| == n && SumsOwned(t, owner, slots[i], vs[i], n)
    requires forall k :: k in t && k in owner ==> owner[k] in Elements(slots)
    requires forall k :: k in t && k !in owner ==> t[k] == Zero(n)
    ensures SumSeq(vs, n) == Sum(t, n)
  {
    SlotsSumOwnedTerms(t, owner, slots, vs, n);
    var ownedKeys := OwnedBy(owner, Elements(slots));
    forall k | k in t && k !in ownedKeys ensures t[k] == Zero(n) {
      assert k !in owner;
    }
    ZeroTermsDoNotCount(t, ownedKeys, n);
  }

  lemma ZeroTermsDoNotCount(t: map<Key, Vector>, keys: set<Key>, n: nat)
    requires Uniform(t, n) && forall k :: k in t && k !in keys ==> t[k] == Zero(n)
    ensures Sum(Select(t, keys), n) == Sum(t, n)
  {
    var kept, rest := Select(t, keys), Select(t, t.Keys - keys);
    assert t == kept + rest;
    SumOfZeros(rest, n);
    SumUnion(kept, rest, n);
    PlusZero(Sum(kept, n));
  }

  // ---------------------------------------------------------------------------------------
  // All slots

  /** The factor, the assignment and the Jacobian blocks belong together. */
  ghost predicate Matches(s: SubstituteFactor, x: MixedValues, baseH: seq<Matrix>, n: nat) {
    && Consistent(s) && Suits(s, x)
    && s.baseKeyIndex == IndexOf(s.base.keys)
    && |baseH| == |s.base.keys| && (forall i :: 0 <= i < |baseH| ==> baseH[i].rows == n)
    && (forall m :: m in s.manifoldKeys ==> RecoverFits(x[m].point, s.baseKeyIndex, baseH, n))
    && (forall key :: key in s.keys ==> key in s.unconstrainedKeys || key in s.manifoldKeys)
  }

  /** The block of the slot for a new key. */
  ghost function SlotBlock(s: SubstituteFactor, x: MixedValues, baseH: seq<Matrix>, n: nat, key: Key): Option<Matrix>
    requires Matches(s, x, baseH, n) && key in s.keys
  {
    if key in s.unconstrainedKeys then Some(baseH[s.baseKeyIndex[key]])
    else SlotOver(SortedKeys(x[key].point.values.Keys), x[key].point, s.baseKeyIndex, baseH, n)
  }

  /** The blocks that were written to the slots. */
  ghost predicate AreSlots(s: SubstituteFactor, x: MixedValues, baseH: seq<Matrix>, n: nat, h: seq<Matrix>)
    requires Matches(s, x, baseH, n)
  {
    |h| == |s.keys| && forall i :: 0 <= i < |h| ==> SlotBlock(s, x, baseH, n, s.keys[i]) == Some(h[i])
  }

  /** Every slot's block fits the step it is applied to. */
  ghost predicate SlotsFit(s: SubstituteFactor, h: seq<Matrix>, n: nat, d: map<Key, Vector>) {
    |h| == |s.keys| && forall i :: 0 <= i < |h| ==> h[i].rows == n && s.keys[i] in d && |d[s.keys[i]]| == h[i].cols
  }

  /** Fills the Jacobian slots of the new factor. */
  method ComputeSlots(s: SubstituteFactor, x: MixedValues, baseH: seq<Matrix>, ghost n: nat)
    returns (h: seq<Option<Matrix>>)
    requires Matches(s, x, baseH, n)
    ensures |h| == |s.keys| && forall i :: 0 <= i < |h| ==> h[i] == SlotBlock(s, x, baseH, n, s.keys[i])
  {
    h := [];
    for i := 0 to |s.keys|
      invariant |h| == i
      invariant forall j :: 0 <= j < i ==> h[j] == SlotBlock(s, x, baseH, n, s.keys[j])
    {
      var block := ComputeSlot(s, x, baseH, n, s.keys[i]);
      h := h + [block];
    }
  }

  method ComputeSlot(s: SubstituteFactor, x: MixedValues, baseH: seq<Matrix>, ghost n: nat, key: Key)
    returns (h: Option<Matrix>)
    requires Matches(s, x, baseH, n) && key in s.keys
    ensures h == SlotBlock(s, x, baseH, n, key)
  {
    if key in s.unconstrainedKeys {
      h := Some(baseH[s.baseKeyIndex[key]]);
    } else {
      h := ManifoldSlot(x[key].point, s.baseKeyIndex, baseH, n);
    }
  }

  /** A step of the new variables has a vector of the right dimension for each of them. */
  ghost predicate StepFits(s: SubstituteFactor, x: MixedValues, baseH: seq<Matrix>, n: nat, d: map<Key, Vector>)
    requires Matches(s, x, baseH, n)
  {
    && (forall k :: k in s.unconstrainedKeys ==> k in d && |d[k]| == baseH[s.baseKeyIndex[k]].cols)
    && (forall m :: m in s.manifoldKeys ==> m in d && |d[m]| == x[m].point.dim)
  }

  /** The base step that a step of the new variables stands for, at one base variable. */
  ghost function Lifted(s: SubstituteFactor, x: MixedValues, baseH: seq<Matrix>, n: nat, d: map<Key, Vector>,
                        k: Key): (v: Vector)
    requires Matches(s, x, baseH, n) && StepFits(s, x, baseH, n, d) && k in s.base.keys
    ensures |v| == baseH[s.baseKeyIndex[k]].cols
  {
    if k in s.fixedValues then Zero(baseH[s.baseKeyIndex[k]].cols)
    else if k in s.unconstrainedKeys then d[k]
    else
      var m := s.replacement[k];
      assert k in x[m].point.values;
      Apply(x[m].point.recover[k], d[m])
  }

  /** The base Jacobian applied to the lifted step, term by term. */
  ghost function BaseTerms(s: SubstituteFactor, x: MixedValues, baseH: seq<Matrix>, n: nat,
                           d: map<Key, Vector>): (t: map<Key, Vector>)
    requires Matches(s, x, baseH, n) && StepFits(s, x, baseH, n, d)
    ensures Uniform(t, n)
  {
    map k | k in s.base.keys :: Apply(baseH[s.baseKeyIndex[k]], Lifted(s, x, baseH, n, d, k))
  }

  /** The new variable that each movable base variable hangs on. */
  ghost function OwnerOf(s: SubstituteFactor): map<Key, Key>
    requires Consistent(s)
  {
    map k | k in s.base.keys && k !in s.fixedValues :: if k in s.unconstrainedKeys then k else s.replacement[k]
  }

  lemma PlainSlot(s: SubstituteFactor, x: MixedValues, baseH: seq<Matrix>, n: nat, d: map<Key, Vector>, key: Key)
    requires Matches(s, x, baseH, n) && StepFits(s, x, baseH, n, d) && key in s.keys && key in s.unconstrainedKeys
    ensures |d[key]| == baseH[s.baseKeyIndex[key]].cols
    ensures SumsOwned(BaseTerms(s, x, baseH, n, d), OwnerOf(s), key, Apply(baseH[s.baseKeyIndex[key]], d[key]), n)
  {
    PlainOwnsItself(s, key);
    assert BaseTerms(s, x, baseH, n, d)[key] == Apply(baseH[s.baseKeyIndex[key]], d[key]) by {
      PlainIsItself(s, x, baseH, n, d, key);
    }
    SelectOne(BaseTerms(s, x, baseH, n, d), key, n);
  }

  lemma PlainIsItself(s: SubstituteFactor, x: MixedValues, baseH: seq<Matrix>, n: nat, d: map<Key, Vector>, key: Key)
    requires Matches(s, x, baseH, n) && StepFits(s, x, baseH, n, d) && key in s.base.keys && key in s.unconstrainedKeys
    ensures Lifted(s, x, baseH, n, d, key) == d[key]
  {
  }

  lemma SelectOne(t: map<Key, Vector>, key: Key, n: nat)
    requires Uniform(t, n) && key in t
    ensures Sum(Select(t, {key}), n) == t[key]
  {
    assert Select(t, {key}) == map[key := t[key]];
    SumSingle(key, t[key]);
  }

  lemma PlainOwnsItself(s: SubstituteFactor, key: Key)
    requires Consistent(s) && key in s.unconstrainedKeys
    ensures key in s.base.keys && OwnedBy(OwnerOf(s), {key}) == {key}
  {
    forall k | k in OwnerOf(s) && k !in s.unconstrainedKeys ensures OwnerOf(s)[k] != key {
      assert OwnerOf(s)[k] in s.manifoldKeys;
    }
  }

  /** The terms owned by a manifold variable are its contributions. */
  lemma OwnedAreContributions(s: SubstituteFactor, x: MixedValues, baseH: seq<Matrix>, n: nat, d: map<Key, Vector>,
                              m: Key)
    requires Matches(s, x, baseH, n) && StepFits(s, x, baseH, n, d) && m in s.manifoldKeys
    ensures RecoverFits(x[m].point, s.baseKeyIndex, baseH, n)
    ensures Contributions(SortedKeys(x[m].point.values.Keys), x[m].point, s.baseKeyIndex, baseH, n, d[m])
         == Select(BaseTerms(s, x, baseH, n, d), OwnedBy(OwnerOf(s), {m}))
  {
    var keys := SortedKeys(x[m].point.values.Keys);
    var c := Contributions(keys, x[m].point, s.baseKeyIndex, baseH, n, d[m]);
    var owned := OwnedBy(OwnerOf(s), {m});
    forall k ensures k in c <==> k in owned {
      SameKeys(s, x, m, k);
    }
    forall k | k in c ensures k in s.base.keys && c[k] == BaseTerms(s, x, baseH, n, d)[k] {
      SameKeys(s, x, m, k);
      SameContribution(s, x, baseH, n, d, m, k);
    }
    SelectIs(c, BaseTerms(s, x, baseH, n, d), owned);
  }

  lemma SelectIs(c: map<Key, Vector>, t: map<Key, Vector>, owned: set<Key>)
    requires forall k :: k in c <==> k in owned
    requires forall k :: k in c ==> k in t && c[k] == t[k]
    ensures c == Select(t, owned)
  {
  }

  lemma SameKeys(s: SubstituteFactor, x: MixedValues, m: Key, k: Key)
    requires Consistent(s) && Suits(s, x) && s.baseKeyIndex == IndexOf(s.base.keys) && m in s.manifoldKeys
    ensures k in SortedKeys(x[m].point.values.Keys) && k in s.baseKeyIndex <==> k in OwnedBy(OwnerOf(s), {m})
  {
    hide SortedKeys, OwnerOf, OwnedBy, Consistent;
    assert k in SortedKeys(x[m].point.values.Keys) <==> k in Elements(SortedKeys(x[m].point.values.Keys));
    OwnedIff(s, m, k);
  }

  lemma OwnedIff(s: SubstituteFactor, m: Key, k: Key)
    requires Consistent(s) && m in s.manifoldKeys
    ensures k in OwnedBy(OwnerOf(s), {m}) <==> k in s.base.keys && k in s.replacement && s.replacement[k] == m
  {
  }

  lemma SameContribution(s: SubstituteFactor, x: MixedValues, baseH: seq<Matrix>, n: nat, d: map<Key, Vector>, m: Key,
                         k: Key)
    requires Matches(s, x, baseH, n) && StepFits(s, x, baseH, n, d) && m in s.manifoldKeys
    requires k in OwnedBy(OwnerOf(s), {m})
    ensures RecoverFits(x[m].point, s.baseKeyIndex, baseH, n) && k in x[m].point.values && k in s.baseKeyIndex
    ensures k in s.base.keys && Lifted(s, x, baseH, n, d, k) == Apply(x[m].point.recover[k], d[m])
  {
  }

  /** Every slot is written: a manifold variable is a new key only because some base key needs it. */
  lemma ManifoldSlotIsWritten(s: SubstituteFactor, x: MixedValues, baseH: seq<Matrix>, n: nat, d: map<Key, Vector>,
                              m: Key)
    requires Matches(s, x, baseH, n) && StepFits(s, x, baseH, n, d) && m in s.keys && m in s.manifoldKeys
    requires exists k :: k in s.base.keys && k in s.replacement && s.replacement[k] == m
    ensures var h := SlotBlock(s, x, baseH, n, m);
      && h.Some? && h.value.rows == n && h.value.cols == |d[m]|
      && SumsOwned(BaseTerms(s, x, baseH, n, d), OwnerOf(s), m, Apply(h.value, d[m]), n)
  {
    var k :| k in s.base.keys && k in s.replacement && s.replacement[k] == m;
    var point := x[m].point;
    var keys := SortedKeys(point.values.Keys);
    SortedKeysAscend(point.values.Keys);
    SlotSumsContributions(keys, point, s.baseKeyIndex, baseH, n, d[m]);
    assert k in Elements(keys);
    assert k in Contributions(keys, point, s.baseKeyIndex, baseH, n, d[m]);
    OwnedAreContributions(s, x, baseH, n, d, m);
  }

  /** What the Jacobian slots make of a step: one vector per slot. */
  ghost function SlotActions(s: SubstituteFactor, h: seq<Matrix>, n: nat, d: map<Key, Vector>): seq<Vector>
    requires SlotsFit(s, h, n, d)
  {
    seq(|h|, i requires 0 <= i < |h| => Apply(h[i], d[s.keys[i]]))
  }

  /** Each manifold variable replaces some base key. */
  ghost predicate ManifoldsNeeded(s: SubstituteFactor) {
    forall m :: m in s.manifoldKeys ==> exists k :: k in s.base.keys && k in s.replacement && s.replacement[k] == m
  }

  lemma SlotIsWritten(s: SubstituteFactor, x: MixedValues, baseH: seq<Matrix>, n: nat, d: map<Key, Vector>, key: Key)
    requires Matches(s, x, baseH, n) && StepFits(s, x, baseH, n, d) && key in s.keys && ManifoldsNeeded(s)
    ensures var h := SlotBlock(s, x, baseH, n, key);
      && h.Some? && key in d && h.value.rows == n && h.value.cols == |d[key]|
      && SumsOwned(BaseTerms(s, x, baseH, n, d), OwnerOf(s), key, Apply(h.value, d[key]), n)
  {
    if key in s.unconstrainedKeys {
      PlainSlot(s, x, baseH, n, d, key);
    } else {
      ManifoldSlotIsWritten(s, x, baseH, n, d, key);
    }
  }

  /**
   * Linearization commutes with substitution: the new Jacobian applied to any step of the new
   * variables is the base Jacobian applied to the lifted step (the manifold step pushed through
   * the recover Jacobians, free steps as they are, zero on fixed variables). Every slot is written.
   */
  lemma LinearizationCommutes(s: SubstituteFactor, x: MixedValues, baseH: seq<Matrix>, n: nat, d: map<Key, Vector>,
                              h: seq<Matrix>)
    requires Matches(s, x, baseH, n) && StepFits(s, x, baseH, n, d) && ManifoldsNeeded(s)
    requires NoDuplicates(s.keys) && s.unconstrainedKeys + s.manifoldKeys == Elements(s.keys)
    requires AreSlots(s, x, baseH, n, h)
    ensures SlotsFit(s, h, n, d)
    ensures SumSeq(SlotActions(s, h, n, d), n) == Sum(BaseTerms(s, x, baseH, n, d), n)
  {
    var t, owner := BaseTerms(s, x, baseH, n, d), OwnerOf(s);
    forall i | 0 <= i < |h|
      ensures h[i].rows == n && s.keys[i] in d && |d[s.keys[i]]| == h[i].cols
      ensures SumsOwned(t, owner, s.keys[i], Apply(h[i], d[s.keys[i]]), n)
    {
      SlotIsWritten(s, x, baseH, n, d, s.keys[i]);
    }
    OwnersAndZeros(s, x, baseH, n, d);
    SlotsSumAllTerms(t, owner, s.keys, SlotActions(s, h, n, d), n);
  }

  lemma OwnersAndZeros(s: SubstituteFactor, x: MixedValues, baseH: seq<Matrix>, n: nat, d: map<Key, Vector>)
    requires Matches(s, x, baseH, n) && StepFits(s, x, baseH, n, d)
    ensures forall k :: k in OwnerOf(s) ==> OwnerOf(s)[k] in s.unconstrainedKeys + s.manifoldKeys
    ensures var t := BaseTerms(s, x, baseH, n, d); forall k :: k in t && k !in OwnerOf(s) ==> t[k] == Zero(n)
  {
    var t := BaseTerms(s, x, baseH, n, d);
    forall k | k in t && k !in OwnerOf(s) ensures t[k] == Zero(n) {
      ApplyToZero(baseH[s.baseKeyIndex[k]]);
    }
  }

  // ---------------------------------------------------------------------------------------
  // Constructed factors

  /** No manifold variable that the factor needs carries the name of one of its plain keys. */
  ghost predicate NamesApart(base: Factor, replacement: map<Key, Key>, fixed: Manifolds) {
    UnconstrainedKeysOf(base.keys, replacement) !! ManifoldKeysOf(base.keys, replacement, fixed.Keys)
  }

  lemma ConstructedIsConsistent(base: Factor, replacement: map<Key, Key>, fixed: Manifolds)
    requires FixedKeysRecoverable(base.keys, replacement, fixed) && NamesApart(base, replacement, fixed)
    requires NewKeys(base.keys, replacement, fixed.Keys) != []
    ensures Consistent(Substituted(base, replacement, fixed))
  {
    var s := Substituted(base, replacement, fixed);
    assert forall m :: m in s.manifoldKeys ==> m !in fixed;
  }

  /** Each manifold key of a constructed factor replaces a base key; its keys are distinct if the base keys are. */
  lemma ConstructedKeys(base: Factor, replacement: map<Key, Key>, fixed: Manifolds)
    requires NamesApart(base, replacement, fixed) && NewKeys(base.keys, replacement, fixed.Keys) != []
    ensures var s := Substituted(base, replacement, fixed);
      && (NoDuplicates(base.keys) ==> NoDuplicates(s.keys))
      && Elements(s.keys) == s.unconstrainedKeys + s.manifoldKeys && ManifoldsNeeded(s)
  {
    if NoDuplicates(base.keys) {
      NewKeysAreDistinct(base.keys, replacement, fixed.Keys);
    }
    NewKeysAreTheVariables(base.keys, replacement, fixed.Keys);
  }

  /** The base Jacobian blocks applied to the lifted step, in the order of the base factor's keys. */
  ghost function BaseActions(s: SubstituteFactor, x: MixedValues, baseH: seq<Matrix>, n: nat,
                             d: map<Key, Vector>): (vs: seq<Vector>)
    requires Matches(s, x, baseH, n) && StepFits(s, x, baseH, n, d) && NoDuplicates(s.base.keys)
    ensures |vs| == |baseH| && forall i :: 0 <= i < |vs| ==> |vs[i]| == n
  {
    seq(|baseH|, i requires 0 <= i < |baseH| => BaseAction(s, x, baseH, n, d, i))
  }

  ghost function BaseAction(s: SubstituteFactor, x: MixedValues, baseH: seq<Matrix>, n: nat, d: map<Key, Vector>,
                            i: nat): (v: Vector)
    requires Matches(s, x, baseH, n) && StepFits(s, x, baseH, n, d) && NoDuplicates(s.base.keys) && i < |baseH|
    ensures |v| == n
  {
    IndexIsPosition(s.base.keys, i);
    Apply(baseH[i], Lifted(s, x, baseH, n, d, s.base.keys[i]))
  }

  lemma IndexIsPosition(keys: seq<Key>, i: nat)
    requires NoDuplicates(keys) && i < |keys|
    ensures keys[i] in IndexOf(keys) && IndexOf(keys)[keys[i]] == i
  {
    assert keys[i] in keys;
  }

  /** Summed in order or over the key set, the base terms are the same. */
  lemma BaseTermsInOrder(s: SubstituteFactor, x: MixedValues, baseH: seq<Matrix>, n: nat, d: map<Key, Vector>)
    requires Matches(s, x, baseH, n) && StepFits(s, x, baseH, n, d) && NoDuplicates(s.base.keys)
    ensures SumSeq(BaseActions(s, x, baseH, n, d), n) == Sum(BaseTerms(s, x, baseH, n, d), n)
  {
    var t, vs := BaseTerms(s, x, baseH, n, d), BaseActions(s, x, baseH, n, d);
    var itself := map k | k in s.base.keys :: k;
    forall i | 0 <= i < |vs| ensures SumsOwned(t, itself, s.base.keys[i], vs[i], n) {
      assert s.base.keys[i] in s.base.keys;
      BaseActionIsTerm(s, x, baseH, n, d, i);
      OwnsItself(t, itself, s.base.keys[i], n);
    }
    SlotsSumAllTerms(t, itself, s.base.keys, vs, n);
  }

  lemma BaseActionIsTerm(s: SubstituteFactor, x: MixedValues, baseH: seq<Matrix>, n: nat, d: map<Key, Vector>, i: nat)
    requires Matches(s, x, baseH, n) && StepFits(s, x, baseH, n, d) && NoDuplicates(s.base.keys) && i < |baseH|
    ensures s.base.keys[i] in BaseTerms(s, x, baseH, n, d)
    ensures BaseAction(s, x, baseH, n, d, i) == BaseTerms(s, x, baseH, n, d)[s.base.keys[i]]
  {
    IndexIsPosition(s.base.keys, i);
  }

  lemma OwnsItself(t: map<Key, Vector>, itself: map<Key, Key>, k: Key, n: nat)
    requires Uniform(t, n) && k in t && k in itself && forall j :: j in itself ==> itself[j] == j
    ensures SumsOwned(t, itself, k, t[k], n)
  {
    assert OwnedBy(itself, {k}) == {k};
    SelectOne(t, k, n);
  }

  /**
   * A constructed factor fits every suitable assignment and every base Jacobian with one block
   * per key, `n` rows, and recover Jacobians to match.
   */
  lemma ConstructedMatches(base: Factor, replacement: map<Key, Key>, fixed: Manifolds, x: MixedValues,
                           baseH: seq<Matrix>, n: nat)
    requires FixedKeysRecoverable(base.keys, replacement, fixed) && NamesApart(base, replacement, fixed)
    requires NewKeys(base.keys, replacement, fixed.Keys) != []
    requires Suits(Substituted(base, replacement, fixed), x)
    requires |baseH| == |base.keys| && forall i :: 0 <= i < |baseH| ==> baseH[i].rows == n
    requires forall m :: m in ManifoldKeysOf(base.keys, replacement, fixed.Keys) ==>
      RecoverFits(x[m].point, IndexOf(base.keys), baseH, n)
    ensures Matches(Substituted(base, replacement, fixed), x, baseH, n)
  {
    var s := Substituted(base, replacement, fixed);
    ConstructedIsConsistent(base, replacement, fixed);
    NewKeysAreTheVariables(base.keys, replacement, fixed.Keys);
    forall key | key in s.keys ensures key in s.unconstrainedKeys || key in s.manifoldKeys {
      assert key in Elements(s.keys);
    }
  }

  /**
   * For every factor as constructed: all slots are written, and together they act on a step as
   * the base factor's blocks act, in order, on the lifted step.
   */
  lemma ConstructedFactorLinearizes(base: Factor, replacement: map<Key, Key>, fixed: Manifolds, s: SubstituteFactor,
                                    x: MixedValues, baseH: seq<Matrix>, n: nat, d: map<Key, Vector>, h: seq<Matrix>)
    requires s == Substituted(base, replacement, fixed) && s.keys != []
    requires NoDuplicates(s.base.keys) && NamesApart(base, replacement, fixed)
    requires Matches(s, x, baseH, n) && StepFits(s, x, baseH, n, d)
    requires AreSlots(s, x, baseH, n, h)
    ensures SlotsFit(s, h, n, d)
    ensures SumSeq(SlotActions(s, h, n, d), n) == SumSeq(BaseActions(s, x, baseH, n, d), n)
  {
    ConstructedKeys(base, replacement, fixed);
    LinearizationCommutes(s, x, baseH, n, d, h);
    BaseTermsInOrder(s, x, baseH, n, d);
  }

  /** A manifold variable's block is written exactly if the factor looks at one of its variables. */
  lemma {:induction false} SlotWrittenIff(keys: seq<Key>, point: ManifoldValue, index: map<Key, nat>,
                                          baseH: seq<Matrix>, n: nat)
    requires RecoverFits(point, index, baseH, n) && Elements(keys) <= point.values.Keys
    ensures SlotOver(keys, point, index, baseH, n).Some? <==> exists k :: k in keys && k in index
  {
    if keys != [] {
      var before, k := keys[..|keys| - 1], keys[|keys| - 1];
      assert keys == before + [k];
      assert k in Elements(keys) && Elements(before) <= Elements(keys);
      SlotWrittenIff(before, point, index, baseH, n);
      assert forall j :: j in keys <==> j in before || j == k;
    }
  }

  /** Every slot of a constructed factor is written. */
  lemma ConstructedSlotsAreWritten(base: Factor, replacement: map<Key, Key>, fixed: Manifolds, s: SubstituteFactor,
                                   x: MixedValues, baseH: seq<Matrix>, n: nat, key: Key)
    requires s == Substituted(base, replacement, fixed) && key in s.keys
    requires NamesApart(base, replacement, fixed)
    requires Matches(s, x, baseH, n)
    ensures SlotBlock(s, x, baseH, n, key).Some?
  {
    ConstructedKeys(base, replacement, fixed);
    if key !in s.unconstrainedKeys {
      var keys := SortedKeys(x[key].point.values.Keys);
      SlotWrittenIff(keys, x[key].point, s.baseKeyIndex, baseH, n);
      var k :| k in s.base.keys && k in s.replacement && s.replacement[k] == key;
      assert k in Elements(keys);
    }
  }

  /** The slots as blocks, once all are known to be written. */
  method WrittenBlocks(slots: seq<Option<Matrix>>) returns (h: seq<Matrix>)
    requires forall i :: 0 <= i < |slots| ==> slots[i].Some?
    ensures |h| == |slots| && forall i :: 0 <= i < |h| ==> slots[i] == Some(h[i])
  {
    h := [];
    for i := 0 to |slots|
      invariant |h| == i && forall j :: 0 <= j < i ==> slots[j] == Some(h[j])
    {
      h := h + [slots[i].value];
    }
  }

  /**
   * Evaluation with Jacobians, of a factor as constructed: the error and the slots are those of the
   * base factor at the rebuilt assignment, and every slot is written.
   */
  method ErrorAndSlots(base: Factor, replacement: map<Key, Key>, fixed: Manifolds, s: SubstituteFactor,
                       x: MixedValues, ghost n: nat)
    returns (r: Result<(Vector, seq<Matrix>)>)
    requires s == Substituted(base, replacement, fixed) && s.keys != [] && NamesApart(base, replacement, fixed)
    requires Suits(s, x) && Consistent(s) && Matches(s, x, s.base.jacobians(BaseAssignment(s, x)), n)
    ensures r.Ok? <==> MovedKeysDistinct(s)
    ensures r.Ok? ==> r.value.0 == s.base.unwhitened(BaseAssignment(s, x))
    ensures r.Ok? ==> AreSlots(s, x, s.base.jacobians(BaseAssignment(s, x)), n, r.value.1)
  {
    hide SlotBlock, Matches, Substituted, BaseAssignment, Suits, Consistent, NamesApart, MovedKeysDistinct;
    var all := Rebuild(s, x);
    if all.Err? {
      return Err(all.error);
    }
    var baseH := s.base.jacobians(all.value);
    var slots := ComputeSlots(s, x, baseH, n);
    forall i | 0 <= i < |slots| ensures slots[i].Some? {
      ConstructedSlotsAreWritten(base, replacement, fixed, s, x, baseH, n, s.keys[i]);
    }
    var h := WrittenBlocks(slots);
    r := Ok((s.base.unwhitened(all.value), h));
  }
}
