/** Sequence helpers shared by the engine: first-appearance de-duplication
    (what `Array.from(new Set(xs))` and the key order of a JavaScript record give)
    and record lookups with the two JavaScript defaulting operators. */
module Seqs {

  /** A value that may be absent (`undefined` in the source). */
  datatype Option<T> = None | Some(value: T)

  predicate NoDuplicates<T(==)>(s: seq<T>) {
    forall i, j :: 0 <= i < j < |s| ==> s[i] != s[j]
  }

  /** The distinct elements of s, each at the position of its first appearance. */
  function Distinct<T(==)>(s: seq<T>): (r: seq<T>)
    ensures NoDuplicates(r)
    ensures forall i :: 0 <= i < |s| ==> s[i] in r
    ensures forall i :: 0 <= i < |r| ==> r[i] in s
    ensures |r| <= |s|
  {
    if s == [] then []
    else
      var p := Distinct(s[..|s| - 1]);
      if s[|s| - 1] in p then p else p + [s[|s| - 1]]
  }

  /** Distinct leaves a duplicate-free sequence as it is. */
  lemma {:induction false} DistinctOfDistinct<T>(s: seq<T>)
    requires NoDuplicates(s)
    ensures Distinct(s) == s
  {
    if s != [] {
      var init := s[..|s| - 1];
      DistinctOfDistinct(init);
      assert s[|s| - 1] !in init;
      assert init + [s[|s| - 1]] == s;
    }
  }

  /** a occurs in s at a position up to which b has not occurred. */
  ghost predicate FirstBefore<T>(s: seq<T>, a: T, b: T) {
    exists k :: 0 <= k < |s| && s[k] == a && b !in s[..k + 1]
  }

  /** Distinct keeps first-appearance order: an element listed before another first appears in s
      before the other does. */
  lemma {:induction false} DistinctInFirstAppearanceOrder<T>(s: seq<T>)
    ensures forall i, j :: 0 <= i < j < |Distinct(s)| ==> FirstBefore(s, Distinct(s)[i], Distinct(s)[j])
  {
    if s == [] {
      assert |Distinct(s)| == 0;
    } else {
      var init := s[..|s| - 1];
      var x := s[|s| - 1];
      DistinctInFirstAppearanceOrder(init);
      var p := Distinct(init);
      var r := Distinct(s);
      assert r == if x in p then p else p + [x];
      forall i, j | 0 <= i < j < |r|
        ensures FirstBefore(s, r[i], r[j])
      {
        assert FirstBefore(init, p[i], if j < |p| then p[j] else x) by {
          if j >= |p| {
            assert x !in init;
            var k :| 0 <= k < |init| && init[k] == p[i];
            assert x !in init[..k + 1];
          }
        }
        var k :| 0 <= k < |init| && init[k] == r[i] && r[j] !in init[..k + 1];
        assert s[..k + 1] == init[..k + 1];
        assert s[k] == init[k];
      }
    }
  }

  /** One more element is appended to the distinct elements exactly when it is new. */
  lemma DistinctStep<T>(s: seq<T>, x: T)
    ensures Distinct(s + [x]) == if x in Distinct(s) then Distinct(s) else Distinct(s) + [x]
  {
    assert (s + [x])[..|s|] == s;
  }

  /** `m[k] ?? d`: the stored value, or d when the key is absent. */
  function GetOr<K, V>(m: map<K, V>, k: K, d: V): (r: V)
    ensures k in m ==> r == m[k]
    ensures k !in m ==> r == d
  {
    if k in m then m[k] else d
  }

  /** `m[k] || d` on a number record: d when the key is absent or holds 0. */
  function IntOr<K>(m: map<K, int>, k: K, d: int): (r: int)
    ensures k in m && m[k] != 0 ==> r == m[k]
    ensures k !in m || m[k] == 0 ==> r == d
  {
    if k in m && m[k] != 0 then m[k] else d
  }

  /** `m[k] || d` on a record of reals. */
  function RealOr<K>(m: map<K, real>, k: K, d: real): (r: real)
    ensures k in m && m[k] != 0.0 ==> r == m[k]
    ensures k !in m || m[k] == 0.0 ==> r == d
  {
    if k in m && m[k] != 0.0 then m[k] else d
  }

  /** Sum of `m[k] || 0` over the keys ks. */
  function SumOver<K>(ks: seq<K>, m: map<K, int>): int {
    if ks == [] then 0 else SumOver(ks[..|ks| - 1], m) + IntOr(m, ks[|ks| - 1], 0)
  }

  /** Every entry is non-negative, so the sum is. */
  lemma {:induction false} SumOverNonNegative<K>(ks: seq<K>, m: map<K, int>)
    requires forall k :: k in m ==> m[k] >= 0
    ensures SumOver(ks, m) >= 0
  {
    if ks != [] {
      SumOverNonNegative(ks[..|ks| - 1], m);
    }
  }

  /** The sum of all values of a record (`Object.values(m).reduce((a, b) => a + b, 0)`); the
      order in which the keys are taken does not matter (SumValuesRemove). */
  ghost function SumValues<K>(m: map<K, int>): int
    decreases |m|
  {
    if m == map[] then 0
    else
      var k :| k in m;
      m[k] + SumValues(m - {k})
  }

  /** Any key may be taken first. */
  lemma {:induction false} SumValuesRemove<K>(m: map<K, int>, k: K)
    requires k in m
    ensures SumValues(m) == m[k] + SumValues(m - {k})
    decreases |m|
  {
    var k' :| k' in m && SumValues(m) == m[k'] + SumValues(m - {k'});
    if k' != k {
      var mk := m - {k};
      var mk' := m - {k'};
      SumValuesRemove(mk', k);
      SumValuesRemove(mk, k');
      assert mk' - {k} == mk - {k'};
    }
  }

  /** Summing a record's values over a duplicate-free list of exactly its keys gives the sum of
      all its values. */
  lemma {:induction false} SumOverAllKeys<K>(ks: seq<K>, m: map<K, int>)
    requires NoDuplicates(ks)
    requires forall k :: k in m <==> k in ks
    ensures SumOver(ks, m) == SumValues(m)
  {
    if ks == [] {
      assert m == map[];
    } else {
      var init := ks[..|ks| - 1];
      var last := ks[|ks| - 1];
      var rest := m - {last};
      assert last !in init;
      SumOverAllKeys(init, rest);
      SumOverAgree(init, m, rest);
      SumValuesRemove(m, last);
    }
  }

  /** Two records that agree on the keys ks have the same sum over ks. */
  lemma {:induction false} SumOverAgree<K>(ks: seq<K>, m: map<K, int>, m': map<K, int>)
    requires forall i :: 0 <= i < |ks| ==> IntOr(m, ks[i], 0) == IntOr(m', ks[i], 0)
    ensures SumOver(ks, m) == SumOver(ks, m')
  {
    if ks != [] {
      SumOverAgree(ks[..|ks| - 1], m, m');
    }
  }

  /** The sum of a record's values, one key at a time. */
  method SumRecord<K>(m: map<K, int>) returns (total: int)
    ensures total == SumValues(m)
  {
    total := 0;
    var rest := m;
    while rest != map[]
      invariant total + SumValues(rest) == SumValues(m)
      decreases |rest|
    {
      var k :| k in rest;
      SumValuesRemove(rest, k);
      total := total + rest[k];
      rest := rest - {k};
    }
  }
}
