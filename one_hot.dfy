/**
 * One-hot vectors over an ordered list of categories, and the dictionary lookup
 * with a default that the encoder uses to pick them.
 */
module OneHot {

  /** `[0] * n`: n zeros. */
  function Zeros(n: nat): (v: seq<int>)
    ensures |v| == n && forall j | 0 <= j < n :: v[j] == 0
  {
    seq(n, _ => 0)
  }

  /** `d.get(key, default)` for a dictionary from category names to vectors. */
  function Get(d: map<string, seq<int>>, key: string, default: seq<int>): (v: seq<int>)
    ensures key in d ==> v == d[key]
    ensures key !in d ==> v == default
  {
    if key in d then d[key] else default
  }

  /** The reference encoding: 1 at the position of key in the category list, 0 elsewhere. */
  function Indicator(names: seq<string>, key: string): (v: seq<int>)
    ensures |v| == |names|
    ensures forall j | 0 <= j < |names| :: v[j] == (if names[j] == key then 1 else 0)
  {
    seq(|names|, j requires 0 <= j < |names| => if names[j] == key then 1 else 0)
  }

  /** No category is listed twice. */
  predicate Distinct(names: seq<string>) {
    forall i, j | 0 <= i < j < |names| :: names[i] != names[j]
  }

  /** The number of entries equal to 1. */
  function CountOnes(v: seq<int>): nat {
    if v == [] then 0
    else CountOnes(v[..|v| - 1]) + (if v[|v| - 1] == 1 then 1 else 0)
  }

  lemma {:induction false} CountOnesAppend(a: seq<int>, b: seq<int>)
    ensures CountOnes(a + b) == CountOnes(a) + CountOnes(b)
  {
    if b != [] {
      assert (a + b)[..|a + b| - 1] == a + b[..|b| - 1];
      CountOnesAppend(a, b[..|b| - 1]);
    } else {
      assert a + b == a;
    }
  }

  /** A vector that is 1 at position i and 0 elsewhere holds a single 1 when i is in range and none otherwise. */
  lemma {:induction false} CountSingleHit(v: seq<int>, i: int)
    requires forall j | 0 <= j < |v| :: v[j] == (if j == i then 1 else 0)
    ensures CountOnes(v) == (if 0 <= i < |v| then 1 else 0)
  {
    if v != [] {
      CountSingleHit(v[..|v| - 1], i);
    }
  }

  /** Over distinct categories, the indicator of a listed key has exactly one 1 and that of any other key none. */
  lemma IndicatorIsOneHot(names: seq<string>, key: string)
    requires Distinct(names)
    ensures CountOnes(Indicator(names, key)) == (if key in names then 1 else 0)
  {
    var v := Indicator(names, key);
    if key in names {
      var i :| 0 <= i < |names| && names[i] == key;
      CountSingleHit(v, i);
    } else {
      CountSingleHit(v, -1);
    }
  }

  /** Over distinct categories, two listed keys with the same indicator are the same key. */
  lemma IndicatorInjective(names: seq<string>, a: string, b: string)
    requires Distinct(names) && a in names && b in names
    requires Indicator(names, a) == Indicator(names, b)
    ensures a == b
  {
    var i :| 0 <= i < |names| && names[i] == a;
    assert Indicator(names, a)[i] == 1;
  }
}
