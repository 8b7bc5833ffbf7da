/**
 * The stop count is read with Python's `int()` applied to a string: surrounding
 * whitespace is ignored, one optional sign is allowed, and the decimal digits may
 * be split by single underscores ("1_000"). Anything else is an error.
 */
module IntParse {
  import opened Wrappers
  import opened Digits

  /**
   * The characters `int()` strips from both ends: the ASCII space, tab, line
   * feed, vertical tab, form feed and carriage return, and the non-ASCII
   * characters that Python counts as whitespace. The ASCII separators
   * U+001C to U+001F, which `str.isspace` also accepts, are not stripped.
   */
  predicate IsSpace(c: char) {
    var n := c as int;
    || n == 0x20 || 0x09 <= n <= 0x0D
    || n == 0x85 || n == 0xA0 || n == 0x1680 || 0x2000 <= n <= 0x200A
    || n == 0x2028 || n == 0x2029 || n == 0x202F || n == 0x205F || n == 0x3000
  }

  predicate AllSpace(s: string) {
    forall i | 0 <= i < |s| :: IsSpace(s[i])
  }

  /** The length of the run of whitespace that starts the string. */
  function LeadingSpace(s: string): (k: nat)
    ensures k <= |s|
    ensures AllSpace(s[..k])
    ensures k < |s| ==> !IsSpace(s[k])
  {
    if s != [] && IsSpace(s[0]) then
      var k := 1 + LeadingSpace(s[1..]);
      assert forall i | 1 <= i < k :: s[i] == s[1..][i - 1];
      k
    else 0
  }

  /** The length of the run of whitespace that ends the string. */
  function TrailingSpace(s: string): (k: nat)
    ensures k <= |s|
    ensures AllSpace(s[|s| - k..])
    ensures k < |s| ==> !IsSpace(s[|s| - 1 - k])
  {
    if s != [] && IsSpace(s[|s| - 1]) then
      var k := 1 + TrailingSpace(s[..|s| - 1]);
      assert forall i | |s| - k <= i < |s| - 1 :: s[i] == s[..|s| - 1][i];
      k
    else 0
  }

  /** The string without its leading and trailing whitespace; what is left neither starts nor ends with whitespace. */
  function Strip(s: string): (t: string)
    ensures t != [] ==> !IsSpace(t[0]) && !IsSpace(t[|t| - 1])
  {
    var rest := s[LeadingSpace(s)..];
    rest[..|rest| - TrailingSpace(rest)]
  }

  /** Every string is its leading whitespace, its stripped core and its trailing whitespace. */
  lemma StripSplit(s: string) returns (a: string, t: string, b: string)
    ensures s == a + t + b && t == Strip(s) && AllSpace(a) && AllSpace(b)
  {
    var k := LeadingSpace(s);
    var rest := s[k..];
    var m := |rest| - TrailingSpace(rest);
    a, t, b := s[..k], rest[..m], rest[m..];
    ThreeWaySplit(s, k, m);
    SpaceEnds(s, k, rest, m);
  }

  /** The pieces that stripping cuts off are whitespace. */
  lemma SpaceEnds(s: string, k: nat, rest: string, m: nat)
    requires k == LeadingSpace(s) && rest == s[k..] && m == |rest| - TrailingSpace(rest)
    ensures AllSpace(s[..k]) && AllSpace(rest[m..])
  {
  }

  /** Cutting a string at k and then its remainder at m gives three pieces that join back to it. */
  lemma ThreeWaySplit(s: string, k: nat, m: nat)
    requires k <= |s| && m <= |s| - k
    ensures s == s[..k] + s[k..][..m] + s[k..][m..]
  {
    assert s[k..] == s[k..][..m] + s[k..][m..];
    assert s == s[..k] + s[k..];
  }

  /** Decimal digits, with single underscores allowed between two digits. */
  predicate IsDigitGroups(s: string) {
    && |s| > 0 && IsDigit(s[0]) && IsDigit(s[|s| - 1])
    && (forall i | 0 <= i < |s| :: IsDigit(s[i]) || s[i] == '_')
    && (forall i | 0 <= i < |s| - 1 :: s[i] == '_' ==> s[i + 1] != '_')
  }

  /** The number the digits spell, underscores skipped. */
  function GroupsValue(s: string): nat
    requires forall i | 0 <= i < |s| :: IsDigit(s[i]) || s[i] == '_'
  {
    if s == [] then 0
    else if s[|s| - 1] == '_' then GroupsValue(s[..|s| - 1])
    else 10 * GroupsValue(s[..|s| - 1]) + DigitValue(s[|s| - 1])
  }

  /**
   * Python's `int(s)` for a string s; None where Python raises ValueError. An
   * empty or all-whitespace string fails, and only an explicit minus sign gives
   * a negative number.
   */
  function ParseInt(s: string): (r: Option<int>)
    ensures r.Some? ==> Strip(s) != []
    ensures r.Some? && r.value < 0 ==> Strip(s)[0] == '-'
  {
    ParseStripped(Strip(s))
  }

  /** An optional sign followed by digit groups, nothing else. */
  function ParseStripped(t: string): Option<int> {
    if |t| > 0 && (t[0] == '+' || t[0] == '-') then
      var body := t[1..];
      if IsDigitGroups(body) then
        var v: int := GroupsValue(body);
        Some(if t[0] == '-' then -v else v)
      else None
    else if IsDigitGroups(t) then Some(GroupsValue(t))
    else None
  }

  /** A natural number in decimal, without leading zeros. */
  function Decimal(n: nat): (s: string)
    ensures |s| > 0 && forall i | 0 <= i < |s| :: IsDigit(s[i])
  {
    if n < 10 then [DigitChar(n)] else Decimal(n / 10) + [DigitChar(n % 10)]
  }

  /** Python's `str(i)` for an integer. */
  function Show(i: int): string {
    if i < 0 then "-" + Decimal(-i) else Decimal(i)
  }

  lemma {:induction false} DecimalValue(n: nat)
    ensures IsDigitGroups(Decimal(n)) && GroupsValue(Decimal(n)) == n
  {
    var s := Decimal(n);
    if n >= 10 {
      DecimalValue(n / 10);
      assert s[..|s| - 1] == Decimal(n / 10);
    }
  }

  /** Splitting a string into whitespace, a core without outer whitespace, and whitespace determines Strip. */
  lemma StripOfFramed(a: string, t: string, b: string)
    requires AllSpace(a) && AllSpace(b)
    requires t != [] ==> !IsSpace(t[0]) && !IsSpace(t[|t| - 1])
    ensures Strip(a + t + b) == t
  {
    var s := a + t + b;
    if t == [] {
      assert AllSpace(s);
      AllSpaceLeading(s);
    } else {
      LeadingAfterSpace(a, t + b);
      assert s == a + (t + b);
      assert LeadingSpace(t + b) == 0;
      assert s[|a|..] == t + b;
      TrailingBeforeSpace(t, b);
      assert TrailingSpace(t) == 0;
    }
  }

  lemma {:induction false} AllSpaceLeading(s: string)
    requires AllSpace(s)
    ensures LeadingSpace(s) == |s|
  {
    if s != [] {
      AllSpaceLeading(s[1..]);
    }
  }

  lemma {:induction false} LeadingAfterSpace(a: string, x: string)
    requires AllSpace(a)
    ensures LeadingSpace(a + x) == |a| + LeadingSpace(x)
  {
    if a != [] {
      assert IsSpace(a[0]) && (a + x)[0] == a[0];
      assert (a + x)[1..] == a[1..] + x;
      LeadingAfterSpace(a[1..], x);
      assert LeadingSpace(a + x) == 1 + LeadingSpace(a[1..] + x);
    } else {
      assert a + x == x;
    }
  }

  lemma {:induction false} TrailingBeforeSpace(x: string, b: string)
    requires AllSpace(b)
    ensures TrailingSpace(x + b) == |b| + TrailingSpace(x)
  {
    if b != [] {
      assert IsSpace(b[|b| - 1]) && (x + b)[|x + b| - 1] == b[|b| - 1];
      assert (x + b)[..|x + b| - 1] == x + b[..|b| - 1];
      TrailingBeforeSpace(x, b[..|b| - 1]);
      assert TrailingSpace(x + b) == 1 + TrailingSpace(x + b[..|b| - 1]);
    } else {
      assert x + b == x;
    }
  }

  /** `int()` reads back what `str()` writes, for every integer. */
  lemma ParseShow(i: int)
    ensures ParseInt(Show(i)) == Some(i)
  {
    var s := Show(i);
    var n: nat := if i < 0 then -i else i;
    var d := Decimal(n);
    DecimalValue(n);
    assert IsDigit(d[0]) && IsDigit(d[|d| - 1]);
    if i < 0 {
      assert s == "-" + d;
      assert s[1..] == d;
      assert ParseStripped(s) == Some(i);
    } else {
      assert s == d;
      assert ParseStripped(s) == Some(i);
    }
    assert !IsSpace(s[0]) && !IsSpace(s[|s| - 1]);
    assert [] + s + [] == s;
    StripOfFramed([], s, []);
  }

  /** Whitespace around the text never changes what `int()` reads, nor whether it fails. */
  lemma ParseIgnoresSurroundingSpace(w1: string, s: string, w2: string)
    requires AllSpace(w1) && AllSpace(w2)
    ensures ParseInt(w1 + s + w2) == ParseInt(s)
  {
    StripIgnoresSurroundingSpace(w1, s, w2);
  }

  lemma StripIgnoresSurroundingSpace(w1: string, s: string, w2: string)
    requires AllSpace(w1) && AllSpace(w2)
    ensures Strip(w1 + s + w2) == Strip(s)
  {
    var a, t, b := StripSplit(s);
    AllSpaceConcat(w1, a);
    AllSpaceConcat(b, w2);
    Regroup(w1, a, t, b, w2);
    StripOfFramed(w1 + a, t, b + w2);
  }

  lemma Regroup(w1: string, a: string, t: string, b: string, w2: string)
    ensures w1 + (a + t + b) + w2 == (w1 + a) + t + (b + w2)
  {
  }

  lemma AllSpaceConcat(x: string, y: string)
    requires AllSpace(x) && AllSpace(y)
    ensures AllSpace(x + y)
  {
    forall i | 0 <= i < |x + y|
      ensures IsSpace((x + y)[i])
    {
      if i < |x| {
        assert (x + y)[i] == x[i];
      } else {
        assert (x + y)[i] == y[i - |x|];
      }
    }
  }

  /**
   * A string `int()` accepts holds only whitespace, signs, digits and
   * underscores: "2.0", "1e3" and "two" are all errors.
   */
  lemma ParseAlphabet(s: string, i: int)
    requires ParseInt(s).Some? && 0 <= i < |s|
    ensures IsSpace(s[i]) || IsDigit(s[i]) || s[i] in "+-_"
  {
    var a, t, b := StripSplit(s);
    assert ParseStripped(t).Some?;
    if i < |a| {
      IndexInFirst(a, t, b, i);
    } else if i < |a| + |t| {
      IndexInMiddle(a, t, b, i);
      StrippedAlphabet(t, i - |a|);
    } else {
      IndexInLast(a, t, b, i);
    }
  }

  lemma IndexInFirst(a: string, t: string, b: string, i: int)
    requires 0 <= i < |a|
    ensures (a + t + b)[i] == a[i]
  {
  }

  lemma IndexInMiddle(a: string, t: string, b: string, i: int)
    requires |a| <= i < |a| + |t|
    ensures (a + t + b)[i] == t[i - |a|]
  {
  }

  lemma IndexInLast(a: string, t: string, b: string, i: int)
    requires |a| + |t| <= i < |a| + |t| + |b|
    ensures (a + t + b)[i] == b[i - |a| - |t|]
  {
  }

  lemma StrippedAlphabet(t: string, i: int)
    requires ParseStripped(t).Some? && 0 <= i < |t|
    ensures IsDigit(t[i]) || t[i] in "+-_"
  {
    if 0 < i && (t[0] == '+' || t[0] == '-') {
      assert t[i] == t[1..][i - 1];
    }
  }
}
