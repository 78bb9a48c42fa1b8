/**
 * Small pieces of JavaScript behaviour that several components rely on:
 * optional values, `String.prototype.trim`, `parseInt` on a leading
 * decimal prefix, `toString`/`padStart` for non-negative integers, the
 * "toggle membership" edit on string lists and order-preserving filters.
 */
module JsBase {

  datatype Option<T> = None | Some(value: T)

  function GetOr<T>(o: Option<T>, default: T): T
  {
    match o
    case Some(v) => v
    case None => default
  }

  // ---------------------------------------------------------------------
  // Characters and trimming
  // ---------------------------------------------------------------------

  /** The characters `trim` removes: ECMAScript's WhiteSpace (tab, vertical tab,
      form feed, space, no-break space, the byte order mark and the other space
      separators of Unicode 15) and its LineTerminator (line feed, carriage return,
      line and paragraph separators). */
  predicate IsSpace(c: char)
  {
    || c == '\t' || c == '\U{000B}' || c == '\U{000C}' || c == ' ' || c == '\U{00A0}' || c == '\U{FEFF}'
    || c == '\U{1680}' || ('\U{2000}' <= c <= '\U{200A}') || c == '\U{202F}' || c == '\U{205F}' || c == '\U{3000}'
    || c == '\n' || c == '\r' || c == '\U{2028}' || c == '\U{2029}'
  }

  predicate IsDigit(c: char)
  {
    '0' <= c <= '9'
  }

  predicate AllSpace(s: string)
  {
    forall i :: 0 <= i < |s| ==> IsSpace(s[i])
  }

  /** Drops leading white space: the result is the suffix of `s` that starts at its first non-space. */
  function TrimStart(s: string): (r: string)
    ensures |r| <= |s| && r == s[|s| - |r|..]
    ensures r == [] || !IsSpace(r[0])
    ensures AllSpace(s[..|s| - |r|])
  {
    if s == [] || !IsSpace(s[0]) then s
    else
      var r := TrimStart(s[1..]);
      assert s[..|s| - |r|] == [s[0]] + s[1..][..|s| - 1 - |r|];
      r
  }

  /** Drops trailing white space. */
  function TrimEnd(s: string): (r: string)
    ensures |r| <= |s| && r == s[..|r|]
    ensures r == [] || !IsSpace(r[|r| - 1])
    ensures AllSpace(s[|r|..])
  {
    if s == [] || !IsSpace(s[|s| - 1]) then s
    else
      var r := TrimEnd(s[..|s| - 1]);
      assert s[|r|..] == s[..|s| - 1][|r|..] + [s[|s| - 1]];
      r
  }

  /** `s.trim()` */
  function Trim(s: string): string
  {
    TrimEnd(TrimStart(s))
  }

  /** A string that trims to nothing is made of white space only, and conversely:
      this is the test `!s.trim()` that the form guards perform. */
  lemma TrimEmptyIffBlank(s: string)
    ensures Trim(s) == "" <==> AllSpace(s)
  {
    var t := TrimStart(s);
    if Trim(s) == "" {
      assert AllSpace(t[0..]);
      assert s == s[..|s| - |t|] + t;
    }
  }

  /** Trimming keeps the inner text: the result is a slice of the input
      whose first and last characters are not white space. */
  lemma TrimIsInnerSlice(s: string)
    ensures exists i, j :: 0 <= i <= j <= |s| && Trim(s) == s[i..j]
    ensures Trim(s) == [] || (!IsSpace(Trim(s)[0]) && !IsSpace(Trim(s)[|Trim(s)| - 1]))
  {
    var t := TrimStart(s);
    var r := TrimEnd(t);
    var i := |s| - |t|;
    assert t == s[i..] && r == t[..|r|];
    assert r == s[i..i + |r|];
    assert Trim(s) == r;
    assert r == [] || (t != [] && r[0] == t[0] && !IsSpace(t[0]));
  }

  // ---------------------------------------------------------------------
  // Decimal text
  // ---------------------------------------------------------------------

  function DigitChar(d: nat): (c: char)
    requires d < 10
    ensures IsDigit(c) && DigitValue(c) == d
  {
    (('0' as int) + d) as char
  }

  function DigitValue(c: char): nat
    requires IsDigit(c)
  {
    (c as int) - ('0' as int)
  }

  predicate AllDigits(s: string)
  {
    forall i :: 0 <= i < |s| ==> IsDigit(s[i])
  }

  /** `n.toString()` for a non-negative integer. */
  function NatToString(n: nat): (s: string)
    ensures |s| >= 1 && AllDigits(s)
    ensures |s| == 1 <==> n < 10
  {
    if n < 10 then [DigitChar(n)] else NatToString(n / 10) + [DigitChar(n % 10)]
  }

  /** The value of a run of decimal digits, most significant first. */
  function DigitsValue(s: string): nat
    requires AllDigits(s)
  {
    if s == [] then 0 else DigitsValue(s[..|s| - 1]) * 10 + DigitValue(s[|s| - 1])
  }

  /** The longest prefix of `s` made of decimal digits. */
  function LeadingDigits(s: string): (r: string)
    ensures |r| <= |s| && r == s[..|r|] && AllDigits(r)
    ensures |r| == |s| || !IsDigit(s[|r|])
  {
    if s == [] || !IsDigit(s[0]) then [] else [s[0]] + LeadingDigits(s[1..])
  }

  /** `parseInt(s)`: an optional sign followed by the leading decimal digits;
      `None` stands for `NaN`, which is what JavaScript returns when no digit follows. */
  function ParseInt(s: string): (r: Option<int>)
    ensures r.None? <==> LeadingDigits(if |s| > 0 && (s[0] == '-' || s[0] == '+') then s[1..] else s) == []
  {
    if |s| > 0 && (s[0] == '-' || s[0] == '+') then
      var ds := LeadingDigits(s[1..]);
      if ds == [] then None
      else if s[0] == '-' then Some(-(DigitsValue(ds) as int))
      else Some(DigitsValue(ds))
    else
      var ds := LeadingDigits(s);
      if ds == [] then None else Some(DigitsValue(ds))
  }

  /** `parseInt(s) || fallback`: both `NaN` and `0` are falsy, so either gives the fallback. */
  function ParseIntOr(s: string, fallback: int): (r: int)
    ensures r == fallback <==> (ParseInt(s).None? || ParseInt(s).value == 0 || ParseInt(s).value == fallback)
    ensures r != fallback ==> ParseInt(s) == Some(r)
  {
    match ParseInt(s)
    case None => fallback
    case Some(n) => if n == 0 then fallback else n
  }

  lemma {:induction false} DigitsValueOfNatToString(n: nat)
    ensures DigitsValue(NatToString(n)) == n
  {
    if n >= 10 {
      var s := NatToString(n / 10) + [DigitChar(n % 10)];
      assert s[..|s| - 1] == NatToString(n / 10);
      DigitsValueOfNatToString(n / 10);
    }
  }

  lemma {:induction false} LeadingDigitsOfPrefix(ds: string, rest: string)
    requires AllDigits(ds)
    requires rest == [] || !IsDigit(rest[0])
    ensures LeadingDigits(ds + rest) == ds
  {
    if ds != [] {
      assert (ds + rest)[1..] == ds[1..] + rest;
      LeadingDigitsOfPrefix(ds[1..], rest);
    }
  }

  /** `parseInt` reads back what `toString` wrote, whatever non-digit text follows. */
  lemma ParseIntOfNatToString(n: nat, rest: string)
    requires rest == [] || !IsDigit(rest[0])
    ensures ParseInt(NatToString(n) + rest) == Some(n)
  {
    var s := NatToString(n);
    assert (s + rest)[0] == s[0];
    LeadingDigitsOfPrefix(s, rest);
    DigitsValueOfNatToString(n);
  }

  /** Different numbers print differently. */
  lemma NatToStringInjective(m: nat, n: nat)
    requires NatToString(m) == NatToString(n)
    ensures m == n
  {
    ParseIntOfNatToString(m, "");
    ParseIntOfNatToString(n, "");
    assert NatToString(m) + "" == NatToString(m);
    assert NatToString(n) + "" == NatToString(n);
  }

  /** `n.toString().padStart(2, '0')` */
  function Pad2(n: nat): (s: string)
    ensures |s| >= 2 && AllDigits(s)
  {
    var t := NatToString(n);
    if |t| < 2 then "0" + t else t
  }

  /** Below 100 the padded text is exactly two digits and reads back as `n`. */
  lemma Pad2Value(n: nat)
    requires n < 100
    ensures |Pad2(n)| == 2 && DigitsValue(Pad2(n)) == n
  {
    var t := NatToString(n);
    DigitsValueOfNatToString(n);
    if |t| < 2 {
      assert ("0" + t)[..1] == "0";
    }
  }

  // ---------------------------------------------------------------------
  // Lists
  // ---------------------------------------------------------------------

  /** `xs.filter(y => y !== x)` */
  function RemoveAll<T(==,!new)>(xs: seq<T>, x: T): (r: seq<T>)
    ensures x !in r
    ensures forall y :: y != x ==> (y in r <==> y in xs)
    ensures |r| <= |xs|
  {
    if xs == [] then []
    else if xs[0] == x then RemoveAll(xs[1..], x)
    else [xs[0]] + RemoveAll(xs[1..], x)
  }

  /** The toggle used for weekday chips:
      `xs.includes(x) ? xs.filter(y => y !== x) : [...xs, x]`. */
  function ToggleMember<T(==,!new)>(xs: seq<T>, x: T): (r: seq<T>)
    ensures x in r <==> x !in xs
    ensures forall y :: y != x ==> (y in r <==> y in xs)
    ensures x !in xs ==> r == xs + [x]
  {
    if x in xs then RemoveAll(xs, x) else xs + [x]
  }

  /** Toggling the same value twice restores which values are present,
      though an element that was removed comes back at the end. */
  lemma ToggleTwiceRestoresMembers<T(!new)>(xs: seq<T>, x: T)
    ensures forall y :: y in ToggleMember(ToggleMember(xs, x), x) <==> y in xs
  {
    var once := ToggleMember(xs, x);
    var twice := ToggleMember(once, x);
    forall y
      ensures y in twice <==> y in xs
    {
      if y == x {
        assert x in twice <==> x !in once;
      }
    }
  }

  /** An order-preserving filter, the model of `Array.prototype.filter`. */
  function Filter<T(!new)>(xs: seq<T>, p: T -> bool): (r: seq<T>)
    ensures |r| <= |xs|
    ensures forall y :: y in r <==> y in xs && p(y)
  {
    if xs == [] then []
    else if p(xs[0]) then [xs[0]] + Filter(xs[1..], p)
    else Filter(xs[1..], p)
  }

  /** Filtering a concatenation filters each part in turn; together with the
      one-element case this says the filter keeps the input order. */
  lemma {:induction false} FilterAppend<T(!new)>(xs: seq<T>, ys: seq<T>, p: T -> bool)
    ensures Filter(xs + ys, p) == Filter(xs, p) + Filter(ys, p)
  {
    if xs != [] {
      assert (xs + ys)[1..] == xs[1..] + ys;
      FilterAppend(xs[1..], ys, p);
    } else {
      assert xs + ys == ys;
    }
  }

  /** A filter and its complement split the input: the two parts together hold
      every element exactly as often as the input does. */
  lemma {:induction false} FilterPartition<T(!new)>(xs: seq<T>, p: T -> bool, q: T -> bool)
    requires forall x :: q(x) == !p(x)
    ensures |Filter(xs, p)| + |Filter(xs, q)| == |xs|
    ensures multiset(Filter(xs, p)) + multiset(Filter(xs, q)) == multiset(xs)
  {
    if xs != [] {
      FilterPartition(xs[1..], p, q);
      assert xs == [xs[0]] + xs[1..];
    }
  }
}
