/**
 Byte strings as the C sources compare, sort and number them: `strcmp` order,
 sorted directory listings, and decimal numerals.
 */
module Text {

  datatype Option<+T> = None | Some(value: T)

  /** `strcmp(a, b) < 0`. */
  predicate Less(a: string, b: string) {
    b != [] && (a == [] || a[0] < b[0] || (a[0] == b[0] && Less(a[1..], b[1..])))
  }

  lemma LessTotal(a: string, b: string)
    ensures a == b || Less(a, b) || Less(b, a)
  { }

  lemma LessIrreflexive(a: string)
    ensures !Less(a, a)
  { }

  lemma LessTransitive(a: string, b: string, c: string)
    requires Less(a, b) && Less(b, c)
    ensures Less(a, c)
  { }

  lemma LessExtend(a: string, b: string, s: string, t: string)
    requires |a| == |b| && Less(a, b)
    ensures Less(a + s, b + t)
  {
    assert (a + s)[0] == a[0] && (b + t)[0] == b[0];
    if a[0] == b[0] {
      LessExtend(a[1..], b[1..], s, t);
      assert (a + s)[1..] == a[1..] + s && (b + t)[1..] == b[1..] + t;
    }
  }

  lemma TailOf(p: string, a: string)
    requires p != []
    ensures (p + a)[0] == p[0] && (p + a)[1..] == p[1..] + a
  { }

  lemma {:induction false} LessAfter(p: string, a: string, b: string)
    requires Less(a, b)
    ensures Less(p + a, p + b)
  {
    if p == [] {
      assert p + a == a && p + b == b;
    } else {
      LessAfter(p[1..], a, b);
      TailOf(p, a);
      TailOf(p, b);
    }
  }

  // ---- sorted listings ----

  ghost predicate Ascending(s: seq<string>) {
    forall i, j :: 0 <= i < j < |s| ==> Less(s[i], s[j])
  }

  predicate IsLeast(x: string, s: set<string>) {
    x in s && forall y :: y in s && y != x ==> Less(x, y)
  }

  lemma LeastExists(s: set<string>) returns (x: string)
    requires s != {}
    ensures IsLeast(x, s)
  {
    x :| x in s;
    if s != {x} {
      var y := LeastExists(s - {x});
      LessTotal(x, y);
      if Less(x, y) {
        forall z | z in s && z != x ensures Less(x, z) {
          if z != y { LessTransitive(x, y, z); }
        }
      } else {
        x := y;
      }
    }
  }

  lemma LeastUnique(x: string, y: string, s: set<string>)
    requires IsLeast(x, s) && IsLeast(y, s)
    ensures x == y
  {
    if x != y {
      LessTransitive(x, y, x);
      LessIrreflexive(x);
    }
  }

  /** `scandir(..., alphasort)` over the given names. */
  function Sorted(names: set<string>): (r: seq<string>)
    ensures Ascending(r)
    ensures forall x :: x in r <==> x in names
    ensures |r| == |names|
  {
    if names == {} then []
    else
      LeastIsThere(names);
      var x :| IsLeast(x, names);
      var rest := Sorted(names - {x});
      assert forall y :: y in names <==> y == x || y in names - {x};
      [x] + rest
  }

  lemma LeastIsThere(s: set<string>)
    requires s != {}
    ensures exists x :: IsLeast(x, s)
    ensures forall x, y :: IsLeast(x, s) && IsLeast(y, s) ==> x == y
  {
    var x := LeastExists(s);
    forall x, y | IsLeast(x, s) && IsLeast(y, s) ensures x == y { LeastUnique(x, y, s); }
  }

  lemma EmptyTogether(a: seq<string>, b: seq<string>)
    requires forall x :: x in a <==> x in b
    ensures |a| == 0 ==> |b| == 0
  {
    if |b| > 0 {
      assert b[0] in b;
      assert b[0] in a;
    }
  }

  /** A strictly ascending listing is determined by its elements. */
  lemma {:induction false} AscendingUnique(a: seq<string>, b: seq<string>)
    requires Ascending(a) && Ascending(b)
    requires forall x :: x in a <==> x in b
    ensures a == b
  {
    if a == [] || b == [] {
      EmptyTogether(a, b);
      EmptyTogether(b, a);
    } else {
      var s := set x | x in a;
      forall y | y in s && y != a[0] ensures Less(a[0], y) { }
      assert a[0] in s && b[0] in s;
      assert IsLeast(a[0], s);
      forall y | y in s && y != b[0] ensures Less(b[0], y) { assert y in b; }
      assert IsLeast(b[0], s);
      LeastUnique(a[0], b[0], s);
      AscendingDistinct(a);
      AscendingDistinct(b);
      forall x ensures x in a[1..] <==> x in b[1..] {
        assert x in a <==> x == a[0] || x in a[1..];
        assert x in b <==> x == b[0] || x in b[1..];
      }
      AscendingUnique(a[1..], b[1..]);
      assert a == [a[0]] + a[1..] && b == [b[0]] + b[1..];
    }
  }

  lemma AscendingDistinct(a: seq<string>)
    requires Ascending(a)
    ensures forall i, j :: 0 <= i < j < |a| ==> a[i] != a[j]
  {
    forall i, j | 0 <= i < j < |a| ensures a[i] != a[j] { LessIrreflexive(a[i]); }
  }

  // ---- numerals ----

  predicate IsDigit(c: char)
    ensures IsDigit(c) <==> 48 <= c as int < 58
  {
    '0' <= c <= '9'
  }

  predicate AllDigits(s: string) { forall i :: 0 <= i < |s| ==> IsDigit(s[i]) }

  function Digit(d: nat): (c: char)
    requires d < 10
    ensures IsDigit(c) && c as int - '0' as int == d
  {
    ('0' as int + d) as char
  }

  function Value(s: string): nat
    requires AllDigits(s)
  {
    if s == [] then 0 else 10 * Value(s[..|s| - 1]) + (s[|s| - 1] as int - '0' as int)
  }

  /** `"%u"`. */
  function Decimal(n: nat): (s: string)
    ensures s != [] && AllDigits(s) && Value(s) == n
  {
    if n < 10 then
      assert [Digit(n)][..0] == [];
      [Digit(n)]
    else
      var s := Decimal(n / 10) + [Digit(n % 10)];
      assert s[..|s| - 1] == Decimal(n / 10);
      s
  }

  lemma {:induction false} ValueInjective(a: string, b: string)
    requires AllDigits(a) && AllDigits(b) && |a| == |b| && Value(a) == Value(b)
    ensures a == b
  {
    if a != [] {
      var n := |a| - 1;
      ValueInjective(a[..n], b[..n]);
      assert a == a[..n] + [a[n]] && b == b[..n] + [b[n]];
    }
  }

  /** Numerals of one width sort by value. */
  lemma {:induction false} ValueOrder(a: string, b: string)
    requires AllDigits(a) && AllDigits(b) && |a| == |b| && Value(a) < Value(b)
    ensures Less(a, b)
  {
    if a != [] {
      var n := |a| - 1;
      assert a == a[..n] + [a[n]] && b == b[..n] + [b[n]];
      if Value(a[..n]) < Value(b[..n]) {
        ValueOrder(a[..n], b[..n]);
        LessExtend(a[..n], b[..n], [a[n]], [b[n]]);
      } else {
        ValueInjective(a[..n], b[..n]);
        LessAfter(a[..n], [a[n]], [b[n]]);
      }
    }
  }

  /** `"%04d"` for a non-negative number. */
  function Padded4(n: nat): (s: string)
    ensures AllDigits(s) && Value(s) == n && |s| >= 4
  {
    Pad(Decimal(n))
  }

  function Pad(s: string): (r: string)
    requires AllDigits(s)
    ensures AllDigits(r) && Value(r) == Value(s) && |r| == if |s| < 4 then 4 else |s|
    decreases 4 - |s|
  {
    if |s| >= 4 then s
    else
      LeadingZero(s);
      Pad("0" + s)
  }

  lemma LeadingZero(s: string)
    requires AllDigits(s)
    ensures AllDigits("0" + s) && Value("0" + s) == Value(s)
  {
    if s == [] {
      assert "0"[..0] == [];
    } else {
      LeadingZero(s[..|s| - 1]);
      assert ("0" + s)[..|s|] == "0" + s[..|s| - 1];
    }
  }

  lemma DecimalWidth(n: nat)
    requires n < 10000
    ensures |Decimal(n)| <= 4
  {
    assert n >= 10 ==> |Decimal(n)| == 1 + |Decimal(n / 10)|;
    assert n >= 100 ==> |Decimal(n / 10)| == 1 + |Decimal(n / 10 / 10)|;
    assert n >= 1000 ==> |Decimal(n / 10 / 10)| == 1 + |Decimal(n / 10 / 10 / 10)|;
  }

  lemma Padded4Width(n: nat)
    requires n < 10000
    ensures |Padded4(n)| == 4
  {
    DecimalWidth(n);
  }

  lemma Padded4Order(i: nat, j: nat)
    requires i < j < 10000
    ensures Less(Padded4(i), Padded4(j)) && Padded4(i) != Padded4(j)
  {
    Padded4Width(i);
    Padded4Width(j);
    ValueOrder(Padded4(i), Padded4(j));
    LessIrreflexive(Padded4(i));
  }

  function Pow10(k: nat): nat { if k == 0 then 1 else 10 * Pow10(k - 1) }

  lemma {:induction false} DecimalShort(n: nat, k: nat)
    requires k >= 1 && n < Pow10(k)
    ensures |Decimal(n)| <= k
    decreases k
  {
    if n >= 10 {
      DecimalShort(n / 10, k - 1);
    }
  }

  // ---- reading characters and numbers ----

  function ToLower(c: char): (r: char)
    ensures if 65 <= c as int < 91 then r as int == c as int + 32 else r == c
  {
    if 'A' <= c <= 'Z' then (c as int - 'A' as int + 'a' as int) as char else c
  }

  function Lower(s: string): (r: string)
    ensures |r| == |s|
  {
    seq(|s|, i requires 0 <= i < |s| => ToLower(s[i]))
  }

  /** Space, tab, line feed, vertical tab, form feed, carriage return. */
  predicate IsSpace(c: char)
    ensures IsSpace(c) <==> c as int in {9, 10, 11, 12, 13, 32}
  {
    c == ' ' || '\t' <= c <= '\r'
  }

  function SkipSpace(s: string): (r: string)
    ensures |r| <= |s|
    ensures r != [] ==> !IsSpace(r[0])
  {
    if s != [] && IsSpace(s[0]) then SkipSpace(s[1..]) else s
  }

  /** `strtol` in base 10, where all of the string has to be the number. */
  function StrToL(s: string): Option<int> {
    var t := SkipSpace(s);
    var digits := if t != [] && (t[0] == '-' || t[0] == '+') then t[1..] else t;
    if digits == [] || !AllDigits(digits) then None
    else
      var v: int := Value(digits);
      Some(if t[0] == '-' then -v else v)
  }

  lemma StrToLDecimal(n: nat)
    ensures StrToL(Decimal(n)).Some? && StrToL(Decimal(n)).value == n
    ensures var m: int := n; StrToL("-" + Decimal(n)) == Some(-m)
  {
    var d := Decimal(n);
    assert IsDigit(d[0]);
    assert ("-" + d)[1..] == d;
  }

  /** Digits, after any space and at most one sign: nothing else is a number. */
  ghost predicate Numeral(s: string, space: string, sign: string, digits: string) {
    && s == space + (sign + digits) && (forall c :: c in space ==> IsSpace(c)) && sign in {"", "-", "+"}
    && digits != "" && AllDigits(digits)
  }

  lemma StrToLIff(s: string)
    ensures StrToL(s).Some? <==> exists space, sign, digits :: Numeral(s, space, sign, digits)
  {
    hide IsDigit, IsSpace, Value;
    if StrToL(s).Some? {
      var t := SkipSpace(s);
      var space := SpaceBefore(s);
      var sign := if t[0] == '-' || t[0] == '+' then t[..1] else "";
      assert sign == "" || sign == [t[0]];
      assert t == sign + t[|sign|..];
      assert Numeral(s, space, sign, t[|sign|..]);
    }
    if space, sign, digits :| Numeral(s, space, sign, digits) {
      SkipSpaceOver(space, sign + digits) by { NoSpaceFirst(sign, digits); }
      SignTaken(sign, digits);
    }
  }

  lemma NoSpaceFirst(sign: string, digits: string)
    requires sign in {"", "-", "+"} && digits != "" && AllDigits(digits)
    ensures sign + digits != "" && !IsSpace((sign + digits)[0])
  { }

  lemma SignTaken(sign: string, digits: string)
    requires sign in {"", "-", "+"} && digits != "" && AllDigits(digits)
    ensures var t := sign + digits; (if t[0] == '-' || t[0] == '+' then t[1..] else t) == digits
  {
    if sign == "" { assert sign + digits == digits; }
  }

  lemma {:induction false} SkipSpaceOver(space: string, t: string)
    requires (forall c :: c in space ==> IsSpace(c)) && t != "" && !IsSpace(t[0])
    ensures SkipSpace(space + t) == t
    decreases |space|
  {
    hide IsSpace;
    if space == "" {
      assert space + t == t;
    } else {
      assert (space + t)[1..] == space[1..] + t && space[0] in space;
      SkipSpaceOver(space[1..], t);
    }
  }

  lemma {:induction false} SpaceBefore(s: string) returns (space: string)
    ensures s == space + SkipSpace(s) && forall c :: c in space ==> IsSpace(c)
    decreases |s|
  {
    hide IsSpace;
    space := "";
    if s != "" && IsSpace(s[0]) {
      var rest := SpaceBefore(s[1..]);
      space := [s[0]] + rest;
    }
  }

  /** `strchr` as an index. */
  function FirstIndex(s: string, c: char): (r: Option<nat>)
    ensures r.Some? ==> r.value < |s| && s[r.value] == c && c !in s[..r.value]
    ensures r.None? ==> c !in s
  {
    if s == [] then None
    else if s[0] == c then Some(0)
    else
      match FirstIndex(s[1..], c)
      case None => None
      case Some(i) =>
        assert s[..i + 1] == [s[0]] + s[1..][..i];
        Some(i + 1)
  }

  lemma FirstIndexUnique(a: string, c: char, b: string)
    requires c !in a
    ensures FirstIndex(a + [c] + b, c) == Some(|a|)
  {
    var s := a + [c] + b;
    var r := FirstIndex(s, c);
    assert s[|a|] == c && s[|a|] in s;
  }

  /** `strrchr` as an index. */
  function LastIndex(s: string, c: char): (r: Option<nat>)
    ensures r.Some? ==> r.value < |s| && s[r.value] == c && c !in s[r.value + 1..]
    ensures r.None? ==> c !in s
  {
    if s == [] then None
    else if s[|s| - 1] == c then Some(|s| - 1)
    else
      var r := LastIndex(s[..|s| - 1], c);
      assert s == s[..|s| - 1] + [s[|s| - 1]];
      assert r.Some? ==> s[r.value + 1..] == s[..|s| - 1][r.value + 1..] + [s[|s| - 1]];
      r
  }

  lemma LastIndexUnique(a: string, c: char, b: string)
    requires c !in b
    ensures LastIndex(a + [c] + b, c) == Some(|a|)
  {
    var s := a + [c] + b;
    var r := LastIndex(s, c);
    assert s[|a|] == c && s[|a|] in s;
  }

  // ---- remainders ----

  /** The remainder of x by m. */
  function Remainder(x: nat, m: nat): (r: nat)
    requires m > 0
    ensures r < m && r <= x
  {
    if x < m then x else Remainder(x - m, m)
  }

  lemma {:induction false} RemainderStep(x: nat, m: nat)
    requires m > 0
    ensures Remainder(x + 1, m) == if Remainder(x, m) == m - 1 then 0 else Remainder(x, m) + 1
    decreases x
  {
    if x >= m { RemainderStep(x - m, m); }
  }

  lemma {:induction false} NextMultiple(x: nat, m: nat)
    requires m > 0
    ensures Remainder(x + m - Remainder(x, m), m) == 0
    decreases x
  {
    if x >= m { NextMultiple(x - m, m); }
  }
}
