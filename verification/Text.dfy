/** Decimal numerals and the string operations that the trace and date tools rely on. */
module Text {
  import opened Wrappers

  predicate IsDigit(c: char) {
    '0' <= c <= '9'
  }

  predicate AllDigits(s: string) {
    forall i | 0 <= i < |s| :: IsDigit(s[i])
  }

  /** "%d" of a natural number. */
  function Dec(n: nat): (s: string)
    ensures |s| > 0 && AllDigits(s)
  {
    var last := [('0' as int + n % 10) as char];
    if n < 10 then last else Dec(n / 10) + last
  }

  /** The number a string of digits denotes. */
  function Value(s: string): nat
    requires AllDigits(s)
  {
    if s == [] then 0
    else Value(s[..|s| - 1]) * 10 + (s[|s| - 1] as int - '0' as int)
  }

  lemma {:induction false} ValueOfDec(n: nat)
    ensures Value(Dec(n)) == n
  {
    var s := Dec(n);
    if n >= 10 {
      assert s[..|s| - 1] == Dec(n / 10);
      ValueOfDec(n / 10);
    } else {
      assert s[..0] == [];
    }
  }

  /** Digits count by their place. */
  lemma {:induction false} ValueOfParts(s: string, t: string)
    requires AllDigits(s) && AllDigits(t)
    ensures Value(s + t) == Value(s) * Pow10(|t|) + Value(t)
  {
    if t == [] {
      assert s + t == s;
    } else {
      var n := |t| - 1;
      assert (s + t)[..|s + t| - 1] == s + t[..n] && (s + t)[|s + t| - 1] == t[n];
      ValueOfParts(s, t[..n]);
      ShiftValue(Value(s), Pow10(n), Value(t[..n]), t[n] as int - '0' as int);
    }
  }

  lemma ShiftValue(a: nat, b: nat, c: nat, d: int)
    ensures (a * b + c) * 10 + d == a * (10 * b) + (c * 10 + d)
  {
  }

  /** A numeral begins with the digit 0 only for zero itself. */
  lemma {:induction false} DecBegins(n: nat)
    ensures Dec(n)[0] == '0' <==> n == 0
    ensures n < 10 ==> Dec(n) == [('0' as int + n) as char]
  {
    if n >= 10 {
      DecBegins(n / 10);
    }
  }

  /** Digits of the same length with the same value are the same. */
  lemma {:induction false} SameDigits(s: string, t: string)
    requires AllDigits(s) && AllDigits(t) && |s| == |t| && Value(s) == Value(t)
    ensures s == t
  {
    if s != [] {
      var n := |s| - 1;
      assert IsDigit(s[n]) && IsDigit(t[n]);
      SameDigits(s[..n], t[..n]);
      assert s == s[..n] + [s[n]] && t == t[..n] + [t[n]];
    }
  }

  /** int() of a string without a sign: digits only, at least one. */
  function ParseNat(s: string): Option<nat> {
    if |s| > 0 && AllDigits(s) then Some(Value(s)) else None
  }

  lemma ParseOfDec(n: nat)
    ensures ParseNat(Dec(n)) == Some(n)
  {
    ValueOfDec(n);
  }

  function Pow10(k: nat): nat {
    if k == 0 then 1 else 10 * Pow10(k - 1)
  }

  lemma {:induction false} DecLength(n: nat, k: nat)
    requires k > 0
    ensures |Dec(n)| <= k <==> n < Pow10(k)
  {
    if k > 1 && n >= 10 {
      DecLength(n / 10, k - 1);
    }
    PowerAtLeast(k);
  }

  lemma {:induction false} PowerAtLeast(k: nat)
    requires k > 0
    ensures Pow10(k) >= 10
  {
    if k > 1 {
      PowerAtLeast(k - 1);
    }
  }

  lemma FourDigits(n: nat)
    ensures |Dec(n)| == 4 <==> 1000 <= n <= 9999
    ensures |Dec(n)| < 4 <==> n < 1000
  {
    assert Pow10(1) == 10 && Pow10(2) == 100;
    DecLength(n, 3);
    DecLength(n, 4);
  }

  /** str.split with a one-character separator. */
  function Split(s: string, sep: char): (parts: seq<string>)
    ensures |parts| > 0
  {
    if s == [] then [""]
    else
      var rest := Split(s[1..], sep);
      if s[0] == sep then [""] + rest else [[s[0]] + rest[0]] + rest[1..]
  }

  /** sep.join of a list. */
  function Join(parts: seq<string>, sep: char): string {
    if parts == [] then ""
    else if |parts| == 1 then parts[0]
    else parts[0] + [sep] + Join(parts[1..], sep)
  }

  lemma {:induction false} SplitNone(s: string, sep: char)
    requires sep !in s
    ensures Split(s, sep) == [s]
  {
    if s != [] {
      SplitNone(s[1..], sep);
      assert [s[0]] + s[1..] == s;
    }
  }

  lemma {:induction false} SplitAt(s: string, sep: char, t: string)
    requires sep !in s
    ensures Split(s + [sep] + t, sep) == [s] + Split(t, sep)
  {
    var whole := s + [sep] + t;
    if s == [] {
      assert whole[1..] == t;
    } else {
      assert whole[1..] == s[1..] + [sep] + t;
      SplitAt(s[1..], sep, t);
      assert [s[0]] + s[1..] == s;
    }
  }

  lemma {:induction false} SplitOfJoin(parts: seq<string>, sep: char)
    requires parts != [] && forall i | 0 <= i < |parts| :: sep !in parts[i]
    ensures Split(Join(parts, sep), sep) == parts
  {
    if |parts| == 1 {
      SplitNone(parts[0], sep);
    } else {
      SplitAt(parts[0], sep, Join(parts[1..], sep));
      SplitOfJoin(parts[1..], sep);
    }
  }

  /** Every text is its parts with the separator between them. */
  lemma {:induction false} JoinOfSplit(s: string, sep: char)
    ensures Join(Split(s, sep), sep) == s
    ensures forall i | 0 <= i < |Split(s, sep)| :: sep !in Split(s, sep)[i]
  {
    if s != [] {
      var rest := Split(s[1..], sep);
      JoinOfSplit(s[1..], sep);
      assert s == [s[0]] + s[1..];
      if s[0] == sep {
        JoinEmpty(rest, sep);
      } else {
        JoinHead(rest, sep, s[0]);
      }
      hide Join;
    }
  }

  lemma JoinEmpty(parts: seq<string>, sep: char)
    requires parts != []
    ensures Join([""] + parts, sep) == [sep] + Join(parts, sep)
  {
    assert ([""] + parts)[1..] == parts;
    assert "" + [sep] == [sep];
  }

  lemma JoinHead(parts: seq<string>, sep: char, c: char)
    requires parts != []
    ensures Join([[c] + parts[0]] + parts[1..], sep) == [c] + Join(parts, sep)
  {
    var more := [[c] + parts[0]] + parts[1..];
    assert more[1..] == parts[1..];
    if |parts| > 1 {
      assert [c] + parts[0] + [sep] + Join(parts[1..], sep) == [c] + (parts[0] + [sep] + Join(parts[1..], sep));
    }
  }

  predicate IsSpace(c: char) {
    c == ' ' || c == '\t' || c == '\n' || c == '\r' || c as int == 11 || c as int == 12
  }

  /** str.strip. */
  function Strip(s: string): string {
    if s != [] && IsSpace(s[0]) then Strip(s[1..])
    else if s != [] && IsSpace(s[|s| - 1]) then Strip(s[..|s| - 1])
    else s
  }

  /** The six characters that str and re take for white space. */
  ghost predicate White(c: char) {
    c in " \t\n\r\U{0B}\U{0C}"
  }

  /** White space only. */
  ghost predicate Blank(s: string) {
    forall i | 0 <= i < |s| :: White(s[i])
  }

  /** No white space at either end. */
  ghost predicate Bare(s: string) {
    s != [] ==> !White(s[0]) && !White(s[|s| - 1])
  }

  lemma SpaceIs(c: char)
    ensures IsSpace(c) <==> White(c)
  {
    var w := " \t\n\r\U{0B}\U{0C}";
    assert w[0] == ' ' && w[1] == '\t' && w[2] == '\n' && w[3] == '\r' && w[4] as int == 11 && w[5] as int == 12;
  }

  lemma StripStep(s: string)
    requires s != []
    ensures Strip(s) == if White(s[0]) then Strip(s[1..]) else if White(s[|s| - 1]) then Strip(s[..|s| - 1]) else s
  {
    hide White, IsSpace;
    SpaceIs(s[0]);
    SpaceIs(s[|s| - 1]);
  }

  lemma Longer(c: char, x: string, y: string, z: string)
    ensures [c] + (x + y + z) == ([c] + x) + y + z && (x + y + z) + [c] == x + y + (z + [c])
  {
  }

  /** What is stripped off is white space, and no more can be stripped off. */
  lemma {:induction false} StripMeans(s: string) returns (before: string, after: string)
    ensures s == before + Strip(s) + after && Blank(before) && Blank(after) && Bare(Strip(s))
  {
    hide White, Strip;
    before, after := "", "";
    if s != [] {
      var n := |s| - 1;
      StripStep(s);
      if White(s[0]) {
        before, after := StripMeans(s[1..]);
        Longer(s[0], before, Strip(s), after);
        assert s == [s[0]] + s[1..];
        before := [s[0]] + before;
      } else if White(s[n]) {
        before, after := StripMeans(s[..n]);
        Longer(s[n], before, Strip(s), after);
        assert s == s[..n] + [s[n]];
        after := after + [s[n]];
      }
    } else {
      assert Strip(s) == [] by { StripBare(s); }
    }
  }

  /** White space around a text is stripped off. */
  lemma {:induction false} StripIs(before: string, s: string, after: string)
    requires Blank(before) && Blank(after) && Bare(s)
    ensures Strip(before + s + after) == s
    decreases |before| + |after|
  {
    hide White, IsSpace;
    var t := before + s + after;
    if before != [] {
      SpaceIs(t[0]);
      StripIs(before[1..], s, after);
      assert t[1..] == before[1..] + s + after;
    } else if after != [] {
      var n := |after| - 1;
      SpaceIs(t[|t| - 1]);
      if s != [] {
        SpaceIs(t[0]);
        StripIs(before, s, after[..n]);
        assert t[..|t| - 1] == before + s + after[..n];
      } else {
        SpaceIs(t[0]);
        StripIs(before, s, after[1..]);
        assert t[1..] == before + s + after[1..];
      }
    } else {
      assert t == s;
      if s != [] {
        SpaceIs(s[0]);
        SpaceIs(s[|s| - 1]);
      }
    }
  }

  lemma StripBare(s: string)
    requires s != [] ==> !IsSpace(s[0]) && !IsSpace(s[|s| - 1])
    ensures Strip(s) == s
  {
  }

  /** int(): surrounding white space and a sign are allowed. */
  function ParseInt(s: string): Option<int> {
    var t := Strip(s);
    if t != [] && t[0] == '-' then
      var m := ParseNat(t[1..]);
      if m == None then None else var n: int := m.value; Some(-n)
    else ParseNat(if t != [] && t[0] == '+' then t[1..] else t)
  }

  /** The text is white space, a sign or none, digits that stand for the number, and white space. */
  ghost predicate Numeral(s: string, n: int) {
    exists before, sign, digits, after :: NumeralParts(s, n, before, sign, digits, after)
  }

  ghost predicate NumeralParts(s: string, n: int, before: string, sign: string, digits: string, after: string) {
    && s == before + (sign + digits) + after && Blank(before) && Blank(after)
    && sign in {"", "+", "-"} && digits != [] && AllDigits(digits)
    && n == Signed(sign, digits)
  }

  function Signed(sign: string, digits: string): int
    requires AllDigits(digits)
  {
    var n: int := Value(digits);
    if sign == "-" then -n else n
  }

  /** int() succeeds on numerals only, with the number they stand for. */
  lemma ParseIntMeans(s: string, n: int)
    ensures ParseInt(s) == Some(n) <==> Numeral(s, n)
  {
    hide Strip, Value, White;
    if ParseInt(s) == Some(n) {
      var t := Strip(s);
      var before, after := StripMeans(s);
      var sign := if t[0] == '-' then "-" else if t[0] == '+' then "+" else "";
      var digits := t[|sign|..];
      assert sign + digits == t;
      assert NumeralParts(s, n, before, sign, digits, after);
    }
    if before, sign, digits, after :| NumeralParts(s, n, before, sign, digits, after) {
      SignedParse(before, sign, digits, after);
    }
  }

  lemma SignedParse(before: string, sign: string, digits: string, after: string)
    requires Blank(before) && Blank(after) && sign in {"", "+", "-"} && digits != [] && AllDigits(digits)
    ensures ParseInt(before + (sign + digits) + after) == Some(Signed(sign, digits))
  {
    hide Strip, Value, White;
    var t := sign + digits;
    var n := |t| - 1;
    assert IsDigit(digits[0]) && t[n] == digits[|digits| - 1] && IsDigit(t[n]);
    assert t[0] == if sign == "" then digits[0] else sign[0];
    SpaceIs(t[0]);
    SpaceIs(t[n]);
    StripIs(before, t, after);
    assert sign != "" ==> t[1..] == digits;
    assert sign == "" ==> t == digits;
  }

  lemma ParseStripped(s: string)
    ensures ParseInt(Strip(s)) == ParseInt(s)
  {
    hide Strip, White;
    var before, after := StripMeans(s);
    StripIs("", Strip(s), "");
    assert "" + Strip(s) + "" == Strip(s);
  }

  /** "%d" of any integer. */
  function DecInt(n: int): string {
    if n < 0 then "-" + Dec(-n) else Dec(n)
  }

  lemma IntOfDec(n: int)
    ensures ParseInt(DecInt(n)) == Some(n) && Strip(DecInt(n)) == DecInt(n)
    ensures AllDigits(DecInt(n)) <==> n >= 0
    ensures n < 0 ==> DecInt(n)[0] == '-' && AllDigits(DecInt(n)[1..])
  {
    var s := DecInt(n);
    var digits := Dec(if n < 0 then -n else n);
    assert IsDigit(digits[0]) && s[|s| - 1] == digits[|digits| - 1] && IsDigit(s[|s| - 1]);
    StripBare(s);
    ParseOfDec(if n < 0 then -n else n);
    assert n < 0 ==> s[1..] == digits;
  }

  lemma {:induction false} ValueBound(s: string)
    requires AllDigits(s)
    ensures Value(s) < Pow10(|s|)
  {
    if s != [] {
      ValueBound(s[..|s| - 1]);
    }
  }
}
