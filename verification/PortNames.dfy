/** The text form of a port element, "object.port[index]", and the regular expression that reads it. */
module PortNames {
  import opened Wrappers
  import opened Text
  import opened ReadConfig

  /** PortConnection.__str__. */
  function Str(e: End): string {
    e.port.owner + "." + e.port.name + "[" + Dec(e.index) + "]"
  }

  predicate NameChar(c: char) {
    c != '.' && c != '['
  }

  /** A dot at k can end the greedy object part: a name character follows, no newline precedes. */
  predicate IsSplit(s: string, k: nat) {
    && k + 1 < |s| && s[k] == '.' && NameChar(s[k + 1])
    && '\n' !in s[..k]
  }

  /** The last such dot before position k; the object part is matched greedily. */
  function LastSplit(s: string, k: nat): (r: Option<nat>)
    requires k <= |s|
    ensures r.Some? ==> r.value < k && IsSplit(s, r.value) && forall i | r.value < i < k :: !IsSplit(s, i)
    ensures r == None ==> forall i | 0 <= i < k :: !IsSplit(s, i)
  {
    if k == 0 then None
    else if IsSplit(s, k - 1) then Some(k - 1)
    else LastSplit(s, k - 1)
  }

  /** The length of the longest prefix of name characters. */
  function NameLength(s: string): (n: nat)
    ensures n <= |s| && (forall i | 0 <= i < n :: NameChar(s[i])) && (n < |s| ==> !NameChar(s[n]))
  {
    if s != [] && NameChar(s[0]) then 1 + NameLength(s[1..]) else 0
  }

  function DigitsLength(s: string): (n: nat)
    ensures n <= |s| && AllDigits(s[..n])
  {
    if s != [] && IsDigit(s[0]) then 1 + DigitsLength(s[1..]) else 0
  }

  /** The optional "[index]" at the start of s; the index is 0 when it is absent. */
  function Index(s: string): nat {
    if s == [] || s[0] != '[' then 0
    else
      var n := DigitsLength(s[1..]);
      if n > 0 && n + 1 < |s| && s[n + 1] == ']' then Value(s[1..][..n]) else 0
  }

  /** PortConnection.from_string; None where the expression does not match. */
  function FromString(s: string): Option<End> {
    match LastSplit(s, |s|)
    case None => None
    case Some(k) =>
      var tail := s[k + 1..];
      var n := NameLength(tail);
      Some(End(Port(s[..k], tail[..n]), Index(tail[n..])))
  }

  lemma {:induction false} LastSplitIs(s: string, k: nat, at: nat)
    requires at < k <= |s| && IsSplit(s, at) && forall i | at < i < k :: !IsSplit(s, i)
    ensures LastSplit(s, k) == Some(at)
  {
    if k - 1 > at {
      LastSplitIs(s, k - 1, at);
    }
  }

  lemma {:induction false} NameLengthIs(name: string, rest: string)
    requires (forall i | 0 <= i < |name| :: NameChar(name[i])) && (rest == [] || !NameChar(rest[0]))
    ensures NameLength(name + rest) == |name|
  {
    if name == [] {
      assert name + rest == rest;
    } else {
      assert (name + rest)[1..] == name[1..] + rest;
      NameLengthIs(name[1..], rest);
    }
  }

  lemma {:induction false} DigitsLengthIs(digits: string, rest: string)
    requires AllDigits(digits) && (rest == [] || !IsDigit(rest[0]))
    ensures DigitsLength(digits + rest) == |digits|
  {
    if digits == [] {
      assert digits + rest == rest;
    } else {
      assert (digits + rest)[1..] == digits[1..] + rest;
      DigitsLengthIs(digits[1..], rest);
    }
  }

  lemma IndexOfDec(n: nat)
    ensures Index("[" + Dec(n) + "]") == n
  {
    var s := "[" + Dec(n) + "]";
    assert s[1..] == Dec(n) + "]";
    DigitsLengthIs(Dec(n), "]");
    assert s[1..][..|Dec(n)|] == Dec(n);
    ValueOfDec(n);
  }

  ghost predicate Bracketed(s: string, digits: string, tail: string) {
    s == "[" + (digits + ("]" + tail)) && digits != [] && AllDigits(digits)
  }

  /** The index: the number in brackets at the start of s, and 0 if there is none. */
  ghost predicate HasIndex(s: string, index: nat) {
    if exists digits, tail :: Bracketed(s, digits, tail) then
      exists digits, tail :: Bracketed(s, digits, tail) && index == Value(digits)
    else index == 0
  }

  lemma IndexOfDigits(s: string, digits: string, tail: string)
    requires Bracketed(s, digits, tail)
    ensures Index(s) == Value(digits)
  {
    hide Value;
    assert s[1..] == digits + ("]" + tail);
    DigitsLengthIs(digits, "]" + tail);
    assert s[1..][..|digits|] == digits && s[|digits| + 1] == ']';
  }

  /** Where the code takes a number, there is one in brackets. */
  lemma IndexTaken(s: string)
    ensures Index(s) == 0 || exists digits, tail :: Bracketed(s, digits, tail)
  {
    hide Value;
    if s != [] && s[0] == '[' {
      var n := DigitsLength(s[1..]);
      if n > 0 && n + 1 < |s| && s[n + 1] == ']' {
        assert s == "[" + (s[1..][..n] + ("]" + s[n + 2..]));
        assert Bracketed(s, s[1..][..n], s[n + 2..]);
      }
    }
  }

  lemma IndexMeans(s: string, index: nat)
    ensures Index(s) == index <==> HasIndex(s, index)
  {
    hide Value, Bracketed, Index;
    IndexTaken(s);
    forall d, t | Bracketed(s, d, t) ensures AllDigits(d) && Index(s) == Value(d) {
      BracketDigits(s, d, t);
      IndexOfDigits(s, d, t);
    }
  }

  lemma BracketDigits(s: string, digits: string, tail: string)
    requires Bracketed(s, digits, tail)
    ensures AllDigits(digits)
  {
  }

  /** The character can be part of a port's name. */
  ghost predicate InName(c: char) {
    c !in ".["
  }

  /**
   * The text is object, dot, port and the rest: the object as long as possible and without a line
   * break, the port not empty and then as long as possible, and the index from the rest.
   */
  ghost predicate ReadsAs(s: string, e: End, rest: string) {
    && s == e.port.owner + ("." + (e.port.name + rest)) && '\n' !in e.port.owner
    && e.port.name != [] && (forall i | 0 <= i < |e.port.name| :: InName(e.port.name[i]))
    && (rest != [] ==> !InName(rest[0])) && HasIndex(rest, e.index)
    && forall k: nat | k > |e.port.owner| :: !CanSplit(s, k)
  }

  /** The object could be what is before k. */
  ghost predicate CanSplit(s: string, k: nat) {
    k + 1 < |s| && s[k] == '.' && InName(s[k + 1]) && '\n' !in s[..k]
  }

  lemma NameCharIs(c: char)
    ensures NameChar(c) <==> InName(c)
  {
    assert ".["[0] == '.' && ".["[1] == '[';
  }

  lemma SplitIs(s: string, k: nat)
    ensures IsSplit(s, k) <==> CanSplit(s, k)
  {
    if k + 1 < |s| {
      NameCharIs(s[k + 1]);
    }
  }

  lemma NameParts(tail: string)
    ensures var n := NameLength(tail);
            && (forall i | 0 <= i < n :: InName(tail[..n][i])) && (n < |tail| ==> !InName(tail[n..][0]))
            && (tail != [] && InName(tail[0]) ==> n > 0) && tail == tail[..n] + tail[n..]
  {
    hide InName, NameChar;
    var n := NameLength(tail);
    forall i | 0 <= i < |tail| ensures NameChar(tail[i]) <==> InName(tail[i]) {
      NameCharIs(tail[i]);
    }
  }

  lemma ReadsSound(s: string, e: End)
    requires FromString(s) == Some(e)
    ensures exists rest :: ReadsAs(s, e, rest)
  {
    hide LastSplit, NameLength, Index, InName, NameChar, HasIndex;
    var k := LastSplit(s, |s|).value;
    var tail := s[k + 1..];
    var rest := tail[NameLength(tail)..];
    SplitIs(s, k);
    NameParts(tail);
    IndexMeans(rest, e.index);
    assert s == s[..k] + ("." + tail);
    hide IsSplit;
    forall j: nat | j > k ensures !CanSplit(s, j) {
      SplitIs(s, j);
    }
    hide CanSplit;
    assert ReadsAs(s, e, rest);
  }

  lemma ReadsComplete(s: string, e: End, rest: string)
    requires ReadsAs(s, e, rest)
    ensures FromString(s) == Some(e)
  {
    hide LastSplit, NameLength, Index, InName, NameChar, HasIndex;
    forall c ensures NameChar(c) <==> InName(c) {
      NameCharIs(c);
    }
    var at := |e.port.owner|;
    var tail := e.port.name + rest;
    assert s[at] == '.' && s[at + 1..] == tail && s[..at] == e.port.owner && s[at + 1] == e.port.name[0];
    SplitIs(s, at);
    hide IsSplit;
    forall j: nat | at < j < |s| ensures !IsSplit(s, j) {
      SplitIs(s, j);
    }
    LastSplitIs(s, |s|, at);
    NameLengthIs(e.port.name, rest);
    IndexMeans(rest, e.index);
    assert tail[..|e.port.name|] == e.port.name && tail[|e.port.name|..] == rest;
  }

  /** What from_string reads of any text, an absent index included. */
  lemma FromStringMeans(s: string, e: End)
    ensures FromString(s) == Some(e) <==> exists rest :: ReadsAs(s, e, rest)
  {
    hide FromString, ReadsAs;
    if FromString(s) == Some(e) {
      ReadsSound(s, e);
    }
    if rest :| ReadsAs(s, e, rest) {
      ReadsComplete(s, e, rest);
    }
  }

  /** A port name can be read back exactly when it is non-empty and free of "." and "[". */
  predicate Readable(e: End) {
    && e.port.name != [] && (forall i | 0 <= i < |e.port.name| :: NameChar(e.port.name[i]))
    && '\n' !in e.port.owner
  }

  lemma TailHasNoDot(name: string, n: nat, i: nat)
    requires (forall j | 0 <= j < |name| :: NameChar(name[j])) && i < |name + "[" + Dec(n) + "]"|
    ensures (name + "[" + Dec(n) + "]")[i] != '.'
  {
  }

  lemma SplitsAtOwner(e: End)
    requires Readable(e)
    ensures LastSplit(Str(e), |Str(e)|) == Some(|e.port.owner|)
    ensures Str(e)[..|e.port.owner|] == e.port.owner
    ensures Str(e)[|e.port.owner| + 1..] == e.port.name + ("[" + Dec(e.index) + "]")
  {
    hide LastSplit, Dec;
    var s, at := Str(e), |e.port.owner|;
    var tail := e.port.name + "[" + Dec(e.index) + "]";
    assert s == e.port.owner + ("." + tail);
    assert tail[0] == e.port.name[0];
    forall i | at < i < |s| ensures !IsSplit(s, i) {
      TailHasNoDot(e.port.name, e.index, i - at - 1);
      assert s[i] == tail[i - at - 1];
    }
    LastSplitIs(s, |s|, at);
  }

  lemma ReadableRoundTrip(e: End)
    requires Readable(e)
    ensures FromString(Str(e)) == Some(e)
  {
    hide LastSplit, NameLength, Index, Dec, Str;
    var index := "[" + Dec(e.index) + "]";
    var tail := e.port.name + index;
    SplitsAtOwner(e);
    NameLengthIs(e.port.name, index);
    assert tail[..|e.port.name|] == e.port.name && tail[|e.port.name|..] == index;
    IndexOfDec(e.index);
  }

  /** Reading back what was printed gives the same port element if and only if it is readable. */
  lemma StrRoundTrip(e: End)
    ensures FromString(Str(e)) == Some(e) <==> Readable(e)
  {
    if Readable(e) {
      ReadableRoundTrip(e);
    }
    if FromString(Str(e)) == Some(e) {
      var s := Str(e);
      var k := LastSplit(s, |s|).value;
      var tail := s[k + 1..];
      assert NameLength(tail) > 0;
    }
  }
}
