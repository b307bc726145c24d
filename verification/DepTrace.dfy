/**
 * The text form of dependency traces: util/decode_inst_dep_trace.py prints records of
 * src/proto/inst_dep_record.proto, util/encode_inst_dep_trace.py parses them back.
 */
module DepTrace {
  import opened Wrappers
  import opened Text

  const U32: int := 0x1_0000_0000
  const U64: int := 0x1_0000_0000_0000_0000

  datatype Kind = INVALID | LOAD | STORE | COMP

  datatype Record = Record(
    seqNum: nat, kind: Kind,
    pAddr: Option<nat>, size: Option<nat>, flags: Option<nat>,
    robDep: seq<nat>, compDelay: nat, regDep: seq<nat>,
    weight: Option<nat>, pc: Option<nat>, vAddr: Option<nat>, asid: Option<nat>)

  predicate Within(o: Option<nat>, bound: int) {
    o.Some? ==> o.value < bound
  }

  predicate AllWithin(s: seq<nat>, bound: int) {
    forall i | 0 <= i < |s| :: s[i] < bound
  }

  /** The widths of the fields. */
  predicate Typed(r: Record) {
    && r.seqNum < U64 && r.compDelay < U64 && AllWithin(r.robDep, U64) && AllWithin(r.regDep, U64)
    && Within(r.pAddr, U64) && Within(r.size, U32) && Within(r.flags, U32)
    && Within(r.weight, U32) && Within(r.pc, U64) && Within(r.vAddr, U64) && Within(r.asid, U32)
  }

  // ----- Printing.

  function KindName(k: Kind): string {
    match k
    case INVALID => "INVALID"
    case LOAD => "LOAD"
    case STORE => "STORE"
    case COMP => "COMP"
  }

  function Else(o: Option<nat>, default: nat): nat {
    if o.Some? then o.value else default
  }

  function Present(o: Option<nat>): seq<string> {
    if o.Some? then [Dec(o.value)] else []
  }

  function Items(r: Record): seq<string> {
    [Dec(r.seqNum)] + [Dec(Else(r.pc, 0))] + [Dec(Else(r.weight, 1))] + [KindName(r.kind)]
    + Present(r.pAddr) + Present(r.size) + Present(r.flags) + [Dec(r.compDelay)]
  }

  /** Every dependency with a comma before it. */
  function Deps(s: seq<nat>): string {
    if s == [] then "" else Deps(s[..|s| - 1]) + "," + Dec(s[|s| - 1])
  }

  /** What splitting them at the commas gives. */
  ghost function DepItems(s: seq<nat>): seq<string> {
    if s == [] then [""] else DepItems(s[..|s| - 1]) + [Dec(s[|s| - 1])]
  }

  function Content(r: Record): string {
    Join(Items(r), ',') + ":" + (Deps(r.robDep) + ":" + Deps(r.regDep))
  }

  function Line(r: Record): string {
    Content(r) + "\n"
  }

  // ----- Parsing.

  datatype ParseError = NotThreeParts | MissingField | BadNumber | OutOfRange | UnsupportedType | InvalidType

  /** long(): as int(), and an L right after the digits is allowed. */
  function ParseLong(s: string): Option<int> {
    var t := Strip(s);
    var n := |t| - 1;
    if n > 0 && (t[n] == 'L' || t[n] == 'l') && IsDigit(t[n - 1]) then ParseInt(t[..n]) else ParseInt(t)
  }

  /** A numeral, or one with an L after its digits. */
  ghost predicate LongNumeral(s: string, n: int) {
    || Numeral(s, n)
    || exists before, sign, digits, suffix, after :: LongParts(s, n, before, sign, digits, suffix, after)
  }

  ghost predicate LongParts(s: string, n: int, before: string, sign: string, digits: string,
                            suffix: string, after: string) {
    && s == before + (sign + digits + suffix) + after && Blank(before) && Blank(after) && suffix in {"L", "l"}
    && sign in {"", "+", "-"} && digits != [] && AllDigits(digits) && n == Signed(sign, digits)
  }

  lemma NumeralBare(s: string, n: int)
    requires Numeral(s, n) && Bare(s)
    ensures s != [] && IsDigit(s[|s| - 1])
    ensures exists sign, digits :: s == sign + digits && sign in {"", "+", "-"} && digits != [] && AllDigits(digits)
                                   && n == Signed(sign, digits)
  {
    hide White, Value;
    var before, sign, digits, after :| NumeralParts(s, n, before, sign, digits, after);
    assert before == [] && after == [];
    assert s == sign + digits;
    assert s[|s| - 1] == digits[|digits| - 1];
  }

  lemma LongSuffix(before: string, sign: string, digits: string, suffix: string, after: string)
    requires Blank(before) && Blank(after) && suffix in {"L", "l"}
    requires sign in {"", "+", "-"} && digits != [] && AllDigits(digits)
    ensures ParseLong(before + (sign + digits + suffix) + after) == Some(Signed(sign, digits))
  {
    hide White, Value, Strip, ParseInt, Signed;
    var t := sign + digits + suffix;
    var n := |t| - 1;
    assert IsDigit(digits[0]) && IsDigit(digits[|digits| - 1]);
    assert t[n] == suffix[0] && t[n - 1] == digits[|digits| - 1] && t[..n] == sign + digits;
    assert t[0] == if sign == "" then digits[0] else sign[0];
    SpaceIs(t[0]);
    SpaceIs(t[n]);
    StripIs(before, t, after);
    SignedParse("", sign, digits, "");
    assert "" + (sign + digits) + "" == sign + digits;
  }

  /** long() succeeds on such numerals only. */
  lemma ParseLongMeans(s: string, n: int)
    ensures ParseLong(s) == Some(n) <==> LongNumeral(s, n)
  {
    hide White, Value, Strip, ParseInt, Numeral, LongParts, Signed;
    var t := Strip(s);
    var before, after := StripMeans(s);
    ParseStripped(s);
    ParseIntMeans(s, n);
    if before', sign, digits, suffix, after' :| LongParts(s, n, before', sign, digits, suffix, after') {
      LongGiven(s, n, before', sign, digits, suffix, after');
    }
    var k := |t| - 1;
    if k > 0 && (t[k] == 'L' || t[k] == 'l') && IsDigit(t[k - 1]) {
      NoLetter(s, t, n);
      if ParseInt(t[..k]) == Some(n) {
        ParseIntMeans(t[..k], n);
        LongTaken(s, n, before, t, after);
      }
    }
  }

  lemma LongGiven(s: string, n: int, before: string, sign: string, digits: string, suffix: string, after: string)
    requires LongParts(s, n, before, sign, digits, suffix, after)
    ensures ParseLong(s) == Some(n)
  {
    hide ParseLong, Blank, AllDigits;
    LongSuffix(before, sign, digits, suffix, after);
  }

  /** What ends in a letter is no numeral. */
  lemma NoLetter(s: string, t: string, n: int)
    requires t == Strip(s) && t != [] && !IsDigit(t[|t| - 1])
    ensures !Numeral(s, n)
  {
    hide White, Value, Strip, ParseInt, Numeral;
    var before, after := StripMeans(s);
    if Numeral(s, n) {
      ParseIntMeans(s, n);
      ParseStripped(s);
      ParseIntMeans(t, n);
      NumeralBare(t, n);
    }
  }

  lemma LongTaken(s: string, n: int, before: string, t: string, after: string)
    requires s == before + t + after && Blank(before) && Blank(after) && Bare(t)
    requires var k := |t| - 1; k > 0 && (t[k] == 'L' || t[k] == 'l') && IsDigit(t[k - 1]) && Numeral(t[..k], n)
    ensures LongNumeral(s, n)
  {
    hide White, Value, Signed, Numeral;
    var k := |t| - 1;
    SpaceIs(t[k - 1]);
    NumeralBare(t[..k], n);
    var sign, digits :| t[..k] == sign + digits && sign in {"", "+", "-"} && digits != [] && AllDigits(digits)
                        && n == Signed(sign, digits);
    var suffix := if t[k] == 'L' then "L" else "l";
    assert t == sign + digits + suffix;
    assert LongParts(s, n, before, sign, digits, suffix, after);
  }

  function InRange(n: Option<int>, bound: int): (r: Result<nat, ParseError>)
    ensures r.Ok? ==> r.value < bound
  {
    if n == None then Err(BadNumber)
    else if 0 <= n.value < bound then Ok(n.value)
    else Err(OutOfRange)
  }

  function LongAt(items: seq<string>, i: nat, bound: int): (r: Result<nat, ParseError>)
    ensures r.Ok? ==> r.value < bound
  {
    if i < |items| then InRange(ParseLong(items[i]), bound) else Err(MissingField)
  }

  function IntAt(items: seq<string>, i: nat, bound: int): (r: Result<nat, ParseError>)
    ensures r.Ok? ==> r.value < bound
  {
    if i < |items| then InRange(ParseInt(items[i]), bound) else Err(MissingField)
  }

  function KindAt(items: seq<string>, i: nat): (r: Result<Kind, ParseError>)
    ensures r.Ok? ==> r.value != INVALID
  {
    if i >= |items| then Err(MissingField)
    else if items[i] == KindName(LOAD) then Ok(LOAD)
    else if items[i] == KindName(STORE) then Ok(STORE)
    else if items[i] == KindName(COMP) then Ok(COMP)
    else if items[i] == KindName(INVALID) then Err(InvalidType)
    else Err(UnsupportedType)
  }

  /** Empty items are skipped. */
  function ParseDeps(items: seq<string>): (r: Result<seq<nat>, ParseError>)
    ensures r.Ok? ==> AllWithin(r.value, U64)
  {
    if items == [] then Ok([])
    else
      var before :- ParseDeps(items[..|items| - 1]);
      if items[|items| - 1] == "" then Ok(before)
      else
        var d :- LongAt(items, |items| - 1, U64);
        Ok(before + [d])
  }

  /** The fields before the first colon. */
  function ParseInfo(items: seq<string>): (r: Result<Record, ParseError>)
    ensures r.Ok? ==> Typed(r.value) && Faithful(r.value)
  {
    var seqNum :- LongAt(items, 0, U64);
    var pc :- LongAt(items, 1, U64);
    var weight :- LongAt(items, 2, U32);
    var kind :- KindAt(items, 3);
    if kind == COMP then
      var compDelay :- LongAt(items, 4, U64);
      Ok(Record(seqNum, kind, None, None, None, [], compDelay, [], Some(weight), Some(pc), None, None))
    else if |items| < 8 then Err(MissingField)
    else
      var pAddr :- LongAt(items, 4, U64);
      var size :- IntAt(items, 5, U32);
      var flags :- IntAt(items, 6, U32);
      var compDelay :- LongAt(items, 7, U64);
      Ok(Record(seqNum, kind, Some(pAddr), Some(size), Some(flags), [], compDelay, [],
                Some(weight), Some(pc), None, None))
  }

  function Parse(line: string): (r: Result<Record, ParseError>)
    ensures r.Ok? ==> Typed(r.value) && Faithful(r.value)
  {
    var parts := Split(Strip(line), ':');
    if |parts| != 3 then Err(NotThreeParts)
    else
      var info :- ParseInfo(Split(parts[0], ','));
      var rob :- ParseDeps(Split(Strip(parts[1]), ','));
      var reg :- ParseDeps(Split(parts[2], ','));
      Ok(info.(robDep := rob, regDep := reg))
  }

  // ----- What a line means.

  /** The text of a field gives the value, and the value fits the field. */
  predicate Gives(n: Option<int>, value: nat, bound: int) {
    n == Some(value) && value < bound
  }

  ghost predicate Names(text: string, k: Kind) {
    match k
    case INVALID => text == "INVALID"
    case LOAD => text == "LOAD"
    case STORE => text == "STORE"
    case COMP => text == "COMP"
  }

  lemma KindNames(k: Kind)
    ensures Names(KindName(k), k) && forall text | Names(text, k) :: text == KindName(k)
  {
  }

  /** What the items before the first colon say about a record; further items are ignored. */
  ghost predicate InfoSays(items: seq<string>, r: Record) {
    && |items| >= (if r.kind == COMP then 5 else 8)
    && r.kind != INVALID && Names(items[3], r.kind)
    && r.pc.Some? && r.weight.Some? && r.vAddr == r.asid == None
    && Gives(ParseLong(items[0]), r.seqNum, U64) && Gives(ParseLong(items[1]), r.pc.value, U64)
    && Gives(ParseLong(items[2]), r.weight.value, U32)
    && if r.kind == COMP then
         r.pAddr == r.size == r.flags == None && Gives(ParseLong(items[4]), r.compDelay, U64)
       else
         && r.pAddr.Some? && r.size.Some? && r.flags.Some?
         && Gives(ParseLong(items[4]), r.pAddr.value, U64) && Gives(ParseInt(items[5]), r.size.value, U32)
         && Gives(ParseInt(items[6]), r.flags.value, U32) && Gives(ParseLong(items[7]), r.compDelay, U64)
  }

  function NonEmpty(items: seq<string>): seq<string> {
    if items == [] then []
    else
      var before, last := NonEmpty(items[..|items| - 1]), items[|items| - 1];
      if last == "" then before else before + [last]
  }

  /** The items that are not empty give the dependencies, in order. */
  ghost predicate DepsSay(items: seq<string>, deps: seq<nat>) {
    var named := NonEmpty(items);
    |named| == |deps| && forall i | 0 <= i < |deps| :: Gives(ParseLong(named[i]), deps[i], U64)
  }

  /** A line says a record: three parts, each of which says its fields. */
  ghost predicate LineSays(line: string, r: Record) {
    var parts := Split(Strip(line), ':');
    && |parts| == 3 && InfoSays(Split(parts[0], ','), r)
    && DepsSay(Split(Strip(parts[1]), ','), r.robDep) && DepsSay(Split(parts[2], ','), r.regDep)
  }

  lemma InfoMeaning(items: seq<string>, r: Record)
    ensures ParseInfo(items) == Ok(r) <==> InfoSays(items, r) && r.robDep == r.regDep == []
  {
    hide ParseLong, ParseInt;
    if |items| > 3 {
      forall k {
        KindMeaning(items, k);
      }
    }
  }

  lemma KindMeaning(items: seq<string>, k: Kind)
    requires |items| > 3
    ensures KindAt(items, 3) == Ok(k) <==> k != INVALID && Names(items[3], k)
  {
    KindNames(k);
    if items[3] == KindName(k) {
      KindRead(items, k);
    }
  }

  lemma {:induction false} DepsMeaning(items: seq<string>, deps: seq<nat>)
    ensures ParseDeps(items) == Ok(deps) <==> DepsSay(items, deps)
  {
    hide ParseLong;
    if items != [] {
      var init, last := items[..|items| - 1], items[|items| - 1];
      if last == "" {
        DepsMeaning(init, deps);
      } else if deps != [] {
        var n := |deps| - 1;
        assert deps == deps[..n] + [deps[n]];
        DepsMeaning(init, deps[..n]);
        DepsLast(init, last, deps);
      } else {
        assert NonEmpty(items) != [];
      }
    }
  }

  lemma DepsLast(init: seq<string>, last: string, deps: seq<nat>)
    requires last != "" && deps != []
    ensures var n := |deps| - 1;
            DepsSay(init + [last], deps) <==> DepsSay(init, deps[..n]) && Gives(ParseLong(last), deps[n], U64)
  {
    hide ParseLong;
    var n := |deps| - 1;
    var named := NonEmpty(init);
    assert (init + [last])[..|init|] == init;
    assert NonEmpty(init + [last]) == named + [last];
    assert |named| == n ==> (named + [last])[n] == last;
  }

  /** Parsing finds a record exactly when the line says it; no line says two. */
  lemma LineMeaning(line: string, r: Record)
    ensures Parse(line) == Ok(r) <==> LineSays(line, r)
  {
    hide Split, Strip, ParseInfo, ParseDeps, InfoSays, DepsSay;
    var parts := Split(Strip(line), ':');
    if |parts| == 3 {
      var bare := r.(robDep := [], regDep := []);
      InfoMeaning(Split(parts[0], ','), bare);
      InfoBare(Split(parts[0], ','), r);
      DepsMeaning(Split(Strip(parts[1]), ','), r.robDep);
      DepsMeaning(Split(parts[2], ','), r.regDep);
      InfoDeps(Split(parts[0], ','));
    }
  }

  // ----- What is wrong with a line that says no record.

  ghost predicate WrongNumber(n: Option<int>, bound: int, e: ParseError) {
    if n == None then e == BadNumber else !(0 <= n.value < bound) && e == OutOfRange
  }

  /** What is wrong with item k; the four items of a memory access are taken at once. */
  ghost predicate Wrong(items: seq<string>, k: nat, e: ParseError) {
    if k >= |items| then e == MissingField
    else if k == 3 then
      || (items[3] == "INVALID" && e == InvalidType)
      || (items[3] !in {"INVALID", "LOAD", "STORE", "COMP"} && e == UnsupportedType)
    else if k == 4 && items[3] != "COMP" && |items| < 8 then e == MissingField
    else
      var bound := if k in {2, 5, 6} then 0x1_0000_0000 else 0x1_0000_0000_0000_0000;
      WrongNumber(if k in {5, 6} then ParseInt(items[k]) else ParseLong(items[k]), bound, e)
  }

  ghost predicate Fine(items: seq<string>, k: nat) {
    forall e :: !Wrong(items, k, e)
  }

  /** How many items are looked at. */
  ghost function Needed(items: seq<string>): nat {
    if |items| > 3 && items[3] == "COMP" then 5 else 8
  }

  /** The first item that is wrong decides. */
  ghost predicate InfoWrong(items: seq<string>, e: ParseError) {
    exists k: nat | k < Needed(items) :: Wrong(items, k, e) && forall j: nat | j < k :: Fine(items, j)
  }

  lemma WrongNumbers(items: seq<string>, k: nat)
    requires k in {0, 1, 2, 5, 6, 7} || (k == 4 && !(|items| > 4 && items[3] != "COMP" && |items| < 8))
    ensures var r := if k in {5, 6} then IntAt(items, k, U32) else LongAt(items, k, if k == 2 then U32 else U64);
            (r.Ok? <==> Fine(items, k)) && (r.Err? ==> Wrong(items, k, r.error))
  {
    hide ParseInt, ParseLong;
    var r := if k in {5, 6} then IntAt(items, k, U32) else LongAt(items, k, if k == 2 then U32 else U64);
    if r.Err? {
      assert Wrong(items, k, r.error);
    }
  }

  lemma WrongKind(items: seq<string>)
    ensures var r := KindAt(items, 3);
            && (r.Ok? <==> Fine(items, 3)) && (r.Err? ==> Wrong(items, 3, r.error))
            && (r.Ok? ==> |items| > 3 && (r.value == COMP <==> items[3] == "COMP"))
  {
    var r := KindAt(items, 3);
    if r.Err? {
      assert Wrong(items, 3, r.error);
    }
  }

  lemma OneFault(items: seq<string>, k: nat, e: ParseError, f: ParseError)
    requires Wrong(items, k, e) && Wrong(items, k, f)
    ensures e == f
  {
    hide ParseInt, ParseLong;
  }

  lemma FirstFault(items: seq<string>, k: nat, e: ParseError)
    requires k < Needed(items) && Wrong(items, k, e) && forall j: nat | j < k :: Fine(items, j)
    ensures InfoWrong(items, e)
  {
  }

  ghost predicate HeadFine(items: seq<string>) {
    Fine(items, 0) && Fine(items, 1) && Fine(items, 2) && Fine(items, 3)
  }

  lemma HeadFault(items: seq<string>)
    requires !HeadFine(items)
    ensures ParseInfo(items).Err? && InfoWrong(items, ParseInfo(items).error)
  {
    hide LongAt, IntAt, KindAt, Wrong, Fine, InfoWrong;
    WrongNumbers(items, 0);
    WrongNumbers(items, 1);
    WrongNumbers(items, 2);
    WrongKind(items);
    var e := ParseInfo(items).error;
    if !Fine(items, 0) {
      FirstFault(items, 0, e);
    } else if !Fine(items, 1) {
      FirstFault(items, 1, e);
    } else if !Fine(items, 2) {
      FirstFault(items, 2, e);
    } else {
      FirstFault(items, 3, e);
    }
  }

  lemma HeadRead(items: seq<string>)
    requires HeadFine(items)
    ensures LongAt(items, 0, U64).Ok? && LongAt(items, 1, U64).Ok? && LongAt(items, 2, U32).Ok?
    ensures |items| > 3 && KindAt(items, 3).Ok? && (KindAt(items, 3).value == COMP <==> items[3] == "COMP")
  {
    hide LongAt, IntAt, KindAt, Wrong, Fine;
    WrongNumbers(items, 0);
    WrongNumbers(items, 1);
    WrongNumbers(items, 2);
    WrongKind(items);
  }

  lemma CompFault(items: seq<string>)
    requires HeadFine(items) && |items| > 3 && items[3] == "COMP"
    ensures var r := ParseInfo(items);
            if r.Ok? then Fine(items, 4) else InfoWrong(items, r.error)
  {
    hide LongAt, IntAt, KindAt, Wrong, Fine, InfoWrong;
    HeadRead(items);
    WrongNumbers(items, 4);
    var r := ParseInfo(items);
    if r.Err? {
      FirstFault(items, 4, r.error);
    }
  }

  lemma MemoryFault(items: seq<string>)
    requires HeadFine(items) && |items| > 3 && items[3] != "COMP"
    ensures var r := ParseInfo(items);
            if r.Ok? then Fine(items, 4) && Fine(items, 5) && Fine(items, 6) && Fine(items, 7)
            else InfoWrong(items, r.error)
  {
    HeadRead(items);
    if |items| < 8 {
      assert Wrong(items, 4, MissingField);
      hide LongAt, IntAt, KindAt, Wrong, Fine, InfoWrong;
      FirstFault(items, 4, MissingField);
    } else {
      hide LongAt, IntAt, KindAt, Wrong, Fine, InfoWrong;
      MemoryItemFault(items);
    }
  }

  lemma MemoryItemFault(items: seq<string>)
    requires HeadFine(items) && |items| >= 8 && items[3] != "COMP"
    ensures var r := ParseInfo(items);
            if r.Ok? then Fine(items, 4) && Fine(items, 5) && Fine(items, 6) && Fine(items, 7)
            else InfoWrong(items, r.error)
  {
    hide LongAt, IntAt, KindAt, Wrong, Fine, InfoWrong;
    HeadRead(items);
    WrongNumbers(items, 4);
    WrongNumbers(items, 5);
    WrongNumbers(items, 6);
    WrongNumbers(items, 7);
    var r := ParseInfo(items);
    if r.Err? {
      if !Fine(items, 4) {
        FirstFault(items, 4, r.error);
      } else if !Fine(items, 5) {
        FirstFault(items, 5, r.error);
      } else if !Fine(items, 6) {
        FirstFault(items, 6, r.error);
      } else {
        FirstFault(items, 7, r.error);
      }
    }
  }

  lemma InfoFault(items: seq<string>)
    ensures var r := ParseInfo(items);
            if r.Ok? then forall k: nat | k < Needed(items) :: Fine(items, k) else InfoWrong(items, r.error)
  {
    hide ParseInfo, Wrong, Fine, InfoWrong;
    if !HeadFine(items) {
      HeadFault(items);
    } else {
      HeadRead(items);
      if items[3] == "COMP" {
        CompFault(items);
      } else {
        MemoryFault(items);
      }
    }
  }

  lemma InfoFaults(items: seq<string>, e: ParseError)
    ensures ParseInfo(items) == Err(e) <==> InfoWrong(items, e)
  {
    hide ParseInfo, Wrong;
    InfoFault(items);
    if InfoWrong(items, e) {
      var k: nat :| k < Needed(items) && Wrong(items, k, e) && forall j: nat | j < k :: Fine(items, j);
      assert !Fine(items, k);
      var f := ParseInfo(items).error;
      var l: nat :| l < Needed(items) && Wrong(items, l, f) && forall j: nat | j < l :: Fine(items, j);
      assert !Fine(items, l);
      assert k == l;
      OneFault(items, k, e, f);
    }
  }

  /** The first dependency that is no number in range decides. */
  ghost predicate DepsWrong(items: seq<string>, e: ParseError) {
    exists k: nat | k < |items| :: BadDep(items[k], e) && forall j: nat | j < k :: GoodDep(items[j])
  }

  ghost predicate BadDep(item: string, e: ParseError) {
    item != "" && WrongNumber(ParseLong(item), 0x1_0000_0000_0000_0000, e)
  }

  ghost predicate GoodDep(item: string) {
    item == "" || (ParseLong(item).Some? && 0 <= ParseLong(item).value < 0x1_0000_0000_0000_0000)
  }

  ghost predicate DepsGood(items: seq<string>) {
    forall j: nat | j < |items| :: GoodDep(items[j])
  }

  lemma DepsWrongMore(init: seq<string>, last: string, e: ParseError)
    ensures DepsWrong(init + [last], e) <==> DepsWrong(init, e) || (DepsGood(init) && BadDep(last, e))
    ensures DepsGood(init + [last]) <==> DepsGood(init) && GoodDep(last)
  {
    hide BadDep, GoodDep;
    var items, n := init + [last], |init|;
    assert items[n] == last && forall j: nat | j < n :: items[j] == init[j];
    if DepsWrong(init, e) {
      var k: nat :| k < n && BadDep(init[k], e) && forall j: nat | j < k :: GoodDep(init[j]);
      assert BadDep(items[k], e);
    }
    if DepsWrong(items, e) {
      var k: nat :| k < |items| && BadDep(items[k], e) && forall j: nat | j < k :: GoodDep(items[j]);
      if k < n {
        assert BadDep(init[k], e);
      }
    }
  }

  lemma ParseDepsMore(init: seq<string>, last: string, e: ParseError)
    ensures var r, s := ParseDeps(init + [last]), ParseDeps(init);
            && (r == Err(e) <==> s == Err(e) || (s.Ok? && BadDep(last, e))) && (r.Ok? <==> s.Ok? && GoodDep(last))
  {
    hide ParseLong;
    assert (init + [last])[..|init|] == init;
  }

  lemma {:induction false} DepsFaults(items: seq<string>, e: ParseError)
    ensures ParseDeps(items) == Err(e) <==> DepsWrong(items, e)
    ensures ParseDeps(items).Ok? <==> DepsGood(items)
  {
    if items != [] {
      hide ParseDeps, DepsWrong, DepsGood, BadDep, GoodDep;
      var n := |items| - 1;
      assert items == items[..n] + [items[n]];
      DepsFaults(items[..n], e);
      DepsWrongMore(items[..n], items[n], e);
      ParseDepsMore(items[..n], items[n], e);
    }
  }

  /** What is wrong with a line: the parts, then the first part, then the second, then the third. */
  ghost predicate LineWrong(line: string, e: ParseError) {
    var parts := Split(Strip(line), ':');
    if |parts| != 3 then e == NotThreeParts
    else
      var info, rob, reg := Split(parts[0], ','), Split(Strip(parts[1]), ','), Split(parts[2], ',');
      || InfoWrong(info, e)
      || ((forall f :: !InfoWrong(info, f)) && DepsWrong(rob, e))
      || ((forall f :: !InfoWrong(info, f)) && (forall f :: !DepsWrong(rob, f)) && DepsWrong(reg, e))
  }

  lemma LineFaults(line: string, e: ParseError)
    ensures Parse(line) == Err(e) <==> LineWrong(line, e)
  {
    hide Split, Strip, ParseInfo, ParseDeps, InfoWrong, DepsWrong;
    var parts := Split(Strip(line), ':');
    if |parts| == 3 {
      var info, rob, reg := Split(parts[0], ','), Split(Strip(parts[1]), ','), Split(parts[2], ',');
      forall f ensures ParseInfo(info) == Err(f) <==> InfoWrong(info, f) {
        InfoFaults(info, f);
      }
      forall f ensures ParseDeps(rob) == Err(f) <==> DepsWrong(rob, f) {
        DepsFaults(rob, f);
      }
      forall f ensures ParseDeps(reg) == Err(f) <==> DepsWrong(reg, f) {
        DepsFaults(reg, f);
      }
    }
  }

  lemma InfoBare(items: seq<string>, r: Record)
    ensures InfoSays(items, r.(robDep := [], regDep := [])) <==> InfoSays(items, r)
  {
  }

  lemma InfoDeps(items: seq<string>)
    ensures ParseInfo(items).Ok? ==> ParseInfo(items).value.robDep == ParseInfo(items).value.regDep == []
  {
  }

  // ----- Reading back one record.

  /** The records that the text form can express. */
  predicate Faithful(r: Record) {
    && r.kind != INVALID && r.vAddr == None && r.asid == None
    && (if r.kind == COMP then r.pAddr == r.size == r.flags == None
        else r.pAddr.Some? && r.size.Some? && r.flags.Some?)
  }

  function Normal(r: Record): Record {
    r.(pc := Some(Else(r.pc, 0)), weight := Some(Else(r.weight, 1)))
  }

  lemma StripNewline(s: string)
    requires s != [] && !IsSpace(s[0]) && !IsSpace(s[|s| - 1])
    ensures Strip(s + "\n") == s
  {
  }

  lemma NumberOfDec(n: nat)
    ensures ParseInt(Dec(n)) == Some(n) && ParseLong(Dec(n)) == Some(n)
  {
    var s := Dec(n);
    assert IsDigit(s[0]) && IsDigit(s[|s| - 1]);
    StripBare(s);
    ParseOfDec(n);
  }

  /** No separator and no white space. */
  predicate Plain(s: string) {
    ',' !in s && ':' !in s && (forall i | 0 <= i < |s| :: !IsSpace(s[i]))
  }

  lemma PlainDec(n: nat)
    ensures Plain(Dec(n)) && Dec(n) != ""
  {
  }

  lemma ItemsPlain(r: Record)
    ensures Items(r) != [] && forall i | 0 <= i < |Items(r)| :: Plain(Items(r)[i]) && Items(r)[i] != ""
  {
    forall n: nat ensures Plain(Dec(n)) {
      PlainDec(n);
    }
    hide Dec;
    assert Plain(KindName(r.kind));
  }

  lemma {:induction false} JoinPlain(parts: seq<string>)
    requires parts != [] && forall i | 0 <= i < |parts| :: Plain(parts[i]) && parts[i] != ""
    ensures ':' !in Join(parts, ',') && '\n' !in Join(parts, ',')
    ensures Join(parts, ',') != "" && Join(parts, ',')[0] == parts[0][0]
  {
    if |parts| > 1 {
      JoinPlain(parts[1..]);
    }
  }

  lemma {:induction false} DepsSplit(s: seq<nat>)
    ensures Split(Deps(s), ',') == DepItems(s)
    ensures ':' !in Deps(s) && (forall i | 0 <= i < |Deps(s)| :: !IsSpace(Deps(s)[i]))
  {
    if s != [] {
      var n := |s| - 1;
      DepsSplit(s[..n]);
      PlainDec(s[n]);
      SplitAppend(Deps(s[..n]), ',', Dec(s[n]));
    }
  }

  lemma {:induction false} SplitAppend(s: string, sep: char, t: string)
    requires sep !in t
    ensures Split(s + [sep] + t, sep) == Split(s, sep) + [t]
  {
    var whole := s + [sep] + t;
    if s == [] {
      SplitAt(s, sep, t);
      SplitNone(t, sep);
    } else {
      assert whole[1..] == s[1..] + [sep] + t;
      SplitAppend(s[1..], sep, t);
    }
  }

  lemma {:induction false} DepsParsed(s: seq<nat>)
    requires AllWithin(s, U64)
    ensures ParseDeps(DepItems(s)) == Ok(s)
  {
    hide ParseDeps, Dec, ParseLong, ParseInt, Plain;
    if s == [] {
      NoDeps();
    } else {
      var init, n := s[..|s| - 1], s[|s| - 1];
      DepsParsed(init);
      PlainDec(n);
      NumberOfDec(n);
      DepsOneMore(DepItems(init), init, n);
      assert init + [n] == s;
    }
  }

  lemma NoDeps()
    ensures ParseDeps([""]) == Ok([])
  {
    assert [""][..0] == [];
  }

  lemma DepsOneMore(items: seq<string>, deps: seq<nat>, n: nat)
    requires ParseDeps(items) == Ok(deps) && n < U64 && ParseLong(Dec(n)) == Some(n) && Dec(n) != ""
    ensures ParseDeps(items + [Dec(n)]) == Ok(deps + [n])
  {
    hide ParseLong, Dec;
    assert (items + [Dec(n)])[..|items|] == items;
  }

  lemma ReadAt(items: seq<string>, i: nat, n: nat, bound: int)
    requires i < |items| && items[i] == Dec(n) && n < bound
    ensures LongAt(items, i, bound) == Ok(n) && IntAt(items, i, bound) == Ok(n)
  {
    hide ParseLong, ParseInt, Dec;
    NumberOfDec(n);
  }

  lemma ItemsParsed(r: Record)
    requires Typed(r) && Faithful(r)
    ensures ParseInfo(Items(r)) == Ok(Normal(r).(robDep := [], regDep := []))
  {
    hide Dec, KindName, LongAt, IntAt, KindAt;
    var items := Items(r);
    KindRead(items, r.kind);
    ReadAt(items, 0, r.seqNum, U64);
    ReadAt(items, 1, Else(r.pc, 0), U64);
    ReadAt(items, 2, Else(r.weight, 1), U32);
    if r.kind == COMP {
      ReadAt(items, 4, r.compDelay, U64);
    } else {
      MemoryItems(r);
      ReadAt(items, 4, r.pAddr.value, U64);
      ReadAt(items, 5, r.size.value, U32);
      ReadAt(items, 6, r.flags.value, U32);
      ReadAt(items, 7, r.compDelay, U64);
    }
  }

  lemma MemoryItems(r: Record)
    requires r.pAddr.Some? && r.size.Some? && r.flags.Some?
    ensures var items := Items(r);
            |items| == 8 && items[4] == Dec(r.pAddr.value) && items[5] == Dec(r.size.value) &&
            items[6] == Dec(r.flags.value) && items[7] == Dec(r.compDelay)
  {
  }

  lemma KindRead(items: seq<string>, k: Kind)
    requires |items| > 3 && items[3] == KindName(k)
    ensures KindAt(items, 3) == if k == INVALID then Err(InvalidType) else Ok(k)
  {
  }

  lemma FaithfulNormal(r: Record, p: Record)
    requires Faithful(p) && !Faithful(r)
    ensures p != Normal(r)
  {
  }

  /** Parsing the printed line gives back the record, defaults filled in, exactly when it is faithful. */
  lemma LineRoundTrip(r: Record)
    requires Typed(r)
    ensures Parse(Line(r)) == Ok(Normal(r)) <==> Faithful(r)
  {
    hide ParseInfo, ParseDeps, Split, Strip, Items, Deps, DepItems, Line, Normal, Typed;
    if !Faithful(r) {
      hide Faithful;
      if Parse(Line(r)).Ok? {
        FaithfulNormal(r, Parse(Line(r)).value);
      }
      return;
    }
    hide Faithful;
    LineParts(r);
    DepsSplit(r.robDep);
    DepsSplit(r.regDep);
    StripBare(Deps(r.robDep));
    TypedDeps(r);
    DepsParsed(r.robDep);
    DepsParsed(r.regDep);
    ItemsParsed(r);
    NormalDeps(r);
  }

  lemma TypedDeps(r: Record)
    requires Typed(r)
    ensures AllWithin(r.robDep, U64) && AllWithin(r.regDep, U64)
  {
  }

  lemma NormalDeps(r: Record)
    ensures Normal(r).(robDep := [], regDep := []).(robDep := r.robDep, regDep := r.regDep) == Normal(r)
  {
  }

  lemma LineParts(r: Record)
    ensures Split(Strip(Line(r)), ':') == [Join(Items(r), ','), Deps(r.robDep), Deps(r.regDep)]
    ensures Split(Join(Items(r), ','), ',') == Items(r)
    ensures '\n' !in Content(r)
  {
    hide Items, Deps, Split, Join, Strip;
    var info, rob, reg := Join(Items(r), ','), Deps(r.robDep), Deps(r.regDep);
    ItemsPlain(r);
    JoinPlain(Items(r));
    SplitOfJoin(Items(r), ',');
    DepsSplit(r.robDep);
    DepsSplit(r.regDep);
    var c := Content(r);
    assert c[0] == info[0] == Items(r)[0][0];
    assert c[|c| - 1] == if reg == "" then ':' else reg[|reg| - 1];
    StripNewline(c);
    SplitAt(info, ':', rob + ":" + reg);
    SplitAt(rob, ':', reg);
    SplitNone(reg, ':');
  }

  // ----- Reading back a trace.

  function TraceText(records: seq<Record>): string {
    if records == [] then "" else TraceText(records[..|records| - 1]) + Line(records[|records| - 1])
  }

  /** Iterating over a text file: lines keep their newline. */
  function Lines(s: string): seq<string> {
    if s == [] then []
    else
      var rest := Lines(s[1..]);
      if s[0] == '\n' || rest == [] then [[s[0]]] + rest else [[s[0]] + rest[0]] + rest[1..]
  }

  /** The first error ends the conversion. */
  function ParseTrace(lines: seq<string>): Result<seq<Record>, ParseError> {
    if lines == [] then Ok([])
    else
      var before :- ParseTrace(lines[..|lines| - 1]);
      var r :- Parse(lines[|lines| - 1]);
      Ok(before + [r])
  }

  ghost function NormalAll(records: seq<Record>): seq<Record> {
    if records == [] then [] else NormalAll(records[..|records| - 1]) + [Normal(records[|records| - 1])]
  }

  lemma {:induction false} OneLine(t: string)
    requires '\n' !in t
    ensures Lines(t + "\n") == [t + "\n"]
  {
    if t == [] {
      assert t + "\n" == "\n" && "\n"[1..] == [];
      assert Lines("\n"[1..]) == [];
    } else {
      assert (t + "\n")[1..] == t[1..] + "\n";
      OneLine(t[1..]);
      assert [t[0]] + (t[1..] + "\n") == t + "\n";
    }
  }

  lemma {:induction false} LinesAppend(s: string, t: string)
    requires '\n' !in t && (s != [] ==> s[|s| - 1] == '\n')
    ensures Lines(s + (t + "\n")) == Lines(s) + [t + "\n"]
  {
    if s == [] {
      assert s + (t + "\n") == t + "\n";
      OneLine(t);
    } else {
      assert (s + (t + "\n"))[1..] == s[1..] + (t + "\n");
      LinesAppend(s[1..], t);
    }
  }

  ghost function LineList(records: seq<Record>): seq<string> {
    if records == [] then [] else LineList(records[..|records| - 1]) + [Line(records[|records| - 1])]
  }

  lemma {:induction false} TraceLines(records: seq<Record>)
    ensures TraceText(records) != "" ==> TraceText(records)[|TraceText(records)| - 1] == '\n'
    ensures Lines(TraceText(records)) == LineList(records)
  {
    if records != [] {
      var n := |records| - 1;
      hide Lines, Content;
      TraceLines(records[..n]);
      LineParts(records[n]);
      LinesAppend(TraceText(records[..n]), Content(records[n]));
    }
  }

  predicate AllTyped(records: seq<Record>) {
    forall i | 0 <= i < |records| :: Typed(records[i])
  }

  predicate AllFaithful(records: seq<Record>) {
    forall i | 0 <= i < |records| :: Faithful(records[i])
  }

  /** A whole trace comes back, defaults filled in, exactly when all its records are faithful. */
  lemma TraceRoundTrip(records: seq<Record>)
    requires AllTyped(records)
    ensures ParseTrace(Lines(TraceText(records))) == Ok(NormalAll(records)) <==> AllFaithful(records)
  {
    hide Lines, TraceText, LineList, AllTyped, AllFaithful, ParseTrace, NormalAll;
    TraceLines(records);
    LinesRoundTrip(records);
  }

  lemma {:induction false} LinesRoundTrip(records: seq<Record>)
    requires AllTyped(records)
    ensures ParseTrace(LineList(records)) == Ok(NormalAll(records)) <==> AllFaithful(records)
    ensures ParseTrace(LineList(records)).Ok? ==> |ParseTrace(LineList(records)).value| == |records|
    ensures |NormalAll(records)| == |records|
  {
    hide Line, Parse, Normal, Faithful, Typed, ParseTrace, AllFaithful, AllTyped;
    if records == [] {
      NoLines();
    } else {
      var init, last := records[..|records| - 1], records[|records| - 1];
      assert records == init + [last];
      AllButLast(init, last);
      LinesRoundTrip(init);
      LineRoundTrip(last);
      ParseOneMore(LineList(init), Line(last));
      var p := ParseTrace(LineList(init));
      if p.Ok? && Parse(Line(last)).Ok? {
        SameParts(p.value, Parse(Line(last)).value, NormalAll(init), Normal(last));
      }
    }
  }

  lemma NoLines()
    ensures ParseTrace([]) == Ok([]) && AllFaithful([])
  {
  }

  lemma AllButLast(init: seq<Record>, last: Record)
    ensures AllTyped(init + [last]) <==> AllTyped(init) && Typed(last)
    ensures AllFaithful(init + [last]) <==> AllFaithful(init) && Faithful(last)
  {
    hide Typed, Faithful;
    var all := init + [last];
    assert all[|init|] == last && forall i | 0 <= i < |init| :: all[i] == init[i];
  }

  lemma ParseOneMore(lines: seq<string>, line: string)
    ensures ParseTrace(lines + [line]) ==
            if ParseTrace(lines).Err? then ParseTrace(lines)
            else if Parse(line).Err? then Err(Parse(line).error)
            else Ok(ParseTrace(lines).value + [Parse(line).value])
  {
    hide Parse;
    assert (lines + [line])[..|lines|] == lines;
  }

  lemma SameParts<T>(a: seq<T>, x: T, b: seq<T>, y: T)
    requires |a| == |b|
    ensures a + [x] == b + [y] <==> a == b && x == y
  {
    assert (a + [x])[..|a|] == a && (b + [y])[..|b|] == b;
    assert (a + [x])[|a|] == x && (b + [y])[|b|] == y;
  }

  // ----- The scripts' loops.

  lemma {:induction false} JoinAppend(parts: seq<string>, x: string)
    requires parts != []
    ensures Join(parts + [x], ',') == Join(parts, ',') + "," + x
  {
    if |parts| > 1 {
      JoinAppend(parts[1..], x);
      assert (parts + [x])[1..] == parts[1..] + [x];
    }
  }

  method WriteDeps(deps: seq<nat>) returns (out: string)
    ensures out == Deps(deps)
  {
    out := "";
    for i := 0 to |deps|
      invariant out == Deps(deps[..i])
    {
      assert deps[..i + 1][..i] == deps[..i];
      out := out + "," + Dec(deps[i]);
    }
    assert deps[..|deps|] == deps;
  }

  /** One more item after a comma. */
  method WriteItem(out: string, ghost items: seq<string>, item: string) returns (more: string, ghost all: seq<string>)
    requires items != [] && out == Join(items, ',')
    ensures all == items + [item] && more == Join(all, ',')
  {
    JoinAppend(items, item);
    more, all := out + "," + item, items + [item];
  }

  method WriteOptional(out: string, ghost items: seq<string>, field: Option<nat>)
    returns (more: string, ghost all: seq<string>)
    requires items != [] && out == Join(items, ',')
    ensures all == items + Present(field) && more == Join(all, ',')
  {
    more, all := out, items;
    if field.Some? {
      more, all := WriteItem(more, all, Dec(field.value));
    }
  }

  method WriteInfo(r: Record) returns (out: string)
    ensures out == Join(Items(r), ',')
  {
    JoinOne(Dec(r.seqNum));
    hide Join, Dec, KindName, Present;
    ghost var items := [Dec(r.seqNum)];
    out := Dec(r.seqNum);
    out, items := WriteItem(out, items, if r.pc.Some? then Dec(r.pc.value) else Dec(0));
    out, items := WriteItem(out, items, if r.weight.Some? then Dec(r.weight.value) else Dec(1));
    out, items := WriteItem(out, items, KindName(r.kind));
    out, items := WriteOptional(out, items, r.pAddr);
    out, items := WriteOptional(out, items, r.size);
    out, items := WriteOptional(out, items, r.flags);
    out, items := WriteItem(out, items, Dec(r.compDelay));
  }

  method WriteRecord(r: Record) returns (out: string)
    ensures out == Line(r)
  {
    hide Join, Items, Deps;
    out := WriteInfo(r);
    out := out + ":";
    var rob := WriteDeps(r.robDep);
    var reg := WriteDeps(r.regDep);
    out := out + (rob + ":" + reg);
    out := out + "\n";
  }

  lemma JoinOne(s: string)
    ensures Join([s], ',') == s
  {
  }

  /** The loop of the printing script. */
  method WriteTrace(records: seq<Record>) returns (out: string)
    ensures out == TraceText(records)
  {
    out := "";
    for i := 0 to |records|
      invariant out == TraceText(records[..i])
    {
      var line := WriteRecord(records[i]);
      assert records[..i + 1][..i] == records[..i];
      out := out + line;
    }
    assert records[..|records|] == records;
  }

  lemma {:induction false} DepsErr(items: seq<string>, i: nat)
    requires i <= |items| && ParseDeps(items[..i]).Err?
    ensures ParseDeps(items) == ParseDeps(items[..i])
    decreases |items| - i
  {
    if i < |items| {
      assert items[..i + 1][..i] == items[..i];
      DepsErr(items, i + 1);
    } else {
      assert items[..i] == items;
    }
  }

  /** Appending the dependencies of a list to a record. */
  method ReadDeps(items: seq<string>) returns (r: Result<seq<nat>, ParseError>)
    ensures r == ParseDeps(items)
    ensures forall deps :: r == Ok(deps) <==> DepsSay(items, deps)
    ensures forall e :: r == Err(e) <==> DepsWrong(items, e)
  {
    forall deps {
      DepsMeaning(items, deps);
    }
    forall e {
      DepsFaults(items, e);
    }
    hide DepsSay, DepsWrong, ParseLong;
    var deps: seq<nat> := [];
    for i := 0 to |items|
      invariant ParseDeps(items[..i]) == Ok(deps)
    {
      assert items[..i + 1][..i] == items[..i];
      if items[i] != "" {
        var d := InRange(ParseLong(items[i]), U64);
        if d.Err? {
          DepsErr(items, i + 1);
          return Err(d.error);
        }
        deps := deps + [d.value];
      }
    }
    assert items[..|items|] == items;
    r := Ok(deps);
  }

  lemma {:induction false} TraceErr(lines: seq<string>, i: nat)
    requires i <= |lines| && ParseTrace(lines[..i]).Err?
    ensures ParseTrace(lines) == ParseTrace(lines[..i])
    decreases |lines| - i
  {
    if i < |lines| {
      assert lines[..i + 1][..i] == lines[..i];
      TraceErr(lines, i + 1);
    } else {
      assert lines[..i] == lines;
    }
  }

  /** The loop of the parsing script. */
  method ReadTrace(lines: seq<string>) returns (r: Result<seq<Record>, ParseError>)
    ensures r == ParseTrace(lines)
  {
    hide Split, Strip, ParseInfo, ParseDeps, Parse, LineSays, LineWrong, Line, Typed, Faithful, Normal;
    var records: seq<Record> := [];
    for i := 0 to |lines|
      invariant ParseTrace(lines[..i]) == Ok(records)
    {
      assert lines[..i + 1][..i] == lines[..i];
      var one := ReadLine(lines[i]);
      if one.Err? {
        TraceErr(lines, i + 1);
        return Err(one.error);
      }
      records := records + [one.value];
    }
    assert lines[..|lines|] == lines;
    r := Ok(records);
  }

  /** The fields before the first colon, in the order of the script. */
  method ReadInfo(items: seq<string>) returns (r: Result<Record, ParseError>)
    ensures r == ParseInfo(items)
  {
    hide ParseLong, ParseInt, KindName;
    var seqNum :- LongAt(items, 0, U64);
    var pc :- LongAt(items, 1, U64);
    var weight :- LongAt(items, 2, U32);
    var kind :- KindAt(items, 3);
    var rec := Record(seqNum, kind, None, None, None, [], 0, [], Some(weight), Some(pc), None, None);
    if kind == LOAD || kind == STORE {
      if |items| < 8 {
        return Err(MissingField);
      }
      var fields := items[4..8];
      assert forall j: nat | j < 4 :: fields[j] == items[4 + j];
      var pAddr :- LongAt(fields, 0, U64);
      rec := rec.(pAddr := Some(pAddr));
      var size :- IntAt(fields, 1, U32);
      rec := rec.(size := Some(size));
      var flags :- IntAt(fields, 2, U32);
      rec := rec.(flags := Some(flags));
      var compDelay :- LongAt(fields, 3, U64);
      rec := rec.(compDelay := compDelay);
    } else {
      var compDelay :- LongAt(items, 4, U64);
      rec := rec.(compDelay := compDelay);
    }
    r := Ok(rec);
  }

  /**
   * One line of the text. The record is the one that the line says, if it says one; the line of
   * a record gives that record, with its defaults, exactly when it is faithful.
   */
  method ReadLine(line: string) returns (r: Result<Record, ParseError>)
    ensures forall rec :: r == Ok(rec) <==> LineSays(line, rec)
    ensures forall e :: r == Err(e) <==> LineWrong(line, e)
    ensures r.Ok? ==> Typed(r.value) && Faithful(r.value)
    ensures forall rec | Typed(rec) && line == Line(rec) :: r == Ok(Normal(rec)) <==> Faithful(rec)
    ensures r == Parse(line)
  {
    hide Split, Strip, ParseInfo, ParseDeps, LineSays, LineWrong, Line, Typed, Faithful, Normal;
    forall rec {
      LineMeaning(line, rec);
    }
    forall e {
      LineFaults(line, e);
    }
    forall rec | Typed(rec) && line == Line(rec) ensures Parse(line) == Ok(Normal(rec)) <==> Faithful(rec) {
      LineRoundTrip(rec);
    }
    var parts := Split(Strip(line), ':');
    if |parts| != 3 {
      return Err(NotThreeParts);
    }
    var info := ReadInfo(Split(parts[0], ','));
    if info.Err? {
      return Err(info.error);
    }
    var rob := ReadDeps(Split(Strip(parts[1]), ','));
    if rob.Err? {
      return Err(rob.error);
    }
    var reg := ReadDeps(Split(parts[2], ','));
    if reg.Err? {
      return Err(reg.error);
    }
    r := Ok(info.value.(robDep := rob.value, regDep := reg.value));
  }
}
