/**
 * Length-prefixed message streams, as util/protolib.py writes and reads them. The prefix is a base
 * 128 varint ("Base 128 Varints" in the Protocol Buffers encoding specification); serialised
 * messages are opaque byte strings.
 */
module Protolib {
  import opened Wrappers
  import opened Arithmetic

  type Byte = b: int | 0 <= b < 256

  const WORD: int := 0x1_0000_0000
  const MAX_LENGTH: int := 0x8000_0000_0000_0000 // the lengths a Python string can have lie below

  // ----- Varints.

  /** Seven bits per byte, low bits first; all but the last byte have the top bit set. */
  function Varint(v: nat): seq<Byte> {
    if v < 128 then [v] else [128 + v % 128] + Varint(v / 128)
  }

  function Power128(n: nat): nat {
    if n == 0 then 1 else 128 * Power128(n - 1)
  }

  /** The number whose base 128 digits are the low seven bits of the bytes. */
  function Low(s: seq<Byte>): nat {
    if s == [] then 0 else s[0] % 128 + 128 * Low(s[1..])
  }

  /** How many leading bytes have the top bit set. */
  function Continued(s: seq<Byte>): (k: nat)
    ensures k <= |s| && (forall i | 0 <= i < k :: s[i] >= 128) && (k < |s| ==> s[k] < 128)
  {
    if s == [] || s[0] < 128 then 0 else 1 + Continued(s[1..])
  }

  /** The 32-bit mask, with the sign kept of what would be a negative 64-bit number. */
  function Masked(v: nat): int {
    if v >= MAX_LENGTH then v % WORD - WORD else v % WORD
  }

  datatype Header = Size(size: int, pos: nat) | TooManyBytes

  /** What the reader makes of the start of a stream; the end of the stream gives size 0. */
  function DecodeHeader(s: seq<Byte>): Header {
    var k := Continued(s);
    if k >= 10 then TooManyBytes
    else if k == |s| then Size(0, 0)
    else Size(Masked(Low(s[..k + 1])), k + 1)
  }

  function Min(a: int, b: int): int {
    if a <= b then a else b
  }

  /** The bytes read for the header: up to the end of the varint, at most ten. */
  function HeaderLength(s: seq<Byte>): nat {
    Min(Min(Continued(s) + 1, |s|), 10)
  }

  /** read(n): everything if n is negative, and fewer bytes than asked for at the end. */
  function Taken(s: seq<Byte>, n: int): (k: nat)
    ensures k <= |s|
  {
    if n < 0 then |s| else Min(n, |s|)
  }

  /** The message at the start of a stream and what follows it. */
  function DecodeOne(s: seq<Byte>): (r: Option<(seq<Byte>, seq<Byte>)>)
    ensures r.Some? ==> |r.value.1| < |s|
  {
    match DecodeHeader(s)
    case TooManyBytes => None
    case Size(size, pos) =>
      if size == 0 then None
      else
        var rest := s[pos..];
        var n := Taken(rest, size);
        Some((rest[..n], rest[n..]))
  }

  function DecodeAll(s: seq<Byte>): seq<seq<Byte>> {
    match DecodeOne(s)
    case None => []
    case Some((message, rest)) => [message] + DecodeAll(rest)
  }

  function EncodeOne(message: seq<Byte>): seq<Byte> {
    Varint(|message|) + message
  }

  function EncodeAll(messages: seq<seq<Byte>>): seq<Byte> {
    if messages == [] then [] else EncodeOne(messages[0]) + EncodeAll(messages[1..])
  }

  // ----- Reading back one varint.

  lemma {:induction false} VarintLength(v: nat, n: nat)
    requires v < Power128(n) && n > 0
    ensures 0 < |Varint(v)| <= n
  {
    if v >= 128 {
      assert v / 128 < Power128(n - 1);
      VarintLength(v / 128, n - 1);
    }
  }

  lemma {:induction false} VarintEnds(v: nat, rest: seq<Byte>)
    ensures |Varint(v)| > 0 && Continued(Varint(v) + rest) == |Varint(v)| - 1
  {
    var s := Varint(v) + rest;
    if v >= 128 {
      var tail := Varint(v / 128);
      VarintEnds(v / 128, rest);
      assert s[0] >= 128 && s[1..] == tail + rest;
    }
  }

  lemma {:induction false} VarintLow(v: nat)
    ensures Low(Varint(v)) == v
  {
    if v < 128 {
      assert [v as Byte][1..] == [];
    } else {
      VarintLow(v / 128);
      assert Varint(v)[1..] == Varint(v / 128);
    }
  }

  lemma {:induction false} DivPower(v: nat, i: nat)
    ensures Power128(i) > 0 && v / 128 / Power128(i) == v / Power128(i + 1)
  {
    PowerPositive(i);
    var p := Power128(i);
    var q, r := v / 128 / p, v / 128 % p;
    assert v / 128 == q * p + r && v == v / 128 * 128 + v % 128;
    assert v == q * (128 * p) + (r * 128 + v % 128);
    assert r * 128 + v % 128 < 128 * p;
    DivIs(v, 128 * p, q, r * 128 + v % 128);
  }

  lemma {:induction false} PowerPositive(n: nat)
    ensures Power128(n) > 0
  {
    if n > 0 {
      PowerPositive(n - 1);
    }
  }

  /** Byte i holds the base 128 digit i of the number, and the top bit unless it is the last byte. */
  lemma {:induction false} VarintByte(v: nat, i: nat)
    requires i < |Varint(v)|
    ensures Power128(i) > 0
    ensures Varint(v)[i] == v / Power128(i) % 128 + if i + 1 < |Varint(v)| then 128 else 0
  {
    PowerPositive(i);
    if v >= 128 && i > 0 {
      VarintByte(v / 128, i - 1);
      DivPower(v, i - 1);
    }
  }

  /** A varint reads back as its value modulo 2^32, and exactly its own bytes are consumed. */
  lemma VarintRoundTrip(v: nat, rest: seq<Byte>)
    requires v < 0x8000_0000_0000_0000
    ensures DecodeHeader(Varint(v) + rest) == Size(v % 0x1_0000_0000, |Varint(v)|)
    ensures HeaderLength(Varint(v) + rest) == |Varint(v)|
    ensures (Varint(v) + rest)[|Varint(v)|..] == rest
  {
    NinthPower();
    VarintLength(v, 9);
    VarintEnds(v, rest);
    VarintLow(v);
    var s := Varint(v) + rest;
    assert s[..|Varint(v)|] == Varint(v);
  }

  lemma NinthPower()
    ensures Power128(9) == MAX_LENGTH
  {
  }

  // ----- Reading back a stream.

  predicate Framed(message: seq<Byte>) {
    1 <= |message| < WORD
  }

  lemma DecodeFramed(message: seq<Byte>, rest: seq<Byte>)
    requires |message| < MAX_LENGTH
    ensures var r := DecodeOne(EncodeOne(message) + rest);
            if Framed(message) then r == Some((message, rest)) else r.Some? ==> |r.value.0| < |message|
  {
    var s := EncodeOne(message) + rest;
    assert s == Varint(|message|) + (message + rest);
    VarintRoundTrip(|message|, message + rest);
    var size := |message| % WORD;
    if Framed(message) {
      assert size == |message|;
      assert (message + rest)[..size] == message && (message + rest)[size..] == rest;
    } else {
      assert size < |message| || size == 0;
    }
  }

  predicate AllFramed(messages: seq<seq<Byte>>) {
    forall m | m in messages :: Framed(m)
  }

  lemma FirstFramed(messages: seq<seq<Byte>>)
    requires messages != []
    ensures AllFramed(messages) <==> Framed(messages[0]) && AllFramed(messages[1..])
  {
  }

  lemma SameTail(head: seq<Byte>, a: seq<seq<Byte>>, b: seq<seq<Byte>>)
    ensures [head] + a == [head] + b <==> a == b
  {
    assert ([head] + a)[1..] == a && ([head] + b)[1..] == b;
  }

  /** A stream of messages comes back exactly when every length is from 1 to 2^32 - 1. */
  lemma {:induction false} StreamRoundTrip(messages: seq<seq<Byte>>)
    requires forall m | m in messages :: |m| < MAX_LENGTH
    ensures DecodeAll(EncodeAll(messages)) == messages <==> AllFramed(messages)
  {
    if messages != [] {
      hide DecodeOne, EncodeOne, AllFramed;
      var head, tail := messages[0], messages[1..];
      DecodeFramed(head, EncodeAll(tail));
      StreamRoundTrip(tail);
      FirstFramed(messages);
      SameTail(head, DecodeAll(EncodeAll(tail)), tail);
      assert messages == [head] + tail;
    }
  }

  // ----- The code on files.

  class OutFile {
    var data: seq<Byte>

    constructor ()
      ensures data == []
    {
      data := [];
    }

    method Write(s: seq<Byte>)
      modifies this
      ensures data == old(data) + s
    {
      data := data + s;
    }
  }

  class InFile {
    var data: seq<Byte> // what is still to be read

    constructor (s: seq<Byte>)
      ensures data == s
    {
      data := s;
    }

    method Read(n: int) returns (s: seq<Byte>)
      modifies this
      ensures s == old(data)[..Taken(old(data), n)] && data == old(data)[Taken(old(data), n)..]
      ensures old(data) == s + data && (n < 0 || n >= |old(data)| ==> data == []) && (0 <= n < |old(data)| ==> |s| == n)
    {
      var k := Taken(data, n);
      s, data := data[..k], data[k..];
    }
  }

  method EncodeVarint32(out: OutFile, value: nat)
    modifies out
    ensures out.data == old(out.data) + Varint(value)
  {
    hide Varint;
    var bits, rest := value % 128, value / 128;
    ghost var goal := out.data + Varint(value);
    while rest != 0
      invariant 0 <= bits < 128 && rest >= 0
      invariant out.data + Varint(bits + 128 * rest) == goal
    {
      VarintSplit(bits, rest);
      Regroup(out.data, 128 + bits, Varint(rest));
      out.Write([128 + bits]);
      bits, rest := rest % 128, rest / 128;
    }
    VarintSplit(bits, 0);
    out.Write([bits]);
  }

  lemma Regroup(a: seq<Byte>, b: Byte, c: seq<Byte>)
    ensures a + ([b] + c) == a + [b] + c
  {
  }

  lemma VarintSplit(bits: nat, rest: nat)
    requires bits < 128
    ensures Varint(bits + 128 * rest) == if rest == 0 then [bits] else [128 + bits] + Varint(rest)
    ensures rest == rest % 128 + 128 * (rest / 128)
  {
  }

  method EncodeMessage(out: OutFile, message: seq<Byte>)
    modifies out
    ensures out.data == old(out.data) + EncodeOne(message)
  {
    EncodeVarint32(out, |message|);
    out.Write(message);
  }

  lemma {:induction false} LowAppend(s: seq<Byte>, b: Byte)
    ensures Low(s + [b]) == Low(s) + b % 128 * Power128(|s|)
  {
    if s == [] {
      assert s + [b] == [b] && [b][1..] == [];
    } else {
      LowAppend(s[1..], b);
      assert (s + [b])[1..] == s[1..] + [b];
      var p := Power128(|s| - 1);
      assert 128 * (b % 128 * p) == b % 128 * (128 * p);
    }
  }

  lemma {:induction false} ContinuedPrefix(s: seq<Byte>, k: nat)
    requires k <= |s| && forall i | 0 <= i < k :: s[i] >= 128
    ensures Continued(s) == k + Continued(s[k..])
  {
  }

  /** After pos continued bytes: what the rest of the stream decides. */
  lemma HeaderAt(s: seq<Byte>, pos: nat)
    requires pos <= |s| && pos < 10 && forall i | 0 <= i < pos :: s[i] >= 128
    ensures pos == |s| ==> DecodeHeader(s) == Size(0, 0) && HeaderLength(s) == |s|
    ensures pos < |s| && s[pos] < 128 ==>
              DecodeHeader(s) == Size(Masked(Low(s[..pos + 1])), pos + 1) && HeaderLength(s) == pos + 1
    ensures pos == 9 && pos < |s| && s[pos] >= 128 ==> DecodeHeader(s) == TooManyBytes && HeaderLength(s) == 10
  {
    ContinuedPrefix(s, pos);
    if pos < |s| && s[pos] >= 128 {
      ContinuedPrefix(s, pos + 1);
    }
  }

  lemma LowStep(s: seq<Byte>, pos: nat)
    requires pos < |s|
    ensures Low(s[..pos + 1]) == Low(s[..pos]) + s[pos] % 128 * Power128(pos)
  {
    LowAppend(s[..pos], s[pos]);
    assert s[..pos] + [s[pos]] == s[..pos + 1];
  }

  /** None stands for the IOError about too many bytes. */
  method DecodeVarint32(in_: InFile) returns (r: Option<(int, nat)>)
    modifies in_
    ensures var h := DecodeHeader(old(in_.data)); r == if h.Size? then Some((h.size, h.pos)) else None
    ensures in_.data == old(in_.data)[HeaderLength(old(in_.data))..]
  {
    ghost var s := in_.data;
    assert Low(s[..0]) == 0;
    hide Low, Continued, DecodeHeader, HeaderLength;
    var result, scale, shift, pos := 0, 1, 0, 0;
    while true
      invariant pos <= |s| && pos < 10 && in_.data == s[pos..]
      invariant shift == 7 * pos && scale == Power128(pos)
      invariant result == Low(s[..pos])
      invariant forall i | 0 <= i < pos :: s[i] >= 128
      decreases 10 - pos
    {
      HeaderAt(s, pos);
      var c := in_.Read(1);
      if |c| == 0 {
        return Some((0, 0));
      }
      var b := c[0];
      assert b == s[pos] && in_.data == s[pos + 1..];
      LowStep(s, pos);
      result := result + b % 128 * scale;
      pos := pos + 1;
      if b < 128 {
        return Some((if result >= MAX_LENGTH then result % WORD - WORD else result % WORD, pos));
      }
      shift, scale := shift + 7, 128 * scale;
      if shift >= 64 {
        return None;
      }
    }
  }

  /** The decoded message, or None where the source answers False. */
  method DecodeMessage(in_: InFile) returns (message: Option<seq<Byte>>)
    modifies in_
    ensures var r := DecodeOne(old(in_.data));
            if r.Some? then message == Some(r.value.0) && in_.data == r.value.1 else message == None
    ensures |in_.data| <= |old(in_.data)|
  {
    var header := DecodeVarint32(in_);
    if header == None || header.value.0 == 0 {
      return None;
    }
    var buf := in_.Read(header.value.0);
    message := Some(buf);
  }

  /** Reading messages until there are none, as the trace scripts do. */
  method ReadMessages(in_: InFile) returns (messages: seq<seq<Byte>>)
    modifies in_
    ensures messages == DecodeAll(old(in_.data))
  {
    hide DecodeOne;
    messages := [];
    var next := DecodeMessage(in_);
    ghost var left := old(in_.data);
    while next.Some?
      invariant var r := DecodeOne(left);
                if r.Some? then next == Some(r.value.0) && in_.data == r.value.1 else next == None
      invariant DecodeAll(old(in_.data)) == messages + DecodeAll(left)
      decreases |left|
    {
      messages := messages + [next.value];
      left := in_.data;
      next := DecodeMessage(in_);
    }
  }

  /** What is written and read back, over files. */
  method WriteThenRead(messages: seq<seq<Byte>>) returns (back: seq<seq<Byte>>)
    requires forall m | m in messages :: |m| < MAX_LENGTH
    ensures back == messages <==> AllFramed(messages)
  {
    var out := new OutFile();
    for i := 0 to |messages|
      invariant out.data == EncodeAll(messages[..i])
    {
      EncodeMessage(out, messages[i]);
      EncodeAppend(messages[..i], messages[i]);
      assert messages[..i] + [messages[i]] == messages[..i + 1];
    }
    assert messages[..|messages|] == messages;
    var in_ := new InFile(out.data);
    back := ReadMessages(in_);
    StreamRoundTrip(messages);
  }

  lemma {:induction false} EncodeAppend(messages: seq<seq<Byte>>, m: seq<Byte>)
    ensures EncodeAll(messages + [m]) == EncodeAll(messages) + EncodeOne(m)
  {
    if messages == [] {
      assert messages + [m] == [m] && [m][1..] == [];
    } else {
      EncodeAppend(messages[1..], m);
      assert (messages + [m])[1..] == messages[1..] + [m];
    }
  }
}
