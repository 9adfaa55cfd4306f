/**
 The four decoders of Go's encoding/base64 that the client tries: the alphabets of
 sections 4 and 5 of RFC 4648, with and without padding. As in Go, carriage returns and
 line feeds are skipped and unused trailing bits are ignored.
 */
module Base64 {
  import opened Wrappers

  type Byte = b: int | 0 <= b < 256
  type Sextet = v: int | 0 <= v < 64

  datatype Encoding = Encoding(url: bool, padded: bool)

  const RAW_URL := Encoding(true, false)
  const URL := Encoding(true, true)
  const RAW_STD := Encoding(false, false)
  const STD := Encoding(false, true)

  // ---------- Alphabet ----------

  function Value(e: Encoding, c: char): Option<Sextet> {
    if 'A' <= c <= 'Z' then Some(c as int - 'A' as int)
    else if 'a' <= c <= 'z' then Some(c as int - 'a' as int + 26)
    else if '0' <= c <= '9' then Some(c as int - '0' as int + 52)
    else if c == (if e.url then '-' else '+') then Some(62)
    else if c == (if e.url then '_' else '/') then Some(63)
    else None
  }

  function Symbol(e: Encoding, v: Sextet): char {
    if v < 26 then ('A' as int + v) as char
    else if v < 52 then ('a' as int + v - 26) as char
    else if v < 62 then ('0' as int + v - 52) as char
    else if v == 62 then (if e.url then '-' else '+')
    else (if e.url then '_' else '/')
  }

  predicate InAlphabet(e: Encoding, c: char) { Value(e, c).Some? }

  // ---------- Decoding ----------

  function StripNewlines(s: string): string {
    if s == [] then []
    else if s[0] == '\n' || s[0] == '\r' then StripNewlines(s[1..])
    else [s[0]] + StripNewlines(s[1..])
  }

  function FirstByte(a: Sextet, b: Sextet): Byte { a * 4 + b / 16 }
  function SecondByte(b: Sextet, c: Sextet): Byte { b % 16 * 16 + c / 4 }
  function ThirdByte(c: Sextet, d: Sextet): Byte { c % 4 * 64 + d }

  /** Decodes newline-free text one quantum of four symbols at a time. */
  function DecodeQuanta(e: Encoding, s: string): Option<seq<Byte>> {
    if s == [] then Some([])
    else if |s| < 2 || !InAlphabet(e, s[0]) || !InAlphabet(e, s[1]) then None
    else
      var a, b := Value(e, s[0]).value, Value(e, s[1]).value;
      if e.padded && |s| < 4 then None
      else if |s| == 2 || (e.padded && |s| == 4 && s[2] == '=' && s[3] == '=') then
        Some([FirstByte(a, b)])
      else if !InAlphabet(e, s[2]) then None
      else
        var c := Value(e, s[2]).value;
        if |s| == 3 || (e.padded && |s| == 4 && s[3] == '=') then
          Some([FirstByte(a, b), SecondByte(b, c)])
        else if !InAlphabet(e, s[3]) then None
        else
          var d := Value(e, s[3]).value;
          var rest := DecodeQuanta(e, s[4..]);
          if rest.None? then None
          else Some([FirstByte(a, b), SecondByte(b, c), ThirdByte(c, d)] + rest.value)
  }

  /** Encoding.DecodeString. */
  function Decode(e: Encoding, s: string): Option<seq<Byte>> {
    DecodeQuanta(e, StripNewlines(s))
  }

  const BYTES_32 := 32

  /** The decoder accepts the text and reads 32 bytes, the size of a key or SHA-256 digest. */
  predicate Decodes32(e: Encoding, s: string) {
    Decode(e, s).Some? && |Decode(e, s).value| == BYTES_32
  }

  // ---------- Encoding ----------

  function Pad(e: Encoding, n: nat): string {
    if !e.padded then "" else if n == 1 then "=" else "=="
  }

  /** The symbols of one to three bytes. */
  function Quantum(e: Encoding, b: seq<Byte>): string
    requires 1 <= |b| <= 3
  {
    if |b| == 1 then
      [Symbol(e, b[0] / 4), Symbol(e, b[0] % 4 * 16)] + Pad(e, 2)
    else if |b| == 2 then
      [Symbol(e, b[0] / 4), Symbol(e, b[0] % 4 * 16 + b[1] / 16), Symbol(e, b[1] % 16 * 4)] + Pad(e, 1)
    else
      [Symbol(e, b[0] / 4), Symbol(e, b[0] % 4 * 16 + b[1] / 16),
       Symbol(e, b[1] % 16 * 4 + b[2] / 64), Symbol(e, b[2] % 64)]
  }

  /** Encoding.EncodeToString. */
  function Encode(e: Encoding, b: seq<Byte>): string {
    if b == [] then ""
    else if |b| <= 3 then Quantum(e, b)
    else Quantum(e, b[..3]) + Encode(e, b[3..])
  }

  // ---------- Laws ----------

  lemma ValueSymbol(e: Encoding, v: Sextet)
    ensures Value(e, Symbol(e, v)) == Some(v)
    ensures Symbol(e, v) !in {'\n', '\r', '='}
  {
  }

  /** Where both alphabets know a character they give it the same value. */
  lemma ValuesAgree(e: Encoding, f: Encoding, c: char)
    requires InAlphabet(e, c) && InAlphabet(f, c)
    ensures Value(e, c) == Value(f, c)
  {
  }

  lemma {:induction false} QuantaAgree(e: Encoding, f: Encoding, s: string)
    requires DecodeQuanta(e, s).Some? && DecodeQuanta(f, s).Some?
    ensures DecodeQuanta(e, s) == DecodeQuanta(f, s)
  {
    if s != [] {
      ValuesAgree(e, f, s[0]);
      ValuesAgree(e, f, s[1]);
      if |s| > 4 || (|s| == 4 && s[3] != '=') {
        ValuesAgree(e, f, s[2]);
        ValuesAgree(e, f, s[3]);
        QuantaAgree(e, f, s[4..]);
      } else if |s| >= 3 && s[2] != '=' {
        ValuesAgree(e, f, s[2]);
      }
    }
  }

  /** Any two decoders that accept a text read the same bytes from it. */
  lemma DecodersAgree(e: Encoding, f: Encoding, s: string)
    requires Decode(e, s).Some? && Decode(f, s).Some?
    ensures Decode(e, s) == Decode(f, s)
  {
    QuantaAgree(e, f, StripNewlines(s));
  }

  lemma OneReadsBack(e: Encoding, b: seq<Byte>)
    requires |b| == 1
    ensures DecodeQuanta(e, Quantum(e, b)) == Some(b)
  {
    ValueSymbol(e, b[0] / 4);
    ValueSymbol(e, b[0] % 4 * 16);
    assert b == [b[0]];
  }

  lemma TwoReadBack(e: Encoding, b: seq<Byte>)
    requires |b| == 2
    ensures DecodeQuanta(e, Quantum(e, b)) == Some(b)
  {
    ValueSymbol(e, b[0] / 4);
    ValueSymbol(e, b[0] % 4 * 16 + b[1] / 16);
    ValueSymbol(e, b[1] % 16 * 4);
    assert b == [b[0], b[1]];
  }

  /** Six-bit regrouping loses nothing. */
  lemma Regroup(x: Byte, y: Byte, z: Byte)
    ensures FirstByte(x / 4, x % 4 * 16 + y / 16) == x
    ensures SecondByte(x % 4 * 16 + y / 16, y % 16 * 4 + z / 64) == y
    ensures ThirdByte(y % 16 * 4 + z / 64, z % 64) == z
  {
  }

  lemma ThreeReadBack(e: Encoding, b: seq<Byte>, rest: string)
    requires |b| == 3
    ensures DecodeQuanta(e, Quantum(e, b) + rest) ==
            if DecodeQuanta(e, rest).None? then None else Some(b + DecodeQuanta(e, rest).value)
  {
    var s := Quantum(e, b) + rest;
    ValueSymbol(e, b[0] / 4);
    ValueSymbol(e, b[0] % 4 * 16 + b[1] / 16);
    ValueSymbol(e, b[1] % 16 * 4 + b[2] / 64);
    ValueSymbol(e, b[2] % 64);
    Regroup(b[0], b[1], b[2]);
    assert s[4..] == rest;
    assert b == [b[0], b[1], b[2]];
  }

  lemma {:induction false} DecodeQuantaEncode(e: Encoding, b: seq<Byte>)
    ensures DecodeQuanta(e, Encode(e, b)) == Some(b)
  {
    if |b| == 1 {
      OneReadsBack(e, b);
    } else if |b| == 2 {
      TwoReadBack(e, b);
    } else if b != [] {
      FirstQuantum(e, b);
      DecodeQuantaEncode(e, b[3..]);
      ThreeReadBack(e, b[..3], Encode(e, b[3..]));
      assert b == b[..3] + b[3..];
    }
  }

  /** Three bytes or more start with one full quantum. */
  lemma FirstQuantum(e: Encoding, b: seq<Byte>)
    requires |b| >= 3
    ensures Encode(e, b) == Quantum(e, b[..3]) + Encode(e, b[3..])
  {
    if |b| == 3 { assert b[..3] == b && Encode(e, b[3..]) == ""; }
  }

  lemma {:induction false} StripKeeps(s: string)
    requires '\n' !in s && '\r' !in s
    ensures StripNewlines(s) == s
  {
    if s != [] {
      assert s[0] in s;
      StripKeeps(s[1..]);
    }
  }

  /** Exactly the line breaks are dropped, wherever they stand. */
  lemma {:induction false} StripDropsBreaks(a: string, c: char, b: string)
    ensures StripNewlines(a + [c] + b) ==
            StripNewlines(a) + (if c == '\n' || c == '\r' then "" else [c]) + StripNewlines(b)
  {
    var s := a + [c] + b;
    if a == [] {
      assert s[1..] == b;
    } else {
      assert s[0] == a[0] && s[1..] == a[1..] + [c] + b;
      StripDropsBreaks(a[1..], c, b);
    }
  }

  lemma QuantumShape(e: Encoding, b: seq<Byte>)
    requires 1 <= |b| <= 3
    ensures '\n' !in Quantum(e, b) && '\r' !in Quantum(e, b)
    ensures |Quantum(e, b)| == if e.padded then 4 else |b| + 1
  {
    ValueSymbol(e, b[0] / 4);
    if |b| == 1 {
      ValueSymbol(e, b[0] % 4 * 16);
    } else if |b| == 2 {
      ValueSymbol(e, b[0] % 4 * 16 + b[1] / 16);
      ValueSymbol(e, b[1] % 16 * 4);
    } else {
      ValueSymbol(e, b[0] % 4 * 16 + b[1] / 16);
      ValueSymbol(e, b[1] % 16 * 4 + b[2] / 64);
      ValueSymbol(e, b[2] % 64);
    }
  }

  lemma {:induction false} NoLineBreaks(e: Encoding, b: seq<Byte>)
    ensures '\n' !in Encode(e, b) && '\r' !in Encode(e, b)
  {
    if 0 < |b| <= 3 {
      QuantumShape(e, b);
    } else if b != [] {
      QuantumShape(e, b[..3]);
      NoLineBreaks(e, b[3..]);
    }
  }

  function SymbolCount(e: Encoding, n: nat): nat {
    if e.padded then (n + 2) / 3 * 4 else (4 * n + 2) / 3
  }

  lemma SymbolStep(e: Encoding, n: nat)
    ensures SymbolCount(e, n + 3) == 4 + SymbolCount(e, n)
  {
  }

  /** Padded text fills quanta of four symbols; unpadded text has ceil(8n/6). */
  lemma {:induction false} EncodedLength(e: Encoding, b: seq<Byte>)
    ensures |Encode(e, b)| == SymbolCount(e, |b|)
  {
    if 0 < |b| <= 3 {
      QuantumShape(e, b);
    } else if b != [] {
      calc {
        |Encode(e, b)|;
        |Quantum(e, b[..3])| + |Encode(e, b[3..])|;
        { QuantumShape(e, b[..3]); EncodedLength(e, b[3..]); }
        4 + SymbolCount(e, |b| - 3);
        { SymbolStep(e, |b| - 3); }
        SymbolCount(e, |b|);
      }
    }
  }

  // ---------- Tables 1 and 2 of RFC 4648, and what is accepted ----------

  /** The symbols are those of the tables, and a symbol's value is its place there. */
  lemma AlphabetTable(e: Encoding, v: Sextet, w: Sextet, c: char)
    ensures Symbol(e, 0) == 'A' && Symbol(e, 25) == 'Z' && Symbol(e, 26) == 'a' && Symbol(e, 51) == 'z'
    ensures Symbol(e, 52) == '0' && Symbol(e, 61) == '9'
    ensures v <= w < 26 || 26 <= v <= w < 52 || 52 <= v <= w < 62 ==>
              Symbol(e, w) as int - Symbol(e, v) as int == w - v
    ensures Symbol(e, 62) == (if e.url then '-' else '+') && Symbol(e, 63) == (if e.url then '_' else '/')
    ensures Value(e, c) == Some(v) <==> Symbol(e, v) == c
  {
  }

  /** Four symbols and three bytes are the same 24 bits. */
  lemma BitsKept(a: Sextet, b: Sextet, c: Sextet, d: Sextet)
    ensures FirstByte(a, b) * 0x1_0000 + SecondByte(b, c) * 0x100 + ThirdByte(c, d)
            == a * 0x4_0000 + b * 0x1000 + c * 0x40 + d
  {
  }

  /** Where the bits end: the last symbol that carries any. */
  function LastSymbol(n: nat): int { (4 * n + 2) / 3 - 1 }

  /** How many values of the last symbol spell the same bits. */
  function Slack(n: nat): nat { if n % 3 == 0 then 1 else if n % 3 == 1 then 16 else 4 }

  /** The texts agree, but for bits of the last symbol that belong to no byte. */
  ghost predicate SameBits(e: Encoding, s: string, t: string, n: nat) {
    |s| == |t| && forall i :: 0 <= i < |s| && s[i] != t[i] ==>
      && i == LastSymbol(n) && InAlphabet(e, s[i]) && InAlphabet(e, t[i])
      && Value(e, s[i]).value / Slack(n) == Value(e, t[i]).value / Slack(n)
  }

  lemma OneByteShape(e: Encoding, s: string)
    requires DecodeQuanta(e, s).Some? && |DecodeQuanta(e, s).value| == 1 && |s| <= 4
    ensures |s| >= 2 && s[2..] == Pad(e, 2) && InAlphabet(e, s[0]) && InAlphabet(e, s[1])
    ensures DecodeQuanta(e, s).value == [FirstByte(Value(e, s[0]).value, Value(e, s[1]).value)]
  {
  }

  /** One byte written with the last symbol's spare bits cleared. */
  lemma OneByteWritten(e: Encoding, v: Sextet, w: Sextet)
    ensures Quantum(e, [FirstByte(v, w)]) == [Symbol(e, v)] + [Symbol(e, w / 16 * 16)] + Pad(e, 2)
  {
    Ungroup(v, w, 0, 0);
  }

  lemma OneByteAccepted(e: Encoding, s: string, v: Sextet, w: Sextet)
    requires |s| >= 2 && s[2..] == Pad(e, 2) && Value(e, s[0]) == Some(v) && Value(e, s[1]) == Some(w)
    ensures SameBits(e, s, Quantum(e, [FirstByte(v, w)]), 1)
  {
    SymbolValue(e, s[0]);
    OneByteWritten(e, v, w);
    ValueSymbol(e, w / 16 * 16);
    LastDiffers(e, [s[0]], s[1], Symbol(e, w / 16 * 16), Pad(e, 2), 1);
    assert s == [s[0]] + [s[1]] + s[2..];
  }

  lemma TwoBytesShape(e: Encoding, s: string)
    requires |s| <= 4 && DecodeQuanta(e, s).Some? && |DecodeQuanta(e, s).value| == 2
    ensures |s| >= 3 && s[3..] == Pad(e, 1) && InAlphabet(e, s[0]) && InAlphabet(e, s[1]) && InAlphabet(e, s[2])
    ensures DecodeQuanta(e, s).value ==
            [FirstByte(Value(e, s[0]).value, Value(e, s[1]).value),
             SecondByte(Value(e, s[1]).value, Value(e, s[2]).value)]
  {
  }

  /** Two bytes written with the last symbol's spare bits cleared. */
  lemma TwoBytesWritten(e: Encoding, v: Sextet, w: Sextet, u: Sextet)
    ensures Quantum(e, [FirstByte(v, w), SecondByte(w, u)]) ==
            [Symbol(e, v), Symbol(e, w)] + [Symbol(e, u / 4 * 4)] + Pad(e, 1)
  {
    Ungroup(v, w, u, 0);
  }

  lemma LastDiffers(e: Encoding, head: string, c: char, d: char, tail: string, n: nat)
    requires |head| == LastSymbol(n) && InAlphabet(e, c) && InAlphabet(e, d)
    requires Value(e, c).value / Slack(n) == Value(e, d).value / Slack(n)
    ensures SameBits(e, head + [c] + tail, head + [d] + tail, n)
  {
    var s, t := head + [c] + tail, head + [d] + tail;
    assert forall i :: |head| < i < |s| ==> s[i] == t[i];
  }

  lemma TwoBytesAccepted(e: Encoding, s: string, v: Sextet, w: Sextet, u: Sextet)
    requires |s| >= 3 && s[3..] == Pad(e, 1)
    requires Value(e, s[0]) == Some(v) && Value(e, s[1]) == Some(w) && Value(e, s[2]) == Some(u)
    ensures SameBits(e, s, Quantum(e, [FirstByte(v, w), SecondByte(w, u)]), 2)
  {
    SymbolValue(e, s[0]);
    SymbolValue(e, s[1]);
    TwoBytesWritten(e, v, w, u);
    SpareBitsCleared(e, s[2], u);
    LastDiffers(e, s[..2], s[2], Symbol(e, u / 4 * 4), s[3..], 2);
    assert s[..2] == [Symbol(e, v), Symbol(e, w)];
    assert s == s[..2] + [s[2]] + s[3..];
  }

  lemma SpareBitsCleared(e: Encoding, c: char, u: Sextet)
    requires Value(e, c) == Some(u)
    ensures Value(e, Symbol(e, u / 4 * 4)).Some? && Value(e, Symbol(e, u / 4 * 4)).value / Slack(2) == u / Slack(2)
    ensures LastSymbol(2) == 2
  {
    ValueSymbol(e, u / 4 * 4);
  }

  lemma ThreeBytesAccepted(e: Encoding, s: string)
    requires |s| == 4 && DecodeQuanta(e, s).Some? && |DecodeQuanta(e, s).value| == 3
    ensures s == Quantum(e, DecodeQuanta(e, s).value)
  {
    var v, w, u, z := Value(e, s[0]).value, Value(e, s[1]).value, Value(e, s[2]).value, Value(e, s[3]).value;
    assert DecodeQuanta(e, s).value == [FirstByte(v, w), SecondByte(w, u), ThirdByte(u, z)] + [];
    SymbolValue(e, s[0]);
    SymbolValue(e, s[1]);
    SymbolValue(e, s[2]);
    SymbolValue(e, s[3]);
    Ungroup(v, w, u, z);
  }

  lemma ShortRead(e: Encoding, s: string)
    requires 0 < |s| <= 4 && DecodeQuanta(e, s).Some?
    ensures 0 < |DecodeQuanta(e, s).value| <= 3
    ensures |DecodeQuanta(e, s).value| == 3 ==> |s| == 4
  {
  }

  lemma OneQuantum(e: Encoding, s: string)
    requires 0 < |s| <= 4 && DecodeQuanta(e, s).Some?
    ensures SameBits(e, s, Encode(e, DecodeQuanta(e, s).value), |DecodeQuanta(e, s).value|)
  {
    ShortRead(e, s);
    var b := DecodeQuanta(e, s).value;
    if |b| == 1 {
      OneByteShape(e, s);
      OneByteAccepted(e, s, Value(e, s[0]).value, Value(e, s[1]).value);
    } else if |b| == 2 {
      TwoBytesShape(e, s);
      TwoBytesAccepted(e, s, Value(e, s[0]).value, Value(e, s[1]).value, Value(e, s[2]).value);
    } else {
      ThreeBytesAccepted(e, s);
    }
  }

  /** A decoder accepts nothing but the encoding of what it reads, apart from unused bits at the end. */
  lemma {:induction false} QuantaAccepted(e: Encoding, s: string)
    requires DecodeQuanta(e, s).Some?
    ensures
      var b := DecodeQuanta(e, s).value;
      SameBits(e, s, Encode(e, b), |b|)
  {
    if 0 < |s| <= 4 {
      OneQuantum(e, s);
    } else if s != [] {
      FullQuantum(e, s);
      QuantaAccepted(e, s[4..]);
      OneQuantumMore(e, s, DecodeQuanta(e, s).value);
    }
  }

  lemma OneQuantumMore(e: Encoding, s: string, b: seq<Byte>)
    requires |s| > 4 && |b| >= 3 && Quantum(e, b[..3]) == s[..4]
    requires SameBits(e, s[4..], Encode(e, b[3..]), |b| - 3)
    ensures SameBits(e, s, Encode(e, b), |b|)
  {
    var head, tail, more := s[..4], s[4..], Encode(e, b[3..]);
    assert Encode(e, b) == head + more by { FirstQuantum(e, b); }
    assert s == head + tail;
    SlackStep(|b| - 3);
    LongerSameBits(e, head, tail, more, |b| - 3);
  }

  lemma SlackStep(n: nat)
    ensures LastSymbol(n + 3) == LastSymbol(n) + 4 && Slack(n + 3) == Slack(n)
  {
  }

  lemma FullShape(e: Encoding, s: string)
    requires |s| > 4 && DecodeQuanta(e, s).Some?
    ensures InAlphabet(e, s[0]) && InAlphabet(e, s[1]) && InAlphabet(e, s[2]) && InAlphabet(e, s[3])
    ensures DecodeQuanta(e, s[4..]).Some?
    ensures DecodeQuanta(e, s).value ==
            [FirstByte(Value(e, s[0]).value, Value(e, s[1]).value),
             SecondByte(Value(e, s[1]).value, Value(e, s[2]).value),
             ThirdByte(Value(e, s[2]).value, Value(e, s[3]).value)] + DecodeQuanta(e, s[4..]).value
  {
  }

  lemma ThreeBytesWritten(e: Encoding, a: Sextet, b: Sextet, c: Sextet, d: Sextet)
    ensures Quantum(e, [FirstByte(a, b), SecondByte(b, c), ThirdByte(c, d)]) ==
            [Symbol(e, a), Symbol(e, b), Symbol(e, c), Symbol(e, d)]
  {
    Ungroup(a, b, c, d);
  }

  lemma FullQuantum(e: Encoding, s: string)
    requires |s| > 4 && DecodeQuanta(e, s).Some?
    ensures DecodeQuanta(e, s[4..]).Some? && |DecodeQuanta(e, s).value| >= 3
    ensures DecodeQuanta(e, s).value[3..] == DecodeQuanta(e, s[4..]).value
    ensures Quantum(e, DecodeQuanta(e, s).value[..3]) == s[..4]
  {
    FullShape(e, s);
    var v, w, x, y := Value(e, s[0]).value, Value(e, s[1]).value, Value(e, s[2]).value, Value(e, s[3]).value;
    var first := [FirstByte(v, w), SecondByte(w, x), ThirdByte(x, y)];
    CutAt(first, DecodeQuanta(e, s[4..]).value);
    ThreeBytesWritten(e, v, w, x, y);
    SymbolValue(e, s[0]);
    SymbolValue(e, s[1]);
    SymbolValue(e, s[2]);
    SymbolValue(e, s[3]);
  }

  lemma CutAt<T>(a: seq<T>, b: seq<T>)
    ensures (a + b)[..|a|] == a && (a + b)[|a|..] == b
  {
  }

  lemma SymbolValue(e: Encoding, c: char)
    requires InAlphabet(e, c)
    ensures Symbol(e, Value(e, c).value) == c
  {
  }

  lemma Ungroup(a: Sextet, b: Sextet, c: Sextet, d: Sextet)
    ensures
      var x, y, z := FirstByte(a, b), SecondByte(b, c), ThirdByte(c, d);
      x / 4 == a && x % 4 * 16 + y / 16 == b && y % 16 * 4 + z / 64 == c && z % 64 == d
  {
  }

  lemma LongerSameBits(e: Encoding, head: string, s: string, t: string, n: nat)
    requires SameBits(e, s, t, n) && |head| == 4
    requires LastSymbol(n + 3) == LastSymbol(n) + 4 && Slack(n + 3) == Slack(n)
    ensures SameBits(e, head + s, head + t, n + 3)
  {
    var u, w := head + s, head + t;
    forall i | 0 <= i < |u| && u[i] != w[i]
      ensures i == LastSymbol(n + 3) && InAlphabet(e, u[i]) && InAlphabet(e, w[i])
      ensures Value(e, u[i]).value / Slack(n + 3) == Value(e, w[i]).value / Slack(n + 3)
    {
      assert i >= 4 && u[i] == s[i - 4] && w[i] == t[i - 4];
    }
  }

  /** What DecodeString accepts: besides line breaks, only encodings of the bytes it returns. */
  lemma AcceptedIsEncoding(e: Encoding, s: string)
    requires Decode(e, s).Some?
    ensures
      var b := Decode(e, s).value;
      SameBits(e, StripNewlines(s), Encode(e, b), |b|)
  {
    QuantaAccepted(e, StripNewlines(s));
  }

  // ---------- Round trips ----------

  /** Decoding inverts encoding, whatever line breaks were inserted on the way. */
  lemma RoundTrip(e: Encoding, b: seq<Byte>, s: string)
    requires StripNewlines(s) == Encode(e, b)
    ensures Decode(e, s) == Some(b)
  {
    DecodeQuantaEncode(e, b);
  }

  lemma DecodeEncode(e: Encoding, b: seq<Byte>)
    ensures Decode(e, Encode(e, b)) == Some(b)
  {
    NoLineBreaks(e, b);
    StripKeeps(Encode(e, b));
    RoundTrip(e, b, Encode(e, b));
  }
}
