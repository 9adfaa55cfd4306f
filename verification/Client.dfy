/**
 internal/control/client.go: the two strings that tie a request to its answer. Both are shown to
 be readable back, so no two different requests share one.
 */
module Requests {
  import opened Wrappers
  import opened Base64
  import opened Text

  const HPKE_INFO := "TunNet/client-response/v1"
  const NONCE_BYTES := 16
  const NONCE_CHARS := 22

  // ---------- Cutting at a mark ----------

  function Before<T(==)>(s: seq<T>, mark: T): seq<T> {
    if s == [] || s[0] == mark then [] else [s[0]] + Before(s[1..], mark)
  }

  function Beyond<T(==)>(s: seq<T>, mark: T): seq<T> {
    if s == [] then [] else if s[0] == mark then s[1..] else Beyond(s[1..], mark)
  }

  function BeforeLast<T(==)>(s: seq<T>, mark: T): seq<T> {
    if s == [] then [] else if s[|s| - 1] == mark then s[..|s| - 1] else BeforeLast(s[..|s| - 1], mark)
  }

  function BeyondLast<T(==)>(s: seq<T>, mark: T): seq<T> {
    if s == [] || s[|s| - 1] == mark then [] else BeyondLast(s[..|s| - 1], mark) + [s[|s| - 1]]
  }

  function Drop<T>(s: seq<T>, n: nat): seq<T> { if n <= |s| then s[n..] else [] }
  function DropEnd<T>(s: seq<T>, n: nat): seq<T> { if n <= |s| then s[..|s| - n] else [] }
  function TakeEnd<T>(s: seq<T>, n: nat): seq<T> { if n <= |s| then s[|s| - n..] else [] }

  lemma {:induction false} CutFirst<T>(a: seq<T>, mark: T, b: seq<T>)
    requires mark !in a
    ensures Before(a + [mark] + b, mark) == a && Beyond(a + [mark] + b, mark) == b
  {
    var s := a + [mark] + b;
    if a == [] {
      assert s[1..] == b;
    } else {
      assert a[0] in a;
      assert s[0] == a[0] && s[1..] == a[1..] + [mark] + b;
      CutFirst(a[1..], mark, b);
      assert [a[0]] + a[1..] == a;
    }
  }

  lemma {:induction false} CutLast<T>(a: seq<T>, mark: T, b: seq<T>)
    requires mark !in b
    ensures BeforeLast(a + [mark] + b, mark) == a && BeyondLast(a + [mark] + b, mark) == b
  {
    var s := a + [mark] + b;
    if b == [] {
      assert s[..|s| - 1] == a;
    } else {
      var last := |b| - 1;
      assert b[last] in b;
      assert s[|s| - 1] == b[last] && s[..|s| - 1] == a + [mark] + b[..last];
      CutLast(a, mark, b[..last]);
      assert b[..last] + [b[last]] == b;
    }
  }

  lemma CutEnds<T>(a: seq<T>, b: seq<T>)
    ensures Drop(a + b, |a|) == b && DropEnd(a + b, |b|) == a && TakeEnd(a + b, |b|) == b
  {
  }

  // ---------- The HPKE info string ----------

  function Ascii(s: string): seq<Byte> {
    seq(|s|, i requires 0 <= i < |s| => s[i] as int % 256)
  }

  /** Operation and client id are byte strings, as Go's are. */
  function Info(operation: seq<Byte>, clientID: seq<Byte>, nonce: seq<Byte>): seq<Byte> {
    Ascii(HPKE_INFO) + ([0] + (operation + [0] + (clientID + [0] + nonce)))
  }

  /** The buffer `open` hands to HPKE: whoever knows the format reads all three parts back. */
  method BuildInfo(operation: seq<Byte>, clientID: seq<Byte>, nonce: seq<Byte>) returns (info: seq<Byte>)
    ensures 0 !in operation && |nonce| == NONCE_BYTES ==> ReadInfo(info) == (operation, clientID, nonce)
    ensures info == Info(operation, clientID, nonce)
  {
    info := Ascii(HPKE_INFO);
    info := info + [0];
    info := info + operation;
    info := info + [0];
    info := info + clientID;
    info := info + [0];
    info := info + nonce;
    assert info == Info(operation, clientID, nonce);
    if 0 !in operation && |nonce| == NONCE_BYTES { InfoReadsBack(operation, clientID, nonce); }
  }

  /** A text of ASCII characters is its own bytes. */
  lemma AsciiBytes(s: string, i: nat)
    requires i < |s| && s[i] < 128 as char
    ensures |Ascii(s)| == |s| && Ascii(s)[i] == s[i] as int
  {
  }

  /** The buffer spelled out: the version, operation and client id, each ended by a zero, and the nonce. */
  lemma InfoText(operation: seq<Byte>, clientID: seq<Byte>, nonce: seq<Byte>)
    ensures Info(operation, clientID, nonce) ==
            Ascii("TunNet/client-response/v1") + [0] + operation + [0] + clientID + [0] + nonce
  {
  }

  function ReadInfo(info: seq<Byte>): (seq<Byte>, seq<Byte>, seq<Byte>) {
    var rest := Drop(info, |Ascii(HPKE_INFO)| + 1);
    var tail := Beyond(rest, 0);
    (Before(rest, 0), DropEnd(tail, NONCE_BYTES + 1), TakeEnd(tail, NONCE_BYTES))
  }

  /** The info string determines operation, client id and nonce: no answer opens under another call. */
  lemma InfoReadsBack(operation: seq<Byte>, clientID: seq<Byte>, nonce: seq<Byte>)
    requires 0 !in operation && |nonce| == NONCE_BYTES
    ensures ReadInfo(Info(operation, clientID, nonce)) == (operation, clientID, nonce)
  {
    var tail := clientID + [0] + nonce;
    var rest := operation + [0] + tail;
    var head := Ascii(HPKE_INFO) + [0];
    assert Info(operation, clientID, nonce) == head + rest;
    CutEnds(head, rest);
    CutFirst(operation, 0, tail);
    assert tail == clientID + ([0] + nonce);
    CutEnds(clientID, [0] + nonce);
    CutEnds(clientID + [0], nonce);
  }

  // ---------- Signature parameters (section 2.3 of RFC 9421) ----------

  const SIGNED_COMPONENTS :=
    "(\"@method\" \"@authority\" \"@path\" \"content-type\" \"content-digest\" " +
    "\"tunnet-public-key\" \"tunnet-response-key\")"
  const CREATED := SIGNED_COMPONENTS + ";created="
  const EXPIRES := "expires="
  const KEY_ID := "keyid=\""
  const ALG_NONCE := "\";alg=\"ed25519\";nonce=\""
  const TAG := "\";tag="
  const TAG_END := ":tunnet-client-v1\""

  /** What the parameters commit a signature to. */
  datatype Binding = Binding(clientID: string, operation: string, nonce: seq<Byte>, created: Int64)

  /** What the source guarantees of every request: a 16-byte nonce and an operation without quotes. */
  predicate WellFormed(b: Binding) {
    |b.nonce| == NONCE_BYTES && '"' !in b.operation
  }

  function ParamsTail(b: Binding): string {
    b.clientID + ALG_NONCE + Encode(RAW_URL, b.nonce) + TAG + ['"'] + b.operation + TAG_END
  }

  function ParamsOf(created: string, expires: string, tail: string): string {
    CREATED + (created + [';'] + (EXPIRES + expires + [';'] + (KEY_ID + tail)))
  }

  function SignatureParams(b: Binding): string {
    ParamsOf(Itoa(b.created), Itoa(Wrap64(b.created + 120)), ParamsTail(b))
  }

  function ReadTail(s: string): (string, string, string) {
    var quoted := DropEnd(s, |TAG_END|);
    var front := DropEnd(BeforeLast(quoted, '"'), |TAG|);
    (DropEnd(DropEnd(front, NONCE_CHARS), |ALG_NONCE|), BeyondLast(quoted, '"'), TakeEnd(front, NONCE_CHARS))
  }

  function ReadParams(s: string): Option<Binding> {
    var rest := Drop(s, |CREATED|);
    var created := Atoi(Before(rest, ';'));
    var (clientID, operation, nonce) := ReadTail(Drop(Beyond(Beyond(rest, ';'), ';'), |KEY_ID|));
    var raw := Decode(RAW_URL, nonce);
    if created.None? || raw.None? then None
    else Some(Binding(clientID, operation, raw.value, created.value))
  }

  /** The second number of the parameters. */
  function ReadExpires(s: string): Option<int> {
    var rest := Drop(s, |CREATED|);
    Atoi(Drop(Before(Beyond(rest, ';'), ';'), |EXPIRES|))
  }

  /** The parameters spelled out. */
  lemma ParamsText(b: Binding)
    ensures SignatureParams(b) ==
            "(\"@method\" \"@authority\" \"@path\" \"content-type\" \"content-digest\" "
            + "\"tunnet-public-key\" \"tunnet-response-key\")"
            + ";created=" + Itoa(b.created) + ";expires=" + Itoa(Wrap64(b.created + 120))
            + ";keyid=\"" + b.clientID + "\";alg=\"ed25519\";nonce=\"" + Encode(RAW_URL, b.nonce)
            + "\";tag=\"" + b.operation + ":tunnet-client-v1\""
  {
    var nonce, expires := Encode(RAW_URL, b.nonce), Itoa(Wrap64(b.created + 120));
    assert [';'] + EXPIRES == ";expires=" && [';'] + KEY_ID == ";keyid=\"" && TAG + ['"'] == "\";tag=\"";
    RegroupTail(b.clientID + ALG_NONCE + nonce, TAG, ['"'], b.operation, TAG_END);
    Regroup(CREATED, Itoa(b.created), [';'], EXPIRES, expires, KEY_ID, ParamsTail(b));
    Regroup6(SIGNED_COMPONENTS + ";created=" + Itoa(b.created) + ";expires=" + expires + ";keyid=\"",
             b.clientID, ALG_NONCE, nonce, "\";tag=\"", b.operation + TAG_END);
    Regroup2(SIGNED_COMPONENTS + ";created=" + Itoa(b.created) + ";expires=" + expires + ";keyid=\"" + b.clientID
             + ALG_NONCE + nonce + "\";tag=\"", b.operation, TAG_END);
  }

  lemma RegroupTail(head: string, tag: string, quote: string, operation: string, end: string)
    ensures head + tag + quote + operation + end == head + (tag + quote) + (operation + end)
  {
    assert head + tag + quote == head + (tag + quote);
  }

  lemma Regroup(a: string, b: string, semi: string, c: string, d: string, e: string, f: string)
    ensures a + (b + semi + (c + d + semi + (e + f))) == a + b + (semi + c) + d + (semi + e) + f
  {
    assert b + semi + (c + d + semi + (e + f)) == b + (semi + c) + d + (semi + e) + f;
  }

  lemma Regroup6(head: string, a: string, b: string, c: string, d: string, e: string)
    ensures head + (a + b + c + d + e) == head + a + b + c + d + e
  {
  }

  lemma Regroup2(head: string, a: string, b: string)
    ensures head + (a + b) == head + a + b
  {
  }

  lemma TailReadsBack(b: Binding)
    requires WellFormed(b)
    ensures ReadTail(ParamsTail(b)) == (b.clientID, b.operation, Encode(RAW_URL, b.nonce))
  {
    var nonce := Encode(RAW_URL, b.nonce);
    EncodedLength(RAW_URL, b.nonce);
    var front := b.clientID + ALG_NONCE + nonce;
    var quoted := front + TAG + ['"'] + b.operation;
    assert ParamsTail(b) == quoted + TAG_END;
    CutEnds(quoted, TAG_END);
    CutLast(front + TAG, '"', b.operation);
    CutEnds(front, TAG);
    CutEnds(b.clientID + ALG_NONCE, nonce);
    CutEnds(b.clientID, ALG_NONCE);
  }

  lemma ItoaPlain(n: int, c: char)
    requires c == ';' || c == '\n'
    ensures c !in Itoa(n)
  {
    DigitsReadBack(if n < 0 then -n else n);
  }

  lemma HeadReadsBack(created: string, expires: string, tail: string)
    requires ';' !in created && ';' !in expires
    ensures
      var rest := Drop(ParamsOf(created, expires, tail), |CREATED|);
      && Before(rest, ';') == created
      && Drop(Beyond(Beyond(rest, ';'), ';'), |KEY_ID|) == tail
  {
    var rest2 := EXPIRES + expires + [';'] + (KEY_ID + tail);
    CutEnds(CREATED, created + [';'] + rest2);
    CutFirst(created, ';', rest2);
    CutFirst(EXPIRES + expires, ';', KEY_ID + tail);
    CutEnds(KEY_ID, tail);
  }

  lemma ExpiresText(b: Binding)
    ensures ReadExpires(SignatureParams(b)) == Atoi(Itoa(Wrap64(b.created + 120)))
  {
    ItoaPlain(b.created, ';');
    ItoaPlain(Wrap64(b.created + 120), ';');
    ExpiresReadBack(Itoa(b.created), Itoa(Wrap64(b.created + 120)), ParamsTail(b));
  }

  /** A signature expires two minutes after its creation. */
  lemma ParamsExpire(b: Binding)
    ensures ReadExpires(SignatureParams(b)) == Some(Wrap64(b.created + 120))
    ensures b.created <= MAX_INT64 - 120 ==> Wrap64(b.created + 120) == b.created + 120
  {
    ExpiresText(b);
    AtoiItoa(Wrap64(b.created + 120));
    WrapInRange(b.created + 120);
  }

  lemma ExpiresReadBack(created: string, expires: string, tail: string)
    requires ';' !in created && ';' !in expires
    ensures ReadExpires(ParamsOf(created, expires, tail)) == Atoi(expires)
  {
    var rest := EXPIRES + expires + [';'] + (KEY_ID + tail);
    CutEnds(CREATED, created + [';'] + rest);
    CutFirst(created, ';', rest);
    CutFirst(EXPIRES + expires, ';', KEY_ID + tail);
    CutEnds(EXPIRES, expires);
  }

  /** Client ids may hold anything, quotes included: the parameters still read back. */
  lemma ParamsReadBack(b: Binding)
    requires WellFormed(b)
    ensures ReadParams(SignatureParams(b)) == Some(b)
  {
    ItoaPlain(b.created, ';');
    ItoaPlain(Wrap64(b.created + 120), ';');
    HeadReadsBack(Itoa(b.created), Itoa(Wrap64(b.created + 120)), ParamsTail(b));
    AtoiItoa(b.created);
    TailReadsBack(b);
    DecodeEncode(RAW_URL, b.nonce);
  }

  // ---------- Signature base (section 2.5 of RFC 9421) ----------

  datatype Message = Message(
    httpMethod: string, authority: string, path: string, contentType: string,
    contentDigest: string, publicKey: string, responseKey: string)

  const LABELS := [
    "\"@method\": ", "\"@authority\": ", "\"@path\": ", "\"content-type\": ", "\"content-digest\": ",
    "\"tunnet-public-key\": ", "\"tunnet-response-key\": ", "\"@signature-params\": "]

  function Values(m: Message, params: string): seq<string> {
    [m.httpMethod, m.authority, m.path, m.contentType, m.contentDigest, m.publicKey, m.responseKey, params]
  }

  function Lines(m: Message, params: string): seq<string> {
    seq(|LABELS|, i requires 0 <= i < |LABELS| => LABELS[i] + Values(m, params)[i])
  }

  function SignatureBase(m: Message, params: string): string {
    Join(Lines(m, params), '\n')
  }

  /** The signed text spelled out, line by line. */
  lemma SignatureBaseText(m: Message, params: string)
    ensures SignatureBase(m, params) ==
            Join(["\"@method\": " + m.httpMethod, "\"@authority\": " + m.authority, "\"@path\": " + m.path,
                  "\"content-type\": " + m.contentType, "\"content-digest\": " + m.contentDigest,
                  "\"tunnet-public-key\": " + m.publicKey, "\"tunnet-response-key\": " + m.responseKey,
                  "\"@signature-params\": " + params], '\n')
  {
    var lines := [LABELS[0] + m.httpMethod, LABELS[1] + m.authority, LABELS[2] + m.path, LABELS[3] + m.contentType,
                  LABELS[4] + m.contentDigest, LABELS[5] + m.publicKey, LABELS[6] + m.responseKey, LABELS[7] + params];
    forall i | 0 <= i < 8 ensures Lines(m, params)[i] == lines[i] {
      assert Values(m, params)[0] == m.httpMethod;
    }
    assert Lines(m, params) == lines;
  }

  /** Splits off n lines; the last part may hold further line breaks. */
  function FirstLines(s: string, n: nat): seq<string>
    decreases n
  {
    if n == 0 then [s] else [Before(s, '\n')] + FirstLines(Beyond(s, '\n'), n - 1)
  }

  lemma {:induction false} LinesReadBack(lines: seq<string>)
    requires lines != [] && forall i :: 0 <= i < |lines| - 1 ==> '\n' !in lines[i]
    ensures FirstLines(Join(lines, '\n'), |lines| - 1) == lines
  {
    if |lines| > 1 {
      CutFirst(lines[0], '\n', Join(lines[1..], '\n'));
      LinesReadBack(lines[1..]);
      assert [lines[0]] + lines[1..] == lines;
    }
  }

  predicate LineFree(m: Message) {
    forall i :: 0 <= i < 7 ==> '\n' !in Values(m, "")[i]
  }

  function ReadValue(base: string, i: nat): string
    requires i < |LABELS|
  {
    var lines := FirstLines(base, |LABELS| - 1);
    if i < |lines| then Drop(lines[i], |LABELS[i]|) else ""
  }

  function ReadBase(base: string): (Message, Option<Binding>) {
    (Message(ReadValue(base, 0), ReadValue(base, 1), ReadValue(base, 2), ReadValue(base, 3),
             ReadValue(base, 4), ReadValue(base, 5), ReadValue(base, 6)),
     ReadParams(ReadValue(base, 7)))
  }

  lemma LabelsPlain(i: nat)
    requires i < |LABELS|
    ensures '\n' !in LABELS[i]
  {
    if i == 0 { assert LABELS[i] == "\"@method\": "; }
    else if i == 1 { assert LABELS[i] == "\"@authority\": "; }
    else if i == 2 { assert LABELS[i] == "\"@path\": "; }
    else if i == 3 { assert LABELS[i] == "\"content-type\": "; }
    else if i == 4 { assert LABELS[i] == "\"content-digest\": "; }
    else if i == 5 { assert LABELS[i] == "\"tunnet-public-key\": "; }
    else if i == 6 { assert LABELS[i] == "\"tunnet-response-key\": "; }
    else { assert LABELS[i] == "\"@signature-params\": "; }
  }

  lemma ValueReadsBack(m: Message, params: string, i: nat)
    requires LineFree(m) && i < |LABELS|
    ensures ReadValue(SignatureBase(m, params), i) == Values(m, params)[i]
  {
    var lines := Lines(m, params);
    forall k | 0 <= k < |lines| - 1 ensures '\n' !in lines[k] {
      LabelsPlain(k);
      assert Values(m, params)[k] == Values(m, "")[k];
    }
    LinesReadBack(lines);
    CutEnds(LABELS[i], Values(m, params)[i]);
  }

  /**
   What is signed determines the request: method, target, headers, client, operation, nonce and
   creation time all read back from the signature base.
   */
  lemma SignatureBaseReadsBack(m: Message, b: Binding)
    requires LineFree(m) && WellFormed(b)
    ensures ReadBase(SignatureBase(m, SignatureParams(b))) == (m, Some(b))
  {
    var params := SignatureParams(b);
    ParamsReadBack(b);
    ValueReadsBack(m, params, 0);
    ValueReadsBack(m, params, 1);
    ValueReadsBack(m, params, 2);
    ValueReadsBack(m, params, 3);
    ValueReadsBack(m, params, 4);
    ValueReadsBack(m, params, 5);
    ValueReadsBack(m, params, 6);
    ValueReadsBack(m, params, 7);
  }

  /** Two requests with the same signature base are the same request. */
  lemma SignatureBaseInjective(m: Message, b: Binding, m': Message, b': Binding)
    requires LineFree(m) && WellFormed(b) && LineFree(m') && WellFormed(b')
    requires SignatureBase(m, SignatureParams(b)) == SignatureBase(m', SignatureParams(b'))
    ensures m == m' && b == b'
  {
    SignatureBaseReadsBack(m, b);
    SignatureBaseReadsBack(m', b');
  }
}
