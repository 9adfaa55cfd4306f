/** internal/pinning/pinning.go: the persistent store of certificate pins. */
module Pinning {
  import opened Wrappers
  import opened Base64
  import opened Text

  datatype Mode = Off | Tofu | Strict

  /** The modes that have a verifier at all: for ModeOff the source returns no callback. */
  type Checking = m: Mode | !m.Off? witness Tofu

  type Digest = h: seq<Byte> | |h| == BYTES_32 witness seq(32, i => 0)

  /** A certificate, reduced to the SHA-256 digest of its SubjectPublicKeyInfo. */
  datatype Certificate = Certificate(keyDigest: Digest)

  type PinMap = map<string, seq<string>>

  datatype PinFile = Missing | Unreadable | Written(pins: PinMap)

  datatype State = State(pins: PinMap, file: PinFile)

  datatype Verdict = Accepted | NoChain | NoPinStored | NotRecorded | Mismatch(expected: seq<string>, got: seq<string>)

  function SPKI(c: Certificate): string {
    Encode(STD, c.keyDigest)
  }

  // ---------- Validation ----------

  predicate ValidEntry(host: string, values: seq<string>) {
    TrimSpace(host) != "" && values != [] && forall v :: v in values ==> Decodes32(STD, v)
  }

  predicate ValidPins(pins: PinMap) {
    forall host :: host in pins ==> ValidEntry(host, pins[host])
  }

  predicate Blank(s: string) {
    forall c :: c in s ==> IsSpace(c)
  }

  lemma TrimsToNothing(s: string)
    ensures TrimSpace(s) == "" <==> Blank(s)
  {
    var left, right := TrimmedBetween(s);
    if TrimSpace(s) != "" {
      var t := TrimSpace(s);
      assert s[|left|] == t[0] && s[|left|] in s;
    } else {
      assert s == left + right;
    }
  }

  /** An entry needs a host, and at least one pin, and every pin is 32 bytes in standard base64. */
  lemma ValidEntryExactly(host: string, values: seq<string>)
    ensures ValidEntry(host, values) <==>
            && !Blank(host) && |values| > 0
            && forall i :: 0 <= i < |values| ==> Decode(STD, values[i]).Some? && |Decode(STD, values[i]).value| == 32
  {
    TrimsToNothing(host);
    if ValidEntry(host, values) {
      forall i | 0 <= i < |values| ensures Decodes32(STD, values[i]) { assert values[i] in values; }
    }
  }

  // ---------- Presented keys ----------

  ghost function ChainKeys(chain: seq<Certificate>): set<string> {
    if chain == [] then {} else ChainKeys(chain[..|chain| - 1]) + {SPKI(chain[|chain| - 1])}
  }

  /** Every key presented in any chain. */
  ghost function KeysIn(chains: seq<seq<Certificate>>): set<string> {
    if chains == [] then {} else KeysIn(chains[..|chains| - 1]) + ChainKeys(chains[|chains| - 1])
  }

  lemma {:induction false} ChainKeyPresented(chain: seq<Certificate>, key: string) returns (j: nat)
    requires key in ChainKeys(chain)
    ensures j < |chain| && SPKI(chain[j]) == key
  {
    j := |chain| - 1;
    if SPKI(chain[j]) != key { j := ChainKeyPresented(chain[..j], key); }
  }

  lemma {:induction false} ChainKeyListed(chain: seq<Certificate>, j: nat)
    requires j < |chain|
    ensures SPKI(chain[j]) in ChainKeys(chain)
  {
    var last := |chain| - 1;
    if j < last { ChainKeyListed(chain[..last], j); }
  }

  /** A presented key belongs to a certificate of some chain. */
  lemma {:induction false} KeyPresented(chains: seq<seq<Certificate>>, key: string) returns (i: nat, j: nat)
    requires key in KeysIn(chains)
    ensures i < |chains| && j < |chains[i]| && SPKI(chains[i][j]) == key
  {
    i := |chains| - 1;
    if key in ChainKeys(chains[i]) {
      j := ChainKeyPresented(chains[i], key);
    } else {
      i, j := KeyPresented(chains[..i], key);
    }
  }

  /** And every certificate's key is among them. */
  lemma {:induction false} KeyListed(chains: seq<seq<Certificate>>, i: nat, j: nat)
    requires i < |chains| && j < |chains[i]|
    ensures SPKI(chains[i][j]) in KeysIn(chains)
  {
    var last := |chains| - 1;
    if i < last {
      KeyListed(chains[..last], i, j);
    } else {
      ChainKeyListed(chains[i], j);
    }
  }

  /** `present` lists the presented keys without repetition: all that the rest depends on. */
  ghost predicate Presents(present: seq<string>, chains: seq<seq<Certificate>>) {
    Distinct(present) && Elements(present) == KeysIn(chains)
  }

  lemma PinAdded(out: seq<string>, pin: string)
    requires Distinct(out)
    ensures pin in out ==> Elements(out) + {pin} == Elements(out)
    ensures pin !in out ==> Distinct(out + [pin])
    ensures Elements(out + [pin]) == Elements(out) + {pin}
  {
  }

  /** The inner loop of chainPins: one chain's keys, unless seen already. */
  method AddChain(seen: seq<string>, chain: seq<Certificate>) returns (out: seq<string>)
    requires Distinct(seen)
    ensures Distinct(out) && Elements(out) == Elements(seen) + ChainKeys(chain)
  {
    out := seen;
    for j := 0 to |chain|
      invariant Distinct(out) && Elements(out) == Elements(seen) + ChainKeys(chain[..j])
    {
      var pin := SPKI(chain[j]);
      assert chain[..j + 1][..j] == chain[..j];
      PinAdded(out, pin);
      if pin !in out {
        out := out + [pin];
      }
    }
    assert chain[..|chain|] == chain;
  }

  method ChainPins(chains: seq<seq<Certificate>>) returns (out: seq<string>)
    ensures Presents(out, chains)
  {
    out := [];
    for i := 0 to |chains|
      invariant Distinct(out) && Elements(out) == KeysIn(chains[..i])
    {
      assert chains[..i + 1][..i] == chains[..i];
      out := AddChain(out, chains[i]);
    }
    assert chains[..|chains|] == chains;
  }

  /** Keys taken from certificates always make a well-formed entry. */
  lemma PresentedIsValid(host: string, present: seq<string>, chains: seq<seq<Certificate>>)
    requires Presents(present, chains) && present != [] && TrimSpace(host) != ""
    ensures ValidEntry(host, present)
  {
    forall v | v in present ensures Decodes32(STD, v) {
      assert v in Elements(present);
      var i, j := KeyPresented(chains, v);
      DecodeEncode(STD, chains[i][j].keyDigest);
    }
  }

  // ---------- Get, Set and the two halves of a verification ----------

  function Pins(pins: PinMap, host: string): seq<string> {
    if host in pins then pins[host] else []
  }

  /** Set, with the fact that it returned nil. The file is written before memory changes. */
  function SetPins(s: State, host: string, values: seq<string>, writes: bool): (State, bool) {
    if !ValidEntry(host, values) || !writes then (s, false)
    else
      var next := s.pins[host := Sort(values)];
      (State(next, Written(next)), true)
  }

  predicate Intersects(a: seq<string>, b: seq<string>) {
    exists v :: v in a && v in b
  }

  /** What a verifier does once it has read `stored`, on a store that may have moved on. */
  function Decide(s: State, mode: Checking, host: string, present: seq<string>, stored: seq<string>, writes: bool)
    : (State, Verdict)
  {
    if stored == [] then
      if mode.Strict? then (s, NoPinStored)
      else
        var (s1, ok) := SetPins(s, host, present, writes);
        (s1, if ok then Accepted else NotRecorded)
    else if Intersects(present, stored) then (s, Accepted)
    else (s, Mismatch(stored, present))
  }

  /** A verification with no other one in between. */
  function Verify(s: State, mode: Checking, host: string, present: seq<string>, writes: bool): (State, Verdict) {
    if present == [] then (s, NoChain)
    else Decide(s, mode, host, present, Pins(s.pins, host), writes)
  }

  /** Open: None when it fails. */
  function OpenStore(path: string, file: PinFile): Option<State> {
    if TrimSpace(path) == "" then None
    else
      match file
      case Missing => Some(State(map[], file))
      case Unreadable => None
      case Written(pins) => if ValidPins(pins) then Some(State(pins, file)) else None
  }

  /**
   What opening comes to: a blank path, an unreadable file and any ill-formed entry fail, an absent
   file is an empty store, and any other file is the store it holds. Opening never writes.
   */
  lemma OpenStoreExactly(path: string, file: PinFile)
    ensures
      var got := OpenStore(path, file);
      && (got.None? <==>
            || Blank(path) || file.Unreadable?
            || (file.Written? && exists host :: host in file.pins && !ValidEntry(host, file.pins[host])))
      && (got.Some? ==>
            && got.value.file == file
            && got.value.pins == if file.Written? then file.pins else map[])
  {
    TrimsToNothing(path);
  }

  /** Setting changes one entry, to its pins in order, in memory and in the file, or nothing at all. */
  lemma SetExactly(s: State, host: string, values: seq<string>, writes: bool)
    ensures
      var (after, ok) := SetPins(s, host, values, writes);
      && (ok <==> writes && ValidEntry(host, values))
      && (!ok ==> after == s)
      && (ok ==>
            && after.file == Written(after.pins)
            && after.pins.Keys == s.pins.Keys + {host}
            && Sorted(after.pins[host]) && multiset(after.pins[host]) == multiset(values)
            && forall h :: h in s.pins && h != host ==> after.pins[h] == s.pins[h])
  {
    SortSorted(values);
  }

  /**
   The verdict and the store after one verification, case by case. A shared key is accepted in
   both modes; TOFU records a first use or says that it could not; nothing else changes the store.
   */
  lemma VerdictExactly(s: State, mode: Checking, host: string, present: seq<string>, writes: bool)
    ensures
      var (after, verdict) := Verify(s, mode, host, present, writes);
      var stored := if host in s.pins then s.pins[host] else [];
      var shared := exists i, j :: 0 <= i < |present| && 0 <= j < |stored| && present[i] == stored[j];
      var firstUse := present != [] && stored == [];
      && (verdict == NoChain <==> present == [])
      && (verdict == NoPinStored <==> firstUse && mode.Strict?)
      && (verdict == NotRecorded <==> firstUse && mode.Tofu? && !(writes && ValidEntry(host, present)))
      && (verdict.Mismatch? <==> present != [] && stored != [] && !shared)
      && (verdict.Mismatch? ==> verdict == Mismatch(stored, present))
      && (verdict == Accepted <==> shared || (firstUse && mode.Tofu? && writes && ValidEntry(host, present)))
      && after == (if firstUse && mode.Tofu? then SetPins(s, host, present, writes).0 else s)
  {
    var stored := Pins(s.pins, host);
    if Intersects(present, stored) {
      var v :| v in present && v in stored;
      var i :| 0 <= i < |present| && present[i] == v;
      var j :| 0 <= j < |stored| && stored[j] == v;
    }
    if i, j :| 0 <= i < |present| && 0 <= j < |stored| && present[i] == stored[j] {
      assert present[i] in present && present[i] in stored;
    }
  }

  class Store {
    const path: string
    var pins: PinMap
    var file: PinFile

    function Now(): State
      reads this
    {
      State(pins, file)
    }

    constructor (path: string, file: PinFile, pins: PinMap)
      ensures this.path == path && Now() == State(pins, file)
    {
      this.path, this.file, this.pins := path, file, pins;
    }

    static method Open(path: string, file: PinFile) returns (store: Option<Store>)
      ensures store.Some? <==> OpenStore(path, file).Some?
      ensures store.Some? ==> fresh(store.value) && store.value.path == path
      ensures store.Some? ==> store.value.Now() == OpenStore(path, file).value
    {
      if TrimSpace(path) == "" || file.Unreadable? {
        return None;
      }
      var pins: PinMap := map[];
      if file.Written? {
        pins := file.pins;
        if !ValidPins(pins) {
          return None;
        }
      }
      var s := new Store(path, file, pins);
      store := Some(s);
    }

    method Get(host: string) returns (values: seq<string>)
      ensures values == Pins(pins, host)
    {
      values := if host in pins then pins[host] else [];
    }

    method Set(host: string, values: seq<string>, writes: bool) returns (ok: bool)
      modifies this
      ensures (Now(), ok) == SetPins(old(Now()), host, values, writes)
    {
      if !ValidEntry(host, values) {
        return false;
      }
      var next := ClonePins(pins);
      next := next[host := Sort(values)];
      if !writes {
        return false;
      }
      file := Written(next);
      pins := next;
      ok := true;
    }

    /** The callback Verifier returns; None stands for ModeOff's nil callback. */
    method VerifyChains(mode: Mode, host: string, chains: seq<seq<Certificate>>, writes: bool)
      returns (verdict: Option<Verdict>, ghost present: seq<string>)
      modifies this
      ensures Presents(present, chains)
      ensures mode.Off? ==> verdict.None? && Now() == old(Now())
      ensures !mode.Off? ==> verdict.Some? && (Now(), verdict.value) == Verify(old(Now()), mode, host, present, writes)
    {
      var keys := ChainPins(chains);
      present := keys;
      if mode.Off? {
        return None, keys;
      }
      if |keys| == 0 {
        return Some(NoChain), keys;
      }
      var stored := Get(host);
      if |stored| == 0 {
        if mode.Strict? {
          return Some(NoPinStored), keys;
        }
        var ok := Set(host, keys, writes);
        return Some(if ok then Accepted else NotRecorded), keys;
      }
      for i := 0 to |keys|
        invariant forall j :: 0 <= j < i ==> keys[j] !in stored
      {
        if keys[i] in stored {
          return Some(Accepted), keys;
        }
      }
      verdict := Some(Mismatch(stored, keys));
    }
  }

  method ClonePins(source: PinMap) returns (cloned: PinMap)
    ensures cloned == source
  {
    cloned := map[];
    var left := source.Keys;
    while left != {}
      invariant left <= source.Keys && cloned.Keys == source.Keys - left
      invariant forall host :: host in cloned ==> cloned[host] == source[host]
    {
      var host :| host in left;
      cloned := cloned[host := source[host]];
      left := left - {host};
    }
  }
}
