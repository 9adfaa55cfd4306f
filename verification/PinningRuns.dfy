/** What the pin store guarantees over runs, one verification at a time and interleaved. */
module PinningRuns {
  import opened Wrappers
  import opened Base64
  import opened Text
  import opened Pinning

  // ---------- Durability ----------

  datatype Op =
    | Setting(host: string, values: seq<string>, writes: bool)
    | Verifying(mode: Checking, host: string, present: seq<string>, writes: bool)
    | Reopening

  /** Memory is what was last written, and all of it is well-formed. */
  ghost predicate Coherent(s: State) {
    ValidPins(s.pins) && (s.file == Written(s.pins) || (s.file.Missing? && s.pins == map[]))
  }

  ghost function Apply(path: string, s: State, op: Op): State {
    match op
    case Setting(host, values, writes) => SetPins(s, host, values, writes).0
    case Verifying(mode, host, present, writes) => Verify(s, mode, host, present, writes).0
    case Reopening => if OpenStore(path, s.file).Some? then OpenStore(path, s.file).value else s
  }

  ghost function Run(path: string, s: State, ops: seq<Op>): State
    decreases |ops|
  {
    if ops == [] then s else Run(path, Apply(path, s, ops[0]), ops[1..])
  }

  lemma SortedEntryValid(host: string, values: seq<string>)
    requires ValidEntry(host, values)
    ensures ValidEntry(host, Sort(values))
  {
    SortKeepsSet(values);
    forall v | v in Sort(values) ensures Decodes32(STD, v) { assert v in Elements(Sort(values)); }
  }

  lemma SetCoherent(s: State, host: string, values: seq<string>, writes: bool)
    requires Coherent(s)
    ensures Coherent(SetPins(s, host, values, writes).0)
  {
    if ValidEntry(host, values) { SortedEntryValid(host, values); }
  }

  /** Through any operations and failed writes memory and file agree, so reopening changes nothing. */
  lemma {:induction false} StoreStaysCoherent(path: string, s: State, ops: seq<Op>)
    requires Coherent(s) && TrimSpace(path) != ""
    ensures Coherent(Run(path, s, ops))
    ensures OpenStore(path, Run(path, s, ops).file) == Some(Run(path, s, ops))
    decreases |ops|
  {
    if ops != [] {
      var op := ops[0];
      match op {
        case Setting(host, values, writes) => SetCoherent(s, host, values, writes);
        case Verifying(mode, host, present, writes) => SetCoherent(s, host, present, writes);
        case Reopening =>
      }
      StoreStaysCoherent(path, Apply(path, s, op), ops[1..]);
    }
  }

  // ---------- Files that cannot be opened ----------

  /** A client over restarts: without an open store nothing is verified or set. */
  datatype Process = Process(open: bool, store: State)

  ghost function Serve(path: string, p: Process, op: Op): Process {
    if op.Reopening? then
      match OpenStore(path, p.store.file)
      case None => Process(false, p.store)
      case Some(s) => Process(true, s)
    else if p.open then Process(true, Apply(path, p.store, op))
    else p
  }

  ghost function ServeAll(path: string, p: Process, ops: seq<Op>): Process
    decreases |ops|
  {
    if ops == [] then p else ServeAll(path, Serve(path, p, ops[0]), ops[1..])
  }

  /** The file is there, but cannot be read or holds an entry that is not well-formed. */
  ghost predicate Damaged(file: PinFile) {
    file.Unreadable? || (file.Written? && exists host :: host in file.pins && !ValidEntry(host, file.pins[host]))
  }

  /** A damaged pin file is never taken for an empty store: no restart opens or overwrites it. */
  lemma {:induction false} DamagedPinsKept(path: string, p: Process, ops: seq<Op>)
    requires !p.open && Damaged(p.store.file)
    ensures !ServeAll(path, p, ops).open && ServeAll(path, p, ops).store.file == p.store.file
    decreases |ops|
  {
    if ops != [] {
      OpenStoreExactly(path, p.store.file);
      DamagedPinsKept(path, Serve(path, p, ops[0]), ops[1..]);
    }
  }

  lemma SetRecords(s: State, owner: string, values: seq<string>, writes: bool, host: string)
    ensures Pins(SetPins(s, owner, values, writes).0.pins, host) ==
            if owner == host && writes && ValidEntry(owner, values) then Sort(values) else Pins(s.pins, host)
  {
  }

  // ---------- One verification at a time ----------

  lemma IntersectsSorted(present: seq<string>, first: seq<string>)
    ensures Intersects(present, Sort(first)) <==> Intersects(present, first)
  {
    SortKeepsSet(first);
    forall v ensures v in Sort(first) <==> v in first {
      assert v in Elements(Sort(first)) <==> v in Elements(first);
    }
  }

  /** Strict never writes, and what it accepts TOFU accepts without touching the store. */
  lemma StrictRefinesTofu(s: State, host: string, present: seq<string>, writes: bool)
    ensures Verify(s, Strict, host, present, writes).0 == s
    ensures Verify(s, Strict, host, present, writes).1.Accepted? ==>
              Verify(s, Tofu, host, present, writes) == (s, Accepted)
    ensures Verify(s, Tofu, host, present, writes).1.Accepted? ==>
              Verify(Verify(s, Tofu, host, present, writes).0, Strict, host, present, writes).1.Accepted?
  {
    if Verify(s, Tofu, host, present, writes).1.Accepted? && Pins(s.pins, host) == [] {
      RecordedIsAccepted(s, host, present, writes);
    }
  }

  lemma RecordedIsAccepted(s: State, host: string, present: seq<string>, writes: bool)
    requires SetPins(s, host, present, writes).1
    ensures Verify(SetPins(s, host, present, writes).0, Strict, host, present, writes).1.Accepted?
  {
    SetRecords(s, host, present, writes, host);
    SortKeepsSet(present);
    IntersectsSorted(present, present);
    assert present[0] in present;
  }

  predicate OnlyVerifies(ops: seq<Op>) {
    forall op :: op in ops ==> !op.Setting?
  }

  /** Verifications and restarts never replace pins that are already there. */
  lemma {:induction false} PinsWrittenOnce(path: string, s: State, ops: seq<Op>, host: string)
    requires Coherent(s) && TrimSpace(path) != "" && OnlyVerifies(ops) && Pins(s.pins, host) != []
    ensures Pins(Run(path, s, ops).pins, host) == Pins(s.pins, host)
    decreases |ops|
  {
    if ops != [] {
      assert ops[0] in ops;
      StoreStaysCoherent(path, s, [ops[0]]);
      assert Run(path, s, [ops[0]]) == Apply(path, s, ops[0]) by { assert [ops[0]][1..] == []; }
      PinsWrittenOnce(path, Apply(path, s, ops[0]), ops[1..], host);
    }
  }

  /**
   The commitment TOFU makes: after a first recorded use, and whatever is verified in between,
   a chain is accepted exactly when it shares a key with the one recorded.
   */
  lemma LaterAcceptanceIsIntersection(path: string, s: State, host: string, first: seq<string>, ops: seq<Op>,
                                      mode: Checking, present: seq<string>, writes: bool)
    requires Coherent(s) && TrimSpace(path) != "" && OnlyVerifies(ops)
    requires Pins(s.pins, host) == [] && Verify(s, Tofu, host, first, true).1.Accepted?
    ensures
      var later := Run(path, Verify(s, Tofu, host, first, true).0, ops);
      Verify(later, mode, host, present, writes).1.Accepted? <==> Intersects(present, first)
  {
    var recorded := Verify(s, Tofu, host, first, true).0;
    FirstUseRecords(s, host, first);
    PinsWrittenOnce(path, recorded, ops, host);
    IntersectsSorted(present, first);
  }

  lemma FirstUseRecords(s: State, host: string, first: seq<string>)
    requires Coherent(s) && Pins(s.pins, host) == [] && Verify(s, Tofu, host, first, true).1.Accepted?
    ensures
      var recorded := Verify(s, Tofu, host, first, true).0;
      Coherent(recorded) && Pins(recorded.pins, host) == Sort(first) != []
  {
    SetCoherent(s, host, first, true);
    SetRecords(s, host, first, true, host);
    SortKeepsSet(first);
  }

  // ---------- Interleaved verifications ----------

  datatype Verifier = Verifier(mode: Checking, host: string, present: seq<string>)

  datatype Phase = Ready | Looked(stored: seq<string>) | Done(stored: seq<string>, verdict: Verdict)

  /** The store's two critical sections are the atomic steps. */
  datatype Action = Look(v: nat) | Finish(v: nat, writes: bool)

  datatype System = System(store: State, phases: seq<Phase>)

  predicate WellSized(vs: seq<Verifier>, c: System) {
    |c.phases| == |vs|
  }

  function Step(vs: seq<Verifier>, c: System, a: Action): System
    requires WellSized(vs, c)
    ensures |Step(vs, c, a).phases| == |vs|
  {
    if a.v >= |vs| then c
    else
      var me := vs[a.v];
      match (a, c.phases[a.v])
      case (Look(_), Ready) =>
        var next := if me.present == [] then Done([], NoChain) else Looked(Pins(c.store.pins, me.host));
        c.(phases := c.phases[a.v := next])
      case (Finish(_, writes), Looked(stored)) =>
        var (store, verdict) := Decide(c.store, me.mode, me.host, me.present, stored, writes);
        System(store, c.phases[a.v := Done(stored, verdict)])
      case _ => c
  }

  function Interleave(vs: seq<Verifier>, c: System, actions: seq<Action>): System
    requires WellSized(vs, c)
    ensures |Interleave(vs, c, actions).phases| == |vs|
    decreases |actions|
  {
    if actions == [] then c else Interleave(vs, Step(vs, c, actions[0]), actions[1..])
  }

  /** A verifier whose two steps nothing comes between is one verification. */
  lemma AloneIsVerify(vs: seq<Verifier>, c: System, v: nat, writes: bool)
    requires WellSized(vs, c) && v < |vs| && c.phases[v].Ready?
    ensures
      var me, after := vs[v], Interleave(vs, c, [Look(v), Finish(v, writes)]);
      && after.phases[v].Done?
      && (after.store, after.phases[v].verdict) == Verify(c.store, me.mode, me.host, me.present, writes)
      && forall i :: 0 <= i < |vs| && i != v ==> after.phases[i] == c.phases[i]
  {
    var actions := [Look(v), Finish(v, writes)];
    var d := Step(vs, c, Look(v));
    assert actions[1..] == [Finish(v, writes)] && actions[1..][1..] == [];
    assert Interleave(vs, c, actions) == Interleave(vs, d, actions[1..]);
    assert Interleave(vs, d, actions[1..]) == Step(vs, d, Finish(v, writes));
  }

  /** Memory and file agree after every step of every interleaving, whatever writes fail. */
  lemma {:induction false} InterleavingKeepsCoherent(vs: seq<Verifier>, c: System, actions: seq<Action>)
    requires WellSized(vs, c) && Coherent(c.store)
    ensures Coherent(Interleave(vs, c, actions).store)
    decreases |actions|
  {
    if actions != [] {
      var a := actions[0];
      if a.Finish? && a.v < |vs| { SetCoherent(c.store, vs[a.v].host, vs[a.v].present, a.writes); }
      InterleavingKeepsCoherent(vs, Step(vs, c, a), actions[1..]);
    }
  }

  /** A TOFU verifier of this host that read the store before anything was recorded. */
  predicate SawNothing(v: Verifier, p: Phase, host: string) {
    v.mode.Tofu? && v.host == host && !p.Ready? && p.stored == []
  }

  ghost predicate RecordedBy(vs: seq<Verifier>, c: System, host: string, i: nat)
    requires WellSized(vs, c)
  {
    && i < |vs| && SawNothing(vs[i], c.phases[i], host) && c.phases[i].Done?
    && Pins(c.store.pins, host) == Sort(vs[i].present)
  }

  ghost predicate Provenance(vs: seq<Verifier>, c: System, host: string)
    requires WellSized(vs, c)
  {
    Pins(c.store.pins, host) == [] || exists i :: RecordedBy(vs, c, host, i)
  }

  /** A finished verifier stays as it is. */
  lemma DoneStays(vs: seq<Verifier>, c: System, i: nat, a: Action)
    requires WellSized(vs, c) && i < |vs| && c.phases[i].Done?
    ensures Step(vs, c, a).phases[i] == c.phases[i]
  {
  }

  lemma DecideChanges(s: State, mode: Checking, owner: string, present: seq<string>, stored: seq<string>,
                      writes: bool, host: string)
    ensures Pins(Decide(s, mode, owner, present, stored, writes).0.pins, host) != Pins(s.pins, host) <==>
            && stored == [] && mode.Tofu? && writes && owner == host && ValidEntry(owner, present)
            && Sort(present) != Pins(s.pins, host)
    ensures Pins(Decide(s, mode, owner, present, stored, writes).0.pins, host) in {Pins(s.pins, host), Sort(present)}
  {
    SetRecords(s, owner, present, writes, host);
  }

  /** A step leaves a host's pins alone or is a verifier that saw nothing recording its keys. */
  lemma StepRecords(vs: seq<Verifier>, c: System, host: string, a: Action)
    requires WellSized(vs, c)
    ensures || Pins(Step(vs, c, a).store.pins, host) == Pins(c.store.pins, host)
            || RecordedBy(vs, Step(vs, c, a), host, a.v)
  {
    if a.v < |vs| && a.Finish? && c.phases[a.v].Looked? {
      var me := vs[a.v];
      DecideChanges(c.store, me.mode, me.host, me.present, c.phases[a.v].stored, a.writes, host);
    } else {
      assert Step(vs, c, a).store == c.store;
    }
  }

  lemma StepProvenance(vs: seq<Verifier>, c: System, host: string, a: Action)
    requires WellSized(vs, c) && Provenance(vs, c, host)
    ensures Provenance(vs, Step(vs, c, a), host)
  {
    StepRecords(vs, c, host, a);
    var d := Step(vs, c, a);
    if Pins(d.store.pins, host) == Pins(c.store.pins, host) && Pins(c.store.pins, host) != [] {
      var i :| RecordedBy(vs, c, host, i);
      DoneStays(vs, c, i, a);
      assert RecordedBy(vs, d, host, i);
    }
  }

  /**
   Under every interleaving, a host that starts without pins has none or exactly the sorted keys
   of one verifier that found it empty.
   */
  lemma {:induction false} PinsComeFromAnEarlyVerifier(
    vs: seq<Verifier>, c: System, host: string, actions: seq<Action>)
    requires WellSized(vs, c) && Provenance(vs, c, host)
    ensures Provenance(vs, Interleave(vs, c, actions), host)
    decreases |actions|
  {
    if actions != [] {
      StepProvenance(vs, c, host, actions[0]);
      PinsComeFromAnEarlyVerifier(vs, Step(vs, c, actions[0]), host, actions[1..]);
    }
  }

  /** Something is recorded and no verifier that read an empty entry is still on its way. */
  ghost predicate Settled(vs: seq<Verifier>, c: System, host: string)
    requires WellSized(vs, c)
  {
    && Pins(c.store.pins, host) != []
    && forall i :: 0 <= i < |vs| ==> !(c.phases[i].Looked? && SawNothing(vs[i], c.phases[i], host))
  }

  /** Once the early verifiers are done, no later interleaving changes the pins. */
  lemma {:induction false} SettledForever(vs: seq<Verifier>, c: System, host: string, actions: seq<Action>)
    requires WellSized(vs, c) && Settled(vs, c, host)
    ensures Settled(vs, Interleave(vs, c, actions), host)
    ensures Pins(Interleave(vs, c, actions).store.pins, host) == Pins(c.store.pins, host)
    decreases |actions|
  {
    if actions != [] {
      var d := Step(vs, c, actions[0]);
      assert Settled(vs, d, host) && Pins(d.store.pins, host) == Pins(c.store.pins, host);
      SettledForever(vs, d, host, actions[1..]);
    }
  }

  /**
   Exactly when a step replaces pins that are already recorded: a TOFU verifier that looked
   before they were there now saves a different set of keys.
   */
  lemma OverwriteExactlyByStaleLook(vs: seq<Verifier>, c: System, host: string, a: Action)
    requires WellSized(vs, c) && Pins(c.store.pins, host) != []
    ensures Pins(Step(vs, c, a).store.pins, host) != Pins(c.store.pins, host) <==>
            && a.Finish? && a.writes && a.v < |vs|
            && c.phases[a.v].Looked? && SawNothing(vs[a.v], c.phases[a.v], host)
            && ValidEntry(host, vs[a.v].present) && Sort(vs[a.v].present) != Pins(c.store.pins, host)
  {
    if a.v < |vs| && a.Finish? && c.phases[a.v].Looked? {
      var me := vs[a.v];
      DecideChanges(c.store, me.mode, me.host, me.present, c.phases[a.v].stored, a.writes, host);
    } else {
      assert Step(vs, c, a).store == c.store;
    }
  }

  /** A TOFU verifier that read nothing finishes with its one key. */
  lemma FirstUseFinishes(vs: seq<Verifier>, c: System, i: nat, key: Certificate)
    requires WellSized(vs, c) && i < |vs| && c.phases[i] == Looked([])
    requires vs[i].mode.Tofu? && vs[i].present == [SPKI(key)] && TrimSpace(vs[i].host) != ""
    ensures
      var d := Step(vs, c, Finish(i, true));
      && Pins(d.store.pins, vs[i].host) == [SPKI(key)]
      && d.phases == c.phases[i := Done([], Accepted)]
  {
    DecodeEncode(STD, key.keyDigest);
    assert [SPKI(key)][1..] == [];
    assert Sort([SPKI(key)]) == [SPKI(key)];
    assert ValidEntry(vs[i].host, [SPKI(key)]);
  }

  /** Two overlapping first uses: the second to finish replaces the first one's pins. */
  lemma OverlappingFirstUsesCollide(host: string, first: Certificate, second: Certificate)
    requires TrimSpace(host) != "" && first != second
    ensures
      var x, y := SPKI(first), SPKI(second);
      var vs := [Verifier(Tofu, host, [x]), Verifier(Tofu, host, [y])];
      var start := System(State(map[], Missing), [Ready, Ready]);
      var mid := Interleave(vs, start, [Look(0), Look(1), Finish(0, true)]);
      && Pins(mid.store.pins, host) == [x] && mid.phases[0] == Done([], Accepted)
      && Pins(Step(vs, mid, Finish(1, true)).store.pins, host) == [y] != [x]
  {
    var x, y := SPKI(first), SPKI(second);
    DecodeEncode(STD, first.keyDigest);
    DecodeEncode(STD, second.keyDigest);
    var vs := [Verifier(Tofu, host, [x]), Verifier(Tofu, host, [y])];
    var start := System(State(map[], Missing), [Ready, Ready]);
    var both := BothLook(vs, start);
    FirstUseFinishes(vs, both, 0, first);
    FirstUseFinishes(vs, Step(vs, both, Finish(0, true)), 1, second);
    ThreeSteps(vs, start, Look(0), Look(1), Finish(0, true));
  }

  lemma BothLook(vs: seq<Verifier>, c: System) returns (both: System)
    requires |vs| == 2 && c.phases == [Ready, Ready]
    requires vs[0].present != [] && vs[1].present != []
    requires Pins(c.store.pins, vs[0].host) == [] == Pins(c.store.pins, vs[1].host)
    ensures both == Step(vs, Step(vs, c, Look(0)), Look(1)) && both == System(c.store, [Looked([]), Looked([])])
  {
    both := Step(vs, Step(vs, c, Look(0)), Look(1));
  }

  lemma ThreeSteps(vs: seq<Verifier>, c: System, a: Action, b: Action, d: Action)
    requires WellSized(vs, c)
    ensures Interleave(vs, c, [a, b, d]) == Step(vs, Step(vs, Step(vs, c, a), b), d)
  {
    var actions := [a, b, d];
    assert actions[1..] == [b, d] && [b, d][1..] == [d] && [d][1..] == [];
    var c2 := Step(vs, Step(vs, c, a), b);
    assert Interleave(vs, c2, [d]) == Step(vs, c2, d);
    assert Interleave(vs, Step(vs, c, a), [b, d]) == Interleave(vs, c2, [d]);
  }
}
