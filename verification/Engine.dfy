/** internal/engine/engine.go: the one running proxy instance and its replacement. */
module Engines {
  import opened Wrappers

  datatype Plan = Plan(
    routeMode: string, hostSlug: string, hostName: string, logicalHost: string, rootDomain: string,
    groupName: string, frontProxy: string, entries: seq<string>, udp: bool, listen: string, port: int)

  /** How far core.LoadConfig, core.New and Instance.Start get. */
  datatype Bringup = LoadFails | CreateFails | StartFails | Starts

  /** What happens to instances, in order. Instances are numbered as they are created. */
  datatype Act = Created(id: nat) | Started(id: nat) | Closed(id: nat)

  datatype State = State(inst: Option<nat>, plan: Option<Plan>, failed: Option<Bringup>, next: nat, acts: seq<Act>)

  const STOPPED := State(None, None, None, 0, [])

  function Stop(s: State): State {
    if s.inst.None? then s
    else s.(inst := None, plan := None, acts := s.acts + [Closed(s.inst.value)])
  }

  function Apply(s: State, plan: Plan, b: Bringup): State {
    var s1 := Stop(s);
    var id := s1.next;
    match b
    case LoadFails => s1.(failed := Some(b))
    case CreateFails => s1.(failed := Some(b))
    case StartFails => s1.(failed := Some(b), next := id + 1, acts := s1.acts + [Created(id), Closed(id)])
    case Starts => State(Some(id), Some(plan), None, id + 1, s1.acts + [Created(id), Started(id)])
  }

  class Engine {
    var inst: Option<nat>
    var plan: Option<Plan>
    var failed: Option<Bringup>
    var next: nat
    var acts: seq<Act>

    function Now(): State
      reads this
    {
      State(inst, plan, failed, next, acts)
    }

    constructor ()
      ensures Now() == STOPPED
    {
      inst, plan, failed, next, acts := None, None, None, 0, [];
    }

    /** stopLocked and Stop: Close's own error does not keep the instance. */
    method StopRunning()
      modifies this
      ensures Now() == Stop(old(Now()))
    {
      if inst.None? {
        return;
      }
      acts := acts + [Closed(inst.value)];
      inst, plan := None, None;
    }

    method ApplyPlan(newPlan: Plan, b: Bringup) returns (ok: bool)
      modifies this
      ensures Now() == Apply(old(Now()), newPlan, b)
      ensures ok <==> b.Starts?
    {
      StopRunning();
      if b.LoadFails? || b.CreateFails? {
        failed := Some(b);
        return false;
      }
      var id := next;
      next := next + 1;
      acts := acts + [Created(id)];
      if b.StartFails? {
        acts := acts + [Closed(id)];
        failed := Some(b);
        return false;
      }
      acts := acts + [Started(id)];
      inst, plan, failed := Some(id), Some(newPlan), None;
      ok := true;
    }
  }

  // ---------- What the engine shows ----------

  datatype Op = Applying(plan: Plan, b: Bringup) | Stopping

  function Run(s: State, ops: seq<Op>): State
    decreases |ops|
  {
    if ops == [] then s
    else Run(if ops[0].Applying? then Apply(s, ops[0].plan, ops[0].b) else Stop(s), ops[1..])
  }

  lemma {:induction false} RunLast(s: State, ops: seq<Op>, op: Op)
    ensures Run(s, ops + [op]) == Run(Run(s, ops), [op])
    decreases |ops|
  {
    if ops != [] {
      var next := if ops[0].Applying? then Apply(s, ops[0].plan, ops[0].b) else Stop(s);
      RunLast(next, ops[1..], op);
      assert (ops + [op])[1..] == ops[1..] + [op];
    } else {
      assert ops + [op] == [op];
    }
  }

  /**
   After any history the engine shows its last operation: a plan runs exactly if the last operation
   applied it and brought it up, the recorded error is that of the last application, and stopping
   leaves the record alone.
   */
  lemma EngineShowsLastOp(s: State, ops: seq<Op>, op: Op)
    requires Sound(s)
    ensures
      var before, after := Run(s, ops), Run(s, ops + [op]);
      && (op.Applying? && op.b.Starts? ==>
            after.plan == Some(op.plan) && after.failed.None? && after.inst == Some(before.next))
      && (op.Applying? && !op.b.Starts? ==> after.plan.None? && after.inst.None? && after.failed == Some(op.b))
      && (op.Stopping? ==> after.plan.None? && after.inst.None? && after.failed == before.failed)
  {
    RunLast(s, ops, op);
    EngineConserves(s, ops);
    assert [op][1..] == [];
  }

  // ---------- Conservation ----------

  /** Instances created and not yet closed. */
  function Open(acts: seq<Act>): set<nat> {
    if acts == [] then {}
    else
      var before := Open(acts[..|acts| - 1]);
      match acts[|acts| - 1]
      case Created(id) => before + {id}
      case Started(_) => before
      case Closed(id) => before - {id}
  }

  function Births(acts: seq<Act>): nat {
    if acts == [] then 0
    else Births(acts[..|acts| - 1]) + (if acts[|acts| - 1].Created? then 1 else 0)
  }

  function Deaths(acts: seq<Act>): nat {
    if acts == [] then 0
    else Deaths(acts[..|acts| - 1]) + (if acts[|acts| - 1].Closed? then 1 else 0)
  }

  /** A creation finds nothing open, so the listener is free; start and close act on what is open. */
  ghost predicate Exclusive(acts: seq<Act>) {
    forall k :: 0 <= k < |acts| ==>
      match acts[k]
      case Created(_) => Open(acts[..k]) == {}
      case Started(id) => Open(acts[..k]) == {id}
      case Closed(id) => Open(acts[..k]) == {id}
  }

  ghost predicate Sound(s: State) {
    && Exclusive(s.acts)
    && Open(s.acts) == (if s.inst.Some? then {s.inst.value} else {})
    && (s.inst.Some? <==> s.plan.Some?)
    && Births(s.acts) == Deaths(s.acts) + (if s.inst.Some? then 1 else 0)
    && Births(s.acts) == s.next
  }

  lemma Extend(acts: seq<Act>, a: Act)
    requires Exclusive(acts)
    requires match a
             case Created(_) => Open(acts) == {}
             case Started(id) => Open(acts) == {id}
             case Closed(id) => Open(acts) == {id}
    ensures Exclusive(acts + [a])
    ensures Births(acts + [a]) == Births(acts) + (if a.Created? then 1 else 0)
    ensures Deaths(acts + [a]) == Deaths(acts) + (if a.Closed? then 1 else 0)
    ensures Open(acts + [a]) == if a.Closed? then {} else {a.id}
  {
    var more := acts + [a];
    assert more[..|acts|] == acts;
    forall k | 0 <= k < |acts| ensures more[..k] == acts[..k] && more[k] == acts[k] {
    }
  }

  lemma StopSound(s: State)
    requires Sound(s)
    ensures Sound(Stop(s)) && Stop(s).inst.None?
  {
    if s.inst.Some? { Extend(s.acts, Closed(s.inst.value)); }
  }

  /** Bringing an instance up, or failing to, on a stopped engine. */
  lemma BringupSound(s: State, plan: Plan, b: Bringup)
    requires Sound(s) && s.inst.None?
    ensures Sound(Apply(s, plan, b))
  {
    var id := s.next;
    var next := Apply(s, plan, b);
    if b.Starts? {
      ExtendTwice(s.acts, id, Started(id));
      assert next == State(Some(id), Some(plan), None, id + 1, s.acts + [Created(id), Started(id)]);
    } else if b.StartFails? {
      ExtendTwice(s.acts, id, Closed(id));
      assert next == State(None, None, Some(b), id + 1, s.acts + [Created(id), Closed(id)]);
    } else {
      assert next == State(None, None, Some(b), id, s.acts);
    }
  }

  lemma ApplySound(s: State, plan: Plan, b: Bringup)
    requires Sound(s)
    ensures Sound(Apply(s, plan, b))
  {
    StopSound(s);
    BringupSound(Stop(s), plan, b);
    assert Apply(s, plan, b) == Apply(Stop(s), plan, b);
  }

  lemma ExtendTwice(acts: seq<Act>, id: nat, second: Act)
    requires Exclusive(acts) && Open(acts) == {} && !second.Created? && second.id == id
    ensures
      var more := acts + [Created(id), second];
      && Exclusive(more) && Open(more) == (if second.Closed? then {} else {id})
      && Births(more) == Births(acts) + 1
      && Deaths(more) == Deaths(acts) + (if second.Closed? then 1 else 0)
  {
    Extend(acts, Created(id));
    Extend(acts + [Created(id)], second);
    assert acts + [Created(id), second] == acts + [Created(id)] + [second];
  }

  /**
   Over any sequence of Apply and Stop with any failures: instances created equal instances closed
   plus the running one, and no instance is ever created while another is open.
   */
  lemma {:induction false} EngineConserves(s: State, ops: seq<Op>)
    requires Sound(s)
    ensures Sound(Run(s, ops))
    decreases |ops|
  {
    if ops != [] {
      if ops[0].Applying? {
        ApplySound(s, ops[0].plan, ops[0].b);
        EngineConserves(Apply(s, ops[0].plan, ops[0].b), ops[1..]);
      } else {
        StopSound(s);
        EngineConserves(Stop(s), ops[1..]);
      }
    }
  }
}
