/** internal/control/transport.go: the dialer that retries a rejected Encrypted Client Hello. */
module Transports {
  import opened Wrappers
  import opened Base64

  /** An ECHConfigList. */
  type ConfigList = seq<Byte>

  datatype Handshake = Completed(echAccepted: bool) | Rejected(retry: ConfigList) | Broken

  /** A raw connection: still open, closed, or handed to the caller inside a TLS connection. */
  datatype Raw = Pending | Closed | Returned(echAccepted: bool)

  /** Where one dialTLS call stands. `attempt` counts from 1. */
  datatype Phase =
    | Entered
    | Dialling(attempt: nat, offer: ConfigList)
    | Shaking(attempt: nat, offer: ConfigList)
    | Adopting(retry: ConfigList)
    | Succeeded(echAccepted: bool)
    | Failed

  datatype Call = Call(phase: Phase, dials: nat, raws: seq<Raw>)

  /** The shared config, every non-empty retry list a server has sent, and the calls in flight. */
  datatype State = State(config: ConfigList, sent: set<ConfigList>, calls: seq<Call>)

  datatype Action = Read(i: nat) | Dial(i: nat, ok: bool) | Shake(i: nat, h: Handshake) | Adopt(i: nat)

  const NEW_CALL := Call(Entered, 0, [])

  /** The last raw connection becomes r. */
  function Settle(raws: seq<Raw>, r: Raw): seq<Raw> {
    if raws == [] then [] else raws[..|raws| - 1] + [r]
  }

  predicate Offers(h: Handshake) {
    h.Rejected? && h.retry != []
  }

  /** How a call moves; `hook` says whether requireECH is installed. Steps out of turn do nothing. */
  function Advance(hook: bool, config: ConfigList, c: Call, a: Action): Call {
    match (a, c.phase)
    case (Read(_), Entered) => c.(phase := Dialling(1, config))
    case (Dial(_, ok), Dialling(n, offer)) =>
      if ok then Call(Shaking(n, offer), c.dials + 1, c.raws + [Pending])
      else Call(Failed, c.dials + 1, c.raws)
    case (Shake(_, h), Shaking(n, offer)) =>
      if h.Completed? && (hook ==> h.echAccepted) then
        c.(phase := Succeeded(h.echAccepted), raws := Settle(c.raws, Returned(h.echAccepted)))
      else
        c.(phase := if Offers(h) && n == 1 then Adopting(h.retry) else Failed, raws := Settle(c.raws, Closed))
    case (Adopt(_), Adopting(retry)) => c.(phase := Dialling(2, retry))
    case _ => c
  }

  /** The retry list a server sends in this step, if any. */
  function SentIn(c: Call, a: Action): set<ConfigList> {
    if a.Shake? && c.phase.Shaking? && Offers(a.h) then {a.h.retry} else {}
  }

  /** The shared config after this step. */
  function ConfigAfter(config: ConfigList, c: Call, a: Action): ConfigList {
    if a.Adopt? && c.phase.Adopting? then c.phase.retry else config
  }

  /** One atomic step of the call it names. */
  function Step(hook: bool, s: State, a: Action): State {
    if a.i >= |s.calls| then s
    else
      var c := s.calls[a.i];
      State(ConfigAfter(s.config, c, a), s.sent + SentIn(c, a), s.calls[a.i := Advance(hook, s.config, c, a)])
  }

  function Run(hook: bool, s: State, actions: seq<Action>): State
    decreases |actions|
  {
    if actions == [] then s else Run(hook, Step(hook, s, actions[0]), actions[1..])
  }

  // ---------- What every interleaving keeps ----------

  predicate AllClosed(raws: seq<Raw>) {
    forall r :: r in raws ==> r == Closed
  }

  predicate LastIs(raws: seq<Raw>, r: Raw) {
    raws != [] && raws[|raws| - 1] == r && AllClosed(raws[..|raws| - 1])
  }

  ghost predicate CallSound(hook: bool, c: Call, sent: set<ConfigList>) {
    && |c.raws| <= c.dials <= 2
    && match c.phase
       case Entered => c.dials == 0
       case Dialling(n, offer) => c.dials == n - 1 && n <= 2 && AllClosed(c.raws) && (n == 2 ==> offer in sent)
       case Shaking(n, offer) => c.dials == n && LastIs(c.raws, Pending) && (n == 2 ==> offer in sent)
       case Adopting(retry) => c.dials == 1 && AllClosed(c.raws) && retry in sent
       case Succeeded(ech) => (hook ==> ech) && LastIs(c.raws, Returned(ech))
       case Failed => AllClosed(c.raws)
  }

  ghost predicate Sound(hook: bool, initial: ConfigList, s: State) {
    && (s.config == initial || s.config in s.sent) && [] !in s.sent
    && forall i :: 0 <= i < |s.calls| ==> CallSound(hook, s.calls[i], s.sent)
  }

  lemma SettleLast(raws: seq<Raw>, r: Raw)
    requires LastIs(raws, Pending)
    ensures LastIs(Settle(raws, r), r) && |Settle(raws, r)| == |raws|
    ensures r == Closed ==> AllClosed(Settle(raws, r))
  {
    assert Settle(raws, r)[..|raws| - 1] == raws[..|raws| - 1];
  }

  lemma DialSound(hook: bool, config: ConfigList, c: Call, a: Action, sent: set<ConfigList>)
    requires CallSound(hook, c, sent) && a.Dial? && c.phase.Dialling?
    ensures CallSound(hook, Advance(hook, config, c, a), sent)
  {
    assert (c.raws + [Pending])[..|c.raws|] == c.raws;
  }

  lemma AcceptedSound(hook: bool, c: Call, ech: bool, sent: set<ConfigList>)
    requires CallSound(hook, c, sent) && c.phase.Shaking? && (hook ==> ech)
    ensures CallSound(hook, Call(Succeeded(ech), c.dials, Settle(c.raws, Returned(ech))), sent)
  {
    SettleLast(c.raws, Returned(ech));
  }

  lemma RefusedSound(hook: bool, c: Call, sent: set<ConfigList>)
    requires CallSound(hook, c, sent) && c.phase.Shaking?
    ensures CallSound(hook, Call(Failed, c.dials, Settle(c.raws, Closed)), sent)
  {
    SettleLast(c.raws, Closed);
  }

  lemma RetriedSound(hook: bool, c: Call, retry: ConfigList, sent: set<ConfigList>)
    requires CallSound(hook, c, sent) && c.phase.Shaking? && c.phase.attempt == 1
    ensures CallSound(hook, Call(Adopting(retry), c.dials, Settle(c.raws, Closed)), sent + {retry})
  {
    SettleLast(c.raws, Closed);
  }

  lemma ShakeSound(hook: bool, config: ConfigList, c: Call, a: Action, sent: set<ConfigList>)
    requires CallSound(hook, c, sent) && a.Shake? && c.phase.Shaking?
    ensures CallSound(hook, Advance(hook, config, c, a), sent + SentIn(c, a))
  {
    if a.h.Completed? && (hook ==> a.h.echAccepted) {
      AcceptedSound(hook, c, a.h.echAccepted, sent);
      assert sent + SentIn(c, a) == sent;
    } else if Offers(a.h) && c.phase.attempt == 1 {
      RetriedSound(hook, c, a.h.retry, sent);
    } else {
      RefusedSound(hook, c, sent);
      MoreSent(hook, Call(Failed, c.dials, Settle(c.raws, Closed)), sent, sent + SentIn(c, a));
    }
  }

  lemma AdvanceSound(hook: bool, config: ConfigList, c: Call, a: Action, sent: set<ConfigList>)
    requires CallSound(hook, c, sent)
    ensures CallSound(hook, Advance(hook, config, c, a), sent + SentIn(c, a))
  {
    if a.Dial? && c.phase.Dialling? {
      DialSound(hook, config, c, a, sent);
    } else if a.Shake? && c.phase.Shaking? {
      ShakeSound(hook, config, c, a, sent);
    } else if a.Adopt? && c.phase.Adopting? {
      assert Advance(hook, config, c, a) == c.(phase := Dialling(2, c.phase.retry));
    } else if a.Read? && c.phase.Entered? {
      assert c.raws == [];
    } else {
      assert Advance(hook, config, c, a) == c;
    }
  }

  lemma MoreSent(hook: bool, c: Call, sent: set<ConfigList>, more: set<ConfigList>)
    requires CallSound(hook, c, sent) && sent <= more
    ensures CallSound(hook, c, more)
  {
  }

  lemma StepSound(hook: bool, initial: ConfigList, s: State, a: Action)
    requires Sound(hook, initial, s)
    ensures Sound(hook, initial, Step(hook, s, a))
  {
    if a.i < |s.calls| {
      var t := Step(hook, s, a);
      AdvanceSound(hook, s.config, s.calls[a.i], a, s.sent);
      forall i | 0 <= i < |t.calls| ensures CallSound(hook, t.calls[i], t.sent) {
        if i != a.i { MoreSent(hook, s.calls[i], s.sent, t.sent); }
      }
    }
  }

  /**
   Under every interleaving of calls: the stored config is the initial one or a list some server
   sent; a call dials at most twice, the second time with a list a server sent; every raw connection
   is closed unless its call is still using it or has returned it; and with the hook installed
   every returned connection has ECH accepted.
   */
  lemma {:induction false} DialerSound(hook: bool, initial: ConfigList, s: State, actions: seq<Action>)
    requires Sound(hook, initial, s)
    ensures Sound(hook, initial, Run(hook, s, actions))
    decreases |actions|
  {
    if actions != [] {
      StepSound(hook, initial, s, actions[0]);
      DialerSound(hook, initial, Step(hook, s, actions[0]), actions[1..]);
    }
  }

  /** A dialer that starts with a config never loses it. */
  lemma ConfigNeverEmpty(hook: bool, initial: ConfigList, calls: nat, actions: seq<Action>)
    requires initial != []
    ensures Run(hook, State(initial, {}, seq(calls, _ => NEW_CALL)), actions).config != []
  {
    var s := State(initial, {}, seq(calls, _ => NEW_CALL));
    assert AllClosed([]);
    DialerSound(hook, initial, s, actions);
  }

  // ---------- What a call offers ----------

  /** Every handshake offers the config the dialer started with or a list some server sent. */
  ghost predicate OffersKnown(initial: ConfigList, s: State) {
    forall i :: 0 <= i < |s.calls| ==>
      match s.calls[i].phase
      case Dialling(_, offer) => offer == initial || offer in s.sent
      case Shaking(_, offer) => offer == initial || offer in s.sent
      case _ => true
  }

  /**
   Where each move of a call comes from: its first dial offers the config stored at that moment, a
   second one the list this call's own server sent with its rejection, which is stored then.
   */
  lemma OfferFollows(hook: bool, config: ConfigList, c: Call, a: Action)
    ensures
      var next := Advance(hook, config, c, a).phase;
      && (next != c.phase && next.Dialling? ==>
            || (c.phase.Entered? && next == Dialling(1, config) && ConfigAfter(config, c, a) == config)
            || (c.phase.Adopting? && next == Dialling(2, c.phase.retry) && ConfigAfter(config, c, a) == c.phase.retry))
      && (next != c.phase && next.Shaking? ==>
            c.phase.Dialling? && next.attempt == c.phase.attempt && next.offer == c.phase.offer)
      && (next != c.phase && next.Adopting? ==>
            c.phase.Shaking? && c.phase.attempt == 1 && a.Shake? && a.h == Rejected(next.retry) && next.retry != [])
      && (ConfigAfter(config, c, a) != config ==> c.phase.Adopting? && ConfigAfter(config, c, a) == c.phase.retry)
      && SentIn(c, a) == (if c.phase.Shaking? && a.Shake? && a.h.Rejected? && a.h.retry != [] then {a.h.retry} else {})
  {
  }

  /** Under every interleaving of calls. */
  lemma {:induction false} OffersStayKnown(hook: bool, initial: ConfigList, s: State, actions: seq<Action>)
    requires Sound(hook, initial, s) && OffersKnown(initial, s)
    ensures OffersKnown(initial, Run(hook, s, actions))
    decreases |actions|
  {
    if actions != [] {
      var a := actions[0];
      StepSound(hook, initial, s, a);
      if a.i < |s.calls| { OfferFollows(hook, s.config, s.calls[a.i], a); }
      OffersStayKnown(hook, initial, Step(hook, s, a), actions[1..]);
    }
  }

  // ---------- The dialer object ----------

  /** The outside world's part in one dialTLS call. */
  datatype World = World(dial: bool, shake: Handshake, redial: bool, reshake: Handshake)

  /** One call's steps, with no other call in between. */
  function Alone(w: World): seq<Action> {
    [Read(0), Dial(0, w.dial), Shake(0, w.shake), Adopt(0), Dial(0, w.redial), Shake(0, w.reshake)]
  }

  function Solo(hook: bool, config: ConfigList, w: World): State {
    Run(hook, State(config, {}, [NEW_CALL]), Alone(w))
  }

  lemma {:induction false} CallsStay(hook: bool, s: State, actions: seq<Action>)
    ensures |Run(hook, s, actions).calls| == |s.calls|
    decreases |actions|
  {
    if actions != [] { CallsStay(hook, Step(hook, s, actions[0]), actions[1..]); }
  }

  function SoloPhase(hook: bool, config: ConfigList, w: World): Phase {
    CallsStay(hook, State(config, {}, [NEW_CALL]), Alone(w));
    Solo(hook, config, w).calls[0].phase
  }

  datatype Attempted = Connected(echAccepted: bool) | Retry(list: ConfigList) | NoRetry

  function AttemptResult(hook: bool, dial: bool, h: Handshake): Attempted {
    if !dial then NoRetry
    else if h.Completed? && (hook ==> h.echAccepted) then Connected(h.echAccepted)
    else if h.Rejected? && h.retry != [] then Retry(h.retry)
    else NoRetry
  }

  /** Six steps, one after the other. */
  lemma RunSix(hook: bool, s: State, actions: seq<Action>)
    requires |actions| == 6
    ensures
      var s3 := Step(hook, Step(hook, Step(hook, s, actions[0]), actions[1]), actions[2]);
      Run(hook, s, actions) == Step(hook, Step(hook, Step(hook, s3, actions[3]), actions[4]), actions[5])
  {
    var s1 := Step(hook, s, actions[0]);
    var s2 := Step(hook, s1, actions[1]);
    var s3 := Step(hook, s2, actions[2]);
    var s4 := Step(hook, s3, actions[3]);
    var s5 := Step(hook, s4, actions[4]);
    assert actions[1..][1..] == actions[2..] && actions[2..][1..] == actions[3..] && actions[3..][1..] == actions[4..];
    assert actions[4..][1..] == actions[5..] && actions[5..][1..] == [];
    assert Run(hook, s5, actions[5..]) == Step(hook, s5, actions[5]);
    assert Run(hook, s4, actions[4..]) == Run(hook, s5, actions[5..]);
    assert Run(hook, s3, actions[3..]) == Run(hook, s4, actions[4..]);
    assert Run(hook, s2, actions[2..]) == Run(hook, s3, actions[3..]);
    assert Run(hook, s1, actions[1..]) == Run(hook, s2, actions[2..]);
  }

  /** A dial and its handshake, on a dialer with no other call. */
  lemma AttemptAlone(hook: bool, s: State, dial: bool, h: Handshake)
    requires |s.calls| == 1 && s.calls[0].phase.Dialling?
    ensures
      var end := Step(hook, Step(hook, s, Dial(0, dial)), Shake(0, h));
      var got := AttemptResult(hook, dial, h);
      && end.config == s.config && |end.calls| == 1
      && end.calls[0].phase ==
           (if got.Connected? then Succeeded(got.echAccepted)
            else if got.Retry? && s.calls[0].phase.attempt == 1 then Adopting(got.list)
            else Failed)
  {
    var mid := Step(hook, s, Dial(0, dial));
    assert mid.calls[0] == Advance(hook, s.config, s.calls[0], Dial(0, dial));
    var end := Step(hook, mid, Shake(0, h));
    assert end.calls[0] == Advance(hook, mid.config, mid.calls[0], Shake(0, h));
  }

  /** A call that is over ignores further steps. */
  lemma OverStays(hook: bool, s: State, a: Action)
    requires |s.calls| == 1 && (s.calls[0].phase.Succeeded? || s.calls[0].phase.Failed?)
    ensures
      var t := Step(hook, s, a);
      t.config == s.config && |t.calls| == 1 && t.calls[0].phase == s.calls[0].phase
  {
  }

  lemma SoloResult(hook: bool, config: ConfigList, w: World)
    ensures
      var first := AttemptResult(hook, w.dial, w.shake);
      var second := AttemptResult(hook, w.redial, w.reshake);
      var end := Solo(hook, config, w);
      && end.config == (if first.Retry? then first.list else config)
      && SoloPhase(hook, config, w) ==
           (if first.Connected? then Succeeded(first.echAccepted)
            else if first.Retry? && second.Connected? then Succeeded(second.echAccepted)
            else Failed)
  {
    var s0 := State(config, {}, [NEW_CALL]);
    RunSix(hook, s0, Alone(w));
    var s1 := Step(hook, s0, Read(0));
    AttemptAlone(hook, s1, w.dial, w.shake);
    var s3 := Step(hook, Step(hook, s1, Dial(0, w.dial)), Shake(0, w.shake));
    var s4 := Step(hook, s3, Adopt(0));
    if s3.calls[0].phase.Adopting? {
      AttemptAlone(hook, s4, w.redial, w.reshake);
    } else {
      OverStays(hook, s3, Adopt(0));
      OverStays(hook, s4, Dial(0, w.redial));
      OverStays(hook, Step(hook, s4, Dial(0, w.redial)), Shake(0, w.reshake));
    }
  }

  /** A handshake that ends in a connection the caller may use. */
  predicate Usable(hook: bool, dial: bool, h: Handshake) {
    dial && h.Completed? && (hook ==> h.echAccepted)
  }

  /** The call alone, told from its handshakes: one retry, after a rejection that brought a list. */
  lemma SoloExactly(hook: bool, config: ConfigList, w: World)
    ensures
      var offered := w.dial && w.shake.Rejected? && w.shake.retry != [];
      && SoloPhase(hook, config, w) ==
           (if Usable(hook, w.dial, w.shake) then Succeeded(w.shake.echAccepted)
            else if offered && Usable(hook, w.redial, w.reshake) then Succeeded(w.reshake.echAccepted)
            else Failed)
      && Solo(hook, config, w).config == (if offered then w.shake.retry else config)
  {
    SoloResult(hook, config, w);
  }

  class EchDialer {
    const hook: bool
    var config: ConfigList

    constructor (hook: bool, config: ConfigList)
      ensures this.hook == hook && this.config == config
    {
      this.hook, this.config := hook, config;
    }

    method Attempt(dial: bool, h: Handshake) returns (r: Attempted)
      ensures r == AttemptResult(hook, dial, h)
    {
      if !dial {
        return NoRetry;
      }
      match h
      case Completed(ech) => r := if hook && !ech then NoRetry else Connected(ech);
      case Rejected(retry) => r := if |retry| > 0 then Retry(retry) else NoRetry;
      case Broken => r := NoRetry;
    }

    /** dialTLS: what it returns, whether ECH was accepted, or None for its error. */
    method DialTLS(w: World) returns (conn: Option<bool>)
      modifies this
      ensures config == Solo(hook, old(config), w).config
      ensures SoloPhase(hook, old(config), w) == (if conn.Some? then Succeeded(conn.value) else Failed)
    {
      SoloResult(hook, config, w);
      var first := Attempt(w.dial, w.shake);
      if first.Connected? {
        return Some(first.echAccepted);
      }
      if first.NoRetry? {
        return None;
      }
      config := first.list;
      var second := Attempt(w.redial, w.reshake);
      conn := if second.Connected? then Some(second.echAccepted) else None;
    }
  }
}
