/** internal/supervisor/supervisor.go and state.go: from an inventory and choices to a running plan. */
module Supervising {
  import opened Wrappers
  import opened Text
  import opened Inventories
  import opened Probing
  import Xcfg
  import Engines

  datatype Options = Options(
    listen: string, port: int, hostSlug: string, entryGroup: string, rootDomain: string,
    noFront: bool, udp: bool, routeMode: string, domainStrategy: string, maxEntries: int,
    probeURL: string, healthInterval: Xcfg.Duration, healthTimeout: Xcfg.Duration,
    mode: string, rtt: string, padding: string, flow: string, logLevel: string)

  datatype Dial = Answered(rtt: nat) | Unanswered

  /** The outside world's part in one Resolve: folding, splitting, the random draw, disk and network. */
  datatype World = World(
    fold: (string, string) -> bool, split: Xcfg.Splitter, draw: nat, saves: bool, dial: nat -> Dial)

  /** What the source takes from its callers: a validated inventory, and a draw inside the pool. */
  predicate Callable(inv: Inventory, w: World) {
    Valid(inv) && w.draw < |inv.rootDomains|
  }

  // ---------- Choosing the root ----------

  /** The three choices made before the saved state is read. */
  predicate ReachesRoot(inv: Inventory, o: Options, w: World)
    requires Callable(inv, w)
  {
    && SelectHost(inv.hosts, o.hostSlug).Some?
    && NormalizedKey(SelectHost(inv.hosts, o.hostSlug).value.key).Some?
    && SelectGroup(inv.entryGroups, o.entryGroup, w.fold).Some?
  }

  function ChosenRoot(saved: string, inv: Inventory, o: Options, w: World): Option<string>
    requires Callable(inv, w)
  {
    if ReachesRoot(inv, o, w) then SelectRoot(inv.rootDomains, o.rootDomain, saved, w.draw) else None
  }

  /** The saved root after Resolve; "" is an absent or unreadable state file. */
  function SavedRoot(saved: string, inv: Inventory, o: Options, w: World): string
    requires Callable(inv, w)
  {
    var root := ChosenRoot(saved, inv, o, w);
    if root.Some? && root.value != saved && w.saves then root.value else saved
  }

  // ---------- Ranking and rendering ----------

  function Outcomes(ips: seq<string>, w: World): seq<Result> {
    seq(|ips|, i requires 0 <= i < |ips| =>
      match w.dial(i)
      case Answered(rtt) => Result(ips[i], rtt, true)
      case Unanswered => Result(ips[i], 0, false))
  }

  /** The results rankEntries keeps, best first. */
  function Kept(group: EntryGroup, o: Options, w: World): seq<Result> {
    Cut(OnlyOK(SortStable(Outcomes(group.ipv4, w))), o.maxEntries)
  }

  function Rendering(inv: Inventory, o: Options, host: Host, key: string, root: string,
                     entries: seq<string>, front: Option<FrontProxy>): Xcfg.Options {
    Xcfg.Options(o.listen, o.port, inv.clientID, host.slug + "." + root, key,
                 entries, front, o.udp, o.routeMode, o.domainStrategy,
                 o.mode, o.rtt, o.padding, o.flow,
                 o.probeURL, o.healthInterval, o.healthTimeout, o.logLevel)
  }

  function PlanFor(o: Options, host: Host, root: string, group: EntryGroup,
                   entries: seq<string>, front: Option<FrontProxy>): Engines.Plan {
    Engines.Plan(o.routeMode, host.slug, host.name, host.slug + "." + root, root, group.name,
                 if front.Some? then front.value.endpoint else "", entries, o.udp, o.listen, o.port)
  }

  datatype Resolved = Resolved(plan: Engines.Plan, config: Xcfg.Config)

  function FrontOf(group: EntryGroup, o: Options): Option<FrontProxy> {
    if o.noFront then None else group.frontProxy
  }

  /** The plan, which exists as soon as an entry answered and the front proxy is settled. */
  function Drafted(o: Options, w: World, host: Host, root: string, group: EntryGroup): Option<Engines.Plan> {
    var entries := Addresses(Kept(group, o, w));
    if entries == [] || (!o.noFront && group.frontProxy.None?) then None
    else Some(PlanFor(o, host, root, group, entries, FrontOf(group, o)))
  }

  function Planned(inv: Inventory, o: Options, w: World, host: Host, key: string, root: string, group: EntryGroup)
    : Option<Resolved>
  {
    match Drafted(o, w, host, root, group)
    case None => None
    case Some(plan) =>
      match Xcfg.Built(Rendering(inv, o, host, key, root, plan.entries, FrontOf(group, o)), w.split)
      case None => None
      case Some(config) => Some(Resolved(plan, config))
  }

  /** Resolve: what it returns, None for any error. */
  function Resolve(saved: string, inv: Inventory, o: Options, w: World): Option<Resolved>
    requires Callable(inv, w)
  {
    match ChosenRoot(saved, inv, o, w)
    case None => None
    case Some(root) =>
      var host := SelectHost(inv.hosts, o.hostSlug).value;
      Planned(inv, o, w, host, NormalizedKey(host.key).value, root,
              SelectGroup(inv.entryGroups, o.entryGroup, w.fold).value)
  }

  /** The plan Resolve returns, also beside a rendering error; None is the zero plan. */
  function PlanReturned(saved: string, inv: Inventory, o: Options, w: World): Option<Engines.Plan>
    requires Callable(inv, w)
  {
    match ChosenRoot(saved, inv, o, w)
    case None => None
    case Some(root) =>
      Drafted(o, w, SelectHost(inv.hosts, o.hostSlug).value, root,
              SelectGroup(inv.entryGroups, o.entryGroup, w.fold).value)
  }

  class Supervisor {
    /** The root domain in the state file. */
    var saved: string
    const engine: Engines.Engine

    constructor (saved: string, engine: Engines.Engine)
      ensures this.saved == saved && this.engine == engine
    {
      this.saved, this.engine := saved, engine;
    }

    method RankEntries(group: EntryGroup, o: Options, w: World) returns (entries: seq<string>)
      ensures entries == Addresses(Kept(group, o, w))
      ensures exists at :: FastestFirst(entries, group.ipv4, w, o.maxEntries, at)
    {
      var _ := EntriesByDial(group, o, w);
      ghost var outcomes := Outcomes(group.ipv4, w);
      var results := RankTCP(Outcomes(group.ipv4, w));
      SortStableIsStable(outcomes);
      StableUnique(results[..], SortStable(outcomes));
      entries := Reachable(results[..]);
      if |entries| == 0 {
        return;
      }
      if o.maxEntries > 0 && |entries| > o.maxEntries {
        entries := entries[..o.maxEntries];
      }
    }

    /** Resolve: its plan result and, when its error is nil, the plan with the configuration. */
    method ResolvePlan(inv: Inventory, o: Options, w: World)
      returns (plan: Option<Engines.Plan>, r: Option<Resolved>)
      requires Callable(inv, w)
      modifies this`saved
      ensures plan == PlanReturned(old(saved), inv, o, w)
      ensures r.Some? ==> plan == Some(r.value.plan)
      ensures r == Resolve(old(saved), inv, o, w)
      ensures saved == SavedRoot(old(saved), inv, o, w)
    {
      var host := SelectHost(inv.hosts, o.hostSlug);
      if host.None? {
        return None, None;
      }
      var key := NormalizedKey(host.value.key);
      if key.None? {
        return None, None;
      }
      var group := SelectGroup(inv.entryGroups, o.entryGroup, w.fold);
      if group.None? {
        return None, None;
      }
      var root := SelectRoot(inv.rootDomains, o.rootDomain, saved, w.draw);
      if root.None? {
        return None, None;
      }
      if root.value != saved && w.saves {
        saved := root.value;
      }
      plan, r := PlanFrom(inv, o, w, host.value, key.value, root.value, group.value);
    }

    /** The rest of Resolve, once every choice is made and the root is saved. */
    method PlanFrom(inv: Inventory, o: Options, w: World, host: Host, key: string, root: string, group: EntryGroup)
      returns (plan: Option<Engines.Plan>, r: Option<Resolved>)
      ensures plan == Drafted(o, w, host, root, group)
      ensures r == Planned(inv, o, w, host, key, root, group)
      ensures r.Some? ==> plan == Some(r.value.plan)
    {
      var entries := RankEntries(group, o, w);
      if |entries| == 0 {
        return None, None;
      }
      var front := group.frontProxy;
      if o.noFront {
        front := None;
      } else if front.None? {
        return None, None;
      }
      var made := PlanFor(o, host, root, group, entries, front);
      plan := Some(made);
      var config := Xcfg.Build(Rendering(inv, o, host, key, root, entries, front), w.split);
      if config.None? {
        return plan, None;
      }
      r := Some(Resolved(made, config.value));
    }

    method Start(inv: Inventory, o: Options, w: World, b: Engines.Bringup) returns (ok: bool)
      requires Callable(inv, w)
      modifies this`saved, engine
      ensures saved == SavedRoot(old(saved), inv, o, w)
      ensures engine.Now() == Started(old(engine.Now()), Resolve(old(saved), inv, o, w), b)
      ensures ok <==> Resolve(old(saved), inv, o, w).Some? && b.Starts?
    {
      var _, r := ResolvePlan(inv, o, w);
      if r.None? {
        return false;
      }
      ok := engine.ApplyPlan(r.value.plan, b);
    }
  }

  /** The engine after Start: untouched when resolving failed. */
  function Started(e: Engines.State, r: Option<Resolved>, b: Engines.Bringup): Engines.State {
    if r.None? then e else Engines.Apply(e, r.value.plan, b)
  }

  // ---------- The entry pipeline, end to end ----------

  /** Address i is to be tried before address j: it answered sooner, or as soon and was listed first. */
  predicate Sooner(w: World, i: nat, j: nat) {
    && w.dial(i).Answered? && w.dial(j).Answered?
    && (w.dial(i).rtt < w.dial(j).rtt || (w.dial(i).rtt == w.dial(j).rtt && i < j))
  }

  /**
   `entries` are the addresses at positions `at`, told from the dials alone: they answered, sooner
   ones first, and an answering address is missing only when the cut left room for sooner ones alone.
   */
  ghost predicate FastestFirst(entries: seq<string>, ips: seq<string>, w: World, most: int, at: seq<nat>) {
    && |at| == |entries| && (most > 0 ==> |at| <= most)
    && (forall k :: 0 <= k < |at| ==> at[k] < |ips| && entries[k] == ips[at[k]] && w.dial(at[k]).Answered?)
    && (forall j, k :: 0 <= j < k < |at| ==> Sooner(w, at[j], at[k]))
    && (forall i: nat :: i < |ips| && w.dial(i).Answered? && i !in at ==>
          |at| == most > 0 && forall k :: 0 <= k < |at| ==> Sooner(w, at[k], i))
  }

  /** Where the answering addresses of a sorted arrangement stand. */
  lemma OKCount(out: seq<Result>) returns (m: nat)
    requires Ordered(out)
    ensures m <= |out| && OnlyOK(out) == out[..m]
    ensures forall k :: 0 <= k < |out| ==> (out[k].ok <==> k < m)
  {
    OKPrefix(out);
    m := |OnlyOK(out)|;
    forall k | 0 <= k < |out| ensures out[k].ok <==> k < m {
      if k < m {
        assert out[k] in OnlyOK(out);
        OKMembers(out, out[k]);
      } else {
        assert out[k] in OnlyFailed(out);
        FailedMembers(out, out[k]);
      }
    }
  }

  /** The whole arrangement, told from the dials; the first m positions are those that answered. */
  ghost predicate ByDial(sorted: seq<Result>, ips: seq<string>, w: World, all: seq<nat>, m: nat) {
    && m <= |all| == |sorted|
    && (forall k :: 0 <= k < |all| ==> all[k] < |ips| && sorted[k].ip == ips[all[k]])
    && (forall k :: 0 <= k < |all| ==> (w.dial(all[k]).Answered? <==> k < m))
    && (forall j, k :: 0 <= j < k < m ==> Sooner(w, all[j], all[k]))
    && (forall i: nat :: i < |ips| ==> i in all)
  }

  lemma ArrangedByDial(ips: seq<string>, w: World) returns (all: seq<nat>, m: nat)
    ensures ByDial(SortStable(Outcomes(ips, w)), ips, w, all, m)
    ensures OnlyOK(SortStable(Outcomes(ips, w))) == SortStable(Outcomes(ips, w))[..m]
  {
    var outcomes := Outcomes(ips, w);
    SortStableIsStable(outcomes);
    all := SortedPositions(outcomes);
    m := OKCount(SortStable(outcomes));
    forall j, k | 0 <= j < k < m ensures Sooner(w, all[j], all[k]) {
      assert Precedes(outcomes, all[j], all[k]);
    }
  }

  lemma CutByDial(sorted: seq<Result>, ips: seq<string>, w: World, all: seq<nat>, m: nat, most: int, n: nat)
    requires ByDial(sorted, ips, w, all, m) && n == if 0 < most < m then most else m
    ensures FastestFirst(Addresses(sorted[..n]), ips, w, most, all[..n])
  {
    var at := all[..n];
    assert forall k :: 0 <= k < n ==> all[k] in at;
    forall i: nat | i < |ips| && w.dial(i).Answered? && i !in at
      ensures |at| == most > 0 && forall k :: 0 <= k < |at| ==> Sooner(w, at[k], i)
    {
      assert i in all;
      var j :| 0 <= j < |all| && all[j] == i;
    }
  }

  /** What Resolve keeps, told from the dials: the fastest answering addresses, best first. */
  lemma EntriesByDial(group: EntryGroup, o: Options, w: World) returns (at: seq<nat>)
    ensures FastestFirst(Addresses(Kept(group, o, w)), group.ipv4, w, o.maxEntries, at)
  {
    var sorted := SortStable(Outcomes(group.ipv4, w));
    var all, m := ArrangedByDial(group.ipv4, w);
    var n := if 0 < o.maxEntries < m then o.maxEntries else m;
    CutByDial(sorted, group.ipv4, w, all, m, o.maxEntries, n);
    assert sorted[..m][..n] == sorted[..n];
    at := all[..n];
  }

  /** A resolved plan's options carry its entries, and its configuration is theirs. */
  lemma ResolvedParts(saved: string, inv: Inventory, o: Options, w: World)
    returns (group: EntryGroup, d: Xcfg.Options)
    requires Callable(inv, w) && Resolve(saved, inv, o, w).Some?
    ensures
      var r := Resolve(saved, inv, o, w).value;
      && SelectGroup(inv.entryGroups, o.entryGroup, w.fold) == Some(group)
      && r.plan.entries == Addresses(Kept(group, o, w)) != []
      && Xcfg.Renderable(d, w.split) && d.entries == r.plan.entries && r.config == Xcfg.Rendered(d, w.split)
  {
    var host := SelectHost(inv.hosts, o.hostSlug).value;
    var root := ChosenRoot(saved, inv, o, w).value;
    group := SelectGroup(inv.entryGroups, o.entryGroup, w.fold).value;
    d := Xcfg.Defaulted(Rendering(inv, o, host, NormalizedKey(host.key).value, root,
                                  Addresses(Kept(group, o, w)), FrontOf(group, o)));
  }

  /** The plan's first entry answered, and no answering address of its group was faster. */
  lemma FirstEntryIsFastest(saved: string, inv: Inventory, o: Options, w: World)
    returns (group: EntryGroup, best: nat)
    requires Callable(inv, w) && Resolve(saved, inv, o, w).Some?
    ensures
      var r := Resolve(saved, inv, o, w).value;
      && SelectGroup(inv.entryGroups, o.entryGroup, w.fold) == Some(group) && group in inv.entryGroups
      && AnswersFirst(group, w, best)
      && r.plan.entries != [] && r.plan.entries[0] == group.ipv4[best]
  {
    var d;
    group, d := ResolvedParts(saved, inv, o, w);
    SelectGroupMember(inv.entryGroups, o.entryGroup, w.fold);
    var at := EntriesByDial(group, o, w);
    best := at[0];
    HeadAnswersFirst(Addresses(Kept(group, o, w)), group, w, o.maxEntries, at);
  }

  lemma HeadAnswersFirst(entries: seq<string>, group: EntryGroup, w: World, most: int, at: seq<nat>)
    requires FastestFirst(entries, group.ipv4, w, most, at) && at != []
    ensures AnswersFirst(group, w, at[0])
  {
    forall j: nat | j < |group.ipv4| && w.dial(j).Answered? ensures w.dial(at[0]).rtt <= w.dial(j).rtt {
      if j in at { var k :| 0 <= k < |at| && at[k] == j; }
    }
  }

  /** Address `best` of the group answered, and none that answered was faster. */
  ghost predicate AnswersFirst(group: EntryGroup, w: World, best: nat) {
    && best < |group.ipv4| && w.dial(best).Answered?
    && forall j: nat :: j < |group.ipv4| && w.dial(j).Answered? ==> w.dial(best).rtt <= w.dial(j).rtt
  }

  /** The configuration is closed, and the balancer sees exactly the plan's entries, in order. */
  lemma ConfigCarriesEntries(saved: string, inv: Inventory, o: Options, w: World)
    requires Callable(inv, w) && Resolve(saved, inv, o, w).Some?
    ensures
      var r := Resolve(saved, inv, o, w).value;
      var picked := Xcfg.Selected(r.config.outbounds, r.config.balancer.selector);
      && Xcfg.Closed(r.config)
      && |picked| == |r.plan.entries| > 0
      && (forall i :: 0 <= i < |picked| ==> picked[i].EntryOutbound? && picked[i].address == r.plan.entries[i])
      && picked[0].tag == r.config.balancer.fallbackTag
  {
    var _, d := ResolvedParts(saved, inv, o, w);
    Xcfg.RenderedClosed(d, w.split);
    Xcfg.SelectorPicksTheEntries(d, w.split);
  }

  /**
   From dialling to the rendered configuration, for any order of answers: the balancer's fallback
   resolves to an outbound whose address answered, and no answering address of the group was
   faster; the entries the balancer sees are the plan's, and the configuration is closed.
   */
  lemma FallbackIsFastest(saved: string, inv: Inventory, o: Options, w: World)
    returns (group: EntryGroup, best: nat)
    requires Callable(inv, w) && Resolve(saved, inv, o, w).Some?
    ensures
      var r := Resolve(saved, inv, o, w).value;
      var picked := Xcfg.Selected(r.config.outbounds, r.config.balancer.selector);
      && SelectGroup(inv.entryGroups, o.entryGroup, w.fold) == Some(group) && group in inv.entryGroups
      && AnswersFirst(group, w, best)
      && Xcfg.Closed(r.config)
      && r.plan.entries != [] && r.plan.entries[0] == group.ipv4[best]
      && |picked| == |r.plan.entries|
      && (forall i :: 0 <= i < |picked| ==> picked[i].EntryOutbound? && picked[i].address == r.plan.entries[i])
      && picked[0].tag == r.config.balancer.fallbackTag
  {
    group, best := FirstEntryIsFastest(saved, inv, o, w);
    ConfigCarriesEntries(saved, inv, o, w);
  }

  /** The balancer's outbounds, as dialled. */
  ghost predicate Serves(x: Xcfg.Outbound, inv: Inventory, host: Host, root: string, front: bool) {
    && x.EntryOutbound? && x.id == inv.clientID && x.serverName == host.slug + "." + root
    && (exists head :: x.encryption == head + "." + NormalizedKey(host.key).GetOr(""))
    && (x.dialerProxy.Some? <==> front)
  }

  /**
   The configuration serves the plan: every entry authenticates as this client, names a host of the
   inventory under a root of its pool and carries that host's normalised key; the entries go
   through a front proxy exactly when that was not switched off.
   */
  lemma ConfigServesPlan(saved: string, inv: Inventory, o: Options, w: World) returns (host: Host)
    requires Callable(inv, w) && Resolve(saved, inv, o, w).Some?
    ensures
      var r := Resolve(saved, inv, o, w).value;
      var picked := Xcfg.Selected(r.config.outbounds, r.config.balancer.selector);
      && host in inv.hosts && HostMatches(host, o.hostSlug) && r.plan.hostSlug == host.slug
      && r.plan.rootDomain in inv.rootDomains && r.plan.logicalHost == host.slug + "." + r.plan.rootDomain
      && (forall i :: 0 <= i < |picked| ==> Serves(picked[i], inv, host, r.plan.rootDomain, !o.noFront))
      && (Xcfg.Resolves(r.config.outbounds, Xcfg.FRONT_TAG) <==> !o.noFront)
  {
    var i := SelectHostFirst(inv.hosts, o.hostSlug);
    host := inv.hosts[i];
    RootInPool(saved, inv, o, w);
    var group := SelectGroup(inv.entryGroups, o.entryGroup, w.fold).value;
    var front := FrontOf(group, o);
    var key := NormalizedKey(host.key).value;
    var root := ChosenRoot(saved, inv, o, w).value;
    var entries := Addresses(Kept(group, o, w));
    var d := Xcfg.Defaulted(Rendering(inv, o, host, key, root, entries, front));
    ServedBy(d, w.split, inv, host, root);
  }

  lemma EntryServes(d: Xcfg.Options, tag: string, ip: string, inv: Inventory, host: Host, root: string)
    requires d.clientID == inv.clientID && d.logicalHost == host.slug + "." + root
    requires NormalizedKey(host.key) == Some(d.encryptionKey)
    ensures Serves(Xcfg.Entry(d, tag, ip), inv, host, root, d.frontProxy.Some?)
  {
    var head := "mlkem768x25519plus." + d.mode + "." + d.rtt + "." + d.padding;
    assert Xcfg.EncryptionString(d) == head + "." + d.encryptionKey;
  }

  lemma ServedBy(d: Xcfg.Options, split: Xcfg.Splitter, inv: Inventory, host: Host, root: string)
    requires d.clientID == inv.clientID && d.logicalHost == host.slug + "." + root
    requires NormalizedKey(host.key) == Some(d.encryptionKey) && Xcfg.Renderable(d, split)
    ensures
      var out := Xcfg.Rendered(d, split).outbounds;
      var picked := Xcfg.Selected(out, Xcfg.ENTRY_PREFIX);
      && (forall i :: 0 <= i < |picked| ==> Serves(picked[i], inv, host, root, d.frontProxy.Some?))
      && (Xcfg.Resolves(out, Xcfg.FRONT_TAG) <==> d.frontProxy.Some?)
  {
    Xcfg.EntriesPicked(d, split);
    Xcfg.FrontPresence(d, split);
    var picked := Xcfg.Selected(Xcfg.Rendered(d, split).outbounds, Xcfg.ENTRY_PREFIX);
    forall i | 0 <= i < |picked| ensures Serves(picked[i], inv, host, root, d.frontProxy.Some?) {
      EntryServes(d, Xcfg.EntryTag(i), d.entries[i], inv, host, root);
    }
  }

  // ---------- Choosing, told from the inventory ----------

  /** A valid inventory's choices fail only for want of a match; its keys always normalise. */
  lemma ReachesRootIff(inv: Inventory, o: Options, w: World)
    requires Callable(inv, w)
    ensures ReachesRoot(inv, o, w) <==>
            && (exists h :: h in inv.hosts && (if o.hostSlug != "" then h.slug == o.hostSlug else h.online))
            && (exists g :: g in inv.entryGroups && GroupMatches(g, o.entryGroup, w.fold))
  {
    var i := SelectHostFirst(inv.hosts, o.hostSlug);
    var j := SelectGroupFirst(inv.entryGroups, o.entryGroup, w.fold);
  }

  /**
   Which root a launch uses. A pin decides alone, whatever was saved: it is used if the pool holds
   it, and the launch fails otherwise. Without one a saved root the pool holds is kept, and the
   draw decides only after that. What is used is saved when the state file can be written.
   */
  lemma RootChosenExactly(saved: string, inv: Inventory, o: Options, w: World)
    requires Callable(inv, w) && ReachesRoot(inv, o, w)
    ensures o.rootDomain != "" ==>
              ChosenRoot(saved, inv, o, w) == if o.rootDomain in inv.rootDomains then Some(o.rootDomain) else None
    ensures o.rootDomain == "" ==>
              ChosenRoot(saved, inv, o, w) ==
              Some(if saved != "" && saved in inv.rootDomains then saved else inv.rootDomains[w.draw])
    ensures SavedRoot(saved, inv, o, w) ==
            if ChosenRoot(saved, inv, o, w).Some? && w.saves then ChosenRoot(saved, inv, o, w).value else saved
  {
  }

  /** A pinned launch either runs under its pin, and saves it if it can, or leaves everything as it was. */
  lemma PinnedRootUsed(saved: string, inv: Inventory, o: Options, w: World)
    requires Callable(inv, w) && o.rootDomain != ""
    ensures
      var r := Resolve(saved, inv, o, w);
      && (r.Some? ==> r.value.plan.rootDomain == o.rootDomain && o.rootDomain in inv.rootDomains)
      && (SavedRoot(saved, inv, o, w) ==
            if ReachesRoot(inv, o, w) && o.rootDomain in inv.rootDomains && w.saves then o.rootDomain else saved)
  {
  }

  // ---------- Resolving, told from its inputs ----------

  /** Some address of the group answered. */
  ghost predicate SomeAnswered(group: EntryGroup, w: World) {
    exists i: nat :: i < |group.ipv4| && w.dial(i).Answered?
  }

  lemma EntriesIffAnswered(group: EntryGroup, o: Options, w: World)
    ensures Addresses(Kept(group, o, w)) != [] <==> SomeAnswered(group, w)
  {
    var at := EntriesByDial(group, o, w);
    if at != [] { assert w.dial(at[0]).Answered?; }
  }

  /** What must still hold once a root is chosen. */
  ghost predicate Startable(o: Options, w: World, group: EntryGroup) {
    && SomeAnswered(group, w)
    && (!o.noFront ==> group.frontProxy.Some? && w.split(group.frontProxy.value.endpoint).Some?)
    && 1 <= o.port <= 65535
  }

  lemma PlannedIff(inv: Inventory, o: Options, w: World, host: Host, key: string, root: string, group: EntryGroup)
    requires inv.clientID != "" && key != ""
    ensures Planned(inv, o, w, host, key, root, group).Some? <==> Startable(o, w, group)
  {
    EntriesIffAnswered(group, o, w);
    Xcfg.BuildSucceedsIff(
      Rendering(inv, o, host, key, root, Addresses(Kept(group, o, w)), FrontOf(group, o)), w.split);
  }

  /** Exactly when Resolve returns a plan and a configuration without an error. */
  lemma ResolveSucceedsIff(saved: string, inv: Inventory, o: Options, w: World)
    requires Callable(inv, w)
    ensures Resolve(saved, inv, o, w).Some? <==>
            && ReachesRoot(inv, o, w) && (o.rootDomain != "" ==> o.rootDomain in inv.rootDomains)
            && Startable(o, w, SelectGroup(inv.entryGroups, o.entryGroup, w.fold).value)
  {
    if ReachesRoot(inv, o, w) {
      var host := SelectHost(inv.hosts, o.hostSlug).value;
      RootChosenExactly(saved, inv, o, w);
      NormalizedKeyIdempotent(host.key);
      PlannedIff(inv, o, w, host, NormalizedKey(host.key).value, ChosenRoot(saved, inv, o, w).GetOr(""),
                 SelectGroup(inv.entryGroups, o.entryGroup, w.fold).value);
    }
  }

  /** Resolve hands back a plan beside its error exactly when only the rendering failed. */
  lemma PlanBesideErrorIff(saved: string, inv: Inventory, o: Options, w: World)
    requires Callable(inv, w)
    ensures PlanReturned(saved, inv, o, w).Some? && Resolve(saved, inv, o, w).None? <==>
            && ReachesRoot(inv, o, w) && (o.rootDomain != "" ==> o.rootDomain in inv.rootDomains)
            && var group := SelectGroup(inv.entryGroups, o.entryGroup, w.fold).value;
            && SomeAnswered(group, w) && (!o.noFront ==> group.frontProxy.Some?)
            && !Startable(o, w, group)
  {
    ResolveSucceedsIff(saved, inv, o, w);
    if ReachesRoot(inv, o, w) {
      RootChosenExactly(saved, inv, o, w);
      EntriesIffAnswered(SelectGroup(inv.entryGroups, o.entryGroup, w.fold).value, o, w);
    }
  }

  /** The caller's options reach the renderer unchanged. */
  predicate OptionsCarried(d: Xcfg.Options, o: Options) {
    && d.listen == o.listen && d.port == o.port && d.udp == o.udp && d.routeMode == o.routeMode
    && d.domainStrategy == o.domainStrategy && d.mode == o.mode && d.rtt == o.rtt && d.padding == o.padding
    && d.flow == o.flow && d.probeURL == o.probeURL && d.probeInterval == o.healthInterval
    && d.probeTimeout == o.healthTimeout && d.logLevel == o.logLevel
  }

  /** The plan describes this host, group and root, and the options it was made for. */
  predicate Describes(p: Engines.Plan, o: Options, host: Host, group: EntryGroup) {
    && p.hostSlug == host.slug && p.hostName == host.name && p.logicalHost == host.slug + "." + p.rootDomain
    && p.groupName == group.name
    && (if !o.noFront && group.frontProxy.Some? then p.frontProxy == group.frontProxy.value.endpoint
        else p.frontProxy == "")
    && p.routeMode == o.routeMode && p.udp == o.udp && p.listen == o.listen && p.port == o.port
  }

  /**
   What a resolved plan is: the first matching host and group, the entries fastest first, and a
   configuration built from the same parts and the caller's own options.
   */
  lemma PlanFollowsInputs(saved: string, inv: Inventory, o: Options, w: World)
    returns (h: nat, g: nat, at: seq<nat>, d: Xcfg.Options)
    requires Callable(inv, w) && Resolve(saved, inv, o, w).Some?
    ensures h < |inv.hosts| && HostMatches(inv.hosts[h], o.hostSlug)
    ensures forall j :: 0 <= j < h ==> !HostMatches(inv.hosts[j], o.hostSlug)
    ensures g < |inv.entryGroups| && GroupMatches(inv.entryGroups[g], o.entryGroup, w.fold)
    ensures forall j :: 0 <= j < g ==> !GroupMatches(inv.entryGroups[j], o.entryGroup, w.fold)
    ensures
      var r, host, group := Resolve(saved, inv, o, w).value, inv.hosts[h], inv.entryGroups[g];
      && Describes(r.plan, o, host, group)
      && FastestFirst(r.plan.entries, group.ipv4, w, o.maxEntries, at)
      && OptionsCarried(d, o) && d.clientID == inv.clientID && d.logicalHost == r.plan.logicalHost
      && NormalizedKey(host.key) == Some(d.encryptionKey) && d.entries == r.plan.entries
      && d.frontProxy == (if o.noFront then None else group.frontProxy)
      && Xcfg.Built(d, w.split) == Some(r.config)
  {
    h := SelectHostFirst(inv.hosts, o.hostSlug);
    g := SelectGroupFirst(inv.entryGroups, o.entryGroup, w.fold);
    var host, group := inv.hosts[h], inv.entryGroups[g];
    at := EntriesByDial(group, o, w);
    d := Rendering(inv, o, host, NormalizedKey(host.key).value, ChosenRoot(saved, inv, o, w).value,
                   Addresses(Kept(group, o, w)), FrontOf(group, o));
  }

  // ---------- Root stickiness ----------

  /** The root chosen by a call is always in that call's pool. */
  lemma RootInPool(saved: string, inv: Inventory, o: Options, w: World)
    requires Callable(inv, w)
    ensures ChosenRoot(saved, inv, o, w).Some? ==> ChosenRoot(saved, inv, o, w).value in inv.rootDomains
    ensures Resolve(saved, inv, o, w).Some? ==> Resolve(saved, inv, o, w).value.plan.rootDomain in inv.rootDomains
  {
  }

  /** A saved root leaves only because the pool dropped it. */
  ghost predicate Sticky(saved: string, pool: seq<string>) {
    forall draw: nat :: draw < |pool| ==>
      SelectRoot(pool, "", saved, draw) != Some(saved) ==> saved !in pool
  }

  /**
   Stickiness holds for exactly these saved roots: the empty name doubles as "nothing saved", so
   it is redrawn whenever the pool offers it next to any other name.
   */
  lemma StickyIff(saved: string, pool: seq<string>)
    ensures Sticky(saved, pool) <==> saved != "" || "" !in pool || forall r :: r in pool ==> r == ""
  {
    if saved == "" && "" in pool {
      if r :| r in pool && r != "" {
        var draw :| 0 <= draw < |pool| && pool[draw] == r;
        assert SelectRoot(pool, "", saved, draw) == Some(r);
        assert !Sticky(saved, pool);
      } else {
        forall draw: nat | draw < |pool| ensures pool[draw] == "" { assert pool[draw] in pool; }
      }
    }
  }

  /** An empty root name in the pool: two successive calls, nothing else changing, two roots. */
  lemma EmptyRootIsNotSticky(other: string)
    requires other != ""
    ensures SelectRoot(["", other], "", "", 0) == Some("")
    ensures SelectRoot(["", other], "", "", 1) == Some(other)
  {
  }

  datatype Launch = Launch(inv: Inventory, o: Options, w: World)

  ghost predicate Unpinned(launches: seq<Launch>) {
    forall l :: l in launches ==> Callable(l.inv, l.w) && l.o.rootDomain == ""
  }

  ghost function SavedAfter(saved: string, launches: seq<Launch>): string
    requires Unpinned(launches)
  {
    if launches == [] then saved
    else
      var last := launches[|launches| - 1];
      assert last in launches;
      SavedRoot(SavedAfter(saved, launches[..|launches| - 1]), last.inv, last.o, last.w)
  }

  /** The root launch k uses; None when it fails before choosing one. */
  ghost function RootAt(saved: string, launches: seq<Launch>, k: nat): Option<string>
    requires Unpinned(launches) && k < |launches|
  {
    assert launches[k] in launches;
    ChosenRoot(SavedAfter(saved, launches[..k]), launches[k].inv, launches[k].o, launches[k].w)
  }

  /** The state file names root r once launch k is over. */
  ghost predicate SavedBy(saved: string, launches: seq<Launch>, k: nat, r: string)
    requires Unpinned(launches) && k < |launches|
  {
    launches[k].w.saves || SavedAfter(saved, launches[..k]) == r
  }

  lemma SavedStep(saved: string, launches: seq<Launch>, k: nat)
    requires Unpinned(launches) && k < |launches|
    ensures
      var before, root := SavedAfter(saved, launches[..k]), RootAt(saved, launches, k);
      SavedAfter(saved, launches[..k + 1]) == if root.Some? && launches[k].w.saves then root.value else before
  {
    assert launches[..k + 1][..k] == launches[..k];
    assert launches[k] in launches;
  }

  lemma RootAtInPool(saved: string, launches: seq<Launch>, k: nat)
    requires Unpinned(launches) && k < |launches|
    ensures
      var before, root := SavedAfter(saved, launches[..k]), RootAt(saved, launches, k);
      && (root.Some? ==> root.value in launches[k].inv.rootDomains)
      && (root.Some? && before != "" && before in launches[k].inv.rootDomains ==> root.value == before)
  {
    assert launches[k] in launches;
    RootInPool(SavedAfter(saved, launches[..k]), launches[k].inv, launches[k].o, launches[k].w);
  }

  /**
   Across any launches without a pin, failing ones and failed saves included: the saved root changes
   at a launch only if that launch's pool no longer held it, or it was the empty name.
   */
  lemma RootChangesOnlyWhenDropped(saved: string, launches: seq<Launch>, k: nat)
    requires Unpinned(launches) && k < |launches|
    ensures
      var before, after := SavedAfter(saved, launches[..k]), SavedAfter(saved, launches[..k + 1]);
      && (after != before ==> after in launches[k].inv.rootDomains)
      && (after != before ==> before !in launches[k].inv.rootDomains || before == "")
  {
    SavedStep(saved, launches, k);
    RootAtInPool(saved, launches, k);
  }

  /** A saved root stays saved over launches whose pools hold it. */
  lemma {:induction false} SavedKept(saved: string, launches: seq<Launch>, i: nat, k: nat, r: string)
    requires Unpinned(launches) && i <= k <= |launches|
    requires SavedAfter(saved, launches[..i]) == r != ""
    requires forall m :: i <= m < k ==> r in launches[m].inv.rootDomains
    ensures SavedAfter(saved, launches[..k]) == r
    decreases k - i
  {
    if i < k {
      SavedStep(saved, launches, i);
      RootAtInPool(saved, launches, i);
      SavedKept(saved, launches, i + 1, k, r);
    }
  }

  /**
   Stickiness of the root in use, over any run of launches without a pin: if launch i uses r and a
   later launch k uses another root, then a pool in between or k's own had dropped r, or r is the
   empty name, or launch i could not save r.
   */
  lemma RootInUseChangesOnlyWhenDropped(saved: string, launches: seq<Launch>, i: nat, k: nat, r: string, r': string)
    requires Unpinned(launches) && i < k < |launches|
    requires RootAt(saved, launches, i) == Some(r) && RootAt(saved, launches, k) == Some(r') && r != r'
    ensures r in launches[i].inv.rootDomains && r' in launches[k].inv.rootDomains
    ensures || (exists m :: i < m <= k && r !in launches[m].inv.rootDomains)
            || r == ""
            || !SavedBy(saved, launches, i, r)
  {
    RootAtInPool(saved, launches, i);
    RootAtInPool(saved, launches, k);
    if r != "" && SavedBy(saved, launches, i, r) {
      SavedStep(saved, launches, i);
      if forall m :: i < m <= k ==> r in launches[m].inv.rootDomains {
        SavedKept(saved, launches, i + 1, k, r);
      }
    }
  }

  /** While every pool holds the saved root, it never changes and every launch that chooses uses it. */
  lemma RootKept(saved: string, launches: seq<Launch>, k: nat)
    requires Unpinned(launches) && saved != "" && k < |launches|
    requires forall m :: 0 <= m <= k ==> saved in launches[m].inv.rootDomains
    ensures SavedAfter(saved, launches[..k]) == saved == SavedAfter(saved, launches[..k + 1])
    ensures RootAt(saved, launches, k).Some? ==> RootAt(saved, launches, k) == Some(saved)
  {
    assert launches[..0] == [];
    SavedKept(saved, launches, 0, k, saved);
    SavedKept(saved, launches, 0, k + 1, saved);
    RootAtInPool(saved, launches, k);
  }

  /** One launch from a saved root its pool holds: nothing is redrawn, and the plan uses it. */
  lemma RootKeptAtLaunch(saved: string, l: Launch)
    requires Callable(l.inv, l.w) && l.o.rootDomain == "" && saved != "" && saved in l.inv.rootDomains
    ensures SavedRoot(saved, l.inv, l.o, l.w) == saved
    ensures Resolve(saved, l.inv, l.o, l.w).Some? ==> Resolve(saved, l.inv, l.o, l.w).value.plan.rootDomain == saved
  {
  }

  /** The root a launch uses is the one in the plan it resolves. */
  lemma PlanUsesRoot(saved: string, launches: seq<Launch>, k: nat)
    requires Unpinned(launches) && k < |launches|
    ensures
      var l := launches[k];
      Callable(l.inv, l.w) &&
      var r := Resolve(SavedAfter(saved, launches[..k]), l.inv, l.o, l.w);
      r.Some? ==> RootAt(saved, launches, k) == Some(r.value.plan.rootDomain)
  {
    assert launches[k] in launches;
  }

  // ---------- The running plan ----------

  /** An engine that is only ever started through Start runs a plan with at least one entry. */
  ghost predicate PlanHasEntry(e: Engines.State) {
    e.plan.Some? ==> e.plan.value.entries != []
  }

  datatype Use = Starting(launch: Launch, saved: string, b: Engines.Bringup) | Stopping

  ghost function Used(e: Engines.State, uses: seq<Use>): Engines.State
    requires forall u :: u in uses && u.Starting? ==> Callable(u.launch.inv, u.launch.w)
  {
    if uses == [] then e
    else
      var last := uses[|uses| - 1];
      assert last in uses;
      var before := Used(e, uses[..|uses| - 1]);
      match last
      case Starting(l, saved, b) => Started(before, Resolve(saved, l.inv, l.o, l.w), b)
      case Stopping => Engines.Stop(before)
  }

  lemma StartKeeps(e: Engines.State, saved: string, l: Launch, b: Engines.Bringup)
    requires Callable(l.inv, l.w) && Engines.Sound(e) && PlanHasEntry(e)
    ensures Engines.Sound(Started(e, Resolve(saved, l.inv, l.o, l.w), b))
    ensures PlanHasEntry(Started(e, Resolve(saved, l.inv, l.o, l.w), b))
  {
    var r := Resolve(saved, l.inv, l.o, l.w);
    if r.Some? {
      Engines.ApplySound(e, r.value.plan, b);
      assert r.value.plan.entries != [] by { var _, _ := FallbackIsFastest(saved, l.inv, l.o, l.w); }
    }
  }

  lemma StopKeeps(e: Engines.State)
    requires Engines.Sound(e) && PlanHasEntry(e)
    ensures Engines.Sound(Engines.Stop(e)) && PlanHasEntry(Engines.Stop(e))
  {
    Engines.StopSound(e);
  }

  /** Over any starts and stops: one instance at a time, none leaked, and a first entry to show. */
  lemma {:induction false} RunningPlanHasEntry(e: Engines.State, uses: seq<Use>)
    requires forall u :: u in uses && u.Starting? ==> Callable(u.launch.inv, u.launch.w)
    requires Engines.Sound(e) && PlanHasEntry(e)
    ensures Engines.Sound(Used(e, uses)) && PlanHasEntry(Used(e, uses))
  {
    if uses != [] {
      var last := |uses| - 1;
      assert uses[last] in uses;
      RunningPlanHasEntry(e, uses[..last]);
      var before := Used(e, uses[..last]);
      match uses[last]
      case Starting(l, saved, b) => StartKeeps(before, saved, l, b);
      case Stopping => StopKeeps(before);
    }
  }
}
