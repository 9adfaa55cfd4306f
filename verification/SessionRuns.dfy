/** What the refresh protocol guarantees over any run of refreshes and restarts. */
module SessionRuns {
  import opened Wrappers
  import opened Inventories
  import opened Directories
  import opened Versions
  import opened Sessions

  datatype Event =
    | Refreshing(o: RefreshOptions, w: World)
    | Restarting(generated: Identity, saves: bool)

  /** A process, dead when Open failed, and the two files that outlive it. */
  datatype Process = Process(s: State, alive: bool)

  ghost function Step(p: Process, path: string, event: Event): Process {
    match event
    case Refreshing(o, w) => if p.alive then p.(s := Refresh(p.s, path, o, w).state) else p
    case Restarting(generated, saves) =>
      var (file, id) := OpenIdentity(p.s.identityFile, generated, saves);
      if id.None? then Process(p.s.(identityFile := file), false)
      else Process(State(id.value, DEFAULT_VERSION, file, p.s.inventoryFile, []), true)
  }

  ghost function Run(p: Process, path: string, events: seq<Event>): Process {
    if events == [] then p
    else Step(Run(p, path, events[..|events| - 1]), path, events[|events| - 1])
  }

  // ---------- The inventory file ----------

  ghost predicate AbsentOrValid(file: Option<Inventory>) {
    file.Some? ==> Valid(file.value)
  }

  /** The two results and the file agree: written exactly when nil is returned. */
  ghost predicate FileFollowsResult(s: State, path: string, out: Outcome) {
    && (out.inv.Some? ==> out.received.Some? && Valid(out.inv.value))
    && (out.inv.Some? ==> out.inv.value == Merge(out.received.value, LoadInventory(s, path)))
    && (out.failure.None? ==> out.inv.Some?)
    && out.state.inventoryFile == if out.failure.None? && path != "" then out.inv else s.inventoryFile
  }

  lemma FullIsOwnMerge(payload: Payload, prev: Option<Inventory>)
    ensures FullDirectory(payload).Some? ==>
              && Valid(FullDirectory(payload).value)
              && Merge(FullDirectory(payload).value, prev) == FullDirectory(payload).value
  {
  }

  lemma ApprovingWrites(s: State, path: string, boot: AccessBlock, url: string, w: World)
    ensures FileFollowsResult(s, path, Approving(s, path, boot, url, w))
  {
    if w.access.Answer? { FullIsOwnMerge(w.access.payload, LoadInventory(s, path)); }
  }

  lemma BootstrappedWrites(s: State, path: string, o: RefreshOptions, w: World)
    ensures FileFollowsResult(s, path, Bootstrapped(s, path, o, w))
  {
    if w.bootstrap.Answer? && w.bootstrap.payload.access.Some? {
      FullIsOwnMerge(w.bootstrap.payload, LoadInventory(s, path));
      var boot := w.bootstrap.payload.access.value;
      if FullDirectory(w.bootstrap.payload).None? && boot.ticket != "" {
        var s2 := SaveTicket(Call(s, BootstrapCall(s.appVersion)), boot.ticket, w.rememberSave);
        var url := if o.verificationURL != "" then o.verificationURL else w.bootstrap.payload.verificationURL;
        ApprovingWrites(s2, path, boot, url, w);
        assert LoadInventory(s2, path) == LoadInventory(s, path);
      }
    }
  }

  /** The reply's payload holds this directory. */
  predicate Carries(reply: Reply, d: Inventory) {
    reply.Answer? && Parsed(reply.payload) == Some(d)
  }

  lemma TrySyncKeeps(s: State, path: string, w: World)
    ensures
      var (s1, synced) := TrySync(s, path, w);
      && s1.inventoryFile == s.inventoryFile && s1.identity == s.identity && s1.identityFile == s.identityFile
      && (synced.Some? ==>
            && synced.value.inv == Merge(synced.value.received, LoadInventory(s, path))
            && Valid(synced.value.inv)
            && (Carries(w.sync, synced.value.received) || Carries(w.resync, synced.value.received)))
  {
  }

  /**
   One refresh: the file changes only when Refresh returns nil, and then to the returned, valid
   inventory, which is the received directory completed from the file it replaces.
   */
  lemma RefreshWrites(s: State, path: string, o: RefreshOptions, w: World)
    ensures FileFollowsResult(s, path, Refresh(s, path, o, w))
  {
    var (s1, synced) := TrySync(s, path, w);
    TrySyncKeeps(s, path, w);
    assert LoadInventory(s1, path) == LoadInventory(s, path);
    if synced.None? {
      if s1.identity.pendingTicket == "" {
        BootstrappedWrites(s1, path, o, w);
      } else {
        var (s2, redeemed) := Complete(s1, path, s1.identity.pendingTicket, w.redeem, w.redeemWrite);
        if redeemed.None? {
          assert s2.inventoryFile == s.inventoryFile;
          BootstrappedWrites(s2, path, o, w);
        } else {
          FullIsOwnMerge(w.redeem.payload, LoadInventory(s, path));
        }
      }
    }
  }

  /** Whatever the server and the disk do, the inventory file stays absent or valid. */
  lemma {:induction false} InventoryFileSafe(p: Process, path: string, events: seq<Event>)
    requires AbsentOrValid(p.s.inventoryFile)
    ensures AbsentOrValid(Run(p, path, events).s.inventoryFile)
  {
    if events != [] {
      var last := |events| - 1;
      InventoryFileSafe(p, path, events[..last]);
      var q := Run(p, path, events[..last]);
      if events[last].Refreshing? && q.alive {
        RefreshWrites(q.s, path, events[last].o, events[last].w);
      }
    }
  }

  /** The directories, as the server sent them, behind the successive contents of the file. */
  ghost function Accepted(p: Process, path: string, events: seq<Event>): seq<Inventory> {
    if events == [] then []
    else
      var last := |events| - 1;
      var q := Run(p, path, events[..last]);
      var before := Accepted(p, path, events[..last]);
      if !events[last].Refreshing? || !q.alive then before
      else
        var out := Refresh(q.s, path, events[last].o, events[last].w);
        if out.failure.None? && out.received.Some? then before + [out.received.value] else before
  }

  /** `value` is the last non-empty value of field f among `got`, or `initial` when there is none. */
  ghost predicate MostRecent<T(!new)>(value: seq<T>, initial: seq<T>, got: seq<Inventory>, f: Inventory -> seq<T>) {
    || ((forall j :: 0 <= j < |got| ==> f(got[j]) == []) && value == initial)
    || exists k :: 0 <= k < |got| && LastNonEmptyAt(value, got, f, k)
  }

  ghost predicate LastNonEmptyAt<T(!new)>(value: seq<T>, got: seq<Inventory>, f: Inventory -> seq<T>, k: nat)
    requires k < |got|
  {
    f(got[k]) != [] && value == f(got[k]) && forall j :: k < j < |got| ==> f(got[j]) == []
  }

  lemma MostRecentExtends<T(!new)>(
    value: seq<T>, initial: seq<T>, got: seq<Inventory>, f: Inventory -> seq<T>, d: Inventory)
    requires MostRecent(value, initial, got, f)
    ensures MostRecent(if f(d) == [] then value else f(d), initial, got + [d], f)
  {
    var more := got + [d];
    if f(d) != [] {
      assert LastNonEmptyAt(f(d), more, f, |got|);
    } else if k :| 0 <= k < |got| && LastNonEmptyAt(value, got, f, k) {
      assert LastNonEmptyAt(value, more, f, k);
    }
  }

  function ClientIDOf(d: Inventory): string { d.clientID }
  function RootsOf(d: Inventory): seq<string> { d.rootDomains }
  function HostsOf(d: Inventory): seq<Host> { d.hosts }
  function GroupsOf(d: Inventory): seq<EntryGroup> { d.entryGroups }

  ghost predicate EachFieldMostRecent(now: Inventory, initial: Inventory, got: seq<Inventory>) {
    && MostRecent(now.clientID, initial.clientID, got, ClientIDOf)
    && MostRecent(now.rootDomains, initial.rootDomains, got, RootsOf)
    && MostRecent(now.hosts, initial.hosts, got, HostsOf)
    && MostRecent(now.entryGroups, initial.entryGroups, got, GroupsOf)
  }

  function Contents(file: Option<Inventory>): Inventory {
    if file.Some? then file.value else NOTHING
  }

  lemma MergeKeepsMostRecent(now: Inventory, initial: Inventory, got: seq<Inventory>, d: Inventory)
    requires EachFieldMostRecent(now, initial, got)
    ensures EachFieldMostRecent(Merge(d, Some(now)), initial, got + [d])
  {
    MostRecentExtends(now.clientID, initial.clientID, got, ClientIDOf, d);
    MostRecentExtends(now.rootDomains, initial.rootDomains, got, RootsOf, d);
    MostRecentExtends(now.hosts, initial.hosts, got, HostsOf, d);
    MostRecentExtends(now.entryGroups, initial.entryGroups, got, GroupsOf, d);
  }

  /** After any run, each field on disk is the most recent non-empty value the server sent. */
  lemma {:induction false} FieldsMostRecent(p: Process, path: string, events: seq<Event>)
    requires path != "" && AbsentOrValid(p.s.inventoryFile)
    ensures EachFieldMostRecent(Contents(Run(p, path, events).s.inventoryFile),
                                Contents(p.s.inventoryFile), Accepted(p, path, events))
  {
    if events != [] {
      var last := |events| - 1;
      FieldsMostRecent(p, path, events[..last]);
      InventoryFileSafe(p, path, events[..last]);
      var q := Run(p, path, events[..last]);
      if events[last].Refreshing? && q.alive {
        var o, w := events[last].o, events[last].w;
        RefreshWrites(q.s, path, o, w);
        var out := Refresh(q.s, path, o, w);
        if out.failure.None? {
          var d, now := out.received.value, Contents(q.s.inventoryFile);
          MergeKeepsMostRecent(now, Contents(p.s.inventoryFile), Accepted(p, path, events[..last]), d);
          MergeLaws(d, now, now);
          assert Merge(d, LoadInventory(q.s, path)) == Merge(d, Some(now));
        }
      }
    }
  }

  // ---------- The pending ticket ----------

  ghost predicate SameKeyPair(a: Identity, b: Identity) {
    a.clientID == b.clientID && a.signingKey == b.signingKey
  }

  /** The ticket in this call's bootstrap answer, or "". */
  function BootTicket(w: World): string {
    if w.bootstrap.Answer? && w.bootstrap.payload.access.Some? then w.bootstrap.payload.access.value.ticket else ""
  }

  /** How a refresh from s may leave the identity and its file. */
  ghost predicate IdentityFollowsSource(s: State, out: Outcome, w: World) {
    var id, file := out.state.identity, out.state.identityFile;
    && SameKeyPair(id, s.identity)
    && (file == s.identityFile || (file.Stored? && SameKeyPair(file.identity, s.identity)))
    && (w.rememberSave && w.clearSave && s.identityFile == Stored(s.identity) ==> file == Stored(id))
    && (match out.source
        case FromSync => id == s.identity
        case FromAccess => id == s.identity.(pendingTicket := "")
        case FromBootstrap => id == s.identity.(pendingTicket := "")
        case Nowhere =>
          || id == s.identity
          || (BootTicket(w) != "" && id == s.identity.(pendingTicket := BootTicket(w))))
    && (out.failure.Some? && out.failure.value.NeedsAuthorization? ==>
          && id.pendingTicket == out.failure.value.ticket == BootTicket(w) != ""
          && (w.rememberSave ==> file == Stored(id)))
  }

  /** Approving the client's own ticket: it is kept, or dropped with the directory it was traded for. */
  lemma ApprovingIdentity(s: State, path: string, boot: AccessBlock, url: string, w: World)
    requires s.identity.pendingTicket != ""
    ensures
      var out := Approving(s, path, boot, url, w);
      && (out.source.Nowhere? || out.source.FromAccess?)
      && out.state.identity == (if out.source.Nowhere? then s.identity else s.identity.(pendingTicket := ""))
      && out.state.identityFile ==
           (if out.source.FromAccess? && w.clearSave then Stored(out.state.identity) else s.identityFile)
      && (out.failure.Some? ==> !out.failure.value.NeedsAuthorization?)
  {
  }

  /** The state in which a bootstrap that only brought a ticket leaves the session. */
  function Remembered(s: State, w: World): State {
    SaveTicket(Call(s, BootstrapCall(s.appVersion)), BootTicket(w), w.rememberSave)
  }

  lemma BootstrappedIdentity(s: State, path: string, o: RefreshOptions, w: World)
    ensures IdentityFollowsSource(s, Bootstrapped(s, path, o, w), w)
    ensures !Bootstrapped(s, path, o, w).source.FromSync?
  {
    if w.bootstrap.Answer? && w.bootstrap.payload.access.Some? {
      if FullDirectory(w.bootstrap.payload).None? && BootTicket(w) != "" && o.autoApprove {
        SelfApprovedIdentity(s, path, o, w);
      }
    }
  }

  lemma SelfApprovedIdentity(s: State, path: string, o: RefreshOptions, w: World)
    requires w.bootstrap.Answer? && w.bootstrap.payload.access.Some?
    requires FullDirectory(w.bootstrap.payload).None? && BootTicket(w) != "" && o.autoApprove
    ensures IdentityFollowsSource(s, Bootstrapped(s, path, o, w), w)
    ensures !Bootstrapped(s, path, o, w).source.FromSync?
  {
    var url := if o.verificationURL != "" then o.verificationURL else w.bootstrap.payload.verificationURL;
    var boot := w.bootstrap.payload.access.value;
    ApprovingIdentity(Remembered(s, w), path, boot, url, w);
    assert Bootstrapped(s, path, o, w) == Approving(Remembered(s, w), path, boot, url, w);
  }

  lemma RefreshIdentity(s: State, path: string, o: RefreshOptions, w: World)
    ensures IdentityFollowsSource(s, Refresh(s, path, o, w), w)
  {
    var (s1, synced) := TrySync(s, path, w);
    TrySyncKeeps(s, path, w);
    if synced.None? {
      if s1.identity.pendingTicket == "" {
        BootstrappedIdentity(s1, path, o, w);
      } else {
        var (s2, redeemed) := Complete(s1, path, s1.identity.pendingTicket, w.redeem, w.redeemWrite);
        if redeemed.None? {
          BootstrappedIdentity(s2, path, o, w);
        }
      }
    }
  }

  /**
   A pending ticket is dropped exactly by the calls that got a whole directory from access or
   bootstrap; a sync keeps it; a call that got no directory keeps it or replaces it by the ticket
   its bootstrap answer carried. A request for approval is remembered: in memory always, on disk
   if the save worked.
   */
  lemma TicketFollowsSource(s: State, path: string, o: RefreshOptions, w: World)
    ensures
      var out := Refresh(s, path, o, w);
      && (s.identity.pendingTicket != "" ==>
            (out.state.identity.pendingTicket == "" <==> out.source.FromAccess? || out.source.FromBootstrap?))
      && (out.source.FromSync? ==> out.state.identity == s.identity)
      && (out.source.Nowhere? ==>
            || out.state.identity == s.identity
            || (BootTicket(w) != "" && out.state.identity == s.identity.(pendingTicket := BootTicket(w))))
      && (out.failure.Some? && out.failure.value.NeedsAuthorization? ==>
            && out.failure.value.ticket == BootTicket(w) != ""
            && out.state.identity == s.identity.(pendingTicket := out.failure.value.ticket)
            && (w.rememberSave ==> out.state.identityFile == Stored(out.state.identity)))
  {
    RefreshIdentity(s, path, o, w);
  }

  /** Refresh's directory came in full from this reply. */
  ghost predicate CameFrom(out: Outcome, reply: Reply) {
    && reply.Answer? && out.inv.Some? && out.received == out.inv
    && FullDirectory(reply.payload) == out.inv && Carries(reply, out.inv.value)
  }

  lemma BootstrappedSource(s: State, path: string, o: RefreshOptions, w: World)
    ensures
      var out := Bootstrapped(s, path, o, w);
      match out.source
      case FromAccess => CameFrom(out, w.access)
      case FromBootstrap => CameFrom(out, w.bootstrap)
      case FromSync => false
      case Nowhere => out.received.None?
  {
  }

  /** The source named in an outcome is the reply its directory was read from. */
  lemma SourceIsReal(s: State, path: string, o: RefreshOptions, w: World)
    ensures
      var out := Refresh(s, path, o, w);
      match out.source
      case FromSync =>
        out.received.Some? && (Carries(w.sync, out.received.value) || Carries(w.resync, out.received.value))
      case FromAccess => CameFrom(out, w.redeem) || CameFrom(out, w.access)
      case FromBootstrap => CameFrom(out, w.bootstrap)
      case Nowhere => out.received.None?
  {
    var (s1, synced) := TrySync(s, path, w);
    TrySyncKeeps(s, path, w);
    if synced.None? {
      if s1.identity.pendingTicket == "" {
        BootstrappedSource(s1, path, o, w);
      } else {
        var (s2, redeemed) := Complete(s1, path, s1.identity.pendingTicket, w.redeem, w.redeemWrite);
        if redeemed.None? { BootstrappedSource(s2, path, o, w); }
      }
    }
  }

  /** The process that a restart after one refresh leaves. */
  ghost function Reopened(p: Process, path: string, o: RefreshOptions, w: World, generated: Identity, saves: bool)
    : Process
  {
    Run(p, path, [Refreshing(o, w), Restarting(generated, saves)])
  }

  /** Asking for approval, stopping and starting again: the new process holds the reported ticket. */
  lemma TicketReopened(p: Process, path: string, o: RefreshOptions, w: World, generated: Identity, saves: bool)
    requires p.alive && UsableIdentity(p.s.identity) && w.rememberSave
    requires Refresh(p.s, path, o, w).failure.Some? && Refresh(p.s, path, o, w).failure.value.NeedsAuthorization?
    ensures
      var q, ticket := Reopened(p, path, o, w, generated, saves), Refresh(p.s, path, o, w).failure.value.ticket;
      && q.alive && q.s.appVersion == DEFAULT_VERSION && ticket != ""
      && q.s.identity == p.s.identity.(pendingTicket := ticket)
  {
    TicketFollowsSource(p.s, path, o, w);
    var events := [Refreshing(o, w), Restarting(generated, saves)];
    assert events[..1] == [Refreshing(o, w)] && events[..1][..0] == [];
    assert Run(p, path, events[..1]) == Process(Refresh(p.s, path, o, w).state, true);
  }

  /**
   Approval between two runs: whenever the next process's sync fails, for whatever reason, the
   ticket the stopped process reported is redeemed without a second bootstrap.
   */
  lemma ApprovedTicketRedeemed(p: Process, path: string, o: RefreshOptions, w: World,
                               generated: Identity, saves: bool, o': RefreshOptions, w': World, inv: Inventory)
    requires p.alive && UsableIdentity(p.s.identity) && w.rememberSave
    requires Refresh(p.s, path, o, w).failure.Some? && Refresh(p.s, path, o, w).failure.value.NeedsAuthorization?
    requires TrySync(Reopened(p, path, o, w, generated, saves).s, path, w').1.None?
    requires w'.redeem.Answer? && FullDirectory(w'.redeem.payload) == Some(inv) && (path == "" || w'.redeemWrite)
    ensures
      var reopened := Reopened(p, path, o, w, generated, saves);
      var ticket := Refresh(p.s, path, o, w).failure.value.ticket;
      var synced := TrySync(reopened.s, path, w').0;
      var out := Refresh(reopened.s, path, o', w');
      && reopened.alive
      && out.inv == Some(inv) && out.failure.None?
      && out.state.identity == p.s.identity.(pendingTicket := "")
      && out.state.sent == synced.sent + [AccessCall(ticket, synced.appVersion)]
  {
    TicketReopened(p, path, o, w, generated, saves);
    var reopened := Reopened(p, path, o, w, generated, saves);
    TrySyncKeeps(reopened.s, path, w');
    RedeemsPending(reopened.s, path, o', w', inv);
  }

  /** A pending ticket that access accepts ends a refresh whose sync failed. */
  lemma RedeemsPending(s: State, path: string, o: RefreshOptions, w: World, inv: Inventory)
    requires s.identity.pendingTicket != "" && TrySync(s, path, w).1.None?
    requires w.redeem.Answer? && FullDirectory(w.redeem.payload) == Some(inv) && (path == "" || w.redeemWrite)
    ensures
      var out, synced := Refresh(s, path, o, w), TrySync(s, path, w).0;
      && out.inv == Some(inv) && out.failure.None?
      && out.state.identity == s.identity.(pendingTicket := "")
      && out.state.sent == synced.sent + [AccessCall(s.identity.pendingTicket, synced.appVersion)]
  {
    TrySyncKeeps(s, path, w);
  }

  predicate AllSaved(events: seq<Event>) {
    forall e :: e in events ==> if e.Refreshing? then e.w.rememberSave && e.w.clearSave else e.saves
  }

  /** The identity file mirrors memory, and a restart would find it. */
  ghost predicate Durable(p: Process) {
    p.alive && UsableIdentity(p.s.identity) && p.s.identityFile == Stored(p.s.identity)
  }

  /** While saves work, memory and identity file never part, so a restart loses no ticket. */
  lemma {:induction false} TicketDurable(p: Process, path: string, events: seq<Event>)
    requires Durable(p) && AllSaved(events)
    ensures Durable(Run(p, path, events))
  {
    if events != [] {
      var last := |events| - 1;
      var event := events[last];
      assert event in events;
      TicketDurable(p, path, events[..last]);
      if event.Refreshing? { RefreshIdentity(Run(p, path, events[..last]).s, path, event.o, event.w); }
    }
  }

  /** Even when saves fail, no run of a stored identity ever swaps it for another. */
  lemma {:induction false} IdentityKept(p: Process, path: string, events: seq<Event>)
    requires p.alive && UsableIdentity(p.s.identity)
    requires p.s.identityFile.Stored? && SameKeyPair(p.s.identityFile.identity, p.s.identity)
    ensures
      var q := Run(p, path, events);
      && q.alive && SameKeyPair(q.s.identity, p.s.identity)
      && q.s.identityFile.Stored? && SameKeyPair(q.s.identityFile.identity, p.s.identity)
  {
    if events != [] {
      var last := |events| - 1;
      IdentityKept(p, path, events[..last]);
      var event := events[last];
      if event.Refreshing? { RefreshIdentity(Run(p, path, events[..last]).s, path, event.o, event.w); }
    }
  }

  // ---------- When a refresh succeeds ----------

  predicate Delivers(reply: Reply) {
    reply.Answer? && FullDirectory(reply.payload).Some?
  }

  /** An answer to sync is usable once merged. */
  predicate SyncUsable(s: State, path: string, reply: Reply) {
    reply.Answer? && ParseSync(s, path, reply.payload).Some?
  }

  /** The client is below the floor named in an answer it could not use. */
  ghost predicate ToldToUpgrade(s: State, path: string, w: World) {
    && w.sync.Answer? && !SyncUsable(s, path, w.sync)
    && w.sync.payload.minimumVersion != "" && Below(s.appVersion, w.sync.payload.minimumVersion)
  }

  /** The floor is adopted, and sync repeated, when the client was told to upgrade and only then. */
  lemma FloorAdoptedIff(s: State, path: string, w: World)
    ensures
      var (s1, synced) := TrySync(s, path, w);
      && (ToldToUpgrade(s, path, w) ==>
            && s1.appVersion == w.sync.payload.minimumVersion
            && s1.sent == s.sent + [SyncCall(s.appVersion), SyncCall(s1.appVersion)])
      && (!ToldToUpgrade(s, path, w) ==> s1.appVersion == s.appVersion && s1.sent == s.sent + [SyncCall(s.appVersion)])
      && (synced.Some? <==> SyncUsable(s, path, w.sync) || (ToldToUpgrade(s, path, w) && SyncUsable(s, path, w.resync)))
  {
    var s1 := Call(s, SyncCall(s.appVersion));
    assert LoadInventory(s1, path) == LoadInventory(s, path);
    if w.sync.Answer? {
      var s2 := Call(s1.(appVersion := w.sync.payload.minimumVersion), SyncCall(w.sync.payload.minimumVersion));
      assert LoadInventory(s2, path) == LoadInventory(s, path);
    }
  }

  predicate Writes(path: string, writes: bool) {
    path == "" || writes
  }

  /** Bootstrap asked for approval, the caller approves by itself, and access then delivers. */
  predicate ApprovesItself(path: string, o: RefreshOptions, w: World) {
    && w.bootstrap.Answer? && w.bootstrap.payload.access.Some? && !Delivers(w.bootstrap)
    && w.bootstrap.payload.access.value.ticket != "" && o.autoApprove
    && ApprovalURL(o, w) != "" && w.approval.Approved?
    && (w.bootstrap.payload.access.value.retryAfter > 0 ==> w.waited)
    && Delivers(w.access) && Writes(path, w.lastWrite)
  }

  /** The bootstrap answer is readable and holds a whole directory. */
  predicate BootstrapDelivers(w: World) {
    w.bootstrap.Answer? && w.bootstrap.payload.access.Some? && Delivers(w.bootstrap)
  }

  lemma BootstrapSucceedsIff(s: State, path: string, o: RefreshOptions, w: World)
    ensures Bootstrapped(s, path, o, w).failure.None? <==>
            || (BootstrapDelivers(w) && Writes(path, w.lastWrite))
            || ApprovesItself(path, o, w)
  {
  }

  /**
   The four ways to a directory, in the order they are tried: a usable sync whose write then
   decides; a redeemed ticket; a delivering bootstrap; an approval of the client's own.
   */
  lemma RefreshSucceedsIff(s: State, path: string, o: RefreshOptions, w: World)
    ensures
      var synced := SyncUsable(s, path, w.sync) || (ToldToUpgrade(s, path, w) && SyncUsable(s, path, w.resync));
      Refresh(s, path, o, w).failure.None? <==>
      if synced then Writes(path, w.lastWrite)
      else
        || (s.identity.pendingTicket != "" && Delivers(w.redeem) && Writes(path, w.redeemWrite))
        || (BootstrapDelivers(w) && Writes(path, w.lastWrite))
        || ApprovesItself(path, o, w)
  {
    var (s1, synced) := TrySync(s, path, w);
    FloorAdoptedIff(s, path, w);
    TrySyncKeeps(s, path, w);
    if synced.None? {
      BootstrapSucceedsIff(s1, path, o, w);
      BootstrapSucceedsIff(Complete(s1, path, s1.identity.pendingTicket, w.redeem, w.redeemWrite).0, path, o, w);
    }
  }

  // ---------- Version and request bounds ----------

  /** The page a human or the client itself is sent to: the caller's override, else the one discovered. */
  function ApprovalURL(o: RefreshOptions, w: World): string
    requires w.bootstrap.Answer?
  {
    if o.verificationURL != "" then o.verificationURL else w.bootstrap.payload.verificationURL
  }

  /** Bootstrap answered readably with a ticket and without a directory. */
  predicate BringsTicket(w: World) {
    !BootstrapDelivers(w) && BootTicket(w) != ""
  }

  /** The client posts the approval itself. */
  predicate PostsApproval(o: RefreshOptions, w: World) {
    BringsTicket(w) && o.autoApprove && ApprovalURL(o, w) != "" && !w.approval.BadURL?
  }

  /** Nothing keeps an approved client from asking for its directory. */
  predicate MayComplete(w: World) {
    w.approval.Approved? && (BringsTicket(w) && w.bootstrap.payload.access.value.retryAfter > 0 ==> w.waited)
  }

  /** Sync failed, and so did the redemption of a pending ticket, if there was one. */
  ghost predicate ReachesBootstrap(s: State, path: string, w: World) {
    && TrySync(s, path, w).1.None?
    && !(s.identity.pendingTicket != "" && Delivers(w.redeem) && Writes(path, w.redeemWrite))
  }

  lemma ApproveShape(s: State, path: string, boot: AccessBlock, url: string, w: World)
    returns (approve: seq<Request>, complete: seq<Request>)
    ensures Approving(s, path, boot, url, w).state.sent == s.sent + approve + complete
    ensures Approving(s, path, boot, url, w).state.appVersion == s.appVersion
    ensures approve == if url != "" && !w.approval.BadURL? then [AuthorizeCall(boot.ticket)] else []
    ensures complete ==
            if url != "" && w.approval.Approved? && (boot.retryAfter > 0 ==> w.waited)
            then [AccessCall(boot.ticket, s.appVersion)] else []
  {
    approve, complete := [], [];
    if url != "" && !w.approval.BadURL? {
      approve := [AuthorizeCall(boot.ticket)];
      if !w.approval.Rejected? && !(boot.retryAfter > 0 && !w.waited) {
        complete := [AccessCall(boot.ticket, s.appVersion)];
      }
    }
  }

  lemma BootstrapShape(s: State, path: string, o: RefreshOptions, w: World)
    returns (approve: seq<Request>, complete: seq<Request>)
    ensures Bootstrapped(s, path, o, w).state.sent == s.sent + [BootstrapCall(s.appVersion)] + approve + complete
    ensures Bootstrapped(s, path, o, w).state.appVersion == s.appVersion
    ensures approve == if PostsApproval(o, w) then [AuthorizeCall(BootTicket(w))] else []
    ensures complete ==
            if PostsApproval(o, w) && MayComplete(w) then [AccessCall(BootTicket(w), s.appVersion)] else []
  {
    approve, complete := [], [];
    if BringsTicket(w) && o.autoApprove {
      approve, complete := ApproveShape(Remembered(s, w), path, w.bootstrap.payload.access.value, ApprovalURL(o, w), w);
    }
  }

  lemma SyncShape(s: State, path: string, w: World) returns (syncs: seq<Request>)
    ensures
      var v := TrySync(s, path, w).0.appVersion;
      && TrySync(s, path, w).0.sent == s.sent + syncs
      && (|| (syncs == [SyncCall(s.appVersion)] && v == s.appVersion)
          || (&& syncs == [SyncCall(s.appVersion), SyncCall(v)] && Below(s.appVersion, v)
              && w.sync.Answer? && v == w.sync.payload.minimumVersion))
  {
    var s1 := TrySync(s, path, w).0;
    syncs := if s1.appVersion == s.appVersion then [SyncCall(s.appVersion)]
             else [SyncCall(s.appVersion), SyncCall(s1.appVersion)];
    BelowIrreflexive(s.appVersion);
  }

  /** A refresh up to its bootstrap stage: the redemption of a pending ticket, if it is due. */
  lemma RedeemShape(s: State, path: string, o: RefreshOptions, w: World) returns (redeem: seq<Request>, at: State)
    ensures
      var (s1, synced) := TrySync(s, path, w);
      var out := Refresh(s, path, o, w);
      && redeem == (if synced.None? && s.identity.pendingTicket != ""
                    then [AccessCall(s.identity.pendingTicket, s1.appVersion)] else [])
      && at.sent == s1.sent + redeem && at.appVersion == s1.appVersion
      && (if ReachesBootstrap(s, path, w) then out == Bootstrapped(at, path, o, w)
          else out.state.sent == at.sent && out.state.appVersion == at.appVersion)
  {
    var (s1, synced) := TrySync(s, path, w);
    TrySyncKeeps(s, path, w);
    redeem, at := [], s1;
    if synced.None? && s.identity.pendingTicket != "" {
      redeem := [AccessCall(s.identity.pendingTicket, s1.appVersion)];
      at := Complete(s1, path, s.identity.pendingTicket, w.redeem, w.redeemWrite).0;
    }
  }

  /**
   The requests of one refresh, in order, each sent exactly when it is due: one sync, or two when
   told to upgrade; the redemption of a pending ticket; bootstrap; the client's own approval; and
   the completing access call. A second sync reports the server's higher floor, and so does
   everything after it.
   */
  lemma RequestShape(s: State, path: string, o: RefreshOptions, w: World)
    returns (syncs: seq<Request>, redeem: seq<Request>, boot: seq<Request>,
             approve: seq<Request>, complete: seq<Request>)
    ensures
      var out := Refresh(s, path, o, w).state;
      && out.sent == s.sent + syncs + redeem + boot + approve + complete
      && (|| (syncs == [SyncCall(s.appVersion)] && out.appVersion == s.appVersion)
          || (&& syncs == [SyncCall(s.appVersion), SyncCall(out.appVersion)] && Below(s.appVersion, out.appVersion)
              && w.sync.Answer? && out.appVersion == w.sync.payload.minimumVersion))
      && (|syncs| == 2 <==> ToldToUpgrade(s, path, w))
      && redeem == (if TrySync(s, path, w).1.None? && s.identity.pendingTicket != ""
                    then [AccessCall(s.identity.pendingTicket, out.appVersion)] else [])
      && boot == (if ReachesBootstrap(s, path, w) then [BootstrapCall(out.appVersion)] else [])
      && approve == (if ReachesBootstrap(s, path, w) && PostsApproval(o, w) then [AuthorizeCall(BootTicket(w))] else [])
      && complete == (if ReachesBootstrap(s, path, w) && PostsApproval(o, w) && MayComplete(w)
                      then [AccessCall(BootTicket(w), out.appVersion)] else [])
  {
    var at;
    FloorAdoptedIff(s, path, w);
    syncs := SyncShape(s, path, w);
    redeem, at := RedeemShape(s, path, o, w);
    boot, approve, complete := [], [], [];
    if ReachesBootstrap(s, path, w) {
      boot := [BootstrapCall(at.appVersion)];
      approve, complete := BootstrapShape(at, path, o, w);
    }
  }

  /** Between restarts the reported version never goes down. */
  lemma {:induction false} VersionNeverDrops(p: Process, path: string, events: seq<Event>)
    requires forall e :: e in events ==> e.Refreshing?
    ensures !Below(Run(p, path, events).s.appVersion, p.s.appVersion)
  {
    BelowIrreflexive(p.s.appVersion);
    if events != [] {
      var last := |events| - 1;
      assert events[last] in events;
      VersionNeverDrops(p, path, events[..last]);
      var q := Run(p, path, events[..last]);
      var _, _, _, _, _ := RequestShape(q.s, path, events[last].o, events[last].w);
      var v := Run(p, path, events).s.appVersion;
      if v != q.s.appVersion {
        if Below(v, q.s.appVersion) { BelowTransitive(v, q.s.appVersion, v); BelowIrreflexive(v); }
        NotBelowTransitive(v, q.s.appVersion, p.s.appVersion);
      }
    }
  }
}
