/** What one refresh or one opening comes to, told from the replies and files alone. */
module SessionOutcomes {
  import opened Wrappers
  import opened Base64
  import opened Inventories
  import opened Directories
  import opened Versions
  import opened Sessions
  import opened SessionRuns

  // ---------- Partial syncs ----------

  /** Field by field: the new directory's where it has one, else the previous one's. */
  predicate FilledFrom(inv: Inventory, part: Inventory, prev: Inventory) {
    && inv.clientID == (if part.clientID != "" then part.clientID else prev.clientID)
    && inv.rootDomains == (if part.rootDomains != [] then part.rootDomains else prev.rootDomains)
    && inv.hosts == (if part.hosts != [] then part.hosts else prev.hosts)
    && inv.entryGroups == (if part.entryGroups != [] then part.entryGroups else prev.entryGroups)
  }

  /** The fields a partial directory does carry pass their own checks. */
  predicate CarriedUsable(part: Inventory) {
    HostsUsable(part.hosts) && GroupsUsable(part.entryGroups)
  }

  /**
   When a sync answer is usable: with a usable inventory file, exactly when the fields it carries
   are; without one, exactly when it is whole and valid on its own. The result is filled from the file.
   */
  lemma SyncUsableExactly(s: State, path: string, payload: Payload)
    ensures
      var loadable := path != "" && s.inventoryFile.Some? && Valid(s.inventoryFile.value);
      var out := ParseSync(s, path, payload);
      && (out.Some? <==>
            && Parsed(payload).Some?
            && (if loadable then CarriedUsable(Parsed(payload).value) else Valid(Parsed(payload).value)))
      && (out.Some? ==> FilledFrom(out.value, Parsed(payload).value,
                                   if loadable then s.inventoryFile.value else Parsed(payload).value))
  {
    if Parsed(payload).Some? && s.inventoryFile.Some? && Valid(s.inventoryFile.value) {
      MergeOntoValid(Parsed(payload).value, s.inventoryFile.value);
    }
  }

  /** Refresh returned nil with a directory that is on disk and filled from the previous one. */
  ghost predicate MergedOntoDisk(out: Outcome, part: Inventory, prev: Inventory) {
    && out.failure.None? && out.inv.Some? && out.state.inventoryFile == out.inv
    && FilledFrom(out.inv.value, part, prev)
  }

  /**
   The ordinary refresh: a sync without root domains, or without any other field, succeeds on top
   of a usable inventory file and takes what it lacks from there.
   */
  lemma PartialSyncMerges(s: State, path: string, o: RefreshOptions, w: World, part: Inventory, prev: Inventory)
    requires path != "" && s.inventoryFile == Some(prev) && Valid(prev)
    requires Carries(w.sync, part) && CarriedUsable(part) && w.lastWrite
    ensures MergedOntoDisk(Refresh(s, path, o, w), part, prev)
  {
    var s1 := Call(s, SyncCall(s.appVersion));
    assert LoadInventory(s1, path) == Some(prev);
    SyncUsableExactly(s1, path, w.sync.payload);
  }

  /** The same after the floor was adopted, for the second answer. */
  lemma PartialResyncMerges(s: State, path: string, o: RefreshOptions, w: World, part: Inventory, prev: Inventory)
    requires path != "" && s.inventoryFile == Some(prev) && Valid(prev)
    requires ToldToUpgrade(s, path, w)
    requires Carries(w.resync, part) && CarriedUsable(part) && w.lastWrite
    ensures MergedOntoDisk(Refresh(s, path, o, w), part, prev)
    ensures Refresh(s, path, o, w).state.appVersion == w.sync.payload.minimumVersion
  {
    FloorAdoptedIff(s, path, w);
    SyncUsableExactly(s, path, w.resync.payload);
    var (s1, synced) := TrySync(s, path, w);
    TrySyncKeeps(s, path, w);
    ResyncReceived(s, path, w, part);
    assert LoadInventory(s, path) == Some(prev);
  }

  lemma ResyncReceived(s: State, path: string, w: World, part: Inventory)
    requires ToldToUpgrade(s, path, w) && Carries(w.resync, part)
    ensures
      var synced := TrySync(s, path, w).1;
      synced.Some? ==> synced.value.received == part
  {
    var s1 := Call(s, SyncCall(s.appVersion));
    assert LoadInventory(s1, path) == LoadInventory(s, path);
  }

  // ---------- How a refresh fails ----------

  /**
   Which error an unsuccessful bootstrap stage reports. Approval is asked for exactly when a ticket
   came without a directory and the client may not approve itself; the caller's URL wins over the
   discovered one.
   */
  lemma BootstrapFailureNamed(s: State, path: string, o: RefreshOptions, w: World)
    ensures
      var failure := Bootstrapped(s, path, o, w).failure;
      var readable := w.bootstrap.Answer? && w.bootstrap.payload.access.Some?;
      && (failure == Some(BootstrapFailed) <==> !readable)
      && (readable ==>
            && (failure == Some(WriteFailed) <==> BootstrapDelivers(w) && !Writes(path, w.lastWrite))
            && (failure == Some(NoDirectory(w.bootstrap.payload.access.value.state)) <==>
                  !BootstrapDelivers(w) && BootTicket(w) == "")
            && (failure == Some(NeedsAuthorization(BootTicket(w), ApprovalURL(o, w))) <==>
                  BringsTicket(w) && !o.autoApprove)
            && (failure == Some(AuthorizeFailed) <==>
                  BringsTicket(w) && o.autoApprove && !(PostsApproval(o, w) && w.approval.Approved?))
            && (failure == Some(WaitCancelled) <==> PostsApproval(o, w) && w.approval.Approved? && !MayComplete(w))
            && (failure == Some(AccessFailed) <==>
                  PostsApproval(o, w) && MayComplete(w) && !(Delivers(w.access) && Writes(path, w.lastWrite))))
  {
  }

  /** A refresh reports the bootstrap stage's result exactly when it gets that far. */
  lemma RefreshFailureNamed(s: State, path: string, o: RefreshOptions, w: World) returns (at: State)
    ensures ReachesBootstrap(s, path, w) ==> Refresh(s, path, o, w) == Bootstrapped(at, path, o, w)
    ensures !ReachesBootstrap(s, path, w) ==>
              Refresh(s, path, o, w).failure ==
              if TrySync(s, path, w).1.Some? && !Writes(path, w.lastWrite) then Some(WriteFailed) else None
  {
    var (s1, synced) := TrySync(s, path, w);
    TrySyncKeeps(s, path, w);
    at := if s1.identity.pendingTicket == "" then s1
          else Complete(s1, path, s1.identity.pendingTicket, w.redeem, w.redeemWrite).0;
  }

  // ---------- Opening ----------

  /** An identity file that cannot be used: present, but unreadable or incomplete. */
  predicate Damaged(file: IdentityFile) {
    file.Unreadable? ||
    (file.Stored? && (file.identity.clientID == "" || |file.identity.signingKey| != 64))
  }

  /**
   Opening uses what is stored, creates an identity only where there is no file and it can be
   saved, and leaves a damaged file alone.
   */
  lemma OpenExactly(file: IdentityFile, generated: Identity, saves: bool)
    ensures
      var (after, id) := OpenIdentity(file, generated, saves);
      && (Damaged(file) ==> id.None? && after == file)
      && (file.Missing? && saves ==> id == Some(generated) && after == Stored(generated))
      && (file.Missing? && !saves ==> id.None? && after == file)
      && (!Damaged(file) && !file.Missing? ==> id == Some(file.identity) && after == file)
  {
  }

  /** No number of restarts overwrites a damaged identity file: it waits for a human. */
  lemma {:induction false} DamagedFileKept(p: Process, path: string, events: seq<Event>)
    requires !p.alive && Damaged(p.s.identityFile)
    ensures !Run(p, path, events).alive && Run(p, path, events).s.identityFile == p.s.identityFile
    ensures Run(p, path, events).s.inventoryFile == p.s.inventoryFile
  {
    if events != [] {
      var last := |events| - 1;
      DamagedFileKept(p, path, events[..last]);
      if events[last].Restarting? {
        OpenExactly(p.s.identityFile, events[last].generated, events[last].saves);
      }
    }
  }

  /** A restart starts afresh from the files: the default version, and nothing sent yet. */
  lemma RestartState(p: Process, path: string, generated: Identity, saves: bool)
    ensures
      var q := Step(p, path, Restarting(generated, saves));
      && q.s.inventoryFile == p.s.inventoryFile
      && (q.alive ==> q.s.appVersion == "0.2.4" && q.s.sent == [] && q.s.identityFile == Stored(q.s.identity))
      && (q.alive <==> !Damaged(p.s.identityFile) && (p.s.identityFile.Missing? ==> saves))
  {
    OpenExactly(p.s.identityFile, generated, saves);
  }
}
