/** Whole-client properties: refreshes, restarts, launches and the watcher sharing one disk. */
module Systems {
  import opened Wrappers
  import opened Inventories
  import opened Directories
  import opened Sessions
  import opened SessionRuns
  import Diff
  import Supervising
  import Updating

  // ---------- Root stickiness across rootless syncs ----------

  /** A refreshing process, the two files it shares with launches, and the saved root. */
  datatype Client = Client(process: Process, saved: string)

  datatype Happening =
    | Session(event: Event)
    | Launching(o: Supervising.Options, w: Supervising.World)

  /** The random draw brought into the pool, as rand.N does. */
  function DrawnFrom(w: Supervising.World, pool: seq<string>): Supervising.World
    requires pool != []
  {
    w.(draw := w.draw % |pool|)
  }

  /** A launch loads the inventory file and resolves a plan; an unusable file ends it at once. */
  ghost function After(c: Client, path: string, h: Happening): Client {
    match h
    case Session(event) => c.(process := Step(c.process, path, event))
    case Launching(o, w) =>
      match LoadInventory(c.process.s, path)
      case None => c
      case Some(inv) => c.(saved := Supervising.SavedRoot(c.saved, inv, o, DrawnFrom(w, inv.rootDomains)))
  }

  ghost function History(c: Client, path: string, hs: seq<Happening>): Client {
    if hs == [] then c else After(History(c, path, hs[..|hs| - 1]), path, hs[|hs| - 1])
  }

  /** The answer carries no root-domain pool, as a sync's never does. */
  predicate Rootless(reply: Reply) {
    reply.Answer? && Parsed(reply.payload).Some? ==> Parsed(reply.payload).value.rootDomains == []
  }

  predicate RootlessWorld(w: World) {
    Rootless(w.sync) && Rootless(w.resync) && Rootless(w.redeem) && Rootless(w.bootstrap) && Rootless(w.access)
  }

  ghost predicate Quiet(h: Happening) {
    match h
    case Session(event) => event.Refreshing? ==> RootlessWorld(event.w)
    case Launching(o, _) => o.rootDomain == ""
  }

  /** The inventory file is usable and holds this pool. */
  ghost predicate HoldsPool(s: State, pool: seq<string>) {
    s.inventoryFile.Some? && Valid(s.inventoryFile.value) && s.inventoryFile.value.rootDomains == pool
  }

  lemma RefreshKeepsPool(s: State, path: string, o: RefreshOptions, w: World, pool: seq<string>)
    requires HoldsPool(s, pool) && RootlessWorld(w)
    ensures HoldsPool(Refresh(s, path, o, w).state, pool)
  {
    RefreshWrites(s, path, o, w);
    SourceIsReal(s, path, o, w);
  }

  /** What a launch resolves from the disk as it is. */
  ghost function Launched(c: Client, path: string, o: Supervising.Options, w: Supervising.World)
    : Option<Supervising.Resolved>
  {
    match LoadInventory(c.process.s, path)
    case None => None
    case Some(inv) => Supervising.Resolve(c.saved, inv, o, DrawnFrom(w, inv.rootDomains))
  }

  /** Everything that fixes the root: the pool on disk and a saved member of it. */
  ghost predicate Rooted(c: Client, path: string, pool: seq<string>, root: string) {
    path != "" && HoldsPool(c.process.s, pool) && c.saved == root != "" && root in pool
  }

  lemma LaunchKeepsRoot(c: Client, path: string, pool: seq<string>, root: string,
                        o: Supervising.Options, w: Supervising.World)
    requires Rooted(c, path, pool, root) && o.rootDomain == ""
    ensures Rooted(After(c, path, Launching(o, w)), path, pool, root)
    ensures Launched(c, path, o, w).Some? ==> Launched(c, path, o, w).value.plan.rootDomain == root
  {
    Supervising.RootKeptAtLaunch(
      c.saved, Supervising.Launch(c.process.s.inventoryFile.value, o, DrawnFrom(w, pool)));
  }

  lemma QuietKeepsRoot(c: Client, path: string, pool: seq<string>, root: string, h: Happening)
    requires Rooted(c, path, pool, root) && Quiet(h)
    ensures Rooted(After(c, path, h), path, pool, root)
  {
    match h
    case Session(event) =>
      if event.Refreshing? && c.process.alive {
        RefreshKeepsPool(c.process.s, path, event.o, event.w, pool);
      }
    case Launching(o, w) => LaunchKeepsRoot(c, path, pool, root, o, w);
  }

  lemma {:induction false} RootSurvives(c: Client, path: string, pool: seq<string>, root: string, hs: seq<Happening>)
    requires Rooted(c, path, pool, root) && forall h :: h in hs ==> Quiet(h)
    ensures Rooted(History(c, path, hs), path, pool, root)
  {
    if hs != [] {
      var last := |hs| - 1;
      assert hs[last] in hs;
      RootSurvives(c, path, pool, root, hs[..last]);
      QuietKeepsRoot(History(c, path, hs[..last]), path, pool, root, hs[last]);
    }
  }

  /**
   However often the directory is refreshed without a root pool, the process restarted and the
   proxy launched: the pool on disk and the saved root stay the same, and every launch on the way
   that resolves a plan uses that root.
   */
  lemma RootSurvivesRootlessSyncs(c: Client, path: string, pool: seq<string>, hs: seq<Happening>)
    requires path != "" && HoldsPool(c.process.s, pool) && c.saved != "" && c.saved in pool
    requires forall h :: h in hs ==> Quiet(h)
    ensures HoldsPool(History(c, path, hs).process.s, pool)
    ensures History(c, path, hs).saved == c.saved
    ensures forall k :: 0 <= k < |hs| && hs[k].Launching? ==>
              var r := Launched(History(c, path, hs[..k]), path, hs[k].o, hs[k].w);
              r.Some? ==> r.value.plan.rootDomain == c.saved
  {
    RootSurvives(c, path, pool, c.saved, hs);
    forall k | 0 <= k < |hs| && hs[k].Launching?
      ensures
        var r := Launched(History(c, path, hs[..k]), path, hs[k].o, hs[k].w);
        r.Some? ==> r.value.plan.rootDomain == c.saved
    {
      RootSurvives(c, path, pool, c.saved, hs[..k]);
      assert hs[k] in hs;
      LaunchKeepsRoot(History(c, path, hs[..k]), path, pool, c.saved, hs[k].o, hs[k].w);
    }
  }

  // ---------- The watcher and the disk ----------

  /** What each of the watcher's refreshes looks like to it. */
  ghost function PollOf(s: State, path: string, w: World): Updating.Poll {
    var out := Refresh(s, path, RefreshOptions(false, ""), w);
    if out.failure.None? && out.inv.Some? then Updating.Fetched(out.inv.value) else Updating.Failed
  }

  ghost function Refreshed(s: State, path: string, worlds: seq<World>): State
    decreases |worlds|
  {
    if worlds == [] then s
    else Refreshed(Refresh(s, path, RefreshOptions(false, ""), worlds[0]).state, path, worlds[1..])
  }

  ghost function Polls(s: State, path: string, worlds: seq<World>): seq<Updating.Poll>
    decreases |worlds|
  {
    if worlds == [] then []
    else
      [PollOf(s, path, worlds[0])]
      + Polls(Refresh(s, path, RefreshOptions(false, ""), worlds[0]).state, path, worlds[1..])
  }

  lemma {:induction false} LastFetchedIsOnDisk(s: State, path: string, worlds: seq<World>, inv: Inventory)
    requires path != "" && s.inventoryFile == Some(inv)
    ensures Refreshed(s, path, worlds).inventoryFile == Some(Updating.LastFetched(inv, Polls(s, path, worlds)))
    decreases |worlds|
  {
    if worlds != [] {
      RefreshWrites(s, path, RefreshOptions(false, ""), worlds[0]);
      var s1 := Refresh(s, path, RefreshOptions(false, ""), worlds[0]).state;
      var poll := PollOf(s, path, worlds[0]);
      var rest := Polls(s1, path, worlds[1..]);
      assert ([poll] + rest)[1..] == rest;
      LastFetchedIsOnDisk(s1, path, worlds[1..], s1.inventoryFile.value);
    }
  }

  /**
   Starting from the loaded inventory file, and through any server and disk behaviour, the
   inventory the watcher has installed agrees with the file, wherever it is stopped.
   */
  lemma InstalledAgreesWithDisk(s: State, path: string, worlds: seq<World>, inv: Inventory)
    requires path != "" && s.inventoryFile == Some(inv)
    ensures
      var seen := Updating.Watch(Updating.Watched(inv, inv, []), Polls(s, path, worlds));
      && Refreshed(s, path, worlds).inventoryFile == Some(seen.current)
      && Diff.Equivalent(seen.current, seen.installed)
  {
    LastFetchedIsOnDisk(s, path, worlds, inv);
    Diff.EquivalenceLaws(inv, inv, inv);
    Updating.InstalledAgreesWithFetched(Updating.Watched(inv, inv, []), inv, Polls(s, path, worlds));
  }
}
