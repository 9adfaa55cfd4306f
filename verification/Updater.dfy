/** internal/updater/updater.go: the poll, compare and install loop. */
module Updating {
  import opened Wrappers
  import opened Text
  import opened Inventories
  import opened Diff

  /** What one tick's Refresh call came to. */
  datatype Poll = Fetched(inv: Inventory) | Failed | Cancelled

  /** The console's shared inventory cell. */
  class Console {
    var inv: Inventory

    constructor (inv: Inventory)
      ensures this.inv == inv
    {
      this.inv := inv;
    }

    method SetInventory(inv: Inventory)
      modifies this
      ensures this.inv == inv
    {
      this.inv := inv;
    }
  }

  datatype Watched = Watched(current: Inventory, installed: Inventory, updates: seq<Inventory>)

  /** The watcher's run, driven by agreement rather than by reports. */
  ghost function Watch(w: Watched, polls: seq<Poll>): Watched
    decreases |polls|
  {
    if polls == [] || polls[0].Cancelled? then w
    else if polls[0].Failed? then Watch(w, polls[1..])
    else
      var next := polls[0].inv;
      if Equivalent(w.current, next) then Watch(w.(current := next), polls[1..])
      else Watch(Watched(next, next, w.updates + [next]), polls[1..])
  }

  class Updater {
    const hasSession: bool
    const interval: int
    const panel: Option<Console>
    /** Every inventory passed to OnUpdate, in order. */
    var updates: seq<Inventory>

    constructor (hasSession: bool, interval: int, panel: Option<Console>)
      ensures this.hasSession == hasSession && this.interval == interval && this.panel == panel
      ensures updates == []
    {
      this.hasSession, this.interval, this.panel := hasSession, interval, panel;
      updates := [];
    }

    /** Run. Without a panel OnUpdate is nil: changes are only logged. */
    method Run(polls: seq<Poll>, initial: Inventory) returns (current: Inventory)
      modifies this`updates, if panel.Some? then {panel.value} else {}
      ensures !hasSession || interval <= 0 ==>
                && current == initial && updates == old(updates)
                && (panel.Some? ==> panel.value.inv == old(panel.value.inv))
      ensures hasSession && interval > 0 && panel.Some? ==>
                Watched(current, panel.value.inv, updates)
                == Watch(Watched(initial, old(panel.value.inv), old(updates)), polls)
      ensures panel.None? ==> updates == old(updates)
      ensures hasSession && interval > 0 ==> current == LastFetched(initial, polls)
    {
      current := initial;
      if !hasSession || interval <= 0 {
        return;
      }
      var tick := 0;
      while tick < |polls|
        invariant 0 <= tick <= |polls|
        invariant panel.Some? ==>
            Watch(Watched(current, panel.value.inv, updates), polls[tick..])
            == Watch(Watched(initial, old(panel.value.inv), old(updates)), polls)
        invariant panel.None? ==> updates == old(updates)
        invariant LastFetched(current, polls[tick..]) == LastFetched(initial, polls)
      {
        var poll := polls[tick];
        assert polls[tick..][1..] == polls[tick + 1..];
        tick := tick + 1;
        if poll.Cancelled? {
          return;
        }
        if poll.Failed? {
          continue;
        }
        var changes := Compare(Some(current), Some(poll.inv));
        EmptyIffEquivalent(changes, current, poll.inv);
        current := poll.inv;
        if changes.Empty() {
          continue;
        }
        if panel.Some? {
          updates := updates + [poll.inv];
          panel.value.SetInventory(poll.inv);
        }
      }
    }
  }

  /** The last directory fetched before the watcher was cancelled. */
  function LastFetched(initial: Inventory, polls: seq<Poll>): Inventory
    decreases |polls|
  {
    if polls == [] || polls[0].Cancelled? then initial
    else LastFetched(if polls[0].Fetched? then polls[0].inv else initial, polls[1..])
  }

  ghost predicate Uncancelled(polls: seq<Poll>) {
    forall p :: p in polls ==> !p.Cancelled?
  }

  /**
   One more poll: a fetched directory always becomes the one compared with next, and is installed
   exactly when it differs from the one before; a failed refresh changes nothing.
   */
  lemma {:induction false} WatchLast(w: Watched, polls: seq<Poll>, poll: Poll)
    requires Uncancelled(polls)
    ensures
      var before, after := Watch(w, polls), Watch(w, polls + [poll]);
      && (poll.Fetched? ==>
            && after.current == poll.inv
            && (if Equivalent(before.current, poll.inv)
                then after.installed == before.installed && after.updates == before.updates
                else after.installed == poll.inv && after.updates == before.updates + [poll.inv]))
      && (!poll.Fetched? ==> after == before)
    ensures LastFetched(w.current, polls + [poll]) ==
            if poll.Fetched? then poll.inv else LastFetched(w.current, polls)
    decreases |polls|
  {
    var more := polls + [poll];
    if polls == [] {
      assert more[1..] == [];
    } else {
      assert more[0] == polls[0] && more[1..] == polls[1..] + [poll];
      assert polls[0] in polls && Uncancelled(polls[1..]);
      var next := if polls[0].Failed? then w
                  else if Equivalent(w.current, polls[0].inv) then w.(current := polls[0].inv)
                  else Watched(polls[0].inv, polls[0].inv, w.updates + [polls[0].inv]);
      WatchLast(next, polls[1..], poll);
    }
  }

  /** After a cancellation nothing is polled. */
  lemma {:induction false} CancelEnds(w: Watched, polls: seq<Poll>, rest: seq<Poll>)
    ensures Watch(w, polls + [Cancelled] + rest) == Watch(w, polls)
    ensures LastFetched(w.current, polls + [Cancelled] + rest) == LastFetched(w.current, polls)
    decreases |polls|
  {
    var more := polls + [Cancelled] + rest;
    if polls != [] && !polls[0].Cancelled? {
      assert more[0] == polls[0] && more[1..] == polls[1..] + [Cancelled] + rest;
      var next := if polls[0].Failed? then w
                  else if Equivalent(w.current, polls[0].inv) then w.(current := polls[0].inv)
                  else Watched(polls[0].inv, polls[0].inv, w.updates + [polls[0].inv]);
      CancelEnds(next, polls[1..], rest);
    }
  }

  ghost predicate EachDiffersFromLast(first: Inventory, updates: seq<Inventory>) {
    forall i :: 0 <= i < |updates| ==> !Equivalent(LastInstalled(first, updates[..i]), updates[i])
  }

  function LastInstalled(first: Inventory, updates: seq<Inventory>): Inventory {
    if updates == [] then first else updates[|updates| - 1]
  }

  lemma DiffersExtends(first: Inventory, updates: seq<Inventory>, next: Inventory)
    requires EachDiffersFromLast(first, updates) && !Equivalent(LastInstalled(first, updates), next)
    ensures EachDiffersFromLast(first, updates + [next])
  {
    var more := updates + [next];
    forall i | 0 <= i < |more| ensures !Equivalent(LastInstalled(first, more[..i]), more[i]) {
      assert more[..i] == updates[..i];
      if i == |updates| { assert updates[..i] == updates; }
    }
  }

  /**
   Whatever happened along the way, the installed inventory agrees with the last one fetched,
   and no installation was made that did not differ from the one before it.
   */
  lemma {:induction false} InstalledAgreesWithFetched(w: Watched, first: Inventory, polls: seq<Poll>)
    requires Equivalent(w.current, w.installed)
    requires w.installed == LastInstalled(first, w.updates) && EachDiffersFromLast(first, w.updates)
    ensures Watch(w, polls).current == LastFetched(w.current, polls)
    ensures Equivalent(Watch(w, polls).current, Watch(w, polls).installed)
    ensures Watch(w, polls).installed == LastInstalled(first, Watch(w, polls).updates)
    ensures EachDiffersFromLast(first, Watch(w, polls).updates)
    decreases |polls|
  {
    if polls == [] || polls[0].Cancelled? {
    } else if polls[0].Failed? {
      InstalledAgreesWithFetched(w, first, polls[1..]);
    } else {
      var next := polls[0].inv;
      if Equivalent(w.current, next) {
        EquivalenceLaws(next, w.current, w.installed);
        InstalledAgreesWithFetched(w.(current := next), first, polls[1..]);
      } else {
        EquivalenceLaws(w.current, w.installed, next);
        EquivalenceLaws(next, next, next);
        DiffersExtends(first, w.updates, next);
        InstalledAgreesWithFetched(Watched(next, next, w.updates + [next]), first, polls[1..]);
      }
    }
  }

  /** The same directory with another client id, host display name and front proxy throughout. */
  function Redressed(inv: Inventory, clientID: string, name: string, frontProxy: Option<FrontProxy>): Inventory {
    Inventory(clientID, inv.rootDomains,
              seq(|inv.hosts|, i requires 0 <= i < |inv.hosts| => inv.hosts[i].(name := name)),
              seq(|inv.entryGroups|, i requires 0 <= i < |inv.entryGroups| =>
                inv.entryGroups[i].(frontProxy := frontProxy)))
  }

  /**
   Agreement is not equality: a directory that only replaces the client id, the hosts' display
   names or the groups' front proxies is fetched but never installed by the watcher.
   */
  lemma UnwatchedFieldsStayStale(inv: Inventory, clientID: string, name: string, frontProxy: Option<FrontProxy>)
    ensures
      var next := Redressed(inv, clientID, name, frontProxy);
      Watch(Watched(inv, inv, []), [Fetched(next)]) == Watched(next, inv, [])
  {
    var next := Redressed(inv, clientID, name, frontProxy);
    SameExits(inv.hosts, next.hosts);
    SamePools(inv.entryGroups, next.entryGroups);
    assert Equivalent(inv, next);
    assert [Fetched(next)][1..] == [];
  }

  lemma {:induction false} SameExits(a: seq<Host>, b: seq<Host>)
    requires |a| == |b| && forall i :: 0 <= i < |a| ==> a[i].(name := b[i].name) == b[i]
    ensures LastWins(a, Slug).Keys == LastWins(b, Slug).Keys
    ensures forall k :: k in LastWins(a, Slug) ==>
              LastWins(a, Slug)[k].(name := LastWins(b, Slug)[k].name) == LastWins(b, Slug)[k]
  {
    if a != [] {
      SameExits(a[..|a| - 1], b[..|b| - 1]);
    }
  }

  lemma {:induction false} SamePools(a: seq<EntryGroup>, b: seq<EntryGroup>)
    requires |a| == |b| && forall i :: 0 <= i < |a| ==> a[i].name == b[i].name && a[i].ipv4 == b[i].ipv4
    ensures LastWins(a, Name).Keys == LastWins(b, Name).Keys
    ensures forall k :: k in LastWins(a, Name) ==> LastWins(a, Name)[k].ipv4 == LastWins(b, Name)[k].ipv4
  {
    if a != [] {
      SamePools(a[..|a| - 1], b[..|b| - 1]);
    }
  }
}
