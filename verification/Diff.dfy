/** internal/inventory/diff.go: what changed between two inventories. */
module Diff {
  import opened Wrappers
  import opened Base64
  import opened Text
  import opened Inventories

  datatype Changes = Changes(
    hostsAdded: seq<string>, hostsRemoved: seq<string>,
    wentOnline: seq<string>, wentOffline: seq<string>, keysRotated: seq<string>,
    groupsAdded: seq<string>, groupsRemoved: seq<string>, poolsChanged: seq<string>,
    rootsAdded: seq<string>, rootsRemoved: seq<string>)
  {
    predicate Empty() {
      && |hostsAdded| == 0 && |hostsRemoved| == 0 && |wentOnline| == 0 && |wentOffline| == 0
      && |keysRotated| == 0 && |groupsAdded| == 0 && |groupsRemoved| == 0 && |poolsChanged| == 0
      && |rootsAdded| == 0 && |rootsRemoved| == 0
    }

    /** The same changes seen in the other direction. */
    function Dual(): Changes {
      Changes(hostsRemoved, hostsAdded, wentOffline, wentOnline, keysRotated,
              groupsRemoved, groupsAdded, poolsChanged, rootsRemoved, rootsAdded)
    }
  }

  const NO_CHANGES := Changes([], [], [], [], [], [], [], [], [], [])

  // ---------- Lookup tables ----------

  function Slug(h: Host): string { h.slug }
  function Name(g: EntryGroup): string { g.name }

  /** The table a loop of `out[key(item)] = item` builds: later items replace earlier ones. */
  function LastWins<T>(items: seq<T>, key: T -> string): map<string, T> {
    if items == [] then map[]
    else LastWins(items[..|items| - 1], key)[key(items[|items| - 1]) := items[|items| - 1]]
  }

  lemma {:induction false} LastWinsMeaning<T>(items: seq<T>, key: T -> string, k: string) returns (i: nat)
    ensures k in LastWins(items, key) <==> exists j :: 0 <= j < |items| && key(items[j]) == k
    ensures k in LastWins(items, key) ==>
              && i < |items| && key(items[i]) == k && LastWins(items, key)[k] == items[i]
              && forall j :: i < j < |items| ==> key(items[j]) != k
  {
    i := 0;
    if items != [] {
      var last := |items| - 1;
      var before := items[..last];
      i := LastWinsMeaning(before, key, k);
      assert forall j :: 0 <= j < last ==> before[j] == items[j];
      if key(items[last]) == k { i := last; }
    }
  }

  method HostsBySlug(hosts: seq<Host>) returns (out: map<string, Host>)
    ensures out == LastWins(hosts, Slug)
  {
    out := map[];
    for i := 0 to |hosts|
      invariant out == LastWins(hosts[..i], Slug)
    {
      assert hosts[..i + 1][..i] == hosts[..i];
      out := out[hosts[i].slug := hosts[i]];
    }
    assert hosts[..|hosts|] == hosts;
  }

  method GroupsByName(groups: seq<EntryGroup>) returns (out: map<string, EntryGroup>)
    ensures out == LastWins(groups, Name)
  {
    out := map[];
    for i := 0 to |groups|
      invariant out == LastWins(groups[..i], Name)
    {
      assert groups[..i + 1][..i] == groups[..i];
      out := out[groups[i].name := groups[i]];
    }
    assert groups[..|groups|] == groups;
  }

  // ---------- Sorted differences ----------

  /** `list` is the one sorted, duplicate-free list of `elements`. */
  ghost predicate Lists(list: seq<string>, elements: set<string>) {
    Sorted(list) && Distinct(list) && Elements(list) == elements
  }

  /** Collects in whatever order the map is walked; sorting makes the answer unique. */
  method SortedMissing<T>(have: map<string, T>, from: map<string, T>) returns (out: seq<string>)
    ensures Lists(out, have.Keys - from.Keys)
  {
    out := [];
    var left := have.Keys;
    while left != {}
      invariant left <= have.Keys
      invariant Distinct(out) && Elements(out) == (have.Keys - from.Keys) - left
    {
      var key :| key in left;
      assert Elements(out + [key]) == Elements(out) + {key};
      assert key !in Elements(out);
      if key !in from {
        out := out + [key];
      }
      left := left - {key};
    }
    SortKeepsSet(out);
    out := Sort(out);
  }

  method SortedKeys<T>(m: map<string, T>) returns (out: seq<string>)
    ensures Lists(out, m.Keys)
  {
    var nothing: map<string, T> := map[];
    out := SortedMissing(m, nothing);
    assert m.Keys - nothing.Keys == m.Keys;
  }

  /** The elements of `have` that are not in `from`, in order and with repetitions. */
  function Without(have: seq<string>, from: seq<string>): seq<string> {
    if have == [] then []
    else
      var rest := Without(have[..|have| - 1], from);
      if have[|have| - 1] in from then rest else rest + [have[|have| - 1]]
  }

  lemma {:induction false} WithoutElements(have: seq<string>, from: seq<string>)
    ensures Elements(Without(have, from)) == Elements(have) - Elements(from)
  {
    if have != [] {
      var last := |have| - 1;
      WithoutElements(have[..last], from);
      assert have == have[..last] + [have[last]];
      assert Elements(have) == Elements(have[..last]) + {have[last]};
      var rest := Without(have[..last], from);
      assert Elements(rest + [have[last]]) == Elements(rest) + {have[last]};
    }
  }

  method SortedDifference(have: seq<string>, from: seq<string>) returns (out: seq<string>)
    ensures Sorted(out) && multiset(out) == multiset(Without(have, from))
  {
    out := [];
    for i := 0 to |have|
      invariant out == Without(have[..i], from)
    {
      assert have[..i + 1][..i] == have[..i];
      if have[i] !in from {
        out := out + [have[i]];
      }
    }
    assert have[..|have|] == have;
    SortSorted(out);
    out := Sort(out);
  }

  /** Pools agree as bags: order is ignored, repetition is not. */
  method SameAddresses(a: seq<string>, b: seq<string>) returns (same: bool)
    ensures same <==> multiset(a) == multiset(b)
  {
    if |a| != |b| {
      assert |multiset(a)| != |multiset(b)|;
      return false;
    }
    var x, y := Sort(a), Sort(b);
    SortSorted(a);
    SortSorted(b);
    if multiset(x) == multiset(y) {
      SortedUnique(x, y);
    }
    same := x == y;
  }

  // ---------- Compare ----------

  ghost function Common<T>(a: map<string, T>, b: map<string, T>): set<string> {
    a.Keys * b.Keys
  }

  ghost function CameOnline(a: map<string, Host>, b: map<string, Host>): set<string> {
    set k | k in Common(a, b) && !a[k].online && b[k].online
  }

  ghost function Rotated(a: map<string, Host>, b: map<string, Host>): set<string> {
    set k | k in Common(a, b) && a[k].key != b[k].key
  }

  ghost function Repooled(a: map<string, EntryGroup>, b: map<string, EntryGroup>): set<string> {
    set k | k in Common(a, b) && multiset(a[k].ipv4) != multiset(b[k].ipv4)
  }

  ghost predicate DescribesHosts(c: Changes, a: map<string, Host>, b: map<string, Host>) {
    && Lists(c.hostsAdded, b.Keys - a.Keys) && Lists(c.hostsRemoved, a.Keys - b.Keys)
    && Lists(c.wentOnline, CameOnline(a, b)) && Lists(c.wentOffline, CameOnline(b, a))
    && Lists(c.keysRotated, Rotated(a, b))
  }

  ghost predicate DescribesGroups(c: Changes, a: map<string, EntryGroup>, b: map<string, EntryGroup>) {
    && Lists(c.groupsAdded, b.Keys - a.Keys) && Lists(c.groupsRemoved, a.Keys - b.Keys)
    && Lists(c.poolsChanged, Repooled(a, b))
  }

  ghost predicate DescribesRoots(c: Changes, a: seq<string>, b: seq<string>) {
    && Sorted(c.rootsAdded) && multiset(c.rootsAdded) == multiset(Without(b, a))
    && Sorted(c.rootsRemoved) && multiset(c.rootsRemoved) == multiset(Without(a, b))
  }

  /** What Compare(prev, next) must report, list by list. */
  ghost predicate Describes(c: Changes, prev: Inventory, next: Inventory) {
    && DescribesHosts(c, LastWins(prev.hosts, Slug), LastWins(next.hosts, Slug))
    && DescribesGroups(c, LastWins(prev.entryGroups, Name), LastWins(next.entryGroups, Name))
    && DescribesRoots(c, prev.rootDomains, next.rootDomains)
  }

  /** Appending the next of a sorted list of keys keeps a sorted sublist sorted. */
  lemma ListsExtend(list: seq<string>, elements: set<string>, keys: seq<string>, i: nat)
    requires Lists(list, elements) && Sorted(keys) && Distinct(keys)
    requires i < |keys| && elements <= Elements(keys[..i])
    ensures Lists(list + [keys[i]], elements + {keys[i]})
  {
    var out := list + [keys[i]];
    forall j | 0 <= j < |list| ensures AtMost(list[j], keys[i]) && list[j] != keys[i] {
      assert list[j] in Elements(list);
      assert list[j] in keys[..i];
    }
    assert Elements(out) == Elements(list) + {keys[i]};
  }

  lemma ElementsGrow(keys: seq<string>, i: nat)
    requires i < |keys|
    ensures Elements(keys[..i + 1]) == Elements(keys[..i]) + {keys[i]}
  {
    assert keys[..i + 1] == keys[..i] + [keys[i]];
  }

  method CompareHosts(prev: seq<Host>, next: seq<Host>)
    returns (added: seq<string>, removed: seq<string>,
             online: seq<string>, offline: seq<string>, rotated: seq<string>)
    ensures DescribesHosts(Changes(added, removed, online, offline, rotated, [], [], [], [], []),
                           LastWins(prev, Slug), LastWins(next, Slug))
  {
    var a := HostsBySlug(prev);
    var b := HostsBySlug(next);
    added := SortedMissing(b, a);
    removed := SortedMissing(a, b);
    online, offline, rotated := [], [], [];
    var keys := SortedKeys(b);
    for i := 0 to |keys|
      invariant Lists(online, CameOnline(a, b) * Elements(keys[..i]))
      invariant Lists(offline, CameOnline(b, a) * Elements(keys[..i]))
      invariant Lists(rotated, Rotated(a, b) * Elements(keys[..i]))
    {
      ghost var seen := Elements(keys[..i]);
      ElementsGrow(keys, i);
      var slug := keys[i];
      assert slug in Elements(keys);
      ListsExtend(online, CameOnline(a, b) * seen, keys, i);
      ListsExtend(offline, CameOnline(b, a) * seen, keys, i);
      ListsExtend(rotated, Rotated(a, b) * seen, keys, i);
      assert slug in CameOnline(a, b) ==> CameOnline(a, b) * (seen + {slug}) == CameOnline(a, b) * seen + {slug};
      assert slug !in CameOnline(a, b) ==> CameOnline(a, b) * (seen + {slug}) == CameOnline(a, b) * seen;
      assert slug in CameOnline(b, a) ==> CameOnline(b, a) * (seen + {slug}) == CameOnline(b, a) * seen + {slug};
      assert slug !in CameOnline(b, a) ==> CameOnline(b, a) * (seen + {slug}) == CameOnline(b, a) * seen;
      assert slug in Rotated(a, b) ==> Rotated(a, b) * (seen + {slug}) == Rotated(a, b) * seen + {slug};
      assert slug !in Rotated(a, b) ==> Rotated(a, b) * (seen + {slug}) == Rotated(a, b) * seen;
      if slug !in a {
        continue;
      }
      var before, after := a[slug], b[slug];
      if !before.online && after.online {
        online := online + [slug];
      } else if before.online && !after.online {
        offline := offline + [slug];
      }
      if before.key != after.key {
        rotated := rotated + [slug];
      }
    }
    assert keys[..|keys|] == keys;
    assert CameOnline(a, b) * b.Keys == CameOnline(a, b);
    assert CameOnline(b, a) * b.Keys == CameOnline(b, a);
    assert Rotated(a, b) * b.Keys == Rotated(a, b);
  }

  method CompareGroups(prev: seq<EntryGroup>, next: seq<EntryGroup>)
    returns (added: seq<string>, removed: seq<string>, changed: seq<string>)
    ensures DescribesGroups(Changes([], [], [], [], [], added, removed, changed, [], []),
                            LastWins(prev, Name), LastWins(next, Name))
  {
    var a := GroupsByName(prev);
    var b := GroupsByName(next);
    added := SortedMissing(b, a);
    removed := SortedMissing(a, b);
    changed := [];
    var keys := SortedKeys(b);
    for i := 0 to |keys|
      invariant Lists(changed, Repooled(a, b) * Elements(keys[..i]))
    {
      ghost var seen := Elements(keys[..i]);
      ElementsGrow(keys, i);
      var name := keys[i];
      assert name in Elements(keys);
      ListsExtend(changed, Repooled(a, b) * seen, keys, i);
      assert name in Repooled(a, b) ==> Repooled(a, b) * (seen + {name}) == Repooled(a, b) * seen + {name};
      assert name !in Repooled(a, b) ==> Repooled(a, b) * (seen + {name}) == Repooled(a, b) * seen;
      if name !in a {
        continue;
      }
      var same := SameAddresses(a[name].ipv4, b[name].ipv4);
      if !same {
        changed := changed + [name];
      }
    }
    assert keys[..|keys|] == keys;
    assert Repooled(a, b) * b.Keys == Repooled(a, b);
  }

  method Compare(prev: Option<Inventory>, next: Option<Inventory>) returns (c: Changes)
    ensures prev.None? || next.None? ==> c == NO_CHANGES
    ensures prev.Some? && next.Some? ==> Describes(c, prev.value, next.value)
  {
    c := NO_CHANGES;
    if prev.None? || next.None? {
      return;
    }
    var p, n := prev.value, next.value;
    var ha, hr, on, off, rot := CompareHosts(p.hosts, n.hosts);
    var ga, gr, pc := CompareGroups(p.entryGroups, n.entryGroups);
    var ra := SortedDifference(n.rootDomains, p.rootDomains);
    var rr := SortedDifference(p.rootDomains, n.rootDomains);
    c := Changes(ha, hr, on, off, rot, ga, gr, pc, ra, rr);
  }

  // ---------- What the report means ----------

  /** The inventories agree on everything Compare looks at. */
  ghost predicate Equivalent(a: Inventory, b: Inventory) {
    var ah, bh := LastWins(a.hosts, Slug), LastWins(b.hosts, Slug);
    var ag, bg := LastWins(a.entryGroups, Name), LastWins(b.entryGroups, Name);
    && ah.Keys == bh.Keys && ag.Keys == bg.Keys
    && (forall k :: k in ah && k in bh ==> ah[k].online == bh[k].online && ah[k].key == bh[k].key)
    && (forall k :: k in ag && k in bg ==> multiset(ag[k].ipv4) == multiset(bg[k].ipv4))
    && Elements(a.rootDomains) == Elements(b.rootDomains)
  }

  lemma ListsEmpty(list: seq<string>, elements: set<string>)
    requires Lists(list, elements)
    ensures |list| == 0 <==> elements == {}
  {
    if list != [] { assert list[0] in Elements(list); }
  }

  lemma EmptyBag(list: seq<string>, other: seq<string>)
    requires multiset(list) == multiset(other)
    ensures Elements(list) == Elements(other) && (|list| == 0 <==> Elements(other) == {})
  {
    forall x ensures x in list <==> x in other {
      assert x in list <==> x in multiset(list);
      assert x in other <==> x in multiset(other);
    }
    if list != [] { assert list[0] in Elements(list); }
  }

  lemma RootsEmpty(c: Changes, a: seq<string>, b: seq<string>)
    requires DescribesRoots(c, a, b)
    ensures |c.rootsAdded| == 0 && |c.rootsRemoved| == 0 <==> Elements(a) == Elements(b)
  {
    EmptyBag(c.rootsAdded, Without(b, a));
    EmptyBag(c.rootsRemoved, Without(a, b));
    WithoutElements(b, a);
    WithoutElements(a, b);
    var x, y := Elements(a), Elements(b);
    if x - y == {} && y - x == {} {
      forall e ensures e in x <==> e in y {
        assert e !in x - y && e !in y - x;
      }
    }
  }

  lemma HostsEmpty(c: Changes, a: map<string, Host>, b: map<string, Host>)
    requires DescribesHosts(c, a, b)
    ensures |c.hostsAdded| == 0 && |c.hostsRemoved| == 0 && |c.wentOnline| == 0 && |c.wentOffline| == 0
            && |c.keysRotated| == 0 <==>
            && a.Keys == b.Keys
            && forall k :: k in a && k in b ==> a[k].online == b[k].online && a[k].key == b[k].key
  {
    ListsEmpty(c.hostsAdded, b.Keys - a.Keys);
    ListsEmpty(c.hostsRemoved, a.Keys - b.Keys);
    ListsEmpty(c.wentOnline, CameOnline(a, b));
    ListsEmpty(c.wentOffline, CameOnline(b, a));
    ListsEmpty(c.keysRotated, Rotated(a, b));
    SameKeys(a.Keys, b.Keys);
    if CameOnline(a, b) == {} && CameOnline(b, a) == {} && Rotated(a, b) == {} {
      forall k | k in a && k in b ensures a[k].online == b[k].online && a[k].key == b[k].key {
        assert k !in CameOnline(a, b) && k !in CameOnline(b, a) && k !in Rotated(a, b);
      }
    }
  }

  lemma SameKeys(a: set<string>, b: set<string>)
    ensures a - b == {} && b - a == {} <==> a == b
  {
    if a - b == {} && b - a == {} {
      forall k ensures k in a <==> k in b { assert k !in a - b && k !in b - a; }
    }
  }

  lemma GroupsEmpty(c: Changes, a: map<string, EntryGroup>, b: map<string, EntryGroup>)
    requires DescribesGroups(c, a, b)
    ensures |c.groupsAdded| == 0 && |c.groupsRemoved| == 0 && |c.poolsChanged| == 0 <==>
            && a.Keys == b.Keys
            && forall k :: k in a && k in b ==> multiset(a[k].ipv4) == multiset(b[k].ipv4)
  {
    ListsEmpty(c.groupsAdded, b.Keys - a.Keys);
    ListsEmpty(c.groupsRemoved, a.Keys - b.Keys);
    ListsEmpty(c.poolsChanged, Repooled(a, b));
    SameKeys(a.Keys, b.Keys);
    if Repooled(a, b) == {} {
      forall k | k in a && k in b ensures multiset(a[k].ipv4) == multiset(b[k].ipv4) {
        assert k !in Repooled(a, b);
      }
    }
  }

  /** A report is empty exactly when the inventories agree on everything Compare looks at. */
  lemma EmptyIffEquivalent(c: Changes, prev: Inventory, next: Inventory)
    requires Describes(c, prev, next)
    ensures c.Empty() <==> Equivalent(prev, next)
  {
    HostsEmpty(c, LastWins(prev.hosts, Slug), LastWins(next.hosts, Slug));
    GroupsEmpty(c, LastWins(prev.entryGroups, Name), LastWins(next.entryGroups, Name));
    RootsEmpty(c, prev.rootDomains, next.rootDomains);
  }

  lemma EquivalenceLaws(x: Inventory, y: Inventory, z: Inventory)
    ensures Equivalent(x, x)
    ensures Equivalent(x, y) <==> Equivalent(y, x)
    ensures Equivalent(x, y) && Equivalent(y, z) ==> Equivalent(x, z)
  {
  }

  /** "Nothing changed" is reflexive and symmetric on what Compare returns. */
  lemma EmptyReflexiveSymmetric(x: Inventory, y: Inventory, xx: Changes, xy: Changes, yx: Changes)
    requires Describes(xx, x, x) && Describes(xy, x, y) && Describes(yx, y, x)
    ensures xx.Empty()
    ensures xy.Empty() <==> yx.Empty()
  {
    EmptyIffEquivalent(xx, x, x);
    EquivalenceLaws(x, y, y);
    EmptyIffEquivalent(xy, x, y);
    EmptyIffEquivalent(yx, y, x);
  }

  /** "Nothing changed" is transitive on what Compare returns. */
  lemma EmptyTransitive(x: Inventory, y: Inventory, z: Inventory, xy: Changes, yz: Changes, xz: Changes)
    requires Describes(xy, x, y) && Describes(yz, y, z) && Describes(xz, x, z)
    requires xy.Empty() && yz.Empty()
    ensures xz.Empty()
  {
    EmptyIffEquivalent(xy, x, y);
    EmptyIffEquivalent(yz, y, z);
    EmptyIffEquivalent(xz, x, z);
    EquivalenceLaws(x, y, z);
  }

  /** Compare is a function: map iteration order cannot show in its answer. */
  lemma ReportUnique(c: Changes, d: Changes, prev: Inventory, next: Inventory)
    requires Describes(c, prev, next) && Describes(d, prev, next)
    ensures c == d
  {
    SortedSetUnique(c.hostsAdded, d.hostsAdded);
    SortedSetUnique(c.hostsRemoved, d.hostsRemoved);
    SortedSetUnique(c.wentOnline, d.wentOnline);
    SortedSetUnique(c.wentOffline, d.wentOffline);
    SortedSetUnique(c.keysRotated, d.keysRotated);
    SortedSetUnique(c.groupsAdded, d.groupsAdded);
    SortedSetUnique(c.groupsRemoved, d.groupsRemoved);
    SortedSetUnique(c.poolsChanged, d.poolsChanged);
    SortedUnique(c.rootsAdded, d.rootsAdded);
    SortedUnique(c.rootsRemoved, d.rootsRemoved);
  }

  /** Comparing the other way round swaps added/removed and online/offline and keeps the rest. */
  lemma ReportDual(c: Changes, d: Changes, a: Inventory, b: Inventory)
    requires Describes(c, a, b) && Describes(d, b, a)
    ensures d == c.Dual()
  {
    var ah, bh := LastWins(a.hosts, Slug), LastWins(b.hosts, Slug);
    var ag, bg := LastWins(a.entryGroups, Name), LastWins(b.entryGroups, Name);
    assert Rotated(ah, bh) == Rotated(bh, ah);
    assert Repooled(ag, bg) == Repooled(bg, ag);
    ReportUnique(d, c.Dual(), b, a);
  }

  /**
   Keys are compared as text: the same key bytes in another base64 variant are reported as a
   rotation, although both texts have one normal form.
   */
  lemma ReencodedKeyReportedAsRotated(c: Changes, prev: Inventory, next: Inventory, slug: string,
                                      e: Encoding, f: Encoding, key: seq<Byte>)
    requires Describes(c, prev, next) && |key| == BYTES_32 && Encode(e, key) != Encode(f, key)
    requires slug in LastWins(prev.hosts, Slug) && LastWins(prev.hosts, Slug)[slug].key == Encode(e, key)
    requires slug in LastWins(next.hosts, Slug) && LastWins(next.hosts, Slug)[slug].key == Encode(f, key)
    ensures slug in c.keysRotated && !Equivalent(prev, next)
    ensures NormalizedKey(Encode(e, key)) == NormalizedKey(Encode(f, key)) == Some(Encode(RAW_URL, key))
  {
    assert slug in Rotated(LastWins(prev.hosts, Slug), LastWins(next.hosts, Slug));
    assert slug in Elements(c.keysRotated);
    NoLineBreaks(e, key);
    StripKeeps(Encode(e, key));
    NormalizesEveryVariant(e, key, Encode(e, key));
    NoLineBreaks(f, key);
    StripKeeps(Encode(f, key));
    NormalizesEveryVariant(f, key, Encode(f, key));
  }

  // ---------- Replaying reports ----------

  function Slugs(inv: Inventory): set<string> { LastWins(inv.hosts, Slug).Keys }
  function GroupNames(inv: Inventory): set<string> { LastWins(inv.entryGroups, Name).Keys }

  datatype View = View(slugs: set<string>, groups: set<string>, roots: set<string>)

  ghost function ViewOf(inv: Inventory): View {
    View(Slugs(inv), GroupNames(inv), Elements(inv.rootDomains))
  }

  /** What a reader who only sees the reports believes after one more of them. */
  ghost function Apply(v: View, c: Changes): View {
    View(v.slugs - Elements(c.hostsRemoved) + Elements(c.hostsAdded),
         v.groups - Elements(c.groupsRemoved) + Elements(c.groupsAdded),
         v.roots - Elements(c.rootsRemoved) + Elements(c.rootsAdded))
  }

  ghost function Replay(v: View, reports: seq<Changes>): View
    decreases |reports|
  {
    if reports == [] then v else Replay(Apply(v, reports[0]), reports[1..])
  }

  lemma ApplyReport(c: Changes, a: Inventory, b: Inventory)
    requires Describes(c, a, b)
    ensures Apply(ViewOf(a), c) == ViewOf(b)
  {
    EmptyBag(c.rootsAdded, Without(b.rootDomains, a.rootDomains));
    EmptyBag(c.rootsRemoved, Without(a.rootDomains, b.rootDomains));
    WithoutElements(b.rootDomains, a.rootDomains);
    WithoutElements(a.rootDomains, b.rootDomains);
  }

  /** Replaying every report of a run of polls turns the first directory's name sets into the last's. */
  lemma {:induction false} ReplayReachesLast(polls: seq<Inventory>, reports: seq<Changes>)
    requires |polls| == |reports| + 1
    requires forall i :: 0 <= i < |reports| ==> Describes(reports[i], polls[i], polls[i + 1])
    ensures Replay(ViewOf(polls[0]), reports) == ViewOf(polls[|reports|])
  {
    if reports != [] {
      ApplyReport(reports[0], polls[0], polls[1]);
      ReplayReachesLast(polls[1..], reports[1..]);
    }
  }

  // ---------- The report, name by name ----------

  /** The last host carrying the slug, which is the one that counts. */
  predicate LastHost(hosts: seq<Host>, slug: string, i: nat) {
    i < |hosts| && hosts[i].slug == slug && forall j :: i < j < |hosts| ==> hosts[j].slug != slug
  }

  predicate LastGroup(groups: seq<EntryGroup>, name: string, i: nat) {
    i < |groups| && groups[i].name == name && forall j :: i < j < |groups| ==> groups[j].name != name
  }

  lemma HostLookup(hosts: seq<Host>, slug: string) returns (i: nat)
    ensures slug in LastWins(hosts, Slug) <==> LastHost(hosts, slug, i)
    ensures slug in LastWins(hosts, Slug) ==> LastWins(hosts, Slug)[slug] == hosts[i]
    ensures slug !in LastWins(hosts, Slug) ==> forall h :: h in hosts ==> h.slug != slug
  {
    i := LastWinsMeaning(hosts, Slug, slug);
    if slug in LastWins(hosts, Slug) {
      assert forall j :: i < j < |hosts| ==> Slug(hosts[j]) == hosts[j].slug;
    } else {
      forall j | 0 <= j < |hosts| ensures hosts[j].slug != slug { assert Slug(hosts[j]) != slug; }
    }
  }

  lemma GroupLookup(groups: seq<EntryGroup>, name: string) returns (i: nat)
    ensures name in LastWins(groups, Name) <==> LastGroup(groups, name, i)
    ensures name in LastWins(groups, Name) ==> LastWins(groups, Name)[name] == groups[i]
    ensures name !in LastWins(groups, Name) ==> forall g :: g in groups ==> g.name != name
  {
    i := LastWinsMeaning(groups, Name, name);
    if name in LastWins(groups, Name) {
      assert forall j :: i < j < |groups| ==> Name(groups[j]) == groups[j].name;
    } else {
      forall j | 0 <= j < |groups| ensures groups[j].name != name { assert Name(groups[j]) != name; }
    }
  }

  /** What the report says of one slug. `i` and `j` are where it stands last, if it stands anywhere. */
  lemma HostReported(c: Changes, prev: Inventory, next: Inventory, slug: string) returns (i: nat, j: nat)
    requires Describes(c, prev, next)
    ensures
      var before := LastHost(prev.hosts, slug, i);
      var after := LastHost(next.hosts, slug, j);
      && (!before ==> forall h :: h in prev.hosts ==> h.slug != slug)
      && (!after ==> forall h :: h in next.hosts ==> h.slug != slug)
      && (slug in c.hostsAdded <==> after && !before) && (slug in c.hostsRemoved <==> before && !after)
      && (slug in c.wentOnline <==> before && after && !prev.hosts[i].online && next.hosts[j].online)
      && (slug in c.wentOffline <==> before && after && prev.hosts[i].online && !next.hosts[j].online)
      && (slug in c.keysRotated <==> before && after && prev.hosts[i].key != next.hosts[j].key)
  {
    i := HostLookup(prev.hosts, slug);
    j := HostLookup(next.hosts, slug);
    InElements(c.hostsAdded, slug);
    InElements(c.hostsRemoved, slug);
    InElements(c.wentOnline, slug);
    InElements(c.wentOffline, slug);
    InElements(c.keysRotated, slug);
  }

  lemma InElements(s: seq<string>, x: string)
    ensures x in s <==> x in Elements(s)
  {
  }

  lemma GroupReported(c: Changes, prev: Inventory, next: Inventory, name: string) returns (i: nat, j: nat)
    requires Describes(c, prev, next)
    ensures
      var before := LastGroup(prev.entryGroups, name, i);
      var after := LastGroup(next.entryGroups, name, j);
      && (!before ==> forall g :: g in prev.entryGroups ==> g.name != name)
      && (!after ==> forall g :: g in next.entryGroups ==> g.name != name)
      && (name in c.groupsAdded <==> after && !before) && (name in c.groupsRemoved <==> before && !after)
      && (name in c.poolsChanged <==>
            before && after && multiset(prev.entryGroups[i].ipv4) != multiset(next.entryGroups[j].ipv4))
  {
    i := GroupLookup(prev.entryGroups, name);
    j := GroupLookup(next.entryGroups, name);
    InElements(c.groupsAdded, name);
    InElements(c.groupsRemoved, name);
    InElements(c.poolsChanged, name);
  }

  /** A root domain is reported as often as the pool that has it lists it, if the other pool lacks it. */
  lemma RootReported(c: Changes, prev: Inventory, next: Inventory, root: string)
    requires Describes(c, prev, next)
    ensures multiset(c.rootsAdded)[root] == if root in prev.rootDomains then 0 else multiset(next.rootDomains)[root]
    ensures multiset(c.rootsRemoved)[root] == if root in next.rootDomains then 0 else multiset(prev.rootDomains)[root]
  {
    WithoutCount(next.rootDomains, prev.rootDomains, root);
    WithoutCount(prev.rootDomains, next.rootDomains, root);
  }

  lemma {:induction false} WithoutCount(have: seq<string>, from: seq<string>, x: string)
    ensures multiset(Without(have, from))[x] == if x in from then 0 else multiset(have)[x]
  {
    if have != [] {
      var last := |have| - 1;
      WithoutCount(have[..last], from, x);
      assert have == have[..last] + [have[last]];
    }
  }
}
