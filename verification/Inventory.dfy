/** internal/inventory/inventory.go: the node inventory, its validation, merging and selection. */
module Inventories {
  import opened Wrappers
  import opened Base64
  import Text

  datatype FrontProxy = FrontProxy(endpoint: string, headers: map<string, string>)

  datatype EntryGroup = EntryGroup(name: string, ipv4: seq<string>, frontProxy: Option<FrontProxy>)

  datatype Host = Host(slug: string, name: string, key: string, online: bool)

  datatype Inventory = Inventory(
    clientID: string, rootDomains: seq<string>, hosts: seq<Host>, entryGroups: seq<EntryGroup>)

  const TRIAL_ORDER := [RAW_URL, URL, RAW_STD, STD]

  // ---------- Key normalisation ----------

  /** The trial loop of NormalizedKey, over any order of decoders. */
  function NormalizedKeyVia(order: seq<Encoding>, key: string): Option<string> {
    if order == [] then None
    else if Decodes32(order[0], key) then Some(Encode(RAW_URL, Decode(order[0], key).value))
    else NormalizedKeyVia(order[1..], key)
  }

  function NormalizedKey(key: string): Option<string> {
    NormalizedKeyVia(TRIAL_ORDER, key)
  }

  lemma {:induction false} NormalizedByAny(order: seq<Encoding>, key: string, e: Encoding)
    requires e in order && Decodes32(e, key)
    ensures NormalizedKeyVia(order, key) == Some(Encode(RAW_URL, Decode(e, key).value))
  {
    if Decodes32(order[0], key) {
      DecodersAgree(e, order[0], key);
    } else {
      NormalizedByAny(order[1..], key, e);
    }
  }

  lemma {:induction false} NormalizedByNone(order: seq<Encoding>, key: string)
    requires forall e :: e in order ==> !Decodes32(e, key)
    ensures NormalizedKeyVia(order, key) == None
  {
    if order != [] {
      NormalizedByNone(order[1..], key);
    }
  }

  /** The order in which the decoders are tried never changes the answer. */
  lemma TrialOrderIrrelevant(order: seq<Encoding>, other: seq<Encoding>, key: string)
    requires Text.Elements(order) == Text.Elements(other)
    ensures NormalizedKeyVia(order, key) == NormalizedKeyVia(other, key)
  {
    if e :| e in Text.Elements(order) && Decodes32(e, key) {
      NormalizedByAny(order, key, e);
      NormalizedByAny(other, key, e);
    } else {
      forall e | e in order ensures !Decodes32(e, key) { assert e in Text.Elements(order); }
      forall e | e in other ensures !Decodes32(e, key) { assert e in Text.Elements(other); }
      NormalizedByNone(order, key);
      NormalizedByNone(other, key);
    }
  }

  lemma EveryEncodingTried(e: Encoding)
    ensures e in TRIAL_ORDER
  {
    assert TRIAL_ORDER[0] == RAW_URL && TRIAL_ORDER[1] == URL;
    assert TRIAL_ORDER[2] == RAW_STD && TRIAL_ORDER[3] == STD;
  }

  /** Any of the four encodings of 32 bytes, line breaks included, normalises to raw URL base64. */
  lemma NormalizesEveryVariant(e: Encoding, b: seq<Byte>, key: string)
    requires |b| == BYTES_32 && StripNewlines(key) == Encode(e, b)
    ensures NormalizedKey(key) == Some(Encode(RAW_URL, b))
  {
    RoundTrip(e, b, key);
    EveryEncodingTried(e);
    NormalizedByAny(TRIAL_ORDER, key, e);
  }

  /** A key is accepted exactly when some decoder reads 32 bytes from it. */
  lemma NormalizedIffDecodes(key: string) returns (e: Encoding)
    ensures NormalizedKey(key).Some? ==> Decodes32(e, key)
    ensures NormalizedKey(key).None? ==> forall f :: !Decodes32(f, key)
    ensures NormalizedKey(key).Some? ==> NormalizedKey(key) == Some(Encode(RAW_URL, Decode(e, key).value))
  {
    e := RAW_URL;
    if f :| Decodes32(f, key) {
      e := f;
      EveryEncodingTried(f);
      NormalizedByAny(TRIAL_ORDER, key, f);
    } else {
      NormalizedByNone(TRIAL_ORDER, key);
    }
  }

  /** The normal form has 43 characters and is its own normal form. */
  lemma NormalizedKeyIdempotent(key: string)
    requires NormalizedKey(key).Some?
    ensures |NormalizedKey(key).value| == 43
    ensures NormalizedKey(NormalizedKey(key).value) == NormalizedKey(key)
  {
    var e := NormalizedIffDecodes(key);
    var b := Decode(e, key).value;
    EncodedLength(RAW_URL, b);
    NoLineBreaks(RAW_URL, b);
    StripKeeps(Encode(RAW_URL, b));
    NormalizesEveryVariant(RAW_URL, b, Encode(RAW_URL, b));
  }

  /** Two accepted keys share a normal form exactly when they carry the same bytes. */
  lemma SameNormalForm(e: Encoding, f: Encoding, key: string, other: string)
    ensures Decodes32(e, key) && Decodes32(f, other) ==>
              (NormalizedKey(key) == NormalizedKey(other) <==> Decode(e, key) == Decode(f, other))
  {
    if Decodes32(e, key) && Decodes32(f, other) {
      EveryEncodingTried(e);
      EveryEncodingTried(f);
      NormalizedByAny(TRIAL_ORDER, key, e);
      NormalizedByAny(TRIAL_ORDER, other, f);
      DecodeEncode(RAW_URL, Decode(e, key).value);
      DecodeEncode(RAW_URL, Decode(f, other).value);
    }
  }

  // ---------- Validation and merging ----------

  predicate HostsUsable(hosts: seq<Host>) {
    forall h :: h in hosts ==> h.slug != "" && NormalizedKey(h.key).Some?
  }

  predicate GroupsUsable(groups: seq<EntryGroup>) {
    forall g :: g in groups ==> g.ipv4 != []
  }

  /** Validate returns nil. */
  predicate Valid(inv: Inventory) {
    && inv.clientID != "" && inv.rootDomains != [] && inv.hosts != [] && inv.entryGroups != []
    && HostsUsable(inv.hosts)
    && GroupsUsable(inv.entryGroups)
  }

  /** What a valid inventory offers, told through its parts, and that nothing less is valid. */
  lemma ValidExactly(inv: Inventory)
    ensures Valid(inv) <==>
            && |inv.clientID| > 0 && |inv.rootDomains| > 0 && |inv.hosts| > 0 && |inv.entryGroups| > 0
            && (forall i :: 0 <= i < |inv.hosts| ==>
                  |inv.hosts[i].slug| > 0 && exists e :: Decodes32(e, inv.hosts[i].key))
            && (forall i :: 0 <= i < |inv.entryGroups| ==> |inv.entryGroups[i].ipv4| > 0)
  {
    forall i | 0 <= i < |inv.hosts|
      ensures NormalizedKey(inv.hosts[i].key).Some? <==> exists e :: Decodes32(e, inv.hosts[i].key)
    {
      var _ := NormalizedIffDecodes(inv.hosts[i].key);
    }
    if Valid(inv) {
      forall i | 0 <= i < |inv.hosts| ensures inv.hosts[i] in inv.hosts {}
      forall i | 0 <= i < |inv.entryGroups| ensures |inv.entryGroups[i].ipv4| > 0 {
        assert inv.entryGroups[i] in inv.entryGroups;
      }
    }
  }

  function Fallback<T(==)>(value: seq<T>, previous: seq<T>): seq<T> {
    if value == [] then previous else value
  }

  /** The inventory FillMissingFrom leaves behind; None stands for a nil previous inventory. */
  function Merge(inv: Inventory, prev: Option<Inventory>): Inventory {
    match prev
    case None => inv
    case Some(p) => Inventory(
      Fallback(inv.clientID, p.clientID), Fallback(inv.rootDomains, p.rootDomains),
      Fallback(inv.hosts, p.hosts), Fallback(inv.entryGroups, p.entryGroups))
  }

  const NOTHING := Inventory("", [], [], [])

  /** Merging is an idempotent monoid action: a left-biased choice per field. */
  lemma MergeLaws(a: Inventory, b: Inventory, c: Inventory)
    ensures Merge(Merge(a, Some(b)), Some(c)) == Merge(a, Some(Merge(b, Some(c))))
    ensures Merge(a, Some(a)) == a
    ensures Merge(Merge(a, Some(b)), Some(b)) == Merge(a, Some(b))
    ensures Merge(NOTHING, Some(a)) == a == Merge(a, Some(NOTHING))
    ensures Valid(a) ==> Merge(a, Some(b)) == a
  {
  }

  /** On top of a valid inventory, a partial one is usable exactly when the fields it does carry are. */
  lemma MergeOntoValid(partial: Inventory, prev: Inventory)
    requires Valid(prev)
    ensures Valid(Merge(partial, Some(prev))) <==>
            HostsUsable(partial.hosts) && GroupsUsable(partial.entryGroups)
  {
    if partial.hosts == [] { assert HostsUsable(partial.hosts); }
  }

  /** An inventory while it is being assembled, before anything else can see it. */
  class Draft {
    var clientID: string
    var rootDomains: seq<string>
    var hosts: seq<Host>
    var entryGroups: seq<EntryGroup>

    function Contents(): Inventory
      reads this
    {
      Inventory(clientID, rootDomains, hosts, entryGroups)
    }

    constructor (clientID: string, rootDomains: seq<string>)
      ensures Contents() == Inventory(clientID, rootDomains, [], [])
    {
      this.clientID, this.rootDomains := clientID, rootDomains;
      hosts, entryGroups := [], [];
    }

    method FillMissingFrom(prev: Option<Inventory>)
      modifies this
      ensures Contents() == Merge(old(Contents()), prev)
    {
      if prev.None? {
        return;
      }
      if |rootDomains| == 0 {
        rootDomains := prev.value.rootDomains;
      }
      if clientID == "" {
        clientID := prev.value.clientID;
      }
      if |hosts| == 0 {
        hosts := prev.value.hosts;
      }
      if |entryGroups| == 0 {
        entryGroups := prev.value.entryGroups;
      }
    }
  }

  // ---------- Selection ----------

  predicate HostMatches(h: Host, slug: string) {
    if slug != "" then h.slug == slug else h.online
  }

  function SelectHost(hosts: seq<Host>, slug: string): Option<Host> {
    if hosts == [] then None
    else if HostMatches(hosts[0], slug) then Some(hosts[0])
    else SelectHost(hosts[1..], slug)
  }

  /** SelectHost returns the first match and fails only when there is none. */
  lemma {:induction false} SelectHostFirst(hosts: seq<Host>, slug: string) returns (i: nat)
    ensures SelectHost(hosts, slug).None? ==> forall h :: h in hosts ==> !HostMatches(h, slug)
    ensures SelectHost(hosts, slug).Some? ==>
              && i < |hosts| && SelectHost(hosts, slug) == Some(hosts[i]) && HostMatches(hosts[i], slug)
              && (if slug != "" then hosts[i].slug == slug else hosts[i].online)
              && forall j :: 0 <= j < i ==> !HostMatches(hosts[j], slug)
  {
    i := 0;
    if hosts != [] && !HostMatches(hosts[0], slug) {
      var k := SelectHostFirst(hosts[1..], slug);
      i := k + 1;
      assert forall j :: 0 < j < i && i <= |hosts| ==> hosts[j] == hosts[1..][j - 1];
    }
  }

  /** SelectGroup. `fold` stands for strings.EqualFold; the empty pool is a panic in the source. */
  function SelectGroup(groups: seq<EntryGroup>, name: string, fold: (string, string) -> bool): Option<EntryGroup>
    requires name == "" ==> groups != []
  {
    if name == "" then Some(groups[0])
    else if groups == [] then None
    else if fold(groups[0].name, name) || Text.Contains(groups[0].name, name) then Some(groups[0])
    else SelectGroup(groups[1..], name, fold)
  }

  /** The group's name satisfies the request. */
  predicate GroupMatches(g: EntryGroup, name: string, fold: (string, string) -> bool) {
    name == "" || fold(g.name, name) || exists i | 0 <= i <= |g.name| :: name <= g.name[i..]
  }

  /** SelectGroup returns the first match, the first group at all for an empty name. */
  lemma {:induction false} SelectGroupFirst(groups: seq<EntryGroup>, name: string, fold: (string, string) -> bool)
    returns (i: nat)
    requires name == "" ==> groups != []
    ensures SelectGroup(groups, name, fold).None? ==> forall g :: g in groups ==> !GroupMatches(g, name, fold)
    ensures SelectGroup(groups, name, fold).Some? ==>
              && i < |groups| && SelectGroup(groups, name, fold) == Some(groups[i])
              && GroupMatches(groups[i], name, fold)
              && forall j :: 0 <= j < i ==> !GroupMatches(groups[j], name, fold)
  {
    i := 0;
    if groups != [] && !GroupMatches(groups[0], name, fold) {
      var k := SelectGroupFirst(groups[1..], name, fold);
      i := k + 1;
      assert forall j :: 0 < j < i && i <= |groups| ==> groups[j] == groups[1..][j - 1];
    }
  }

  lemma {:induction false} SelectGroupMember(groups: seq<EntryGroup>, name: string, fold: (string, string) -> bool)
    requires name == "" ==> groups != []
    ensures SelectGroup(groups, name, fold).Some? ==> SelectGroup(groups, name, fold).value in groups
  {
    if name != "" && groups != [] {
      SelectGroupMember(groups[1..], name, fold);
    }
  }

  /**
   SelectRoot. `draw` is the random index; drawing from an empty pool is a panic in the
   source, which validated inventories rule out.
   */
  function SelectRoot(pool: seq<string>, pinned: string, cached: string, draw: nat): Option<string>
    requires pinned == "" ==> draw < |pool|
  {
    if pinned != "" then (if pinned in pool then Some(pinned) else None)
    else if cached != "" && cached in pool then Some(cached)
    else Some(pool[draw])
  }
}
