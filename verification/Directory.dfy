/** internal/control/directory.go: decoded control-plane payloads and their translation. */
module Directories {
  import opened Wrappers
  import opened Inventories

  datatype EntryNode = EntryNode(name: string, ipv4: seq<string>, frontProxy: Option<FrontProxy>)

  datatype RuntimeHost = RuntimeHost(name: string, slug: string, online: bool, key: string)

  datatype Runtime = Runtime(
    clientID: string, entryNodes: seq<EntryNode>, hosts: seq<RuntimeHost>, rootDomains: seq<string>)

  /** Both envelopes: access nests the runtime under "bootstrap", sync has it at the top level. */
  datatype Envelope = Envelope(runtime: Option<Runtime>, bootstrap: Option<Option<Runtime>>)

  datatype AccessBlock = AccessBlock(state: string, ticket: string, retryAfter: int)

  /**
   A decrypted answer as its independent JSON readers see it. `envelope` and `access` are None
   when that reader cannot decode the text; `minimumVersion` is then "".
   */
  datatype Payload = Payload(
    envelope: Option<Envelope>, minimumVersion: string, access: Option<AccessBlock>, verificationURL: string)

  /** directory.runtime. */
  function CurrentRuntime(d: Envelope): Option<Runtime> {
    if d.bootstrap.Some? && d.bootstrap.value.Some? then d.bootstrap.value else d.runtime
  }

  function HostOf(h: RuntimeHost): Host {
    Host(h.slug, h.name, h.key, h.online)
  }

  function GroupOf(e: EntryNode): EntryGroup {
    EntryGroup(e.name, e.ipv4, e.frontProxy)
  }

  function Map<T, U>(f: T -> U, s: seq<T>): (r: seq<U>)
    ensures |r| == |s| && forall i :: 0 <= i < |s| ==> r[i] == f(s[i])
  {
    seq(|s|, i requires 0 <= i < |s| => f(s[i]))
  }

  function Translated(rt: Runtime): Inventory {
    Inventory(rt.clientID, rt.rootDomains, Map(HostOf, rt.hosts), Map(GroupOf, rt.entryNodes))
  }

  /** The unvalidated directory a payload carries, if any. */
  function Parsed(payload: Payload): Option<Inventory> {
    if payload.envelope.None? then None
    else
      match CurrentRuntime(payload.envelope.value)
      case None => None
      case Some(rt) => Some(Translated(rt))
  }

  /** The directory a payload carries when it is complete and valid on its own. */
  function FullDirectory(payload: Payload): Option<Inventory> {
    var inv := Parsed(payload);
    if inv.Some? && Valid(inv.value) then inv else None
  }

  /** The runtime section in force: the nested one when there is one, else the top-level one. */
  ghost predicate InForce(payload: Payload, rt: Runtime) {
    payload.envelope.Some? &&
    var d := payload.envelope.value;
    if d.bootstrap.Some? && d.bootstrap.value.Some? then d.bootstrap.value.value == rt else d.runtime == Some(rt)
  }

  /** Every field of the directory comes from its namesake in the runtime section, in order. */
  lemma DirectoryFieldwise(payload: Payload)
    ensures Parsed(payload).Some? <==> exists rt :: InForce(payload, rt)
    ensures forall rt :: InForce(payload, rt) ==>
              var inv := Parsed(payload).value;
              && inv.clientID == rt.clientID && inv.rootDomains == rt.rootDomains
              && |inv.hosts| == |rt.hosts| && |inv.entryGroups| == |rt.entryNodes|
              && (forall i :: 0 <= i < |rt.hosts| ==>
                    && inv.hosts[i].slug == rt.hosts[i].slug && inv.hosts[i].name == rt.hosts[i].name
                    && inv.hosts[i].key == rt.hosts[i].key && inv.hosts[i].online == rt.hosts[i].online)
              && (forall i :: 0 <= i < |rt.entryNodes| ==>
                    && inv.entryGroups[i].name == rt.entryNodes[i].name
                    && inv.entryGroups[i].ipv4 == rt.entryNodes[i].ipv4
                    && inv.entryGroups[i].frontProxy == rt.entryNodes[i].frontProxy)
  {
    if Parsed(payload).Some? {
      assert InForce(payload, CurrentRuntime(payload.envelope.value).value);
    }
  }

  method ParseDirectory(payload: Payload) returns (inv: Option<Draft>)
    ensures inv.Some? <==> Parsed(payload).Some?
    ensures inv.Some? ==> fresh(inv.value) && inv.value.Contents() == Parsed(payload).value
  {
    if payload.envelope.None? {
      return None;
    }
    var rt := CurrentRuntime(payload.envelope.value);
    if rt.None? {
      return None;
    }
    var draft := new Draft(rt.value.clientID, rt.value.rootDomains);
    var hosts := rt.value.hosts;
    for i := 0 to |hosts|
      invariant draft.Contents() == Inventory(rt.value.clientID, rt.value.rootDomains, Map(HostOf, hosts[..i]), [])
    {
      assert Map(HostOf, hosts[..i + 1]) == Map(HostOf, hosts[..i]) + [HostOf(hosts[i])];
      draft.hosts := draft.hosts + [Host(hosts[i].slug, hosts[i].name, hosts[i].key, hosts[i].online)];
    }
    assert hosts[..|hosts|] == hosts;
    var nodes := rt.value.entryNodes;
    for i := 0 to |nodes|
      invariant draft.Contents() == Inventory(
        rt.value.clientID, rt.value.rootDomains, Map(HostOf, hosts), Map(GroupOf, nodes[..i]))
    {
      assert Map(GroupOf, nodes[..i + 1]) == Map(GroupOf, nodes[..i]) + [GroupOf(nodes[i])];
      var group := EntryGroup(nodes[i].name, nodes[i].ipv4, None);
      if nodes[i].frontProxy.Some? {
        group := group.(frontProxy := nodes[i].frontProxy);
      }
      draft.entryGroups := draft.entryGroups + [group];
    }
    assert nodes[..|nodes|] == nodes;
    inv := Some(draft);
  }

  method ParseInventory(payload: Payload) returns (inv: Option<Inventory>)
    ensures inv == FullDirectory(payload)
  {
    var draft := ParseDirectory(payload);
    if draft.None? || !Valid(draft.value.Contents()) {
      return None;
    }
    inv := Some(draft.value.Contents());
  }
}
