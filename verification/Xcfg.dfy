/** internal/xcfg/xcfg.go and routing.go: rendering the proxy configuration, up to JSON encoding. */
module Xcfg {
  import opened Wrappers
  import opened Text
  import opened Inventories

  const DEFAULT_MODE := "native"
  const DEFAULT_RTT := "1rtt"
  const DEFAULT_PADDING := "100-35-35"
  const DEFAULT_FLOW := "xtls-rprx-vision"
  const FLOW_UDP443 := "xtls-rprx-vision-udp443"
  const FLOW_NONE := "none"
  const BALANCER_TAG := "entry-pool"
  const DIRECT_TAG := "direct"
  const FRONT_TAG := "front-proxy"
  const ENTRY_PREFIX := "entry-"
  const ROUTE_GLOBAL := "global"
  const ROUTE_SMART := "smart"
  const SECOND: int := 1_000_000_000
  const DIRECT_PREFIXES := [
    "0.0.0.0/8", "10.0.0.0/8", "100.64.0.0/10", "127.0.0.0/8",
    "169.254.0.0/16", "172.16.0.0/12", "192.0.0.0/24", "192.0.2.0/24",
    "192.168.0.0/16", "198.18.0.0/15", "198.51.100.0/24", "203.0.113.0/24",
    "224.0.0.0/4", "240.0.0.0/4",
    "::/128", "::1/128", "fc00::/7", "fe80::/10", "ff00::/8", "2001:db8::/32"]

  /** time.Duration: nanoseconds in 64 bits. */
  type Duration = Int64

  datatype Options = Options(
    listen: string, port: int, clientID: string, logicalHost: string, encryptionKey: string,
    entries: seq<string>, frontProxy: Option<FrontProxy>, udp: bool, routeMode: string, domainStrategy: string,
    mode: string, rtt: string, padding: string, flow: string,
    probeURL: string, probeInterval: Duration, probeTimeout: Duration, logLevel: string)

  // ---------- Defaults and validation ----------

  function Or(value: string, default: string): string {
    if value == "" then default else value
  }

  function EffectiveFlow(flow: string, udp: bool): string {
    if flow == FLOW_NONE then ""
    else if udp && (flow == "" || flow == DEFAULT_FLOW) then FLOW_UDP443
    else Or(flow, DEFAULT_FLOW)
  }

  function EffectiveTimeout(timeout: Duration): Duration {
    if timeout <= 0 then 15 * SECOND else timeout
  }

  function EffectiveInterval(interval: Duration, timeout: Duration): Duration {
    if interval <= timeout then Wrap64(4 * timeout) else interval
  }

  function WireDefaulted(o: Options): Options {
    o.(mode := Or(o.mode, DEFAULT_MODE), rtt := Or(o.rtt, DEFAULT_RTT), padding := Or(o.padding, DEFAULT_PADDING),
       flow := EffectiveFlow(o.flow, o.udp))
  }

  function HealthDefaulted(o: Options): Options {
    var timeout := EffectiveTimeout(o.probeTimeout);
    o.(probeURL := Or(o.probeURL, "https://connectivitycheck.gstatic.com/generate_204"),
       probeTimeout := timeout, probeInterval := EffectiveInterval(o.probeInterval, timeout))
  }

  /** The options applyDefaults leaves behind, field by field. */
  function Defaulted(o: Options): Options {
    HealthDefaulted(WireDefaulted(o)).(
      logLevel := Or(o.logLevel, "warning"), routeMode := Or(o.routeMode, ROUTE_GLOBAL),
      listen := Or(o.listen, "127.0.0.1"))
  }

  method ApplyWireDefaults(given: Options) returns (o: Options)
    ensures o == WireDefaulted(given)
  {
    o := given;
    if o.mode == "" { o := o.(mode := DEFAULT_MODE); }
    if o.rtt == "" { o := o.(rtt := DEFAULT_RTT); }
    if o.padding == "" { o := o.(padding := DEFAULT_PADDING); }
    if o.flow == "" {
      o := o.(flow := DEFAULT_FLOW);
    } else if o.flow == FLOW_NONE {
      o := o.(flow := "");
    }
    if o.udp && o.flow == DEFAULT_FLOW { o := o.(flow := FLOW_UDP443); }
  }

  method ApplyHealthDefaults(given: Options) returns (o: Options)
    ensures o == HealthDefaulted(given)
  {
    o := given;
    if o.probeURL == "" { o := o.(probeURL := "https://connectivitycheck.gstatic.com/generate_204"); }
    if o.probeTimeout <= 0 { o := o.(probeTimeout := 15 * SECOND); }
    if o.probeInterval <= o.probeTimeout { o := o.(probeInterval := Wrap64(4 * o.probeTimeout)); }
  }

  method ApplyDefaults(given: Options) returns (o: Options)
    ensures o == Defaulted(given)
  {
    o := ApplyWireDefaults(given);
    o := ApplyHealthDefaults(o);
    if o.logLevel == "" { o := o.(logLevel := "warning"); }
    if o.routeMode == "" { o := o.(routeMode := ROUTE_GLOBAL); }
    if o.listen == "" { o := o.(listen := "127.0.0.1"); }
  }

  /** Applying the defaults twice is harmless exactly when no flow was switched off. */
  lemma DefaultsIdempotentIff(o: Options)
    ensures Defaulted(Defaulted(o)) == Defaulted(o) <==> o.flow != FLOW_NONE
  {
  }

  /** validate returns nil. */
  predicate Acceptable(o: Options) {
    && o.clientID != "" && o.encryptionKey != "" && o.logicalHost != ""
    && o.entries != [] && 0 < o.port <= 65535
  }

  // ---------- The rendered configuration ----------

  datatype Outbound =
    | EntryOutbound(tag: string, address: string, id: string, serverName: string, encryption: string,
                    flow: Option<string>, dialerProxy: Option<string>)
    | FrontOutbound(tag: string, host: string, port: int, headers: map<string, string>)
    | DirectOutbound(tag: string)

  datatype Target = ToOutbound(tag: string) | ToBalancer(tag: string)

  datatype Rule = Rule(ip: seq<string>, domain: seq<string>, network: string, target: Target)

  datatype Balancer = Balancer(tag: string, selector: string, fallbackTag: string)

  datatype Config = Config(
    logLevel: string, listen: string, port: int, udp: bool, outbounds: seq<Outbound>,
    rules: seq<Rule>, balancer: Balancer, domainStrategy: Option<string>,
    subjectSelector: string, probeURL: string, interval: string, timeout: string)

  function EntryTag(i: nat): string { ENTRY_PREFIX + Itoa(i) }

  function EncryptionString(o: Options): string {
    "mlkem768x25519plus." + o.mode + "." + o.rtt + "." + o.padding + "." + o.encryptionKey
  }

  function Entry(o: Options, tag: string, ip: string): Outbound {
    EntryOutbound(tag, ip, o.clientID, o.logicalHost, EncryptionString(o),
                  if o.flow != "" then Some(o.flow) else None,
                  if o.frontProxy.Some? then Some(FRONT_TAG) else None)
  }

  function Entries(o: Options, ips: seq<string>): seq<Outbound> {
    seq(|ips|, i requires 0 <= i < |ips| => Entry(o, EntryTag(i), ips[i]))
  }

  /** splitEndpoint's answer for an endpoint; None is its error. */
  type Splitter = string -> Option<(string, int)>

  function Front(o: Options, split: Splitter): seq<Outbound>
    requires o.frontProxy.Some? ==> split(o.frontProxy.value.endpoint).Some?
  {
    if o.frontProxy.None? then []
    else
      var (host, port) := split(o.frontProxy.value.endpoint).value;
      [FrontOutbound(FRONT_TAG, host, port, o.frontProxy.value.headers)]
  }

  /** d.Seconds() truncated toward zero, printed with its unit. */
  function WholeSeconds(d: Duration): int {
    if d < 0 then 0 - (0 - d) / SECOND else d / SECOND
  }

  function DurationString(d: Duration): string { Itoa(WholeSeconds(d)) + "s" }

  function RoutingRules(o: Options): seq<Rule> {
    [Rule(DIRECT_PREFIXES, [], "", ToOutbound(DIRECT_TAG))]
    + (if o.routeMode == ROUTE_SMART then
         [Rule([], ["geosite:cn"], "", ToOutbound(DIRECT_TAG)), Rule(["geoip:cn"], [], "", ToOutbound(DIRECT_TAG))]
       else [])
    + [Rule([], [], "tcp,udp", ToBalancer(BALANCER_TAG))]
  }

  predicate Renderable(o: Options, split: Splitter) {
    Acceptable(o) && (o.frontProxy.Some? ==> split(o.frontProxy.value.endpoint).Some?)
  }

  /** The configuration for options that already carry their defaults. */
  function Rendered(o: Options, split: Splitter): Config
    requires Renderable(o, split)
  {
    Config(o.logLevel, o.listen, o.port, o.udp,
           Entries(o, o.entries) + Front(o, split) + [DirectOutbound(DIRECT_TAG)],
           RoutingRules(o), Balancer(BALANCER_TAG, ENTRY_PREFIX, EntryTag(0)),
           if o.domainStrategy != "" then Some(o.domainStrategy) else None,
           ENTRY_PREFIX, o.probeURL, DurationString(o.probeInterval), DurationString(o.probeTimeout))
  }

  /** Build: None when validation or the front proxy's endpoint fails. */
  function Built(o: Options, split: Splitter): Option<Config> {
    var d := Defaulted(o);
    if Renderable(d, split) then Some(Rendered(d, split)) else None
  }

  method Build(given: Options, split: Splitter) returns (config: Option<Config>)
    ensures config == Built(given, split)
  {
    var o := ApplyDefaults(given);
    if !Acceptable(o) {
      return None;
    }
    var outbounds: seq<Outbound> := [];
    var tags: seq<string> := [];
    for i := 0 to |o.entries|
      invariant |tags| == i && forall j :: 0 <= j < i ==> tags[j] == EntryTag(j)
      invariant outbounds == Entries(o, o.entries[..i])
    {
      var tag := EntryTag(i);
      tags := tags + [tag];
      outbounds := outbounds + [Entry(o, tag, o.entries[i])];
    }
    assert o.entries[..|o.entries|] == o.entries;
    if o.frontProxy.Some? {
      var endpoint := split(o.frontProxy.value.endpoint);
      if endpoint.None? {
        return None;
      }
      var (host, port) := endpoint.value;
      outbounds := outbounds + [FrontOutbound(FRONT_TAG, host, port, o.frontProxy.value.headers)];
    }
    outbounds := outbounds + [DirectOutbound(DIRECT_TAG)];
    var rules := [Rule(DIRECT_PREFIXES, [], "", ToOutbound(DIRECT_TAG))];
    if o.routeMode == ROUTE_SMART {
      rules := rules + [Rule([], ["geosite:cn"], "", ToOutbound(DIRECT_TAG)),
                        Rule(["geoip:cn"], [], "", ToOutbound(DIRECT_TAG))];
    }
    rules := rules + [Rule([], [], "tcp,udp", ToBalancer(BALANCER_TAG))];
    assert rules == RoutingRules(o);
    assert outbounds == Entries(o, o.entries) + Front(o, split) + [DirectOutbound(DIRECT_TAG)];
    config := Some(Config(o.logLevel, o.listen, o.port, o.udp, outbounds, rules,
                          Balancer(BALANCER_TAG, ENTRY_PREFIX, tags[0]),
                          if o.domainStrategy != "" then Some(o.domainStrategy) else None,
                          ENTRY_PREFIX, o.probeURL, DurationString(o.probeInterval), DurationString(o.probeTimeout)));
  }

  // ---------- What the options become ----------

  /** Build fails for exactly these options, told before any default is filled in. */
  lemma BuildSucceedsIff(o: Options, split: Splitter)
    ensures Built(o, split).Some? <==>
            && |o.clientID| > 0 && |o.encryptionKey| > 0 && |o.logicalHost| > 0 && |o.entries| > 0
            && 1 <= o.port <= 65535
            && (o.frontProxy.Some? ==> split(o.frontProxy.value.endpoint).Some?)
  {
  }

  /** The flow an entry is given: none if switched off, and the udp443 form of the default with UDP. */
  predicate FlowFollows(flow: Option<string>, o: Options) {
    if o.flow == "none" then flow.None?
    else if o.flow == "" || o.flow == "xtls-rprx-vision" then
      flow == Some(if o.udp then "xtls-rprx-vision-udp443" else "xtls-rprx-vision")
    else flow == Some(o.flow)
  }

  /** The text of a duration cut to whole seconds toward zero. */
  ghost predicate PrintsSeconds(text: string, d: Duration) {
    exists k: int :: text == Itoa(k) + "s" &&
      if d >= 0 then k * SECOND <= d < (k + 1) * SECOND else (k - 1) * SECOND < d <= k * SECOND
  }

  /** A caller's zero or negative timeout and too short interval are replaced. */
  predicate DurationsFollow(o: Options, timeout: Duration, interval: Duration) {
    && timeout == (if o.probeTimeout > 0 then o.probeTimeout else 15_000_000_000)
    && if o.probeInterval > timeout then interval == o.probeInterval
       else (interval - 4 * timeout) % 0x1_0000_0000_0000_0000 == 0
  }

  /** The health check's durations and page. */
  ghost predicate HealthFollows(c: Config, o: Options, timeout: Duration, interval: Duration) {
    && DurationsFollow(o, timeout, interval)
    && PrintsSeconds(c.timeout, timeout) && PrintsSeconds(c.interval, interval)
    && c.probeURL == (if o.probeURL != "" then o.probeURL else "https://connectivitycheck.gstatic.com/generate_204")
  }

  lemma PrintedSeconds(d: Duration)
    ensures PrintsSeconds(DurationString(d), d)
  {
    var k := WholeSeconds(d);
    assert DurationString(d) == Itoa(k) + "s";
  }

  lemma DefaultDurations(o: Options)
    ensures DurationsFollow(o, Defaulted(o).probeTimeout, Defaulted(o).probeInterval)
  {
    WrapInRange(4 * Defaulted(o).probeTimeout);
  }

  /** The health check of a built configuration, from the options as given. */
  lemma HealthFollowsOptions(o: Options, split: Splitter) returns (timeout: Duration, interval: Duration)
    requires Built(o, split).Some?
    ensures HealthFollows(Built(o, split).value, o, timeout, interval)
  {
    timeout, interval := Defaulted(o).probeTimeout, Defaulted(o).probeInterval;
    DefaultDurations(o);
    PrintedSeconds(timeout);
    PrintedSeconds(interval);
  }

  /** The inbound and the log, from the options as given. */
  lemma InboundFollowsOptions(o: Options, split: Splitter)
    requires Built(o, split).Some?
    ensures
      var c := Built(o, split).value;
      && c.listen == (if o.listen != "" then o.listen else "127.0.0.1")
      && c.port == o.port && c.udp == o.udp
      && c.logLevel == (if o.logLevel != "" then o.logLevel else "warning")
      && (if o.domainStrategy != "" then c.domainStrategy == Some(o.domainStrategy) else c.domainStrategy.None?)
  {
  }

  /** An entry as the options prescribe it. */
  predicate EntryFollows(x: Outbound, o: Options, i: nat)
    requires i < |o.entries|
  {
    && x.EntryOutbound? && x.tag == "entry-" + Itoa(i) && x.address == o.entries[i]
    && x.id == o.clientID && x.serverName == o.logicalHost
    && x.encryption == "mlkem768x25519plus."
                       + (if o.mode != "" then o.mode else "native") + "."
                       + (if o.rtt != "" then o.rtt else "1rtt") + "."
                       + (if o.padding != "" then o.padding else "100-35-35") + "." + o.encryptionKey
    && FlowFollows(x.flow, o)
    && (if o.frontProxy.Some? then x.dialerProxy == Some("front-proxy") else x.dialerProxy.None?)
  }

  lemma EntryFollowsAt(o: Options, i: nat)
    requires i < |o.entries|
    ensures EntryFollows(Entry(Defaulted(o), EntryTag(i), o.entries[i]), o, i)
  {
  }

  /** The outbounds, from the options as given: the entries, the front proxy if there is one, direct. */
  lemma OutboundsFollowOptions(o: Options, split: Splitter)
    requires Built(o, split).Some?
    ensures
      var out, n := Built(o, split).value.outbounds, |o.entries|;
      && |out| == n + (if o.frontProxy.Some? then 2 else 1)
      && (forall i :: 0 <= i < n ==> EntryFollows(out[i], o, i))
      && (o.frontProxy.Some? ==>
            && out[n].FrontOutbound? && out[n].tag == "front-proxy"
            && out[n].host == split(o.frontProxy.value.endpoint).value.0
            && out[n].port == split(o.frontProxy.value.endpoint).value.1
            && out[n].headers == o.frontProxy.value.headers)
      && out[|out| - 1] == DirectOutbound("direct")
  {
    var d := Defaulted(o);
    if o.frontProxy.Some? {
      assert Front(d, split)[0] == Built(o, split).value.outbounds[|o.entries|];
    }
    forall i | 0 <= i < |o.entries| ensures EntryFollows(Built(o, split).value.outbounds[i], o, i) {
      EntryFollowsAt(o, i);
    }
  }

  // ---------- Where traffic goes ----------

  /** A rule without lists takes everything; otherwise one of its lists has to name the destination. */
  predicate Takes(r: Rule, named: string -> bool) {
    (r.ip == [] && r.domain == []) || (exists x :: x in r.ip && named(x)) || (exists x :: x in r.domain && named(x))
  }

  /** The first rule that takes the destination decides. */
  function Routed(rules: seq<Rule>, named: string -> bool): Option<Target> {
    if rules == [] then None
    else if Takes(rules[0], named) then Some(rules[0].target)
    else Routed(rules[1..], named)
  }

  lemma RoutedNext(r: Rule, rest: seq<Rule>, named: string -> bool)
    ensures Routed([r] + rest, named) == if Takes(r, named) then Some(r.target) else Routed(rest, named)
  {
    assert ([r] + rest)[1..] == rest;
  }

  lemma ListTakes(list: seq<string>, target: Target, named: string -> bool)
    requires list != []
    ensures Takes(Rule(list, [], "", target), named) <==> exists x :: x in list && named(x)
    ensures Takes(Rule([], list, "", target), named) <==> exists x :: x in list && named(x)
  {
  }

  /** Two single-name lists tried before a rule that takes everything. */
  lemma SmartRouted(site: string, ip: string, direct: Target, rest: Rule, named: string -> bool)
    requires rest.ip == [] && rest.domain == []
    ensures Routed([rest], named) == Some(rest.target)
    ensures Routed([Rule([], [site], "", direct), Rule([ip], [], "", direct)] + [rest], named) ==
            Some(if named(site) || named(ip) then direct else rest.target)
  {
    var first, second := Rule([], [site], "", direct), Rule([ip], [], "", direct);
    ListTakes([site], direct, named);
    ListTakes([ip], direct, named);
    RoutedNext(rest, [], named);
    RoutedNext(second, [rest], named);
    RoutedNext(first, [second] + [rest], named);
    assert [site][0] in [site] && [ip][0] in [ip];
    assert [rest] == [rest] + [];
    assert [first, second] + [rest] == [first] + ([second] + [rest]);
  }

  /** Where the rules of options with their defaults send a destination. */
  lemma RulesRoute(d: Options, named: string -> bool)
    ensures
      var private := exists p :: p in DIRECT_PREFIXES && named(p);
      var listed := d.routeMode == "smart" && (named("geosite:cn") || named("geoip:cn"));
      Routed(RoutingRules(d), named) ==
      Some(if private || listed then ToOutbound("direct") else ToBalancer("entry-pool"))
  {
    var direct, rest := ToOutbound("direct"), Rule([], [], "tcp,udp", ToBalancer("entry-pool"));
    ListTakes(DIRECT_PREFIXES, direct, named);
    SmartRouted("geosite:cn", "geoip:cn", direct, rest, named);
    var tail := RoutingRules(d)[1..];
    RoutedNext(Rule(DIRECT_PREFIXES, [], "", direct), tail, named);
    assert RoutingRules(d) == [Rule(DIRECT_PREFIXES, [], "", direct)] + tail;
    if d.routeMode == "smart" {
      assert tail == [Rule([], ["geosite:cn"], "", direct), Rule(["geoip:cn"], [], "", direct)] + [rest];
    } else {
      assert tail == [rest];
    }
  }

  /**
   Whatever the lists name: private destinations go out directly; in smart mode so do the listed
   domains and addresses; and everything else, and nothing but that, goes to the balancer over the
   entries.
   */
  lemma TrafficReachesBalancer(o: Options, split: Splitter, named: string -> bool)
    requires Built(o, split).Some?
    ensures
      var c := Built(o, split).value;
      var private := exists p :: p in DIRECT_PREFIXES && named(p);
      var listed := o.routeMode == "smart" && (named("geosite:cn") || named("geoip:cn"));
      Routed(c.rules, named) == Some(if private || listed then ToOutbound("direct") else ToBalancer(c.balancer.tag))
  {
    RulesRoute(Defaulted(o), named);
  }

  /** The rules one by one: only the last has no list, and it alone goes to the balancer, for TCP and UDP. */
  lemma CatchAllIsLast(o: Options, split: Splitter)
    requires Built(o, split).Some?
    ensures
      var rules, balancer := Built(o, split).value.rules, ToBalancer(Built(o, split).value.balancer.tag);
      && |rules| == (if o.routeMode == "smart" then 4 else 2)
      && (forall r :: r in rules ==> (r.ip == [] && r.domain == [] <==> r.target == balancer))
      && rules[|rules| - 1] == Rule([], [], "tcp,udp", balancer)
      && (forall i :: 0 <= i < |rules| - 1 ==> rules[i].network == "" && rules[i].target == ToOutbound("direct"))
  {
    var d := Defaulted(o);
    assert Built(o, split).value.rules == RoutingRules(d);
    assert |DIRECT_PREFIXES| > 0;
  }

  // ---------- Tags ----------

  ghost predicate TagsDistinct(outbounds: seq<Outbound>) {
    forall i, j :: 0 <= i < j < |outbounds| ==> outbounds[i].tag != outbounds[j].tag
  }

  /** The outbounds a prefix selector picks, in order. */
  function Selected(outbounds: seq<Outbound>, prefix: string): seq<Outbound> {
    if outbounds == [] then []
    else
      var last := |outbounds| - 1;
      Selected(outbounds[..last], prefix) + (if prefix <= outbounds[last].tag then [outbounds[last]] else [])
  }

  ghost predicate ResolvesAt(outbounds: seq<Outbound>, tag: string, i: nat) {
    i < |outbounds| && outbounds[i].tag == tag && forall j :: 0 <= j < |outbounds| && outbounds[j].tag == tag ==> j == i
  }

  /** Exactly one outbound carries the tag. */
  ghost predicate Resolves(outbounds: seq<Outbound>, tag: string) {
    exists i :: ResolvesAt(outbounds, tag, i)
  }

  /** Nothing in the configuration names a part that is missing or ambiguous. */
  ghost predicate Closed(c: Config) {
    && TagsDistinct(c.outbounds)
    && (forall r :: r in c.rules ==>
          match r.target
          case ToOutbound(tag) => Resolves(c.outbounds, tag)
          case ToBalancer(tag) =>
            tag == c.balancer.tag && forall i :: 0 <= i < |c.outbounds| ==> c.outbounds[i].tag != tag)
    && Resolves(c.outbounds, c.balancer.fallbackTag) && c.balancer.selector <= c.balancer.fallbackTag
    && (forall i :: 0 <= i < |c.outbounds| && c.outbounds[i].EntryOutbound? && c.outbounds[i].dialerProxy.Some? ==>
          Resolves(c.outbounds, c.outbounds[i].dialerProxy.value))
  }

  lemma EntryTagsDiffer(i: nat, j: nat)
    requires i != j
    ensures EntryTag(i) != EntryTag(j)
  {
    if EntryTag(i) == EntryTag(j) {
      assert Digits(i) == EntryTag(i)[|ENTRY_PREFIX|..] == EntryTag(j)[|ENTRY_PREFIX|..] == Digits(j);
      DigitsInjective(i, j);
    }
  }

  lemma EntryTagShape(i: nat)
    ensures ENTRY_PREFIX <= EntryTag(i) && EntryTag(i) != BALANCER_TAG
    ensures EntryTag(i)[0] == 'e'
  {
    DigitsReadBack(i);
    var d := Digits(i)[0];
    assert d in Digits(i) && EntryTag(i)[6] == d && BALANCER_TAG[6] == 'p';
  }

  lemma TagAt(o: Options, split: Splitter, i: nat)
    requires Renderable(o, split) && i < |Rendered(o, split).outbounds|
    ensures
      var out := Rendered(o, split).outbounds;
      out[i].tag == if i < |o.entries| then EntryTag(i) else if i < |out| - 1 then FRONT_TAG else DIRECT_TAG
    ensures |Rendered(o, split).outbounds| == |o.entries| + (if o.frontProxy.Some? then 2 else 1)
    ensures i < |o.entries| ==> Rendered(o, split).outbounds[i] == Entry(o, EntryTag(i), o.entries[i])
    ensures i >= |o.entries| ==> !Rendered(o, split).outbounds[i].EntryOutbound?
  {
  }

  lemma RenderedTagsDistinct(o: Options, split: Splitter)
    requires Renderable(o, split)
    ensures TagsDistinct(Rendered(o, split).outbounds)
  {
    var out := Rendered(o, split).outbounds;
    forall i, j | 0 <= i < j < |out| ensures out[i].tag != out[j].tag {
      TagAt(o, split, i);
      TagAt(o, split, j);
      EntryTagShape(i);
      if j < |o.entries| { EntryTagsDiffer(i, j); }
    }
  }

  lemma DistinctResolves(out: seq<Outbound>, i: nat)
    requires TagsDistinct(out) && i < |out|
    ensures Resolves(out, out[i].tag)
  {
    assert ResolvesAt(out, out[i].tag, i);
  }

  lemma BalancerTagFree(o: Options, split: Splitter)
    requires Renderable(o, split)
    ensures forall i :: 0 <= i < |Rendered(o, split).outbounds| ==> Rendered(o, split).outbounds[i].tag != BALANCER_TAG
  {
    var out := Rendered(o, split).outbounds;
    forall i | 0 <= i < |out| ensures out[i].tag != BALANCER_TAG {
      TagAt(o, split, i);
      EntryTagShape(i);
    }
  }

  /** The fallback, the direct outbound and, when entries dial through it, the front proxy exist once. */
  lemma NamedTagsResolve(o: Options, split: Splitter)
    requires Renderable(o, split)
    ensures
      var out := Rendered(o, split).outbounds;
      && Resolves(out, EntryTag(0)) && Resolves(out, DIRECT_TAG)
      && (o.frontProxy.Some? ==> Resolves(out, FRONT_TAG))
  {
    var out := Rendered(o, split).outbounds;
    RenderedTagsDistinct(o, split);
    TagAt(o, split, 0);
    TagAt(o, split, |out| - 1);
    DistinctResolves(out, 0);
    DistinctResolves(out, |out| - 1);
    if o.frontProxy.Some? {
      TagAt(o, split, |o.entries|);
      DistinctResolves(out, |o.entries|);
    }
  }

  /** Every rendered configuration is closed. */
  lemma RenderedClosed(o: Options, split: Splitter)
    requires Renderable(o, split)
    ensures Closed(Rendered(o, split))
  {
    var out := Rendered(o, split).outbounds;
    RenderedTagsDistinct(o, split);
    NamedTagsResolve(o, split);
    BalancerTagFree(o, split);
    EntryTagShape(0);
    forall i | 0 <= i < |out| && out[i].EntryOutbound? && out[i].dialerProxy.Some?
      ensures Resolves(out, out[i].dialerProxy.value)
    {
      TagAt(o, split, i);
    }
  }

  lemma {:induction false} SelectedFirst(out: seq<Outbound>, prefix: string, n: nat)
    requires n <= |out| && forall i :: 0 <= i < |out| ==> (prefix <= out[i].tag <==> i < n)
    ensures Selected(out, prefix) == out[..n]
  {
    if out != [] {
      var last := |out| - 1;
      SelectedFirst(out[..last], prefix, if n <= last then n else last);
      if n <= last { assert out[..last][..n] == out[..n]; } else { assert out[..n] == out[..last] + [out[last]]; }
    }
  }

  /** The prefix selector picks the outbounds of the entries, in rank order. */
  lemma EntriesPicked(o: Options, split: Splitter)
    requires Renderable(o, split)
    ensures
      var picked := Selected(Rendered(o, split).outbounds, ENTRY_PREFIX);
      && |picked| == |o.entries|
      && forall i :: 0 <= i < |picked| ==> picked[i] == Entry(o, EntryTag(i), o.entries[i])
  {
    var out := Rendered(o, split).outbounds;
    forall i | 0 <= i < |out| ensures ENTRY_PREFIX <= out[i].tag <==> i < |o.entries| {
      TagAt(o, split, i);
      EntryTagShape(i);
      assert ENTRY_PREFIX[0] == 'e';
    }
    TagAt(o, split, 0);
    SelectedFirst(out, ENTRY_PREFIX, |o.entries|);
    forall i | 0 <= i < |o.entries| ensures out[i] == Entry(o, EntryTag(i), o.entries[i]) {
      TagAt(o, split, i);
    }
  }

  /**
   The balancer and the health checks see exactly the entries, in rank order, each dialling its own
   address; a front-proxy outbound exists exactly when every entry dials through it.
   */
  lemma SelectorPicksTheEntries(o: Options, split: Splitter)
    requires Renderable(o, split)
    ensures
      var c := Rendered(o, split);
      var picked := Selected(c.outbounds, c.balancer.selector);
      && c.subjectSelector == c.balancer.selector
      && |picked| == |o.entries|
      && (forall i :: 0 <= i < |picked| ==> picked[i].EntryOutbound? && picked[i].address == o.entries[i])
      && picked[0].tag == c.balancer.fallbackTag
      && (Resolves(c.outbounds, FRONT_TAG) <==>
            forall i :: 0 <= i < |picked| ==> picked[i].EntryOutbound? && picked[i].dialerProxy == Some(FRONT_TAG))
  {
    EntriesPicked(o, split);
    FrontPresence(o, split);
    var picked := Selected(Rendered(o, split).outbounds, ENTRY_PREFIX);
    assert picked[0].dialerProxy == Some(FRONT_TAG) <==> o.frontProxy.Some?;
  }

  lemma FrontPresence(o: Options, split: Splitter)
    requires Renderable(o, split)
    ensures Resolves(Rendered(o, split).outbounds, FRONT_TAG) <==> o.frontProxy.Some?
  {
    var out := Rendered(o, split).outbounds;
    RenderedTagsDistinct(o, split);
    TagAt(o, split, 0);
    if o.frontProxy.Some? {
      TagAt(o, split, |o.entries|);
      DistinctResolves(out, |o.entries|);
    } else {
      forall i | 0 <= i < |out| ensures out[i].tag != FRONT_TAG {
        TagAt(o, split, i);
        EntryTagShape(i);
      }
    }
  }

  // ---------- Health-check arithmetic ----------

  /**
   The interval ends up above the timeout exactly when the caller's own interval does, or four
   timeouts do after wrapping to 64 bits: below 2^61 ns, and again in one band above 2^64/3.
   */
  lemma IntervalExceedsTimeoutIff(o: Options)
    ensures
      var t := EffectiveTimeout(o.probeTimeout);
      Defaulted(o).probeInterval > Defaulted(o).probeTimeout <==>
      o.probeInterval > t || t < 0x2000_0000_0000_0000
      || (0x1_0000_0000_0000_0000 < 3 * t && t < 0x6000_0000_0000_0000)
  {
  }

  /**
   After printing in whole seconds the interval is still at least the timeout, but strictly above it
   exactly when it reaches the timeout's next whole second. For the fourfold default that means a
   timeout of at least a quarter of a second.
   */
  lemma RenderedIntervalExceedsTimeoutIff(o: Options)
    requires Defaulted(o).probeInterval > Defaulted(o).probeTimeout
    ensures
      var i, t := Defaulted(o).probeInterval, Defaulted(o).probeTimeout;
      && WholeSeconds(i) >= WholeSeconds(t)
      && (WholeSeconds(i) > WholeSeconds(t) <==> i - t >= SECOND - t % SECOND)
      && (i - t >= SECOND ==> WholeSeconds(i) > WholeSeconds(t))
      && (o.probeInterval <= t < 0x2000_0000_0000_0000 ==>
            (WholeSeconds(i) > WholeSeconds(t) <==> t >= SECOND / 4))
  {
  }

  /** A caller's 1.2 s timeout and 1.5 s interval are both rendered as one second. */
  lemma RenderedIntervalCanEqualTimeout(o: Options)
    requires o.probeTimeout == 1_200_000_000 && o.probeInterval == 1_500_000_000
    ensures Defaulted(o).probeInterval > Defaulted(o).probeTimeout
    ensures DurationString(Defaulted(o).probeInterval) == DurationString(Defaulted(o).probeTimeout) == "1s"
  {
    assert Digits(1) == "1";
  }
}
