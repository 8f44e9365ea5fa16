/**
 * configure_bgp: one document under the `network` root holding BGP in the
 * default VRF (global settings, neighbors, aggregate routes) and, when
 * given, route-maps and prefix-lists.
 */
module ConfigureBgp {
  import opened Wrappers
  import opened JsonTree
  import opened NvueClient
  import opened Transaction

  // ---------------------------------------------------------------------
  // Input. Optional values the script reads with `.get(key)` are JNull when
  // absent; absent lists are empty.
  // ---------------------------------------------------------------------

  /** A route-map entry; `match` (here `matches`) and `actions` are passed through unchanged. */
  datatype RouteMapEntry = RouteMapEntry(sequence: int, matches: Json, actions: Json)

  datatype RouteMap = RouteMap(name: string, entries: seq<RouteMapEntry>)

  /**
   * A neighbor. `neighborType` is None when the key is absent (a JSON null
   * is Some(JNull)); `routeMap` is the `route_map` object, {} when absent.
   */
  datatype Neighbor = Neighbor(
    ip: string,
    remoteAs: Json,
    neighborType: Option<Json>,
    updateSource: Json,
    nextHopSelf: Json,
    routeMap: map<string, Json>)

  datatype PrefixEntry = PrefixEntry(sequence: int, action: Json, prefix: Json)

  datatype PrefixList = PrefixList(name: string, entries: seq<PrefixEntry>)

  datatype BgpConfig = BgpConfig(
    asNumber: Json,
    routerId: Json,
    routeMaps: seq<RouteMap>,
    neighbors: seq<Neighbor>,
    aggregates: seq<string>,
    prefixLists: seq<PrefixList>)

  // ---------------------------------------------------------------------
  // The document, node by node.
  // ---------------------------------------------------------------------

  /** Rules are keyed by the decimal string of their sequence number. */
  function RuleKey(e: RouteMapEntry): string { DecimalString(e.sequence) }

  /** A route-map rule: `match` only when given, `action` only when given, {} when neither. */
  function RuleNode(e: RouteMapEntry): (r: Json)
    ensures r.JObj? && r.fields.Keys <= {"match", "action"}
    ensures "match" in r.fields <==> Truthy(e.matches)
    ensures "action" in r.fields <==> Truthy(e.actions)
    ensures "match" in r.fields ==> r.fields["match"] == e.matches
    ensures "action" in r.fields ==> r.fields["action"] == e.actions
    ensures !Truthy(e.matches) && !Truthy(e.actions) ==> r == Empty
  {
    var withMatch := if Truthy(e.matches) then map["match" := e.matches] else map[];
    JObj(if Truthy(e.actions) then withMatch["action" := e.actions] else withMatch)
  }

  function RouteMapName(rm: RouteMap): string { rm.name }

  function RouteMapNode(rm: RouteMap): Json {
    JObj(map["rule" := JObj(AssignAll(rm.entries, RuleKey, RuleNode))])
  }

  function NeighborIp(n: Neighbor): string { n.ip }

  /** `route_map.get(direction)`, consulted only when the `route_map` object is non-empty. */
  function RouteMapRef(n: Neighbor, direction: string): Json {
    if n.routeMap != map[] then Get(n.routeMap, direction) else JNull
  }

  const NeighborKeys: set<string> := {"remote-as", "type", "update-source", "address-family", "in", "out"}

  /** The node of one neighbor. */
  function NeighborNode(n: Neighbor): (r: Json)
    ensures r.JObj? && r.fields.Keys <= NeighborKeys
    ensures "remote-as" in r.fields && r.fields["remote-as"] == n.remoteAs
    ensures "type" in r.fields && r.fields["type"] == (if n.neighborType.Some? then n.neighborType.value else JStr("numbered"))
    ensures "update-source" in r.fields <==> Truthy(n.updateSource)
    ensures "update-source" in r.fields ==> r.fields["update-source"] == n.updateSource
    ensures "address-family" in r.fields <==> Truthy(n.nextHopSelf)
    ensures "address-family" in r.fields ==>
              r.fields["address-family"] == JObj(map["ipv4-unicast" := JObj(map["next-hop-self" := n.nextHopSelf])])
    ensures "in" in r.fields <==> Truthy(RouteMapRef(n, "in"))
    ensures "in" in r.fields ==> r.fields["in"] == JObj(map["route-map" := RouteMapRef(n, "in")])
    ensures "out" in r.fields <==> Truthy(RouteMapRef(n, "out"))
    ensures "out" in r.fields ==> r.fields["out"] == JObj(map["route-map" := RouteMapRef(n, "out")])
  {
    var base := map["remote-as" := n.remoteAs, "type" := if n.neighborType.Some? then n.neighborType.value else JStr("numbered")];
    var withSource := if Truthy(n.updateSource) then base["update-source" := n.updateSource] else base;
    var withAf :=
      if Truthy(n.nextHopSelf)
      then withSource["address-family" := JObj(map["ipv4-unicast" := JObj(map["next-hop-self" := n.nextHopSelf])])]
      else withSource;
    var inRef := RouteMapRef(n, "in");
    var outRef := RouteMapRef(n, "out");
    var withIn := if Truthy(inRef) then withAf["in" := JObj(map["route-map" := inRef])] else withAf;
    JObj(if Truthy(outRef) then withIn["out" := JObj(map["route-map" := outRef])] else withIn)
  }

  function PrefixRuleKey(e: PrefixEntry): string { DecimalString(e.sequence) }

  /** A prefix-list rule always carries both `action` and `match.prefix`, and nothing else. */
  function PrefixRuleNode(e: PrefixEntry): (r: Json)
    ensures r.JObj? && r.fields.Keys == {"action", "match"}
    ensures r.fields["action"] == e.action
    ensures r.fields["match"] == JObj(map["prefix" := e.prefix])
  {
    JObj(map["action" := e.action, "match" := JObj(map["prefix" := e.prefix])])
  }

  function PrefixListName(pl: PrefixList): string { pl.name }

  function PrefixListNode(pl: PrefixList): Json {
    JObj(map["rule" := JObj(AssignAll(pl.entries, PrefixRuleKey, PrefixRuleNode))])
  }

  /** The `bgp` node of the default VRF. */
  function BgpNode(c: BgpConfig): map<string, Json> {
    var skeleton := map[
      "autonomous-system" := c.asNumber,
      "router-id" := c.routerId,
      "enable" := JStr("on"),
      "neighbor" := JObj(AssignAll(c.neighbors, NeighborIp, NeighborNode))];
    if c.aggregates != [] then
      skeleton["address-family" := JObj(map["ipv4-unicast" := JObj(map["aggregate-route" := JObj(AssignAll(c.aggregates, Identity, EmptyFor))])])]
    else
      skeleton
  }

  /** The `network` node: policy objects when given, then the VRF holding BGP. */
  function NetworkNode(c: BgpConfig): map<string, Json> {
    var withPolicy :=
      if c.routeMaps != []
      then map["policy" := JObj(map["route-map" := JObj(AssignAll(c.routeMaps, RouteMapName, RouteMapNode))])]
      else map[];
    var withPrefixes :=
      if c.prefixLists != []
      then withPolicy["prefix-list" := JObj(AssignAll(c.prefixLists, PrefixListName, PrefixListNode))]
      else withPolicy;
    withPrefixes["vrf" := JObj(map["default" := JObj(map["router" := JObj(map["bgp" := JObj(BgpNode(c))])])])]
  }

  /** The staged document. */
  function BgpPayload(c: BgpConfig): Json {
    JObj(map["network" := JObj(NetworkNode(c))])
  }

  // ---------------------------------------------------------------------
  // The builder, loop by loop.
  // ---------------------------------------------------------------------

  /** The route-map loop: one `{"rule": {...}}` object per route-map name. */
  method BuildRouteMaps(routeMaps: seq<RouteMap>) returns (policyRoot: map<string, Json>)
    ensures policyRoot == AssignAll(routeMaps, RouteMapName, RouteMapNode)
  {
    policyRoot := map[];
    for i := 0 to |routeMaps|
      invariant policyRoot == AssignAll(routeMaps[..i], RouteMapName, RouteMapNode)
    {
      var rm := routeMaps[i];
      var rules: map<string, Json> := map[];
      for j := 0 to |rm.entries|
        invariant rules == AssignAll(rm.entries[..j], RuleKey, RuleNode)
      {
        var entry := rm.entries[j];
        var rule: map<string, Json> := map[];
        if Truthy(entry.matches) {
          rule := rule["match" := entry.matches];
        }
        if Truthy(entry.actions) {
          rule := rule["action" := entry.actions];
        }
        rules := rules[DecimalString(entry.sequence) := JObj(rule)];
        assert rm.entries[..j + 1][..j] == rm.entries[..j];
      }
      assert rm.entries[..|rm.entries|] == rm.entries;
      policyRoot := policyRoot[rm.name := JObj(map["rule" := JObj(rules)])];
      assert routeMaps[..i + 1][..i] == routeMaps[..i];
    }
    assert routeMaps[..|routeMaps|] == routeMaps;
  }

  /** The body of the neighbor loop: the node of one neighbor, built key by key. */
  method BuildNeighbor(n: Neighbor) returns (cfg: map<string, Json>)
    ensures JObj(cfg) == NeighborNode(n)
  {
    cfg := map["remote-as" := n.remoteAs, "type" := if n.neighborType.Some? then n.neighborType.value else JStr("numbered")];
    if Truthy(n.updateSource) {
      cfg := cfg["update-source" := n.updateSource];
    }
    if Truthy(n.nextHopSelf) {
      cfg := cfg["address-family" := JObj(map["ipv4-unicast" := JObj(map["next-hop-self" := n.nextHopSelf])])];
    }
    if n.routeMap != map[] {
      if Truthy(Get(n.routeMap, "in")) {
        cfg := cfg["in" := JObj(map["route-map" := n.routeMap["in"]])];
      }
      if Truthy(Get(n.routeMap, "out")) {
        cfg := cfg["out" := JObj(map["route-map" := n.routeMap["out"]])];
      }
    }
  }

  /** The neighbor loop: one node per neighbor address. */
  method BuildNeighbors(neighbors: seq<Neighbor>) returns (nodes: map<string, Json>)
    ensures nodes == AssignAll(neighbors, NeighborIp, NeighborNode)
  {
    nodes := map[];
    for i := 0 to |neighbors|
      invariant nodes == AssignAll(neighbors[..i], NeighborIp, NeighborNode)
    {
      var n := neighbors[i];
      var cfg := BuildNeighbor(n);
      nodes := nodes[n.ip := JObj(cfg)];
      assert neighbors[..i + 1][..i] == neighbors[..i];
    }
    assert neighbors[..|neighbors|] == neighbors;
  }

  /** The aggregate loop: each prefix becomes a key mapped to {}. */
  method BuildAggregates(aggregates: seq<string>) returns (routes: map<string, Json>)
    ensures routes == AssignAll(aggregates, Identity, EmptyFor)
  {
    routes := map[];
    for i := 0 to |aggregates|
      invariant routes == AssignAll(aggregates[..i], Identity, EmptyFor)
    {
      routes := routes[aggregates[i] := Empty];
      assert aggregates[..i + 1][..i] == aggregates[..i];
    }
    assert aggregates[..|aggregates|] == aggregates;
  }

  /** The prefix-list loop: one `{"rule": {...}}` object per list name. */
  method BuildPrefixLists(prefixLists: seq<PrefixList>) returns (prefixRoot: map<string, Json>)
    ensures prefixRoot == AssignAll(prefixLists, PrefixListName, PrefixListNode)
  {
    prefixRoot := map[];
    for i := 0 to |prefixLists|
      invariant prefixRoot == AssignAll(prefixLists[..i], PrefixListName, PrefixListNode)
    {
      var plist := prefixLists[i];
      var rules: map<string, Json> := map[];
      for j := 0 to |plist.entries|
        invariant rules == AssignAll(plist.entries[..j], PrefixRuleKey, PrefixRuleNode)
      {
        var entry := plist.entries[j];
        rules := rules[DecimalString(entry.sequence) := JObj(map["action" := entry.action, "match" := JObj(map["prefix" := entry.prefix])])];
        assert plist.entries[..j + 1][..j] == plist.entries[..j];
      }
      assert plist.entries[..|plist.entries|] == plist.entries;
      prefixRoot := prefixRoot[plist.name := JObj(map["rule" := JObj(rules)])];
      assert prefixLists[..i + 1][..i] == prefixLists[..i];
    }
    assert prefixLists[..|prefixLists|] == prefixLists;
  }

  /**
   * The payload construction of configure_bgp, in the script's order. The
   * script edits one nested dictionary through aliases of its inner nodes;
   * here each inner node is a local value attached to its parent at the end.
   */
  method BuildBgpPayload(c: BgpConfig) returns (doc: Json)
    ensures doc == BgpPayload(c)
  {
    var bgp := map["autonomous-system" := c.asNumber, "router-id" := c.routerId, "enable" := JStr("on"), "neighbor" := Empty];
    var network: map<string, Json> := map[];
    if c.routeMaps != [] {
      var policyRoot := BuildRouteMaps(c.routeMaps);
      network := network["policy" := JObj(map["route-map" := JObj(policyRoot)])];
    }
    var neighbors := BuildNeighbors(c.neighbors);
    bgp := bgp["neighbor" := JObj(neighbors)];
    assert bgp == map["autonomous-system" := c.asNumber, "router-id" := c.routerId, "enable" := JStr("on"), "neighbor" := JObj(neighbors)];
    if c.aggregates != [] {
      var routes := BuildAggregates(c.aggregates);
      bgp := bgp["address-family" := JObj(map["ipv4-unicast" := JObj(map["aggregate-route" := JObj(routes)])])];
    }
    assert bgp == BgpNode(c);
    if c.prefixLists != [] {
      var prefixRoot := BuildPrefixLists(c.prefixLists);
      network := network["prefix-list" := JObj(prefixRoot)];
    }
    network := network["vrf" := JObj(map["default" := JObj(map["router" := JObj(map["bgp" := JObj(bgp)])])])];
    doc := JObj(map["network" := JObj(network)]);
  }

  /** configure_bgp: create the revision, build and stage the document, apply, wait, return 0 or 1. */
  method ConfigureBgp(c: BgpConfig, response: Entries, answers: nat -> Json)
    returns (r: Result<Outcome, Fault>)
    ensures Transacted(response, BgpPayload(c), answers, r)
    ensures ExitStatus(r) == 0 <==> RevisionId(response).Success? && Succeeded(Wait(answers, DefaultRetries))
  {
    var revision := RevisionId(response);
    if revision.Failure? {
      return Failure(NoRevision(revision.error));
    }
    var doc := BuildBgpPayload(c);
    r := StageApplyWait(revision.value, doc, answers);
  }

  // ---------------------------------------------------------------------
  // Properties of the document.
  // ---------------------------------------------------------------------

  const BgpPath: seq<string> := ["network", "vrf", "default", "router", "bgp"]

  lemma BgpNodeAt(c: BgpConfig)
    ensures At(BgpPayload(c), BgpPath) == Some(JObj(BgpNode(c)))
  {
    var doc := BgpPayload(c);
    var network := doc.fields["network"];
    var vrf := network.fields["vrf"];
    var default := vrf.fields["default"];
    var router := default.fields["router"];
    AtCons(doc, "network", ["vrf", "default", "router", "bgp"]);
    AtCons(network, "vrf", ["default", "router", "bgp"]);
    AtCons(vrf, "default", ["router", "bgp"]);
    AtCons(default, "router", ["bgp"]);
    AtCons(router, "bgp", []);
  }

  /** The node reached by `rest` below the bgp node. */
  lemma BelowBgp(c: BgpConfig, rest: seq<string>)
    ensures At(BgpPayload(c), BgpPath + rest) == At(JObj(BgpNode(c)), rest)
  {
    BgpNodeAt(c);
    AtConcat(BgpPayload(c), BgpPath, rest);
  }

  /**
   * The bgp node always holds the AS number, the router id, `enable` "on"
   * and a `neighbor` object (empty without neighbors), plus
   * `address-family` exactly when aggregates are given.
   */
  lemma BgpSkeleton(c: BgpConfig)
    ensures At(BgpPayload(c), BgpPath + ["autonomous-system"]) == Some(c.asNumber)
    ensures At(BgpPayload(c), BgpPath + ["router-id"]) == Some(c.routerId)
    ensures At(BgpPayload(c), BgpPath + ["enable"]) == Some(JStr("on"))
    ensures At(BgpPayload(c), BgpPath + ["neighbor"]).Some?
    ensures c.neighbors == [] ==> At(BgpPayload(c), BgpPath + ["neighbor"]) == Some(Empty)
    ensures BgpNode(c).Keys ==
            {"autonomous-system", "router-id", "enable", "neighbor"} + (if c.aggregates != [] then {"address-family"} else {})
  {
    var bgp := JObj(BgpNode(c));
    BelowBgp(c, ["autonomous-system"]);
    BelowBgp(c, ["router-id"]);
    BelowBgp(c, ["enable"]);
    BelowBgp(c, ["neighbor"]);
    AtCons(bgp, "autonomous-system", []);
    AtCons(bgp, "router-id", []);
    AtCons(bgp, "enable", []);
    AtCons(bgp, "neighbor", []);
  }

  lemma NeighborAt(c: BgpConfig, ip: string)
    ensures At(BgpPayload(c), BgpPath + ["neighbor", ip]) ==
            if ip in AssignAll(c.neighbors, NeighborIp, NeighborNode)
            then Some(AssignAll(c.neighbors, NeighborIp, NeighborNode)[ip])
            else None
  {
    var bgp := JObj(BgpNode(c));
    BelowBgp(c, ["neighbor", ip]);
    AtCons(bgp, "neighbor", [ip]);
    AtCons(bgp.fields["neighbor"], ip, []);
  }

  /** Every input neighbor has a node under its address, and no other address does. */
  lemma BgpNeighborKeys(c: BgpConfig, ip: string)
    ensures At(BgpPayload(c), BgpPath + ["neighbor", ip]).Some? <==>
            exists i :: 0 <= i < |c.neighbors| && c.neighbors[i].ip == ip
  {
    NeighborAt(c, ip);
    AssignAllKeys(c.neighbors, NeighborIp, NeighborNode);
    if exists i :: 0 <= i < |c.neighbors| && c.neighbors[i].ip == ip {
      var i :| 0 <= i < |c.neighbors| && c.neighbors[i].ip == ip;
      assert NeighborIp(c.neighbors[i]) == ip;
    }
  }

  /**
   * The node under an address is the one built from the last neighbor with
   * that address: remote-as copied unchanged, type defaulting to "numbered".
   */
  lemma BgpNeighborLastWins(c: BgpConfig, i: int)
    requires LastWithKey(c.neighbors, NeighborIp, i)
    ensures At(BgpPayload(c), BgpPath + ["neighbor", c.neighbors[i].ip]) == Some(NeighborNode(c.neighbors[i]))
    ensures At(BgpPayload(c), BgpPath + ["neighbor", c.neighbors[i].ip, "remote-as"]) == Some(c.neighbors[i].remoteAs)
    ensures c.neighbors[i].neighborType.None? ==>
              At(BgpPayload(c), BgpPath + ["neighbor", c.neighbors[i].ip, "type"]) == Some(JStr("numbered"))
  {
    var n := c.neighbors[i];
    var doc := BgpPayload(c);
    NeighborAt(c, n.ip);
    AssignAllLast(c.neighbors, NeighborIp, NeighborNode, i);
    AtConcat(doc, BgpPath + ["neighbor", n.ip], ["remote-as"]);
    AtConcat(doc, BgpPath + ["neighbor", n.ip], ["type"]);
    assert BgpPath + ["neighbor", n.ip] + ["remote-as"] == BgpPath + ["neighbor", n.ip, "remote-as"];
    assert BgpPath + ["neighbor", n.ip] + ["type"] == BgpPath + ["neighbor", n.ip, "type"];
    AtCons(NeighborNode(n), "remote-as", []);
    AtCons(NeighborNode(n), "type", []);
  }

  /** A path below a neighbor's address resolves within the last neighbor node with that address. */
  lemma BelowNeighbor(c: BgpConfig, i: int, rest: seq<string>)
    requires LastWithKey(c.neighbors, NeighborIp, i)
    ensures At(BgpPayload(c), BgpPath + ["neighbor", c.neighbors[i].ip] + rest) == At(NeighborNode(c.neighbors[i]), rest)
  {
    BgpNeighborLastWins(c, i);
    AtConcat(BgpPayload(c), BgpPath + ["neighbor", c.neighbors[i].ip], rest);
  }

  /** The `policy` node, and the route-map object in it, exist exactly when route-maps are given. */
  lemma BgpRouteMapsPresence(c: BgpConfig)
    ensures At(BgpPayload(c), ["network", "policy"]).Some? <==> c.routeMaps != []
    ensures c.routeMaps != [] ==>
              At(BgpPayload(c), ["network", "policy", "route-map"]) == Some(JObj(AssignAll(c.routeMaps, RouteMapName, RouteMapNode)))
  {
    var doc := BgpPayload(c);
    var network := doc.fields["network"];
    AtCons(doc, "network", ["policy"]);
    AtCons(network, "policy", []);
    AtCons(doc, "network", ["policy", "route-map"]);
    if c.routeMaps != [] {
      AtCons(network, "policy", ["route-map"]);
      AtCons(network.fields["policy"], "route-map", []);
    }
  }

  /** The object under a route-map name is built from the last route-map with that name. */
  lemma BgpRouteMapLastWins(c: BgpConfig, i: int)
    requires LastWithKey(c.routeMaps, RouteMapName, i)
    ensures At(BgpPayload(c), ["network", "policy", "route-map", c.routeMaps[i].name]) == Some(RouteMapNode(c.routeMaps[i]))
  {
    var doc := BgpPayload(c);
    var name := c.routeMaps[i].name;
    var maps := AssignAll(c.routeMaps, RouteMapName, RouteMapNode);
    BgpRouteMapsPresence(c);
    AssignAllLast(c.routeMaps, RouteMapName, RouteMapNode, i);
    AtConcat(doc, ["network", "policy", "route-map"], [name]);
    assert ["network", "policy", "route-map"] + [name] == ["network", "policy", "route-map", name];
    AtCons(JObj(maps), name, []);
  }

  function RuleSequence(e: RouteMapEntry): int { e.sequence }

  function PrefixSequence(e: PrefixEntry): int { e.sequence }

  /** No later entry repeats the sequence number of entry i. */
  predicate LastWithSequence<T>(entries: seq<T>, sequence: T -> int, i: int) {
    0 <= i < |entries| && forall j :: i < j < |entries| ==> sequence(entries[j]) != sequence(entries[i])
  }

  /**
   * Each route-map entry is stored as a rule under the decimal string of its
   * sequence number; a later entry with the same number replaces it.
   */
  lemma RouteMapRule(rm: RouteMap, i: int)
    requires LastWithSequence(rm.entries, RuleSequence, i)
    ensures At(RouteMapNode(rm), ["rule", DecimalString(rm.entries[i].sequence)]) == Some(RuleNode(rm.entries[i]))
  {
    var e := rm.entries[i];
    assert LastWithKey(rm.entries, RuleKey, i) by {
      forall j | i < j < |rm.entries| ensures RuleKey(rm.entries[j]) != RuleKey(e) {
        assert RuleSequence(rm.entries[j]) != RuleSequence(e);
        DecimalInjective(rm.entries[j].sequence, e.sequence);
      }
    }
    AssignAllLast(rm.entries, RuleKey, RuleNode, i);
    AtCons(RouteMapNode(rm), "rule", [RuleKey(e)]);
    AtCons(JObj(AssignAll(rm.entries, RuleKey, RuleNode)), RuleKey(e), []);
  }

  /** A rule key exists for every entry's sequence number and for nothing else. */
  lemma RouteMapRuleKeys(rm: RouteMap, key: string)
    ensures At(RouteMapNode(rm), ["rule", key]).Some? <==>
            exists i :: 0 <= i < |rm.entries| && DecimalString(rm.entries[i].sequence) == key
  {
    AtCons(RouteMapNode(rm), "rule", [key]);
    AtCons(JObj(AssignAll(rm.entries, RuleKey, RuleNode)), key, []);
    AssignAllKeys(rm.entries, RuleKey, RuleNode);
    if exists i :: 0 <= i < |rm.entries| && DecimalString(rm.entries[i].sequence) == key {
      var i :| 0 <= i < |rm.entries| && DecimalString(rm.entries[i].sequence) == key;
      assert RuleKey(rm.entries[i]) == key;
    }
  }

  const AggregatePath: seq<string> := ["address-family", "ipv4-unicast", "aggregate-route"]

  /** The bgp node has an `address-family` exactly when aggregates are given. */
  lemma BgpAddressFamilyPresence(c: BgpConfig)
    ensures At(BgpPayload(c), BgpPath + ["address-family"]).Some? <==> c.aggregates != []
  {
    BelowBgp(c, ["address-family"]);
    AtCons(JObj(BgpNode(c)), "address-family", []);
  }

  /** With aggregates, the aggregate-route object is the aggregates loop's object. */
  lemma BgpAggregateObject(c: BgpConfig)
    requires c.aggregates != []
    ensures At(BgpPayload(c), BgpPath + AggregatePath) == Some(JObj(AssignAll(c.aggregates, Identity, EmptyFor)))
  {
    var bgp := JObj(BgpNode(c));
    var af := bgp.fields["address-family"];
    BelowBgp(c, AggregatePath);
    AtCons(bgp, "address-family", ["ipv4-unicast", "aggregate-route"]);
    AtCons(af, "ipv4-unicast", ["aggregate-route"]);
    AtCons(af.fields["ipv4-unicast"], "aggregate-route", []);
  }

  /**
   * With aggregates, each prefix is a key mapped to {} under the bgp node's
   * `address-family/ipv4-unicast/aggregate-route`, and nothing else is.
   */
  lemma BgpAggregateRoute(c: BgpConfig, prefix: string)
    requires c.aggregates != []
    ensures At(BgpPayload(c), BgpPath + AggregatePath + [prefix]) == if prefix in c.aggregates then Some(Empty) else None
  {
    BgpAggregateObject(c);
    AtConcat(BgpPayload(c), BgpPath + AggregatePath, [prefix]);
    KeySetLookup(c.aggregates, prefix);
  }

  /** The `prefix-list` node exists exactly when prefix-lists are given. */
  lemma BgpPrefixListsPresence(c: BgpConfig)
    ensures At(BgpPayload(c), ["network", "prefix-list"]).Some? <==> c.prefixLists != []
    ensures c.prefixLists != [] ==>
              At(BgpPayload(c), ["network", "prefix-list"]) == Some(JObj(AssignAll(c.prefixLists, PrefixListName, PrefixListNode)))
  {
    var doc := BgpPayload(c);
    AtCons(doc, "network", ["prefix-list"]);
    AtCons(doc.fields["network"], "prefix-list", []);
  }

  /** The object under a prefix-list name is built from the last prefix-list with that name. */
  lemma BgpPrefixListLastWins(c: BgpConfig, i: int)
    requires LastWithKey(c.prefixLists, PrefixListName, i)
    ensures At(BgpPayload(c), ["network", "prefix-list", c.prefixLists[i].name]) == Some(PrefixListNode(c.prefixLists[i]))
  {
    var doc := BgpPayload(c);
    var name := c.prefixLists[i].name;
    BgpPrefixListsPresence(c);
    AssignAllLast(c.prefixLists, PrefixListName, PrefixListNode, i);
    AtConcat(doc, ["network", "prefix-list"], [name]);
    assert ["network", "prefix-list"] + [name] == ["network", "prefix-list", name];
    AtCons(JObj(AssignAll(c.prefixLists, PrefixListName, PrefixListNode)), name, []);
  }

  /** The two lookups inside a prefix-list rule. */
  lemma PrefixRuleFields(e: PrefixEntry)
    ensures At(PrefixRuleNode(e), ["action"]) == Some(e.action)
    ensures At(PrefixRuleNode(e), ["match", "prefix"]) == Some(e.prefix)
  {
    var node := PrefixRuleNode(e);
    AtCons(node, "action", []);
    AtCons(node, "match", ["prefix"]);
    AtCons(node.fields["match"], "prefix", []);
  }

  /**
   * Each prefix-list entry is stored under the decimal string of its sequence
   * number with exactly its action and its prefix as `match.prefix`; a later
   * entry with the same number replaces it.
   */
  lemma PrefixListRule(pl: PrefixList, i: int)
    requires LastWithSequence(pl.entries, PrefixSequence, i)
    ensures At(PrefixListNode(pl), ["rule", DecimalString(pl.entries[i].sequence)]) == Some(PrefixRuleNode(pl.entries[i]))
    ensures At(PrefixListNode(pl), ["rule", DecimalString(pl.entries[i].sequence), "action"]) == Some(pl.entries[i].action)
    ensures At(PrefixListNode(pl), ["rule", DecimalString(pl.entries[i].sequence), "match", "prefix"]) == Some(pl.entries[i].prefix)
  {
    var e := pl.entries[i];
    var key := PrefixRuleKey(e);
    var rules := AssignAll(pl.entries, PrefixRuleKey, PrefixRuleNode);
    assert LastWithKey(pl.entries, PrefixRuleKey, i) by {
      forall j | i < j < |pl.entries| ensures PrefixRuleKey(pl.entries[j]) != key {
        assert PrefixSequence(pl.entries[j]) != PrefixSequence(e);
        DecimalInjective(pl.entries[j].sequence, e.sequence);
      }
    }
    AssignAllLast(pl.entries, PrefixRuleKey, PrefixRuleNode, i);
    AtCons(PrefixListNode(pl), "rule", [key]);
    AtCons(JObj(rules), key, []);
    PrefixRuleFields(e);
    AtConcat(PrefixListNode(pl), ["rule", key], ["action"]);
    AtConcat(PrefixListNode(pl), ["rule", key], ["match", "prefix"]);
    assert ["rule", key] + ["action"] == ["rule", key, "action"];
    assert ["rule", key] + ["match", "prefix"] == ["rule", key, "match", "prefix"];
  }

  /** A prefix-list rule key exists for every entry's sequence number and for nothing else. */
  lemma PrefixListRuleKeys(pl: PrefixList, key: string)
    ensures At(PrefixListNode(pl), ["rule", key]).Some? <==>
            exists i :: 0 <= i < |pl.entries| && DecimalString(pl.entries[i].sequence) == key
  {
    AtCons(PrefixListNode(pl), "rule", [key]);
    AtCons(JObj(AssignAll(pl.entries, PrefixRuleKey, PrefixRuleNode)), key, []);
    AssignAllKeys(pl.entries, PrefixRuleKey, PrefixRuleNode);
    if exists i :: 0 <= i < |pl.entries| && DecimalString(pl.entries[i].sequence) == key {
      var i :| 0 <= i < |pl.entries| && DecimalString(pl.entries[i].sequence) == key;
      assert PrefixRuleKey(pl.entries[i]) == key;
    }
  }

  /**
   * A worked scenario: one neighbor whose inbound route-map is RM-IN, and
   * RM-IN with a single rule 10 that has actions but no match.
   */
  const ScenarioPermit: Json := JObj(map["permit" := JBool(true)])

  const ScenarioRouteMap: RouteMap := RouteMap("RM-IN", [RouteMapEntry(10, JNull, ScenarioPermit)])

  const ScenarioNeighbor: Neighbor := Neighbor("10.0.0.2", JInt(65002), None, JNull, JNull, map["in" := JStr("RM-IN")])

  const Scenario: BgpConfig := BgpConfig(JInt(65001), JStr("10.0.0.1"), [ScenarioRouteMap], [ScenarioNeighbor], [], [])

  /** The scenario neighbor's node has an inbound reference to RM-IN and no outbound one. */
  lemma ScenarioNeighborNode()
    ensures At(NeighborNode(ScenarioNeighbor), ["in", "route-map"]) == Some(JStr("RM-IN"))
    ensures At(NeighborNode(ScenarioNeighbor), ["out"]).None?
  {
    var n := ScenarioNeighbor;
    var node := NeighborNode(n);
    assert RouteMapRef(n, "in") == JStr("RM-IN");
    assert RouteMapRef(n, "out") == JNull;
    AtCons(node, "in", ["route-map"]);
    AtCons(node.fields["in"], "route-map", []);
    AtCons(node, "out", []);
  }

  /** In the scenario the neighbor references RM-IN inbound only. */
  lemma ScenarioInboundReference()
    ensures At(BgpPayload(Scenario), BgpPath + ["neighbor", "10.0.0.2", "in", "route-map"]) == Some(JStr("RM-IN"))
    ensures At(BgpPayload(Scenario), BgpPath + ["neighbor", "10.0.0.2", "out"]).None?
  {
    assert LastWithKey(Scenario.neighbors, NeighborIp, 0);
    BelowNeighbor(Scenario, 0, ["in", "route-map"]);
    BelowNeighbor(Scenario, 0, ["out"]);
    assert Scenario.neighbors[0].ip == "10.0.0.2";
    assert BgpPath + ["neighbor", "10.0.0.2"] + ["in", "route-map"] == BgpPath + ["neighbor", "10.0.0.2", "in", "route-map"];
    assert BgpPath + ["neighbor", "10.0.0.2"] + ["out"] == BgpPath + ["neighbor", "10.0.0.2", "out"];
    ScenarioNeighborNode();
  }

  /** Rule 10 of RM-IN holds only its action, since its match is None. */
  lemma ScenarioRuleNode()
    ensures At(RouteMapNode(ScenarioRouteMap), ["rule", "10"]) == Some(JObj(map["action" := ScenarioPermit]))
  {
    var rm := ScenarioRouteMap;
    assert LastWithSequence(rm.entries, RuleSequence, 0);
    RouteMapRule(rm, 0);
    assert DecimalString(10) == "10" by {
      assert Digits(10) == Digits(1) + [DigitChar(0)];
    }
    var rule := RuleNode(rm.entries[0]);
    assert !Truthy(rm.entries[0].matches);
    assert Truthy(rm.entries[0].actions) by {
      assert "permit" in ScenarioPermit.fields;
    }
    assert rule.fields.Keys == {"action"};
  }

  /** In the scenario the policy tree carries RM-IN with that rule. */
  lemma ScenarioRule()
    ensures At(BgpPayload(Scenario), ["network", "policy", "route-map", "RM-IN", "rule", "10"]) ==
            Some(JObj(map["action" := ScenarioPermit]))
  {
    var doc := BgpPayload(Scenario);
    var prefix := ["network", "policy", "route-map", "RM-IN"];
    assert LastWithKey(Scenario.routeMaps, RouteMapName, 0);
    BgpRouteMapLastWins(Scenario, 0);
    AtConcat(doc, prefix, ["rule", "10"]);
    assert prefix + ["rule", "10"] == ["network", "policy", "route-map", "RM-IN", "rule", "10"];
    ScenarioRuleNode();
  }
}
