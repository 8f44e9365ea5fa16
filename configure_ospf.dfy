/**
 * configure_ospf: OSPF in the default VRF with one area whose `network`
 * object lists the configured prefixes.
 */
module ConfigureOspf {
  import opened Wrappers
  import opened JsonTree
  import opened NvueClient
  import opened Transaction

  /** The input: `router_id` is passed through, `area` is rendered with str(), absent `networks` is []. */
  datatype OspfConfig = OspfConfig(routerId: Json, area: Scalar, networks: seq<string>)

  const OspfPath: seq<string> := ["vrf", "default", "router", "ospf"]

  /** The key of the one area: `str(area)`. */
  function AreaKey(c: OspfConfig): string {
    PyStr(c.area)
  }

  function AreaNode(c: OspfConfig): Json {
    JObj(map["network" := JObj(AssignAll(c.networks, Identity, EmptyFor))])
  }

  function OspfNode(c: OspfConfig): Json {
    JObj(map["enable" := JStr("on"), "router-id" := c.routerId, "area" := JObj(map[AreaKey(c) := AreaNode(c)])])
  }

  /** The staged document. */
  function OspfPayload(c: OspfConfig): Json {
    JObj(map["vrf" := JObj(map["default" := JObj(map["router" := JObj(map["ospf" := OspfNode(c)])])])])
  }

  /** The skeleton of configure_ospf and its loop over the networks. */
  method BuildOspfPayload(c: OspfConfig) returns (doc: Json)
    ensures doc == OspfPayload(c)
  {
    var area := PyStr(c.area);
    var network: map<string, Json> := map[];
    for i := 0 to |c.networks|
      invariant network == AssignAll(c.networks[..i], Identity, EmptyFor)
    {
      network := network[c.networks[i] := Empty];
      assert c.networks[..i + 1][..i] == c.networks[..i];
    }
    assert c.networks[..|c.networks|] == c.networks;
    var ospf := map["enable" := JStr("on"), "router-id" := c.routerId, "area" := JObj(map[area := JObj(map["network" := JObj(network)])])];
    doc := JObj(map["vrf" := JObj(map["default" := JObj(map["router" := JObj(map["ospf" := JObj(ospf)])])])]);
  }

  /** configure_ospf followed by the exit mapping of its entry point. */
  method ConfigureOspf(c: OspfConfig, response: Entries, answers: nat -> Json)
    returns (r: Result<Outcome, Fault>)
    ensures Transacted(response, OspfPayload(c), answers, r)
    ensures ExitStatus(r) == 0 <==> RevisionId(response).Success? && Succeeded(Wait(answers, DefaultRetries))
  {
    var revision := RevisionId(response);
    if revision.Failure? {
      return Failure(NoRevision(revision.error));
    }
    var doc := BuildOspfPayload(c);
    r := StageApplyWait(revision.value, doc, answers);
  }

  lemma OspfNodeAt(c: OspfConfig)
    ensures At(OspfPayload(c), OspfPath) == Some(OspfNode(c))
  {
    var doc := OspfPayload(c);
    var vrf := doc.fields["vrf"];
    var default := vrf.fields["default"];
    var router := default.fields["router"];
    AtCons(doc, "vrf", ["default", "router", "ospf"]);
    AtCons(vrf, "default", ["router", "ospf"]);
    AtCons(default, "router", ["ospf"]);
    AtCons(router, "ospf", []);
  }

  /** OSPF is enabled with the given router id. */
  lemma OspfSkeleton(c: OspfConfig)
    ensures At(OspfPayload(c), OspfPath + ["enable"]) == Some(JStr("on"))
    ensures At(OspfPayload(c), OspfPath + ["router-id"]) == Some(c.routerId)
  {
    OspfNodeAt(c);
    AtConcat(OspfPayload(c), OspfPath, ["enable"]);
    AtConcat(OspfPayload(c), OspfPath, ["router-id"]);
    AtCons(OspfNode(c), "enable", []);
    AtCons(OspfNode(c), "router-id", []);
  }

  /** Exactly one area exists, keyed by str(area). */
  lemma OspfSingleArea(c: OspfConfig)
    ensures At(OspfPayload(c), OspfPath + ["area"]) == Some(JObj(map[AreaKey(c) := AreaNode(c)]))
  {
    OspfNodeAt(c);
    AtConcat(OspfPayload(c), OspfPath, ["area"]);
    AtCons(OspfNode(c), "area", []);
  }

  /** The area's `network` object exists even without networks, and holds the networks loop's object. */
  lemma OspfNetworkObject(c: OspfConfig)
    ensures At(OspfPayload(c), OspfPath + ["area", AreaKey(c), "network"]) ==
            Some(JObj(AssignAll(c.networks, Identity, EmptyFor)))
  {
    var area := AreaKey(c);
    OspfNodeAt(c);
    AtConcat(OspfPayload(c), OspfPath, ["area", area, "network"]);
    AtCons(OspfNode(c), "area", [area, "network"]);
    AtCons(JObj(map[area := AreaNode(c)]), area, ["network"]);
    AtCons(AreaNode(c), "network", []);
  }

  /**
   * The area's `network` object exists even without networks, and its keys
   * are exactly the input networks (a repeated one collapses to one key),
   * each mapped to {}.
   */
  lemma OspfNetworks(c: OspfConfig, prefix: string)
    ensures At(OspfPayload(c), OspfPath + ["area", AreaKey(c), "network"]).Some?
    ensures At(OspfPayload(c), OspfPath + ["area", AreaKey(c), "network", prefix]) ==
            if prefix in c.networks then Some(Empty) else None
  {
    var path := OspfPath + ["area", AreaKey(c), "network"];
    OspfNetworkObject(c);
    AtConcat(OspfPayload(c), path, [prefix]);
    assert path + [prefix] == OspfPath + ["area", AreaKey(c), "network", prefix];
    KeySetLookup(c.networks, prefix);
  }

  /** A worked scenario: area 0 with two networks. */
  lemma TwoNetworkScenario(prefix: string)
    ensures
      var c := OspfConfig(JStr("10.0.0.1"), JInt(0), ["10.0.0.0/24", "10.0.1.0/24"]);
      At(OspfPayload(c), OspfPath + ["area", "0", "network", prefix]) ==
        if prefix == "10.0.0.0/24" || prefix == "10.0.1.0/24" then Some(Empty) else None
  {
    var c := OspfConfig(JStr("10.0.0.1"), JInt(0), ["10.0.0.0/24", "10.0.1.0/24"]);
    assert AreaKey(c) == "0";
    OspfNetworks(c, prefix);
  }
}
