/**
 * configure_interfaces: one address and the switch-port type on each named
 * interface, staged as a single `interface` document.
 */
module ConfigureInterfaces {
  import opened Wrappers
  import opened JsonTree
  import opened NvueClient
  import opened Transaction

  /** One input entry: `{"name": ..., "ip": ...}`. */
  datatype Interface = Interface(name: string, ip: string)

  function InterfaceName(x: Interface): string { x.name }

  /** The node written for one interface: exactly one address and the type "swp". */
  function InterfaceNode(x: Interface): (r: Json)
    ensures r.JObj? && r.fields.Keys == {"ip", "type"}
    ensures r.fields["type"] == JStr("swp")
    ensures r.fields["ip"] == JObj(map["address" := JObj(map[x.ip := Empty])])
    ensures At(r, ["ip", "address"]) == Some(JObj(map[x.ip := Empty]))
  {
    var r := JObj(map["ip" := JObj(map["address" := JObj(map[x.ip := Empty])]), "type" := JStr("swp")]);
    AtCons(r, "ip", ["address"]);
    AtCons(r.fields["ip"], "address", []);
    r
  }

  /** The staged document. */
  function InterfacesPayload(xs: seq<Interface>): Json {
    JObj(map["interface" := JObj(AssignAll(xs, InterfaceName, InterfaceNode))])
  }

  /** The loop of configure_interfaces that fills the `interface` object. */
  method BuildInterfacesPayload(xs: seq<Interface>) returns (doc: Json)
    ensures doc == InterfacesPayload(xs)
  {
    var interfaces: map<string, Json> := map[];
    for i := 0 to |xs|
      invariant interfaces == AssignAll(xs[..i], InterfaceName, InterfaceNode)
    {
      var iface := xs[i];
      interfaces := interfaces[iface.name := JObj(map["ip" := JObj(map["address" := JObj(map[iface.ip := Empty])]), "type" := JStr("swp")])];
      assert xs[..i + 1][..i] == xs[..i];
    }
    assert xs[..|xs|] == xs;
    doc := JObj(map["interface" := JObj(interfaces)]);
  }

  /** configure_interfaces followed by the exit mapping of its entry point. */
  method ConfigureInterfaces(xs: seq<Interface>, response: Entries, answers: nat -> Json)
    returns (r: Result<Outcome, Fault>)
    ensures Transacted(response, InterfacesPayload(xs), answers, r)
    ensures ExitStatus(r) == 0 <==> RevisionId(response).Success? && Succeeded(Wait(answers, DefaultRetries))
  {
    var revision := RevisionId(response);
    if revision.Failure? {
      return Failure(NoRevision(revision.error));
    }
    var doc := BuildInterfacesPayload(xs);
    r := StageApplyWait(revision.value, doc, answers);
  }

  /** The `interface` object always exists, and is empty for an empty input. */
  lemma InterfacesRoot(xs: seq<Interface>)
    ensures At(InterfacesPayload(xs), ["interface"]).Some?
    ensures xs == [] ==> At(InterfacesPayload(xs), ["interface"]) == Some(Empty)
  {
    AtCons(InterfacesPayload(xs), "interface", []);
  }

  /** There is an entry for a name exactly when some input interface has that name. */
  lemma InterfaceKeys(xs: seq<Interface>, name: string)
    ensures At(InterfacesPayload(xs), ["interface", name]).Some? <==>
            exists i :: 0 <= i < |xs| && xs[i].name == name
  {
    var doc := InterfacesPayload(xs);
    AtCons(doc, "interface", [name]);
    AtCons(doc.fields["interface"], name, []);
    AssignAllKeys(xs, InterfaceName, InterfaceNode);
    if exists i :: 0 <= i < |xs| && xs[i].name == name {
      var i :| 0 <= i < |xs| && xs[i].name == name;
      assert InterfaceName(xs[i]) == name;
    }
  }

  /**
   * When names repeat, the last entry's node replaces the earlier ones
   * entirely: its single address is the only one, nothing accumulates.
   */
  lemma InterfaceLastWins(xs: seq<Interface>, i: int)
    requires LastWithKey(xs, InterfaceName, i)
    ensures At(InterfacesPayload(xs), ["interface", xs[i].name]) == Some(InterfaceNode(xs[i]))
    ensures At(InterfacesPayload(xs), ["interface", xs[i].name, "ip", "address"]) == Some(JObj(map[xs[i].ip := Empty]))
  {
    var doc := InterfacesPayload(xs);
    var name := xs[i].name;
    AssignAllLast(xs, InterfaceName, InterfaceNode, i);
    AtCons(doc, "interface", [name]);
    AtCons(doc.fields["interface"], name, []);
    AtConcat(doc, ["interface", name], ["ip", "address"]);
    assert ["interface", name] + ["ip", "address"] == ["interface", name, "ip", "address"];
  }
}
