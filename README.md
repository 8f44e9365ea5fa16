# BGPapi configuration scripts, modelled in Dafny

BGPapi configures NVIDIA Cumulus Linux switches through the NVUE REST API.
Each configuration script runs one transaction against a device:

1. create a revision;
2. build one JSON document from the script's input;
3. stage it into the revision with a PATCH at the root mount path `/`;
4. apply the revision;
5. poll the revision until it reaches a terminal state or the retry budget runs out.

The script's exit status is 0 exactly when `wait_for_apply` saw the state `applied` within its retry budget (30 polls).

This project models the decision logic of that pipeline:

- **`json.dfy`**
  - JSON documents as Python decodes them.
  - Python truthiness and `dict.get`.
  - `str()` of scalars, with the decimal rendering of integers and its inverse.
  - Path lookup into a document.
  - The "assign every element under its key" loop that all builders use. A later element with an equal key replaces an earlier one.
- **`nvue_client.dfy`**
  - How `NVUEClient` reads the revision id out of the creation response.
  - How it normalises mount paths for `patch_config` and `get_config`.
  - The `wait_for_apply` polling loop. It is an imperative `while` loop, proved against a recursive specification function.
- **`transaction.dfy`**
  - The stage / apply / wait sequence shared by all scripts.
  - The exit-status mapping of their entry points.
- **`configure_interfaces.dfy`, `configure_ospf.dfy`, `configure_bgp.dfy`**
  - The three document builders. Each is an imperative method that mirrors the script's loops.
  - Each builder is proved equal to a declarative description of the document.
  - Lemmas state what the document holds at each path.

The device is abstract. The creation response is a parameter: its top-level entries in document order. So is the sequence of revision documents that successive status queries would return: `answers(k)` answers poll `k`.

The model follows the scripts as written, including what they do not do:

- `remote_as` is copied into the document unchanged: a value such as `internal` is not resolved to the local AS number.
- `wait_for_apply` has no separate timeout result. Running out of retries returns False, just like a rejected revision, and the BGP script prints its timeout message in both cases.
- A failed request is not retried, while polling or otherwise.
- The scripts do not merge documents themselves: each builds one document and stages it with a single PATCH at `/`. How the device combines that PATCH with its configuration is not modelled.
- The mount paths are fixed in the scripts and do not depend on the device.

## Model

| member | source | states |
|---|---|---|
| JsonTree.DecimalRoundTrip | scripts/configure_bgp.py:38 | the decimal text `str()` gives an integer parses back to that integer |
| JsonTree.DecimalInjective | scripts/configure_bgp.py:77 | two sequence numbers get the same rule key exactly when they are equal |
| JsonTree.Digits | scripts/configure_bgp.py:38 | the rendering of a natural number is non-empty, made only of the digits 0-9, and starts with 0 only for 0 itself |
| JsonTree.AtConcat | scripts/configure_bgp.py:30-31 | looking up a path in two steps (a prefix, then the rest below it) equals looking up the whole path |
| JsonTree.AssignAllKeys | scripts/configure_interfaces.py:17-18 | after assigning every element under its key, the keys present are exactly the keys of the elements |
| JsonTree.AssignAllLast | scripts/configure_interfaces.py:17-25 | the value under a key is built from the last element with that key; earlier ones are overwritten |
| JsonTree.AssignAllLookup | scripts/configure_interfaces.py:17-25 | every key present comes from some element, and its value is that of the last element with that key |
| JsonTree.KeySetLookup | scripts/configure_ospf.py:32-33 | the object built by mapping each element to {} holds {} under exactly the elements |
| JsonTree.AssignAllConstant | scripts/configure_ospf.py:32-33 | when every element is assigned the same value, every key present holds that value |
| NvueClient.Lookup | scripts/nvue_client.py:19-20 | a key is absent from the response exactly when no top-level entry carries it; when present, the value is the one of the last entry carrying it, as the JSON decoder keeps for a repeated key |
| NvueClient.RevisionId | scripts/nvue_client.py:15-24 | an empty response fails (StopIteration); without a `revision` key the id is the first top-level key; a container id fails only when `revision` is present |
| NvueClient.RevisionIdNested | scripts/nvue_client.py:19-22 | a `revision` object with a scalar `id` gives `str(id)` |
| NvueClient.RevisionIdFlat | scripts/nvue_client.py:19-23 | any other scalar `revision` value gives `str(value)` |
| NvueClient.RevisionIdRoundTrip | scripts/nvue_client.py:15-24 | for each of the three encodings a device may use (nested id, flat id, keyed by id), the client recovers exactly the id that was sent; the only exception is a response keyed by the id "revision" |
| NvueClient.RevisionIdNumeric | scripts/nvue_client.py:21-22 | a numeric nested id is rendered in decimal, and parsing that rendering gives the number back |
| NvueClient.NormalizePath | scripts/nvue_client.py:27-28 | the result always starts with '/'; a path that already does is unchanged; otherwise exactly one '/' is prepended |
| NvueClient.NormalizePathIdempotent | scripts/nvue_client.py:72-73 | normalising twice is the same as normalising once |
| NvueClient.PatchConfig | scripts/nvue_client.py:26-36 | the PATCH goes to the normalised path, carries the revision as `rev`, and carries the payload unchanged |
| NvueClient.GetConfig | scripts/nvue_client.py:71-79 | the GET goes to the normalised path (a slash-prefixed argument is used as given, otherwise exactly one '/' is prepended) and carries the requested revision |
| NvueClient.Classify | scripts/nvue_client.py:52-58 | a poll decides "applied" exactly when the state is "applied", and "rejected" exactly when it is "invalid" or "apply_failed"; it raises exactly when the document is not an object (no `.get`) or the state is a list or object (unhashable in the set test); any other state, missing or scalar, means poll again |
| NvueClient.WaitForApply | scripts/nvue_client.py:50-60 | the loop returns what the polling specification `Wait` gives, within the retry budget, and every answer before the last poll was non-terminal |
| NvueClient.WaitFromFirstDecisive | scripts/nvue_client.py:51-58 | from any poll on, the result is decided by the first answer that is not pending |
| NvueClient.WaitFromAllPending | scripts/nvue_client.py:59-60 | when all remaining answers are pending, the loop returns False after using up the whole budget |
| NvueClient.WaitStopsAtFirstTerminal | scripts/nvue_client.py:55-58 | the loop stops at the first terminal answer, after exactly that many polls, and returns its verdict |
| NvueClient.WaitExhausted | scripts/nvue_client.py:60 | if every answer within the budget is pending, the result is False after `retries` polls |
| NvueClient.WaitZeroRetries | scripts/nvue_client.py:50-60 | with no retries the device is never polled and the result is False |
| NvueClient.WaitSucceedsIff | scripts/nvue_client.py:50-60 | the loop returns True exactly when, within the budget, the first terminal state is "applied" |
| NvueClient.FirstDecisive | scripts/nvue_client.py:51-58 | if some answer within the budget is terminal, there is a first such answer, and all answers before it are pending |
| NvueClient.WaitIgnoresLaterAnswers | scripts/nvue_client.py:55-58 | answers after the deciding poll do not affect the outcome |
| Transaction.ExitStatus | scripts/configure_bgp.py:92-97 | the exit status is 0 or 1 |
| Transaction.StageApplyWait | scripts/configure_bgp.py:84-97 | the document is staged at "/" in the created revision; the outcome is what `wait_for_apply` reports; the exit status is 0 exactly when it reports success |
| Transaction.TransactedExit | scripts/configure_ospf.py:35-52 | a script exits with 0 exactly when a revision id was obtained and `wait_for_apply` saw `applied` within its retry budget, and a completed run staged exactly its document at "/" |
| ConfigureInterfaces.InterfaceNode | scripts/configure_interfaces.py:18-25 | each interface node holds exactly `ip` and `type`, with type "swp", and `ip` is exactly `{address: {<ip>: {}}}` |
| ConfigureInterfaces.BuildInterfacesPayload | scripts/configure_interfaces.py:15-25 | the loop builds the declarative interfaces document |
| ConfigureInterfaces.ConfigureInterfaces | scripts/configure_interfaces.py:6-45 | runs the transaction on that document and exits with 0 exactly when a revision id was obtained and `wait_for_apply` saw `applied` within its retry budget |
| ConfigureInterfaces.InterfacesRoot | scripts/configure_interfaces.py:15 | the `interface` object always exists, and is {} for an empty input |
| ConfigureInterfaces.InterfaceKeys | scripts/configure_interfaces.py:17-18 | an interface name has an entry exactly when some input interface has that name |
| ConfigureInterfaces.InterfaceLastWins | scripts/configure_interfaces.py:17-25 | with repeated names the last entry replaces the earlier ones entirely: its address is the only one |
| ConfigureOspf.BuildOspfPayload | scripts/configure_ospf.py:13-33 | the skeleton and the network loop build the declarative OSPF document |
| ConfigureOspf.ConfigureOspf | scripts/configure_ospf.py:6-52 | runs the transaction on that document and exits with 0 exactly when a revision id was obtained and `wait_for_apply` saw `applied` within its retry budget |
| ConfigureOspf.OspfNodeAt | scripts/configure_ospf.py:13-17 | the OSPF node sits at `vrf/default/router/ospf` |
| ConfigureOspf.OspfSkeleton | scripts/configure_ospf.py:18-19 | OSPF is enabled ("on") with the router id passed through unchanged |
| ConfigureOspf.OspfSingleArea | scripts/configure_ospf.py:20-24 | the `area` object holds exactly one area, keyed by `str(area)` |
| ConfigureOspf.OspfNetworkObject | scripts/configure_ospf.py:20-23 | the single area always holds a `network` object, the one the network loop fills |
| ConfigureOspf.OspfNetworks | scripts/configure_ospf.py:20-33 | the area's `network` object always exists; a prefix is a key in it, mapped to {}, exactly when it is among the input networks |
| ConfigureOspf.TwoNetworkScenario | scripts/configure_ospf.py:20-33 | area 0 with two networks gives key "0" holding exactly those two prefixes |
| ConfigureBgp.RuleNode | scripts/configure_bgp.py:39-43 | a route-map rule carries `match` exactly when the match is truthy and `action` exactly when the actions are truthy, with the values unchanged; with neither it is {} |
| ConfigureBgp.NeighborNode | scripts/configure_bgp.py:48-62 | a neighbor node always has remote-as (unchanged) and type (default "numbered"); update-source, next-hop-self and the in/out route-map references appear exactly when truthy, with their values unchanged |
| ConfigureBgp.PrefixRuleNode | scripts/configure_bgp.py:78-81 | a prefix-list rule holds exactly `action` and `match.prefix` |
| ConfigureBgp.BuildRouteMaps | scripts/configure_bgp.py:33-44 | the nested route-map loop builds one `rule` object per route-map name, with rules keyed by sequence number |
| ConfigureBgp.BuildNeighbor | scripts/configure_bgp.py:48-62 | the key-by-key construction of one neighbor's configuration yields that neighbor's node |
| ConfigureBgp.BuildNeighbors | scripts/configure_bgp.py:47-63 | the neighbor loop builds one node per neighbor address |
| ConfigureBgp.BuildAggregates | scripts/configure_bgp.py:67-71 | the aggregate loop maps every prefix to {} |
| ConfigureBgp.BuildPrefixLists | scripts/configure_bgp.py:72-81 | the prefix-list loop builds one `rule` object per prefix-list name |
| ConfigureBgp.BuildBgpPayload | scripts/configure_bgp.py:14-81 | the whole builder, in the script's order, yields the declarative BGP document |
| ConfigureBgp.ConfigureBgp | scripts/configure_bgp.py:6-106 | runs the transaction on that document and exits with 0 exactly when a revision id was obtained and `wait_for_apply` saw `applied` within its retry budget |
| ConfigureBgp.BgpNodeAt | scripts/configure_bgp.py:14-19 | the bgp node sits at `network/vrf/default/router/bgp` |
| ConfigureBgp.BelowBgp | scripts/configure_bgp.py:31 | every path below the bgp node resolves within that node |
| ConfigureBgp.BgpSkeleton | scripts/configure_bgp.py:19-23 | the bgp node always holds the AS number and router id unchanged, `enable` "on" and a `neighbor` object ({} without neighbors), and holds `address-family` only with aggregates |
| ConfigureBgp.NeighborAt | scripts/configure_bgp.py:63 | a neighbor path resolves to the neighbor map's entry for that address, if there is one |
| ConfigureBgp.BgpNeighborKeys | scripts/configure_bgp.py:47-63 | an address has a neighbor node exactly when some input neighbor has that address |
| ConfigureBgp.BgpNeighborLastWins | scripts/configure_bgp.py:48-63 | the node under an address is the last neighbor's node with that address; remote-as is copied unchanged and type defaults to "numbered" |
| ConfigureBgp.BelowNeighbor | scripts/configure_bgp.py:63 | a path below a neighbor's address resolves within the node of the last neighbor with that address |
| ConfigureBgp.BgpRouteMapsPresence | scripts/configure_bgp.py:32-33 | `policy/route-map` exists exactly when route-maps are given |
| ConfigureBgp.BgpRouteMapLastWins | scripts/configure_bgp.py:34-36 | the object under a route-map name is built from the last route-map with that name |
| ConfigureBgp.RouteMapRule | scripts/configure_bgp.py:37-44 | each entry is stored under the decimal string of its sequence number; only a later entry with the same number replaces it |
| ConfigureBgp.RouteMapRuleKeys | scripts/configure_bgp.py:37-44 | the rule keys are exactly the decimal strings of the entries' sequence numbers |
| ConfigureBgp.BgpAddressFamilyPresence | scripts/configure_bgp.py:67-68 | the bgp node has `address-family` exactly when aggregates are given |
| ConfigureBgp.BgpAggregateObject | scripts/configure_bgp.py:67-69 | with aggregates, `address-family/ipv4-unicast/aggregate-route` under the bgp node holds the aggregates loop's object |
| ConfigureBgp.BgpAggregateRoute | scripts/configure_bgp.py:67-71 | with aggregates, a prefix is a key under `address-family/ipv4-unicast/aggregate-route`, mapped to {}, exactly when it is an input aggregate |
| ConfigureBgp.BgpPrefixListsPresence | scripts/configure_bgp.py:72-73 | `prefix-list` exists exactly when prefix-lists are given |
| ConfigureBgp.BgpPrefixListLastWins | scripts/configure_bgp.py:74-75 | the object under a prefix-list name is built from the last prefix-list with that name |
| ConfigureBgp.PrefixRuleFields | scripts/configure_bgp.py:78-81 | a prefix-list rule's `action` is the entry's action and its `match.prefix` the entry's prefix |
| ConfigureBgp.PrefixListRule | scripts/configure_bgp.py:76-81 | the rule under the decimal string of an entry's sequence number is exactly that entry's rule node (only `action` and `match.prefix`); only a later entry with the same number replaces it |
| ConfigureBgp.PrefixListRuleKeys | scripts/configure_bgp.py:76-78 | a prefix-list's rule keys are exactly the decimal strings of its entries' sequence numbers |
| ConfigureBgp.ScenarioNeighborNode | scripts/configure_bgp.py:58-62 | the neighbor node on its own: when `route_map` has only `in`, the node has `in/route-map` and no `out` |
| ConfigureBgp.ScenarioInboundReference | scripts/configure_bgp.py:58-63 | in the whole document, that neighbor's entry under its address has `in/route-map` "RM-IN" and no `out` |
| ConfigureBgp.ScenarioRuleNode | scripts/configure_bgp.py:38-44 | an entry with sequence 10 and actions but no match becomes rule "10" holding only `action` |
| ConfigureBgp.ScenarioRule | scripts/configure_bgp.py:33-44 | in the whole document that rule sits under `network/policy/route-map/RM-IN/rule/10` |

## Left out

- HTTP transport. No requests are sent:
  - the model does not cover `raise_for_status`, TLS verification, the base URL, the credentials, or the `NVUEClient` constructor;
  - a failing HTTP status, which would raise from any client call, is not modelled;
  - `patch_config` and `get_config` are modelled only by the request they address;
  - `get_revision` is not modelled: its results are the abstract sequence `answers`.
- `apply_revision` is not modelled: it is a bare POST with no decision logic. `Outcome` records no apply request.
- `time.sleep` between polls is not modelled. Neither is any `print` output, so the BGP script's "timeout" message is not modelled either.
- Command-line handling is not modelled: the argument count check, `sys.argv`, and `json.loads` of the input. The builders take typed inputs.
- The builders assume the input types the scripts expect: sequence numbers are integers, names and addresses are strings, lists are lists, and floats do not occur. Other input either raises (`KeyError`, `TypeError`, `AttributeError`) or gives a different document: a string sequence number is used as written, and a string where a list is expected is iterated character by character. Neither case is modelled.
- Dictionary key order is not modelled: JSON objects are maps.
- Python aliasing is not modelled. The script mutates `network_root` and `vrf_default` inside `bgp_config`; the builders instead assemble local maps into the same final document.
- NvueClient.RevisionId: Python's `str()` of a list or dict id is not modelled. Such an id yields the failure `ContainerId` instead of a string.
- NvueClient.RevisionId: a creation response that is not a JSON object, such as a list, is not modelled.
- ConfigureOspf.AreaKey: a list or object `area` is not modelled, because its `str()` is not rendered. The area is restricted to scalars.
- NvueClient.Wait: the answers do not depend on the revision id being polled. The device's behaviour is one abstract sequence of documents.
