# bnkboard backend handlers, modelled in Dafny

The backend (`backend/main.py`) is a FastAPI service with three GET handlers.
Each one runs `kubectl ... -o json`, parses the output and turns the listed
Kubernetes objects into the JSON a dashboard displays:

- `GET /api/firewall-rules` flattens every rule of every `F5BigFwPolicy` into
  one display record of strings.
- `GET /api/namespaces` lists the namespaces that hold at least one Gateway.
- `GET /api/policies/{namespace}` lists the firewall policies that target a
  Gateway of the namespace. Each policy is annotated in place with facts about
  that Gateway.

Any exception makes the handler answer a 500 payload instead.

This project models the transform inside each handler.

- **Inputs.** Each `kubectl` call followed by `yaml.safe_load` becomes an input
  value of type `Kube.Fetch`:
  - `Listed(doc)` is the parsed document;
  - `CommandFailed` is a `CalledProcessError`;
  - `Unusable` is any other exception, such as unparsable output.
- **Absent keys.** An absent key of the parsed JSON is an `Option` that is
  `None`. Each handler applies the default the code uses.
- **Errors.** The 500 payload is the value `Kube.Result.ServerError`.

The modules are:

- `Kube`: the parsed objects, `Option`, `Result` and `Fetch`.
- `Text`: `"\n".join` and its inverse `split("\n")`.
- `Accumulation`: the loop shape the three handlers share. It walks `items` in
  order, appends what each item contributes, and aborts on the first
  exception. Its lemmas (failure, concatenation, block position, membership)
  are proved once and reused.
- `FirewallRules`, `Namespaces` and `Policies`: one module per handler.

Each handler is a `method` with the handler's loops. It is proved equal to a
specification function (`Flatten`, `Kept`, `PoliciesView`), and the lemmas
state the promised properties of that function.

The policy handler keeps its heap structure.

- Every parsed policy dict is a `PolicyObject` whose `gateway` field the inner
  loop overwrites.
- The answer is the sequence of appended objects.
- `View` reads the objects as they stand when the response is serialised.

The aliasing this causes is proved:

- a policy with several matching refs appears once per ref;
- every copy shows the gateway of the last matching ref.

## Model

| member | source | states |
|---|---|---|
| Text.SplitJoin | backend/main.py:24 | joining a non-empty list of newline-free strings with `"\n"` and splitting the result gives the list back |
| Text.JoinLinesEmpty | backend/main.py:24 | the join is `""` exactly for no parts or one empty part |
| Accumulation.AccumulateFails | backend/main.py:17-42 | a loop of the shared shape fails exactly when one item raises |
| Accumulation.AccumulateStep | backend/main.py:17-42 | one more iteration appends the item's contribution, or gives the 500 error when the loop so far or the item raised |
| Accumulation.AccumulateFailsAt | backend/main.py:17-42 | one item that raises is enough for the 500 error, whatever the other items do |
| Accumulation.AccumulateConcat | backend/main.py:17-42 | the loop over `a + b` yields the output for `a` followed by the output for `b`, and fails if either fails |
| Accumulation.AccumulateBlock | backend/main.py:17-42 | item `i`'s contribution is one contiguous block right after those of the earlier items |
| Accumulation.AccumulateAt | backend/main.py:17-42 | when the loop succeeds, every item and every prefix succeeded, and element `k` of item `i`'s contribution is at offset `k` after the output of the earlier items |
| Accumulation.AccumulateMembers | backend/main.py:17-42 | a value is in the output exactly when some item contributed it |
| FirewallRules.FirewallRules | backend/main.py:9-42 | the handler answers 500 when the kubectl call fails, and otherwise exactly `Flatten` of the listed policies |
| FirewallRules.FlattenFails | backend/main.py:18-42 | the answer is the 500 error exactly when some policy has no `metadata.name`, even one without rules |
| FirewallRules.FlattenStep | backend/main.py:18-39 | one more named policy appends its records to the output |
| FirewallRules.RecordsStep | backend/main.py:26-39 | one more rule appends its record after those of the earlier rules |
| FirewallRules.PolicyRecordsAt | backend/main.py:19-39 | a policy that yields records has a name, and its rule `j` gives its `j`-th record, built with the policy's name, target display and timestamp |
| FirewallRules.AppendRecords | backend/main.py:26-39 | the inner loop appends exactly the policy's records, one per rule in rule order |
| FirewallRules.FlattenLength | backend/main.py:18-39 | exactly one record per rule, so a policy without `spec.rule` contributes none |
| FirewallRules.FlattenAt | backend/main.py:18-39 | the record at `RuleCount(items[..i]) + j` (ordered by policy, then by rule) is built from rule `j` of policy `i` with that policy's name, target display and timestamp (`""` when `creationTimestamp` is absent), each field defaulting to `""` |
| FirewallRules.LoggingRoundTrip | backend/main.py:36 | `str` of an absent, `True` or `False` logging flag (`""`, `"True"`, `"False"`) reads back to the same flag |
| FirewallRules.RecordRoundTrip | backend/main.py:32-36 | a record's logging column reads back to the rule's flag; its source, destination and ports columns split back to the rule's lists when these are non-empty and newline-free |
| FirewallRules.TargetDisplayRoundTrip | backend/main.py:21-24 | the target column lists the `targetRefs` names in order, a missing name as an empty line |
| Namespaces.ListNamespaces | backend/main.py:46-70 | the handler answers 500 when `kubectl get ns` fails, and otherwise exactly `Kept` of the namespace items |
| Namespaces.KeptFails | backend/main.py:55-70 | the answer is the 500 error exactly when some namespace has no name or its gateway query raised something other than `CalledProcessError` |
| Namespaces.KeptMembers | backend/main.py:54-64 | a namespace is listed exactly when an item has that name and its gateway query answered a non-empty `items` list |
| Namespaces.KeptConcat | backend/main.py:53-66 | the order of the namespaces is kept: the output for two runs of items is the output for the first run followed by that for the second |
| Namespaces.KeptSkipsFailedQuery | backend/main.py:57-66 | a namespace whose gateway query failed with `CalledProcessError` is dropped and nothing else changes |
| Policies.PolicyObject.constructor | backend/main.py:89 | a parsed policy dict starts without a `gateway` key |
| Policies.ViewGrows | backend/main.py:109 | appending one object `n` times shows `n` copies of its current state |
| Policies.GatewayNames | backend/main.py:82 | the names come in gateway order, one per gateway; the 500 error exactly when some gateway has no name |
| Policies.FindGateway | backend/main.py:97 | the search returns the first index whose gateway has the name, or none when no gateway has it |
| Policies.FirstNamedAt | backend/main.py:97 | the first gateway with the name is the one `FirstNamed` picks |
| Policies.FirstNamedFound | backend/main.py:97 | `FirstNamed` finds a gateway exactly when one has the name, and the gateway it finds has that name |
| Policies.GatewayInfoOf | backend/main.py:99-108 | the info is computed unless the gateway has no name or a present but empty `listeners`, `addresses` or first-listener `kinds` list; it carries the gateway's name |
| Policies.MatchesByName | backend/main.py:95-97 | `kind == "Gateway"` and the name among the gateway names holds exactly when the search for that name succeeds |
| Policies.LoadPolicies | backend/main.py:89 | parsing gives one fresh, distinct object per listed policy, each holding its policy and no `gateway` key yet |
| Policies.MatchPolicy | backend/main.py:93-109 | the inner loop appends the object once per matching ref, leaves the info of the last matching ref in `gateway` (unchanged when none matches), and fails exactly when the specification does |
| Policies.PoliciesByNamespace | backend/main.py:74-113 | the handler fails exactly when `PoliciesView` does; otherwise the appended objects, read at the end, show exactly `PoliciesView` |
| Policies.AnnotateNext | backend/main.py:92-109 | one more policy through the inner loop extends the view by that policy's entries |
| Policies.AnnotateFails | backend/main.py:95-113 | the answer is the 500 error exactly when some policy has a matching ref whose gateway's info raises, never a partial list |
| Policies.AnnotateFailsAt | backend/main.py:99-113 | one failing ref of one policy is enough for the 500 error |
| Policies.RefInfosLength | backend/main.py:94-108 | the inner loop computes exactly one info per matching ref |
| Policies.RefInfosAt | backend/main.py:94-108 | one info per matching ref in ref order, each that of the first gateway with the ref's name, and naming that gateway |
| Policies.AnnotateLength | backend/main.py:92-109 | a policy appears once per matching ref: the answer has `MatchTotal` entries |
| Policies.PolicyEntriesAt | backend/main.py:94-109 | every entry one policy contributes is that policy with the info of its last matching ref, one entry per matching ref |
| Policies.AnnotateBlockAt | backend/main.py:92-109 | the entries of policy `i` form one block right after the entries of the earlier policies, each showing the info of its last matching ref |
| Policies.AnnotateAt | backend/main.py:92-109 | the copies of policy `i` follow the entries of the earlier policies, and every copy shows the info of the policy's last matching ref |
| Policies.PolicyEntriesMembers | backend/main.py:94-109 | every entry of one policy is that policy with the info of its last target |
| Policies.AnnotateMembers | backend/main.py:92-111 | an entry is in the answer exactly when its policy is listed and has a matching ref, and the entry shows the info of the last one; policies without a matching ref are absent |
| Policies.AnnotatePerRefAt | backend/main.py:94-109 | corrected: entry `k` of policy `i` shows the gateway of its own `k`-th matching ref |
| Policies.PerRefAgreesOne | backend/main.py:94-109 | for one policy, the corrected and the as-written entries agree exactly when all its matching refs name the same gateway |
| Policies.AnnotatePerRefAgrees | backend/main.py:94-109 | the corrected and the as-written annotation fail on the same inputs, and agree when every policy's matching refs name a single gateway (possibly through several refs) |
| Policies.AnnotatePerRefDiffers | backend/main.py:94-109 | conversely, when the handler succeeds and the two annotations agree, no policy's matching refs name two different gateways |
| Policies.TwoTargetsInfos | backend/main.py:94-108 | a policy targeting gateways `gw-a` and `gw-b` gets one info for each, in ref order |
| Policies.AliasingCounterexample | backend/main.py:102-109 | for that policy the handler shows `gw-b` twice, where the per-ref annotation shows `gw-a` and then `gw-b` |

## Left out

- The `kubectl` invocations and `yaml.safe_load` are external I/O. Their outcomes are the input values of type `Kube.Fetch`.
  - Only the per-namespace gateway query (backend/main.py:57-66) tells `CalledProcessError` apart from other exceptions.
  - Every other call's failure is the 500 error.
- The FastAPI app, the route decorators, the `{"namespaces": ...}` and `{"policies": ...}` wrappers, and the `JSONResponse` construction are not modelled. The text of the exception message is not modelled either: every error is the single value `ServerError`.
- JSON `null` and values of an unexpected type are not modelled. Every key is either absent or holds a value of the type the code expects.
  - In particular, a non-string element of a joined list is not modelled. Such an element makes `"\n".join` raise `TypeError`.
  - Listener ports are integers or absent.
- Python's `str()` is modelled only on what the handler passes it: an absent `logging` or a boolean.
- FirewallRules.LoggingRoundTrip: follows from the definitions by evaluation, so it carries no proof of its own.
- Policies.FindGateway: requires every gateway to have a name, because the handler has already raised at backend/main.py:82 otherwise.
- Policies.MatchPolicy: leaves `gateway` unspecified when it fails. The handler then discards every object.
- Policies.FirstNamed: skips unnamed gateways where Python would raise `KeyError`. The handler only reaches the search after every gateway was found to have a name.
- The `namespace` path parameter only selects which gateways `kubectl` lists, so it is part of the gateway input value.
- Route or HTTPRoute topology, security-policy bindings, egress configuration and SNAT pools: no code for them exists in the handlers.

## Findings

| source | as written | input that shows it | evidently intended | confidence | as-written member | corrected member |
|---|---|---|---|---|---|---|
| backend/main.py:102-109 | the policy dict is annotated in place and the same dict is appended once per matching ref, so every copy shows the gateway of the last matching ref | one policy whose `targetRefs` name Gateways `gw-a` and `gw-b`, both in the namespace: the answer shows `gw-b` twice | each appended entry shows the gateway of the ref that matched | not executed | Policies.AliasingCounterexample | Policies.AnnotatePerRefAt |
