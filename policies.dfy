/** `GET /api/policies/{namespace}` (backend/main.py:73-113): the firewall
    policies that target a Gateway of the namespace, each annotated in place
    with facts about that Gateway. */
module Policies {
  import opened Kube
  import opened Accumulation

  /** The value written to `pol["gateway"]` (backend/main.py:102-108). `port` is
      the listener's port, `None` standing for the `""` default. */
  datatype GatewayInfo = GatewayInfo(name: string, ip: string, port: Option<int>, protocol: string, kind: string)

  /** One element of the response's "policies" list as it is serialised: the
      policy dict with the "gateway" key it holds once the loop is over. */
  datatype Entry = Entry(policy: FirewallPolicy, gateway: Option<GatewayInfo>)

  /** A policy dict of the parsed `kubectl get f5bigfwpolicy` output. The handler
      writes only its "gateway" key; the rest of the dict is `doc`. */
  class PolicyObject {
    const doc: FirewallPolicy
    var gateway: Option<GatewayInfo>

    constructor (doc: FirewallPolicy)
      ensures this.doc == doc && gateway == None
    {
      this.doc := doc;
      gateway := None;
    }
  }

  /** What the response shows for a list of policy objects, read from the heap. */
  function View(objs: seq<PolicyObject>): seq<Entry>
    reads objs
  {
    seq(|objs|, k reads objs requires 0 <= k < |objs| => Entry(objs[k].doc, objs[k].gateway))
  }

  /** Appending `n` references to one object shows `n` copies of its current state. */
  lemma ViewGrows(done: seq<PolicyObject>, pol: PolicyObject, n: nat)
    ensures View(done + seq(n, _ => pol)) == View(done) + Copies(Entry(pol.doc, pol.gateway), n)
  {
    var objs := done + seq(n, _ => pol);
    assert forall k :: |done| <= k < |objs| ==> objs[k] == pol;
    assert forall k :: 0 <= k < |done| ==> objs[k] == done[k];
  }

  // ---- gateways ----

  /** `[item["metadata"]["name"] for item in gw_data.get("items", [])]`: the
      names in gateway order, or the 500 error when one gateway has none. */
  function GatewayNames(gws: seq<Gateway>): (r: Result<seq<string>>)
    ensures r.Ok? <==> forall k :: 0 <= k < |gws| ==> NameOf(gws[k].metadata).Some?
    ensures r.Ok? ==> |r.value| == |gws| && forall k :: 0 <= k < |gws| ==> NameOf(gws[k].metadata) == Some(r.value[k])
    decreases |gws|
  {
    if gws == [] then Ok([])
    else
      var front := GatewayNames(gws[..|gws| - 1]);
      var name := NameOf(gws[|gws| - 1].metadata);
      if front.ServerError? || name.None? then ServerError
      else Ok(front.value + [name.value])
  }

  /** `next((g for g in gw_data.get("items", []) if g["metadata"]["name"] == name), None)`,
      for gateways that all have a name (the handler has already raised otherwise). */
  function FirstNamed(gws: seq<Gateway>, name: string): Option<Gateway>
    decreases |gws|
  {
    if gws == [] then None
    else if NameOf(gws[0].metadata) == Some(name) then Some(gws[0])
    else FirstNamed(gws[1..], name)
  }

  /** The generator search of backend/main.py:97, as the loop it runs. */
  method FindGateway(gws: seq<Gateway>, name: string) returns (found: Option<nat>)
    requires forall k :: 0 <= k < |gws| ==> NameOf(gws[k].metadata).Some?
    ensures found.None? ==> forall k :: 0 <= k < |gws| ==> NameOf(gws[k].metadata) != Some(name)
    ensures found.Some? ==> found.value < |gws| && NameOf(gws[found.value].metadata) == Some(name)
    ensures found.Some? ==> forall k :: 0 <= k < found.value ==> NameOf(gws[k].metadata) != Some(name)
  {
    var i := 0;
    while i < |gws|
      invariant 0 <= i <= |gws|
      invariant forall k :: 0 <= k < i ==> NameOf(gws[k].metadata) != Some(name)
    {
      if gws[i].metadata.value.name.value == name {
        return Some(i);
      }
      i := i + 1;
    }
    return None;
  }

  /** The gateway found by the search is the one `FirstNamed` specifies. */
  lemma {:induction false} FirstNamedAt(gws: seq<Gateway>, name: string, i: nat)
    requires i < |gws| && NameOf(gws[i].metadata) == Some(name)
    requires forall k :: 0 <= k < i ==> NameOf(gws[k].metadata) != Some(name)
    ensures FirstNamed(gws, name) == Some(gws[i])
  {
    if i > 0 {
      FirstNamedAt(gws[1..], name, i - 1);
    }
  }

  /** The search finds a gateway exactly when one has that name. */
  lemma {:induction false} FirstNamedFound(gws: seq<Gateway>, name: string)
    ensures FirstNamed(gws, name).Some? <==> exists k :: 0 <= k < |gws| && NameOf(gws[k].metadata) == Some(name)
    ensures FirstNamed(gws, name).Some? ==> NameOf(FirstNamed(gws, name).value.metadata) == Some(name)
    decreases |gws|
  {
    if gws != [] {
      FirstNamedFound(gws[1..], name);
      assert forall k :: 1 <= k < |gws| ==> gws[k] == gws[1..][k - 1];
    }
  }

  /** `listeners`, present or not, of a gateway's `spec` */
  function ListenersOf(gw: Gateway): Option<seq<Listener>> {
    if gw.spec.Some? then gw.spec.value.listeners else None
  }

  /** `addresses`, present or not, of a gateway's `spec` (not its `status`) */
  function GatewayAddressesOf(gw: Gateway): Option<seq<GatewayAddress>> {
    if gw.spec.Some? then gw.spec.value.addresses else None
  }

  /** `kinds`, present or not, of a listener's `allowedRoutes` */
  function KindsOf(l: Listener): Option<seq<RouteKind>> {
    if l.allowedRoutes.Some? then l.allowedRoutes.value.kinds else None
  }

  /** The `{}` that `.get("listeners", [{}])[0]` yields when `listeners` is absent. */
  const NoListener := Listener(None, None, None)

  /** backend/main.py:99-108: the first listener's port and protocol, the first
      allowed route kind and the first `spec.addresses` value, each `""` when its
      key is absent. Indexing `[0]` into a present but empty list raises. */
  function GatewayInfoOf(gw: Gateway): (r: Result<GatewayInfo>)
    ensures r.ServerError? <==>
      (|| NameOf(gw.metadata).None?
       || ListenersOf(gw) == Some([])
       || GatewayAddressesOf(gw) == Some([])
       || (ListenersOf(gw).Some? && ListenersOf(gw).value != [] && KindsOf(ListenersOf(gw).value[0]) == Some([])))
    ensures r.Ok? ==> Some(r.value.name) == NameOf(gw.metadata)
  {
    match NameOf(gw.metadata)
    case None => ServerError
    case Some(name) =>
      var listeners := ListenersOf(gw);
      var addresses := GatewayAddressesOf(gw);
      if listeners == Some([]) || addresses == Some([]) then ServerError
      else
        var listener := if listeners.None? then NoListener else listeners.value[0];
        var kinds := KindsOf(listener);
        if kinds == Some([]) then ServerError
        else
          var kind := if kinds.None? then "" else kinds.value[0].kind.GetOr("");
          var ip := if addresses.None? then "" else addresses.value[0].value.GetOr("");
          Ok(GatewayInfo(name, ip, listener.port, listener.protocol.GetOr(""), kind))
  }

  // ---- matching ----

  /** `tref.get("kind") == "Gateway" and tref.get("name") in gw_names`, stated
      with the search that follows it (see MatchesByName). */
  predicate Matches(gws: seq<Gateway>, ref: TargetRef) {
    ref.kind == Some("Gateway") && ref.name.Some? && FirstNamed(gws, ref.name.value).Some?
  }

  /** With `names` the gateway names, the handler's test is exactly `Matches`. */
  lemma MatchesByName(gws: seq<Gateway>, names: seq<string>, ref: TargetRef)
    requires GatewayNames(gws) == Ok(names)
    ensures (ref.kind == Some("Gateway") && ref.name.Some? && ref.name.value in names) <==> Matches(gws, ref)
  {
    if ref.name.Some? {
      FirstNamedFound(gws, ref.name.value);
      if ref.name.value in names {
        var k :| 0 <= k < |names| && names[k] == ref.name.value;
        assert NameOf(gws[k].metadata) == Some(ref.name.value);
      }
    }
  }

  /** What one target ref contributes to a policy's list of computed infos. */
  function RefInfo(gws: seq<Gateway>, ref: TargetRef): Result<seq<GatewayInfo>> {
    if !Matches(gws, ref) then Ok([])
    else
      match GatewayInfoOf(FirstNamed(gws, ref.name.value).value)
      case ServerError => ServerError
      case Ok(info) => Ok([info])
  }

  function RefInfoOf(gws: seq<Gateway>): TargetRef -> Result<seq<GatewayInfo>> {
    ref => RefInfo(gws, ref)
  }

  /** The infos the inner loop computes for a policy's refs, in ref order. */
  function RefInfos(gws: seq<Gateway>, refs: seq<TargetRef>): Result<seq<GatewayInfo>> {
    Accumulate(refs, RefInfoOf(gws))
  }

  /** The names of the matching refs, in ref order. */
  function MatchingNames(gws: seq<Gateway>, refs: seq<TargetRef>): seq<string>
    decreases |refs|
  {
    if refs == [] then []
    else
      var ref := refs[|refs| - 1];
      MatchingNames(gws, refs[..|refs| - 1]) + if Matches(gws, ref) then [ref.name.value] else []
  }

  /** As written (backend/main.py:94-109): the policy dict is appended once per
      matching ref, and every append is the same object, which ends up holding
      the info of the last matching ref. */
  function PolicyEntries(gws: seq<Gateway>, pol: FirewallPolicy): Result<seq<Entry>> {
    match RefInfos(gws, TargetRefsOf(pol))
    case ServerError => ServerError
    case Ok(infos) => Ok(if infos == [] then [] else Copies(Entry(pol, Some(infos[|infos| - 1])), |infos|))
  }

  /** `n` appends of one and the same object, as the response shows them. */
  function Copies(e: Entry, n: nat): seq<Entry> {
    seq(n, _ => e)
  }

  function PolicyEntriesOf(gws: seq<Gateway>): FirewallPolicy -> Result<seq<Entry>> {
    pol => PolicyEntries(gws, pol)
  }

  /** The specification of the handler's outer loop. */
  function Annotate(gws: seq<Gateway>, pols: seq<FirewallPolicy>): Result<seq<Entry>> {
    Accumulate(pols, PolicyEntriesOf(gws))
  }

  /** The whole response: both kubectl calls, the gateway names, then the loop. */
  function PoliciesView(gatewayFetch: Fetch<ListDoc<Gateway>>, policyFetch: Fetch<ListDoc<FirewallPolicy>>): Result<seq<Entry>> {
    if !gatewayFetch.Listed? || GatewayNames(ItemsOf(gatewayFetch.doc)).ServerError? || !policyFetch.Listed? then ServerError
    else Annotate(ItemsOf(gatewayFetch.doc), ItemsOf(policyFetch.doc))
  }

  // ---- the handler ----

  /** `yaml.safe_load` of the policy list: one fresh dict per item. */
  method LoadPolicies(docs: seq<FirewallPolicy>) returns (objs: seq<PolicyObject>)
    ensures |objs| == |docs|
    ensures forall k :: 0 <= k < |docs| ==> fresh(objs[k]) && objs[k].doc == docs[k] && objs[k].gateway == None
    ensures forall p, q :: 0 <= p < q < |objs| ==> objs[p] != objs[q]
  {
    objs := [];
    var i := 0;
    while i < |docs|
      invariant 0 <= i <= |docs| && |objs| == i
      invariant forall k :: 0 <= k < i ==> fresh(objs[k]) && objs[k].doc == docs[k] && objs[k].gateway == None
      invariant forall p, q :: 0 <= p < q < i ==> objs[p] != objs[q]
    {
      var obj := new PolicyObject(docs[i]);
      objs := objs + [obj];
      i := i + 1;
    }
  }

  /** The inner loop of backend/main.py:94-109 for one policy object: `pol` is
      appended to `matched` once per matching ref, and `pol["gateway"]` is
      overwritten each time, so it ends with the info of the last one. */
  method MatchPolicy(gws: seq<Gateway>, names: seq<string>, pol: PolicyObject, matched: seq<PolicyObject>)
    returns (r: Result<seq<PolicyObject>>)
    requires GatewayNames(gws) == Ok(names)
    modifies pol
    ensures r.ServerError? <==> RefInfos(gws, TargetRefsOf(pol.doc)).ServerError?
    ensures r.Ok? ==> var infos := RefInfos(gws, TargetRefsOf(pol.doc)).value;
      && r.value == matched + seq(|infos|, _ => pol)
      && (infos != [] ==> pol.gateway == Some(infos[|infos| - 1]))
      && (infos == [] ==> pol.gateway == old(pol.gateway))
  {
    var targetRefs := TargetRefsOf(pol.doc);
    var appended := matched;
    ghost var infos: seq<GatewayInfo> := [];
    var j := 0;
    while j < |targetRefs|
      invariant 0 <= j <= |targetRefs|
      invariant RefInfos(gws, targetRefs[..j]) == Ok(infos)
      invariant appended == matched + seq(|infos|, _ => pol)
      invariant infos != [] ==> pol.gateway == Some(infos[|infos| - 1])
      invariant infos == [] ==> pol.gateway == old(pol.gateway)
    {
      var tref := targetRefs[j];
      AccumulateStep(targetRefs, RefInfoOf(gws), j);
      MatchesByName(gws, names, tref);
      if tref.kind == Some("Gateway") && tref.name.Some? && tref.name.value in names {
        var found := FindGateway(gws, tref.name.value);
        if found.Some? {
          FirstNamedAt(gws, tref.name.value, found.value);
          var info := GatewayInfoOf(gws[found.value]);
          if info.ServerError? {
            AccumulateFailsAt(targetRefs, RefInfoOf(gws), j);
            return ServerError;
          }
          pol.gateway := Some(info.value);
          infos := infos + [info.value];
        }
        appended := appended + [pol];
      } else {
        assert infos + [] == infos;
      }
      j := j + 1;
    }
    assert targetRefs[..|targetRefs|] == targetRefs;
    r := Ok(appended);
  }

  /** The handler (backend/main.py:74-113) with both kubectl calls replaced by
      their outcomes. The answer is the list of policy objects it appended,
      as they stand at the end. */
  method PoliciesByNamespace(gatewayFetch: Fetch<ListDoc<Gateway>>, policyFetch: Fetch<ListDoc<FirewallPolicy>>)
    returns (r: Result<seq<PolicyObject>>)
    ensures r.ServerError? <==> PoliciesView(gatewayFetch, policyFetch).ServerError?
    ensures r.Ok? ==> PoliciesView(gatewayFetch, policyFetch) == Ok(View(r.value))
  {
    if !gatewayFetch.Listed? {
      return ServerError;
    }
    var gws := ItemsOf(gatewayFetch.doc);
    var gwNames := GatewayNames(gws);
    if gwNames.ServerError? {
      return ServerError;
    }
    var names := gwNames.value;
    if !policyFetch.Listed? {
      return ServerError;
    }
    ghost var pols := ItemsOf(policyFetch.doc);
    var objs := LoadPolicies(ItemsOf(policyFetch.doc));
    var matched: seq<PolicyObject> := [];
    assert pols[..0] == [] && View(matched) == [];
    var i := 0;
    while i < |objs|
      invariant 0 <= i <= |objs|
      invariant forall k :: 0 <= k < |objs| ==> fresh(objs[k]) && objs[k].doc == pols[k]
      invariant forall o :: o in matched ==> o in objs[..i]
      invariant Annotate(gws, pols[..i]) == Ok(View(matched))
    {
      var pol := objs[i];
      ghost var done := matched;
      assert pol !in done;
      var next := MatchPolicy(gws, names, pol, matched);
      if next.ServerError? {
        AccumulateFailsAt(pols, PolicyEntriesOf(gws), i);
        return ServerError;
      }
      matched := next.value;
      AnnotateNext(gws, pols, i, done, pol);
      i := i + 1;
    }
    assert pols[..|objs|] == pols;
    r := Ok(matched);
  }

  /** One more policy object through the inner loop extends the view by that
      policy's entries. */
  lemma AnnotateNext(gws: seq<Gateway>, pols: seq<FirewallPolicy>, i: nat, done: seq<PolicyObject>, pol: PolicyObject)
    requires i < |pols| && pol.doc == pols[i]
    requires Annotate(gws, pols[..i]) == Ok(View(done))
    requires RefInfos(gws, TargetRefsOf(pol.doc)).Ok?
    requires var infos := RefInfos(gws, TargetRefsOf(pol.doc)).value;
      infos != [] ==> pol.gateway == Some(infos[|infos| - 1])
    ensures Annotate(gws, pols[..i + 1]) == Ok(View(done + seq(|RefInfos(gws, TargetRefsOf(pol.doc)).value|, _ => pol)))
  {
    var infos := RefInfos(gws, TargetRefsOf(pol.doc)).value;
    AccumulateStep(pols, PolicyEntriesOf(gws), i);
    ViewGrows(done, pol, |infos|);
    assert PolicyEntries(gws, pol.doc).value == Copies(Entry(pol.doc, pol.gateway), |infos|);
  }

  // ---- what the specification promises ----

  /** A matching ref whose gateway info raises. */
  predicate FailingRef(gws: seq<Gateway>, ref: TargetRef) {
    Matches(gws, ref) && GatewayInfoOf(FirstNamed(gws, ref.name.value).value).ServerError?
  }

  /** The loop fails exactly when some policy has a matching ref whose gateway
      has a present but empty `listeners`, `addresses` or `kinds` list; then the
      whole answer is the 500 error, never a partial list. */
  lemma AnnotateFails(gws: seq<Gateway>, pols: seq<FirewallPolicy>)
    ensures Annotate(gws, pols).ServerError?
        <==> exists i, j :: 0 <= i < |pols| && 0 <= j < |TargetRefsOf(pols[i])| && FailingRef(gws, TargetRefsOf(pols[i])[j])
  {
    AccumulateFails(pols, PolicyEntriesOf(gws));
    forall i | 0 <= i < |pols|
      ensures PolicyEntriesOf(gws)(pols[i]).ServerError?
          <==> exists j :: 0 <= j < |TargetRefsOf(pols[i])| && FailingRef(gws, TargetRefsOf(pols[i])[j])
    {
      var refs := TargetRefsOf(pols[i]);
      AccumulateFails(refs, RefInfoOf(gws));
      assert forall j :: 0 <= j < |refs| ==> (RefInfoOf(gws)(refs[j]).ServerError? <==> FailingRef(gws, refs[j]));
    }
  }

  /** One failing ref of one policy is enough for the 500 error. */
  lemma AnnotateFailsAt(gws: seq<Gateway>, pols: seq<FirewallPolicy>, i: nat, j: nat)
    requires i < |pols| && j < |TargetRefsOf(pols[i])| && FailingRef(gws, TargetRefsOf(pols[i])[j])
    ensures Annotate(gws, pols).ServerError?
  {
    AnnotateFails(gws, pols);
  }

  /** The inner loop computes one info per matching ref. */
  lemma {:induction false} RefInfosLength(gws: seq<Gateway>, refs: seq<TargetRef>)
    requires RefInfos(gws, refs).Ok?
    ensures |RefInfos(gws, refs).value| == |MatchingNames(gws, refs)|
    decreases |refs|
  {
    if refs != [] {
      var n := |refs| - 1;
      AccumulateStep(refs, RefInfoOf(gws), n);
      assert refs[..n + 1] == refs;
      RefInfosLength(gws, refs[..n]);
    }
  }

  /** The inner loop computes one info per matching ref, in ref order: that of
      the first gateway carrying the ref's name, so it names that gateway. */
  lemma {:induction false} RefInfosAt(gws: seq<Gateway>, refs: seq<TargetRef>)
    requires RefInfos(gws, refs).Ok?
    ensures |RefInfos(gws, refs).value| == |MatchingNames(gws, refs)|
    ensures forall k :: 0 <= k < |MatchingNames(gws, refs)| ==>
      && FirstNamed(gws, MatchingNames(gws, refs)[k]).Some?
      && GatewayInfoOf(FirstNamed(gws, MatchingNames(gws, refs)[k]).value) == Ok(RefInfos(gws, refs).value[k])
      && RefInfos(gws, refs).value[k].name == MatchingNames(gws, refs)[k]
    decreases |refs|
  {
    if refs != [] {
      var n := |refs| - 1;
      AccumulateStep(refs, RefInfoOf(gws), n);
      assert refs[..n + 1] == refs;
      RefInfosAt(gws, refs[..n]);
      var ref := refs[n];
      if Matches(gws, ref) {
        FirstNamedFound(gws, ref.name.value);
      }
    }
  }

  /** Number of matching refs over the policies: one response entry each. */
  function MatchTotal(gws: seq<Gateway>, pols: seq<FirewallPolicy>): nat
    decreases |pols|
  {
    if pols == [] then 0
    else MatchTotal(gws, pols[..|pols| - 1]) + |MatchingNames(gws, TargetRefsOf(pols[|pols| - 1]))|
  }

  /** A policy appears once per matching ref, not once. */
  lemma {:induction false} AnnotateLength(gws: seq<Gateway>, pols: seq<FirewallPolicy>)
    requires Annotate(gws, pols).Ok?
    ensures |Annotate(gws, pols).value| == MatchTotal(gws, pols)
    decreases |pols|
  {
    if pols != [] {
      var n := |pols| - 1;
      assert pols[..n + 1] == pols;
      AccumulateStep(pols, PolicyEntriesOf(gws), n);
      AnnotateLength(gws, pols[..n]);
      RefInfosLength(gws, TargetRefsOf(pols[n]));
    }
  }

  /** Every entry of one policy shows the info of its last matching ref. */
  lemma PolicyEntriesAt(gws: seq<Gateway>, pol: FirewallPolicy, k: nat)
    requires PolicyEntries(gws, pol).Ok? && k < |MatchingNames(gws, TargetRefsOf(pol))|
    ensures RefInfos(gws, TargetRefsOf(pol)).Ok?
    ensures |RefInfos(gws, TargetRefsOf(pol)).value| == |MatchingNames(gws, TargetRefsOf(pol))|
    ensures k < |PolicyEntries(gws, pol).value|
    ensures var infos := RefInfos(gws, TargetRefsOf(pol)).value;
      PolicyEntries(gws, pol).value[k] == Entry(pol, Some(infos[|infos| - 1]))
  {
    RefInfosLength(gws, TargetRefsOf(pol));
  }

  /** As written: the copies of policy `i` form one block right after the
      entries of the earlier policies, and every one of them shows the gateway
      of the LAST matching ref, because they are all the same dict. */
  lemma AnnotateBlockAt(gws: seq<Gateway>, pols: seq<FirewallPolicy>, i: nat, k: nat)
    requires Annotate(gws, pols).Ok?
    requires i < |pols| && k < |MatchingNames(gws, TargetRefsOf(pols[i]))|
    ensures Annotate(gws, pols[..i]).Ok? && RefInfos(gws, TargetRefsOf(pols[i])).Ok?
    ensures |RefInfos(gws, TargetRefsOf(pols[i])).value| == |MatchingNames(gws, TargetRefsOf(pols[i]))|
    ensures |Annotate(gws, pols[..i]).value| + k < |Annotate(gws, pols).value|
    ensures var infos := RefInfos(gws, TargetRefsOf(pols[i])).value;
      Annotate(gws, pols).value[|Annotate(gws, pols[..i]).value| + k] == Entry(pols[i], Some(infos[|infos| - 1]))
  {
    AccumulateAt(pols, PolicyEntriesOf(gws), i, k);
    assert PolicyEntriesOf(gws)(pols[i]) == PolicyEntries(gws, pols[i]);
    PolicyEntriesAt(gws, pols[i], k);
  }

  /** The block of policy `i` starts after one entry per matching ref of the
      earlier policies. */
  lemma AnnotateAt(gws: seq<Gateway>, pols: seq<FirewallPolicy>, i: nat, k: nat)
    requires Annotate(gws, pols).Ok?
    requires i < |pols| && k < |MatchingNames(gws, TargetRefsOf(pols[i]))|
    ensures RefInfos(gws, TargetRefsOf(pols[i])).Ok?
    ensures |RefInfos(gws, TargetRefsOf(pols[i])).value| == |MatchingNames(gws, TargetRefsOf(pols[i]))|
    ensures MatchTotal(gws, pols[..i]) + k < |Annotate(gws, pols).value|
    ensures var infos := RefInfos(gws, TargetRefsOf(pols[i])).value;
      Annotate(gws, pols).value[MatchTotal(gws, pols[..i]) + k] == Entry(pols[i], Some(infos[|infos| - 1]))
  {
    AnnotateBlockAt(gws, pols, i, k);
    AnnotateLength(gws, pols[..i]);
  }

  /** The gateway whose info a policy object holds after the inner loop: the
      first gateway named by its last matching ref. */
  function LastTarget(gws: seq<Gateway>, pol: FirewallPolicy): Option<Gateway> {
    var names := MatchingNames(gws, TargetRefsOf(pol));
    if names == [] then None else FirstNamed(gws, names[|names| - 1])
  }

  /** An entry is in the answer exactly when its policy is one of the policies,
      has a matching ref, and the entry shows the info of its last target:
      policies without a matching ref are absent. */
  lemma AnnotateMembers(gws: seq<Gateway>, pols: seq<FirewallPolicy>, e: Entry)
    requires Annotate(gws, pols).Ok?
    ensures e in Annotate(gws, pols).value
        <==> exists i :: 0 <= i < |pols| && e.policy == pols[i] && LastTarget(gws, pols[i]).Some? && e.gateway.Some?
                         && GatewayInfoOf(LastTarget(gws, pols[i]).value) == Ok(e.gateway.value)
  {
    AccumulateMembers(pols, PolicyEntriesOf(gws), e);
    AccumulateFails(pols, PolicyEntriesOf(gws));
    forall i | 0 <= i < |pols|
      ensures PolicyEntriesOf(gws)(pols[i]).Ok? && e in PolicyEntriesOf(gws)(pols[i]).value
          <==> e.policy == pols[i] && LastTarget(gws, pols[i]).Some? && e.gateway.Some?
               && GatewayInfoOf(LastTarget(gws, pols[i]).value) == Ok(e.gateway.value)
    {
      if PolicyEntries(gws, pols[i]).Ok? {
        PolicyEntriesMembers(gws, pols[i], e);
      }
    }
  }

  /** The entries of one policy are all the policy with its last target's info. */
  lemma PolicyEntriesMembers(gws: seq<Gateway>, pol: FirewallPolicy, e: Entry)
    requires PolicyEntries(gws, pol).Ok?
    ensures e in PolicyEntries(gws, pol).value
        <==> e.policy == pol && LastTarget(gws, pol).Some? && e.gateway.Some?
             && GatewayInfoOf(LastTarget(gws, pol).value) == Ok(e.gateway.value)
  {
    var refs := TargetRefsOf(pol);
    RefInfosAt(gws, refs);
    var infos := RefInfos(gws, refs).value;
    if infos != [] {
      var shown := Entry(pol, Some(infos[|infos| - 1]));
      assert e in Copies(shown, |infos|) <==> e == shown by {
        assert Copies(shown, |infos|)[0] == shown;
      }
    }
  }

  // ---- the evidently intended annotation ----

  /** Each matching ref contributes the policy annotated with ITS gateway, as a
      copy of the dict per ref would give. */
  function PerRefEntries(gws: seq<Gateway>, pol: FirewallPolicy): Result<seq<Entry>> {
    match RefInfos(gws, TargetRefsOf(pol))
    case ServerError => ServerError
    case Ok(infos) => Ok(PerRef(pol, infos))
  }

  function PerRef(pol: FirewallPolicy, infos: seq<GatewayInfo>): seq<Entry> {
    seq(|infos|, k requires 0 <= k < |infos| => Entry(pol, Some(infos[k])))
  }

  function PerRefEntriesOf(gws: seq<Gateway>): FirewallPolicy -> Result<seq<Entry>> {
    pol => PerRefEntries(gws, pol)
  }

  function AnnotatePerRef(gws: seq<Gateway>, pols: seq<FirewallPolicy>): Result<seq<Entry>> {
    Accumulate(pols, PerRefEntriesOf(gws))
  }

  /** Corrected: entry `k` of policy `i` shows the gateway of its `k`-th
      matching ref, which is the gateway of that name. */
  lemma AnnotatePerRefAt(gws: seq<Gateway>, pols: seq<FirewallPolicy>, i: nat, k: nat)
    requires AnnotatePerRef(gws, pols).Ok?
    requires i < |pols| && k < |MatchingNames(gws, TargetRefsOf(pols[i]))|
    ensures RefInfos(gws, TargetRefsOf(pols[i])).Ok? && AnnotatePerRef(gws, pols[..i]).Ok?
    ensures |RefInfos(gws, TargetRefsOf(pols[i])).value| == |MatchingNames(gws, TargetRefsOf(pols[i]))|
    ensures var off := |AnnotatePerRef(gws, pols[..i]).value|;
      && off + k < |AnnotatePerRef(gws, pols).value|
      && AnnotatePerRef(gws, pols).value[off + k] == Entry(pols[i], Some(RefInfos(gws, TargetRefsOf(pols[i])).value[k]))
      && RefInfos(gws, TargetRefsOf(pols[i])).value[k].name == MatchingNames(gws, TargetRefsOf(pols[i]))[k]
  {
    AccumulateAt(pols, PerRefEntriesOf(gws), i, k);
    assert PerRefEntriesOf(gws)(pols[i]) == PerRefEntries(gws, pols[i]);
    RefInfosAt(gws, TargetRefsOf(pols[i]));
  }

  /** All matching refs of the policy name one and the same gateway (any number
      of times). */
  predicate OneGateway(gws: seq<Gateway>, pol: FirewallPolicy) {
    var names := MatchingNames(gws, TargetRefsOf(pol));
    forall k :: 0 <= k < |names| ==> names[k] == names[0]
  }

  /** For one policy the two annotations agree exactly when its matching refs
      all name the same gateway: equal names find the same gateway, and
      different names give infos with different names. */
  lemma PerRefAgreesOne(gws: seq<Gateway>, pol: FirewallPolicy)
    requires RefInfos(gws, TargetRefsOf(pol)).Ok?
    ensures PerRefEntries(gws, pol) == PolicyEntries(gws, pol) <==> OneGateway(gws, pol)
  {
    var refs := TargetRefsOf(pol);
    var names := MatchingNames(gws, refs);
    var infos := RefInfos(gws, refs).value;
    RefInfosAt(gws, refs);
    if infos == [] {
      assert PerRef(pol, infos) == [];
    } else {
      var last := |infos| - 1;
      if OneGateway(gws, pol) {
        forall k | 0 <= k < |infos|
          ensures PerRef(pol, infos)[k] == Copies(Entry(pol, Some(infos[last])), |infos|)[k]
        {
          assert names[k] == names[0] == names[last];
        }
        assert PerRef(pol, infos) == Copies(Entry(pol, Some(infos[last])), |infos|);
      } else {
        var k :| 0 <= k < |names| && names[k] != names[0];
        var copies := Copies(Entry(pol, Some(infos[last])), |infos|);
        assert PerRef(pol, infos)[k] != PerRef(pol, infos)[0];
        assert copies[k] == copies[0];
      }
    }
  }

  /** Both annotations give one entry per matching ref. */
  lemma EntriesLengths(gws: seq<Gateway>, pol: FirewallPolicy)
    requires RefInfos(gws, TargetRefsOf(pol)).Ok?
    ensures |PerRefEntries(gws, pol).value| == |PolicyEntries(gws, pol).value| == |RefInfos(gws, TargetRefsOf(pol)).value|
  {
  }

  /** The two annotations fail on the same inputs, and they agree whenever every
      policy's matching refs name a single gateway. */
  lemma {:induction false} AnnotatePerRefAgrees(gws: seq<Gateway>, pols: seq<FirewallPolicy>)
    ensures AnnotatePerRef(gws, pols).ServerError? <==> Annotate(gws, pols).ServerError?
    ensures (forall i :: 0 <= i < |pols| ==> OneGateway(gws, pols[i]))
        ==> AnnotatePerRef(gws, pols) == Annotate(gws, pols)
    decreases |pols|
  {
    if pols != [] {
      var n := |pols| - 1;
      assert pols[..n + 1] == pols;
      AccumulateStep(pols, PolicyEntriesOf(gws), n);
      AccumulateStep(pols, PerRefEntriesOf(gws), n);
      AnnotatePerRefAgrees(gws, pols[..n]);
      if RefInfos(gws, TargetRefsOf(pols[n])).Ok? {
        PerRefAgreesOne(gws, pols[n]);
      }
      if forall i :: 0 <= i < |pols| ==> OneGateway(gws, pols[i]) {
        assert forall i :: 0 <= i < n ==> pols[..n][i] == pols[i];
      }
    }
  }

  /** Conversely, when the handler succeeds and the two annotations agree, every
      policy's matching refs name a single gateway: a policy reaching two
      gateways is always shown wrongly. */
  lemma {:induction false} AnnotatePerRefDiffers(gws: seq<Gateway>, pols: seq<FirewallPolicy>)
    requires Annotate(gws, pols).Ok? && AnnotatePerRef(gws, pols) == Annotate(gws, pols)
    ensures forall i :: 0 <= i < |pols| ==> OneGateway(gws, pols[i])
    decreases |pols|
  {
    if pols != [] {
      var n := |pols| - 1;
      assert pols[..n + 1] == pols;
      AccumulateStep(pols, PolicyEntriesOf(gws), n);
      AccumulateStep(pols, PerRefEntriesOf(gws), n);
      AnnotatePerRefAgrees(gws, pols[..n]);
      assert PolicyEntriesOf(gws)(pols[n]) == PolicyEntries(gws, pols[n]);
      assert PerRefEntriesOf(gws)(pols[n]) == PerRefEntries(gws, pols[n]);
      EntriesLengths(gws, pols[n]);
      var a, b := AnnotatePerRef(gws, pols[..n]).value, PerRefEntries(gws, pols[n]).value;
      var c, d := Annotate(gws, pols[..n]).value, PolicyEntries(gws, pols[n]).value;
      assert a + b == c + d;
      assert |a| == |c|;
      assert a == (a + b)[..|a|] && c == (c + d)[..|c|];
      assert b == (a + b)[|a|..] && d == (c + d)[|c|..];
      AnnotatePerRefDiffers(gws, pols[..n]);
      PerRefAgreesOne(gws, pols[n]);
      forall i | 0 <= i < |pols|
        ensures OneGateway(gws, pols[i])
      {
        if i < n {
          assert pols[..n][i] == pols[i];
        }
      }
    }
  }

  // ---- a policy that targets two gateways ----

  const GatewayA := Gateway(Some(Metadata(Some("gw-a"), None)), None)
  const GatewayB := Gateway(Some(Metadata(Some("gw-b"), None)), None)
  const InfoA := GatewayInfo("gw-a", "", None, "", "")
  const InfoB := GatewayInfo("gw-b", "", None, "", "")
  const RefA := TargetRef(Some("Gateway"), Some("gw-a"))
  const RefB := TargetRef(Some("Gateway"), Some("gw-b"))
  const TwoTargets := FirewallPolicy(Some(Metadata(Some("two-gateways"), None)), Some(PolicySpec(Some([RefA, RefB]), None)))

  /** Both refs match, and each finds its own gateway. */
  lemma TwoTargetsInfos()
    ensures RefInfos([GatewayA, GatewayB], TargetRefsOf(TwoTargets)) == Ok([InfoA, InfoB])
  {
    var gws := [GatewayA, GatewayB];
    var refs := [RefA, RefB];
    assert "gw-a" != "gw-b" by { assert "gw-a"[3] != "gw-b"[3]; }
    FirstNamedAt(gws, "gw-a", 0);
    FirstNamedAt(gws, "gw-b", 1);
    assert RefInfoOf(gws)(RefA) == Ok([InfoA]);
    assert RefInfoOf(gws)(RefB) == Ok([InfoB]);
    AccumulateStep(refs, RefInfoOf(gws), 0);
    AccumulateStep(refs, RefInfoOf(gws), 1);
    assert refs[..0] == [] && refs[..1] == [RefA] && refs[..2] == refs;
    assert [] + [InfoA] == [InfoA] && [InfoA] + [InfoB] == [InfoA, InfoB];
  }

  /** The handler shows the second gateway twice, where the per-ref annotation
      shows each gateway once. */
  lemma AliasingCounterexample()
    ensures Annotate([GatewayA, GatewayB], [TwoTargets])
         == Ok([Entry(TwoTargets, Some(InfoB)), Entry(TwoTargets, Some(InfoB))])
    ensures AnnotatePerRef([GatewayA, GatewayB], [TwoTargets])
         == Ok([Entry(TwoTargets, Some(InfoA)), Entry(TwoTargets, Some(InfoB))])
  {
    var gws := [GatewayA, GatewayB];
    TwoTargetsInfos();
    var asWritten := Copies(Entry(TwoTargets, Some(InfoB)), 2);
    var perRef := PerRef(TwoTargets, [InfoA, InfoB]);
    assert asWritten == [Entry(TwoTargets, Some(InfoB)), Entry(TwoTargets, Some(InfoB))];
    assert perRef == [Entry(TwoTargets, Some(InfoA)), Entry(TwoTargets, Some(InfoB))];
    AccumulateStep([TwoTargets], PolicyEntriesOf(gws), 0);
    AccumulateStep([TwoTargets], PerRefEntriesOf(gws), 0);
    assert [TwoTargets][..0] == [] && [TwoTargets][..1] == [TwoTargets];
    assert [] + asWritten == asWritten && [] + perRef == perRef;
  }
}
