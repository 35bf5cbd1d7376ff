/** `GET /api/firewall-rules` (backend/main.py:8-42): every rule of every
    firewall policy becomes one flat, display-ready record. */
module FirewallRules {
  import opened Kube
  import opened Text
  import opened Accumulation

  /** One element of the response list; every field is a string. */
  datatype RuleRecord = RuleRecord(
    polname: string,
    target: string,
    ruleName: string,
    protocol: string,
    source: string,
    destination: string,
    ports: string,
    action: string,
    logging: string,
    description: string,
    timestamp: string)

  /** Python's `str(rule.get("logging", ""))`: `str("")`, `str(True)`, `str(False)`. */
  function LoggingText(logging: Option<bool>): string
  {
    match logging
    case None => ""
    case Some(b) => if b then "True" else "False"
  }

  /** Reads a `logging` column back; `None` for a text `LoggingText` never produces. */
  function ParseLogging(text: string): Option<Option<bool>> {
    if text == "" then Some(None)
    else if text == "True" then Some(Some(true))
    else if text == "False" then Some(Some(false))
    else None
  }

  /** The three logging states stay distinguishable once stringified. */
  lemma LoggingRoundTrip(logging: Option<bool>)
    ensures ParseLogging(LoggingText(logging)) == Some(logging)
  {
  }

  /** `[t.get("name", "") for t in target_refs]` */
  function TargetNames(refs: seq<TargetRef>): seq<string> {
    seq(|refs|, k requires 0 <= k < |refs| => refs[k].name.GetOr(""))
  }

  /** `"\n".join(target_names)`, shared by all records of the policy. */
  function TargetDisplay(p: FirewallPolicy): string {
    JoinLines(TargetNames(TargetRefsOf(p)))
  }

  /** `item["metadata"].get("creationTimestamp", "")` */
  function Timestamp(p: FirewallPolicy): string
    requires p.metadata.Some?
  {
    p.metadata.value.creationTimestamp.GetOr("")
  }

  /** `rule.get(side, {}).get("addresses", [])` */
  function AddressesOf(side: Option<Endpoint>): seq<string> {
    if side.Some? then side.value.addresses.GetOr([]) else []
  }

  /** `rule.get("destination", {}).get("ports", [])` */
  function PortsOf(side: Option<Endpoint>): seq<string> {
    if side.Some? then side.value.ports.GetOr([]) else []
  }

  /** The dict appended for one rule (backend/main.py:27-39). */
  function RecordOf(polName: string, target: string, timestamp: string, rule: Rule): RuleRecord {
    RuleRecord(
      polname := polName,
      target := target,
      ruleName := rule.name.GetOr(""),
      protocol := rule.ipProtocol.GetOr(""),
      source := JoinLines(AddressesOf(rule.source)),
      destination := JoinLines(AddressesOf(rule.destination)),
      ports := JoinLines(PortsOf(rule.destination)),
      action := rule.action.GetOr(""),
      logging := LoggingText(rule.logging),
      description := rule.description.GetOr(""),
      timestamp := timestamp)
  }

  /** One record per rule, in rule order, all with the same policy columns. */
  function Records(polName: string, target: string, timestamp: string, rules: seq<Rule>): seq<RuleRecord> {
    seq(|rules|, k requires 0 <= k < |rules| => RecordOf(polName, target, timestamp, rules[k]))
  }

  /** The records of one policy, or the 500 error when it has no `metadata.name`
      (checked before its rules are looked at, so even a rule-less policy fails). */
  function PolicyRecords(p: FirewallPolicy): Result<seq<RuleRecord>> {
    match NameOf(p.metadata)
    case None => ServerError
    case Some(name) => Ok(Records(name, TargetDisplay(p), Timestamp(p), RulesOf(p)))
  }

  /** The specification of the handler's loop: the policies' records concatenated
      in policy order; one unnamed policy anywhere makes it the 500 error. */
  function Flatten(items: seq<FirewallPolicy>): Result<seq<RuleRecord>> {
    Accumulate(items, PolicyRecords)
  }

  /** Number of rules in the policies: the number of records they flatten to. */
  function RuleCount(items: seq<FirewallPolicy>): nat
    decreases |items|
  {
    if items == [] then 0 else RuleCount(items[..|items| - 1]) + |RulesOf(items[|items| - 1])|
  }

  /** The inner loop of backend/main.py:26-39: one record appended per rule. */
  method AppendRecords(rules: seq<RuleRecord>, polName: string, target: string, timestamp: string, itemRules: seq<Rule>)
    returns (out: seq<RuleRecord>)
    ensures out == rules + Records(polName, target, timestamp, itemRules)
  {
    out := rules;
    var j := 0;
    while j < |itemRules|
      invariant 0 <= j <= |itemRules|
      invariant out == rules + Records(polName, target, timestamp, itemRules[..j])
    {
      RecordsStep(polName, target, timestamp, itemRules, j);
      out := out + [RecordOf(polName, target, timestamp, itemRules[j])];
      j := j + 1;
    }
    assert itemRules[..|itemRules|] == itemRules;
  }

  /** The handler (backend/main.py:9-42) with the kubectl call replaced by its outcome. */
  method FirewallRules(fetch: Fetch<ListDoc<FirewallPolicy>>) returns (r: Result<seq<RuleRecord>>)
    ensures !fetch.Listed? ==> r == ServerError
    ensures fetch.Listed? ==> r == Flatten(ItemsOf(fetch.doc))
  {
    if !fetch.Listed? {
      return ServerError;
    }
    var items := ItemsOf(fetch.doc);
    var rules: seq<RuleRecord> := [];
    var i := 0;
    while i < |items|
      invariant 0 <= i <= |items|
      invariant Flatten(items[..i]) == Ok(rules)
    {
      var item := items[i];
      if item.metadata.None? || item.metadata.value.name.None? {
        AccumulateFailsAt(items, PolicyRecords, i);
        return ServerError;
      }
      var polName := item.metadata.value.name.value;
      var creationTs := item.metadata.value.creationTimestamp.GetOr("");
      var targetDisplay := JoinLines(TargetNames(TargetRefsOf(item)));
      rules := AppendRecords(rules, polName, targetDisplay, creationTs, RulesOf(item));
      FlattenStep(items, i);
      i := i + 1;
    }
    assert items[..|items|] == items;
    r := Ok(rules);
  }

  // ---- what the specification promises ----

  /** The handler fails exactly when some policy lacks `metadata.name`. */
  lemma FlattenFails(items: seq<FirewallPolicy>)
    ensures Flatten(items).ServerError? <==> exists i :: 0 <= i < |items| && NameOf(items[i].metadata).None?
  {
    AccumulateFails(items, PolicyRecords);
    assert forall i :: 0 <= i < |items| ==> (PolicyRecords(items[i]).ServerError? <==> NameOf(items[i].metadata).None?);
  }

  /** Flattening one more named policy appends its records. */
  lemma FlattenStep(items: seq<FirewallPolicy>, i: nat)
    requires i < |items| && NameOf(items[i].metadata).Some?
    ensures Flatten(items[..i + 1])
         == if Flatten(items[..i]).ServerError? then ServerError
            else Ok(Flatten(items[..i]).value
                    + Records(NameOf(items[i].metadata).value, TargetDisplay(items[i]), Timestamp(items[i]), RulesOf(items[i])))
  {
    AccumulateStep(items, PolicyRecords, i);
  }

  /** One more rule appends its record. */
  lemma RecordsStep(polName: string, target: string, timestamp: string, rules: seq<Rule>, j: nat)
    requires j < |rules|
    ensures Records(polName, target, timestamp, rules[..j + 1])
         == Records(polName, target, timestamp, rules[..j]) + [RecordOf(polName, target, timestamp, rules[j])]
  {
    var r := Records(polName, target, timestamp, rules[..j + 1]);
    assert r == Records(polName, target, timestamp, rules[..j]) + [r[j]];
  }

  /** Exactly one record per rule. */
  lemma {:induction false} FlattenLength(items: seq<FirewallPolicy>)
    requires Flatten(items).Ok?
    ensures |Flatten(items).value| == RuleCount(items)
  {
    if items != [] {
      var n := |items| - 1;
      assert items[..n + 1] == items;
      AccumulateStep(items, PolicyRecords, n);
      FlattenLength(items[..n]);
    }
  }

  /** Rule `j` of a named policy gives its `j`-th record. */
  lemma PolicyRecordsAt(p: FirewallPolicy, j: nat)
    requires PolicyRecords(p).Ok? && j < |RulesOf(p)|
    ensures p.metadata.Some? && p.metadata.value.name.Some?
    ensures j < |PolicyRecords(p).value|
    ensures PolicyRecords(p).value[j] == RecordOf(p.metadata.value.name.value, TargetDisplay(p), Timestamp(p), RulesOf(p)[j])
  {
  }

  /** Order: rule `j` of policy `i` sits after all rules of the earlier policies,
      and is built from that policy's name, target list and timestamp. */
  lemma FlattenAt(items: seq<FirewallPolicy>, i: nat, j: nat)
    requires Flatten(items).Ok?
    requires i < |items| && j < |RulesOf(items[i])|
    ensures items[i].metadata.Some? && items[i].metadata.value.name.Some?
    ensures RuleCount(items[..i]) + j < |Flatten(items).value|
    ensures Flatten(items).value[RuleCount(items[..i]) + j]
         == RecordOf(items[i].metadata.value.name.value, TargetDisplay(items[i]), Timestamp(items[i]), RulesOf(items[i])[j])
  {
    AccumulateAt(items, PolicyRecords, i, j);
    PolicyRecordsAt(items[i], j);
    FlattenLength(items[..i]);
  }

  /** Nothing a display needs is lost: a rule's address and port lists, its target
      names and its logging flag are recovered from the record, as long as the
      lists are non-empty and their strings have no newline. */
  lemma RecordRoundTrip(polName: string, target: string, timestamp: string, rule: Rule)
    ensures ParseLogging(RecordOf(polName, target, timestamp, rule).logging) == Some(rule.logging)
    ensures AddressesOf(rule.source) != [] && SingleLines(AddressesOf(rule.source))
        ==> SplitLines(RecordOf(polName, target, timestamp, rule).source) == AddressesOf(rule.source)
    ensures AddressesOf(rule.destination) != [] && SingleLines(AddressesOf(rule.destination))
        ==> SplitLines(RecordOf(polName, target, timestamp, rule).destination) == AddressesOf(rule.destination)
    ensures PortsOf(rule.destination) != [] && SingleLines(PortsOf(rule.destination))
        ==> SplitLines(RecordOf(polName, target, timestamp, rule).ports) == PortsOf(rule.destination)
  {
    if AddressesOf(rule.source) != [] && SingleLines(AddressesOf(rule.source)) {
      SplitJoin(AddressesOf(rule.source));
    }
    if AddressesOf(rule.destination) != [] && SingleLines(AddressesOf(rule.destination)) {
      SplitJoin(AddressesOf(rule.destination));
    }
    if PortsOf(rule.destination) != [] && SingleLines(PortsOf(rule.destination)) {
      SplitJoin(PortsOf(rule.destination));
    }
  }

  /** The target column lists the policy's `targetRefs` names in order (a missing
      name shows as an empty line), whenever there is at least one ref and no
      name has a newline. */
  lemma TargetDisplayRoundTrip(p: FirewallPolicy)
    requires TargetRefsOf(p) != [] && SingleLines(TargetNames(TargetRefsOf(p)))
    ensures |SplitLines(TargetDisplay(p))| == |TargetRefsOf(p)|
    ensures forall k :: 0 <= k < |TargetRefsOf(p)| ==> SplitLines(TargetDisplay(p))[k] == TargetRefsOf(p)[k].name.GetOr("")
  {
    SplitJoin(TargetNames(TargetRefsOf(p)));
  }
}
