/** The parsed output of `kubectl get ... -o json`, as the handlers of
    backend/main.py read it. Every key a handler reads with `.get(key, default)`
    or `[key]` is an `Option` here: `None` is an absent key. Keys the handlers
    never read are not represented. */
module Kube {

  datatype Option<T> = None | Some(value: T) {
    /** Python's `d.get(key, default)` */
    function GetOr(default: T): T {
      if Some? then value else default
    }
  }

  /** What a handler answers: its payload, or the 500 `{"error": ...}` response
      that the blanket `except Exception` produces. */
  datatype Result<T> = Ok(value: T) | ServerError

  /** One `subprocess.check_output([...kubectl...])` followed by `yaml.safe_load`. */
  datatype Fetch<T> =
    | Listed(doc: T)   // kubectl succeeded and its output parsed
    | CommandFailed    // kubectl exited non-zero: subprocess.CalledProcessError
    | Unusable         // kubectl could not be started, or its output did not parse

  /** A `kind: List` document; its `items` key may be absent. */
  datatype ListDoc<T> = ListDoc(items: Option<seq<T>>)

  /** `data.get("items", [])` */
  function ItemsOf<T>(d: ListDoc<T>): seq<T> {
    d.items.GetOr([])
  }

  datatype Metadata = Metadata(name: Option<string>, creationTimestamp: Option<string>)

  /** `item["metadata"]["name"]`: `None` when either key is absent, where the
      source raises KeyError. */
  function NameOf(metadata: Option<Metadata>): Option<string> {
    if metadata.Some? then metadata.value.name else None
  }

  // ---- f5bigfwpolicy.k8s.f5net.com ----

  datatype TargetRef = TargetRef(kind: Option<string>, name: Option<string>)

  datatype Endpoint = Endpoint(addresses: Option<seq<string>>, ports: Option<seq<string>>)

  datatype Rule = Rule(
    name: Option<string>,
    ipProtocol: Option<string>,
    source: Option<Endpoint>,
    destination: Option<Endpoint>,
    action: Option<string>,
    logging: Option<bool>,
    description: Option<string>)

  datatype PolicySpec = PolicySpec(targetRefs: Option<seq<TargetRef>>, rule: Option<seq<Rule>>)

  datatype FirewallPolicy = FirewallPolicy(metadata: Option<Metadata>, spec: Option<PolicySpec>)

  /** `pol.get("spec", {}).get("targetRefs", [])` */
  function TargetRefsOf(p: FirewallPolicy): seq<TargetRef> {
    if p.spec.Some? then p.spec.value.targetRefs.GetOr([]) else []
  }

  /** `item.get("spec", {}).get("rule", [])` */
  function RulesOf(p: FirewallPolicy): seq<Rule> {
    if p.spec.Some? then p.spec.value.rule.GetOr([]) else []
  }

  // ---- gateway.gateway.networking.k8s.io ----

  datatype RouteKind = RouteKind(kind: Option<string>)

  datatype AllowedRoutes = AllowedRoutes(kinds: Option<seq<RouteKind>>)

  datatype Listener = Listener(port: Option<int>, protocol: Option<string>, allowedRoutes: Option<AllowedRoutes>)

  datatype GatewayAddress = GatewayAddress(value: Option<string>)

  datatype GatewaySpec = GatewaySpec(listeners: Option<seq<Listener>>, addresses: Option<seq<GatewayAddress>>)

  datatype Gateway = Gateway(metadata: Option<Metadata>, spec: Option<GatewaySpec>)

  // ---- namespaces ----

  datatype Namespace = Namespace(metadata: Option<Metadata>)
}
