/** `GET /api/namespaces` (backend/main.py:45-70): the namespaces that hold at
    least one Gateway, in the order `kubectl get ns` lists them. */
module Namespaces {
  import opened Kube
  import opened Accumulation

  /** The per-namespace `kubectl get gateway.gateway.networking.k8s.io -n <ns>`
      followed by `yaml.safe_load`, as a function of the namespace name. */
  type GatewayQuery = string -> Fetch<ListDoc<Gateway>>

  /** `if gw_data.get("items")`: the answer has a present, non-empty item list. */
  predicate HasGateways(answer: Fetch<ListDoc<Gateway>>) {
    answer.Listed? && answer.doc.items.Some? && answer.doc.items.value != []
  }

  /** Namespace items that make the handler answer 500: no `metadata.name`
      (a KeyError outside the inner `try`), or a gateway query that raised
      something other than CalledProcessError. */
  predicate Aborts(query: GatewayQuery, item: Namespace) {
    match NameOf(item.metadata)
    case None => true
    case Some(ns) => query(ns).Unusable?
  }

  /** What one namespace item adds to `namespaces` (backend/main.py:55-66). */
  function Contribution(query: GatewayQuery, item: Namespace): Result<seq<string>> {
    match NameOf(item.metadata)
    case None => ServerError
    case Some(ns) =>
      match query(ns)
      case CommandFailed => Ok([])
      case Unusable => ServerError
      case Listed(doc) => if doc.items.Some? && doc.items.value != [] then Ok([ns]) else Ok([])
  }

  function ContributionOf(query: GatewayQuery): Namespace -> Result<seq<string>> {
    item => Contribution(query, item)
  }

  /** The specification of the handler's loop. */
  function Kept(items: seq<Namespace>, query: GatewayQuery): Result<seq<string>> {
    Accumulate(items, ContributionOf(query))
  }

  /** The handler (backend/main.py:46-70) with `kubectl get ns` replaced by its
      outcome and the per-namespace gateway query by `query`. */
  method ListNamespaces(nsFetch: Fetch<ListDoc<Namespace>>, query: GatewayQuery) returns (r: Result<seq<string>>)
    ensures !nsFetch.Listed? ==> r == ServerError
    ensures nsFetch.Listed? ==> r == Kept(ItemsOf(nsFetch.doc), query)
  {
    if !nsFetch.Listed? {
      return ServerError;
    }
    var items := ItemsOf(nsFetch.doc);
    var namespaces: seq<string> := [];
    var i := 0;
    while i < |items|
      invariant 0 <= i <= |items|
      invariant Kept(items[..i], query) == Ok(namespaces)
    {
      AccumulateStep(items, ContributionOf(query), i);
      var item := items[i];
      assert ContributionOf(query)(item) == Contribution(query, item);
      if item.metadata.None? || item.metadata.value.name.None? {
        AccumulateFailsAt(items, ContributionOf(query), i);
        return ServerError;
      }
      var ns := item.metadata.value.name.value;
      var answer := query(ns);
      match answer {
        case CommandFailed =>
          assert namespaces + [] == namespaces;
        case Unusable =>
          AccumulateFailsAt(items, ContributionOf(query), i);
          return ServerError;
        case Listed(gwData) =>
          if gwData.items.Some? && gwData.items.value != [] {
            namespaces := namespaces + [ns];
          } else {
            assert namespaces + [] == namespaces;
          }
      }
      i := i + 1;
    }
    assert items[..|items|] == items;
    r := Ok(namespaces);
  }

  // ---- what the specification promises ----

  /** The handler fails exactly when some namespace item has no name or its
      gateway query raised something other than CalledProcessError. */
  lemma KeptFails(items: seq<Namespace>, query: GatewayQuery)
    ensures Kept(items, query).ServerError? <==> exists i :: 0 <= i < |items| && Aborts(query, items[i])
  {
    AccumulateFails(items, ContributionOf(query));
    assert forall i :: 0 <= i < |items| ==> (ContributionOf(query)(items[i]).ServerError? <==> Aborts(query, items[i]));
  }

  /** A namespace is listed exactly when some item has that name and the gateway
      query for it answered a non-empty `items` list. */
  lemma KeptMembers(items: seq<Namespace>, query: GatewayQuery, ns: string)
    requires Kept(items, query).Ok?
    ensures ns in Kept(items, query).value
        <==> exists i :: 0 <= i < |items| && NameOf(items[i].metadata) == Some(ns) && HasGateways(query(ns))
  {
    AccumulateMembers(items, ContributionOf(query), ns);
    forall i | 0 <= i < |items|
      ensures ContributionOf(query)(items[i]).Ok? && ns in ContributionOf(query)(items[i]).value
          <==> NameOf(items[i].metadata) == Some(ns) && HasGateways(query(ns))
    {
    }
  }

  /** Order is kept: the namespaces listed for two consecutive runs of the item
      list are those of each run, one after the other. */
  lemma KeptConcat(a: seq<Namespace>, b: seq<Namespace>, query: GatewayQuery)
    ensures Kept(a + b, query)
         == if Kept(a, query).ServerError? || Kept(b, query).ServerError? then ServerError
            else Ok(Kept(a, query).value + Kept(b, query).value)
  {
    AccumulateConcat(a, b, ContributionOf(query));
  }

  /** A namespace whose gateway query failed with CalledProcessError is skipped
      and nothing else changes: the answer is that of the list without it. */
  lemma KeptSkipsFailedQuery(items: seq<Namespace>, query: GatewayQuery, i: nat)
    requires i < |items| && NameOf(items[i].metadata).Some?
    requires query(NameOf(items[i].metadata).value).CommandFailed?
    ensures Kept(items, query) == Kept(items[..i] + items[i + 1..], query)
  {
    assert items == items[..i] + ([items[i]] + items[i + 1..]);
    KeptConcat(items[..i], [items[i]] + items[i + 1..], query);
    KeptConcat([items[i]], items[i + 1..], query);
    KeptConcat(items[..i], items[i + 1..], query);
    assert Kept([items[i]], query) == Ok([]) by {
      AccumulateStep([items[i]], ContributionOf(query), 0);
      assert [items[i]][..1] == [items[i]] && [items[i]][..0] == [];
      assert ContributionOf(query)(items[i]) == Ok([]);
      var none: seq<string> := [];
      assert none + none == none;
    }
    if Kept(items[i + 1..], query).Ok? {
      assert [] + Kept(items[i + 1..], query).value == Kept(items[i + 1..], query).value;
    }
  }
}
