/** One entry of the catalogue and the provider grouping shared by the
    card list and the llms.txt export. */
module Catalog {
  import opened Wrappers
  import opened Lists
  import opened Ordering

  datatype Status = Active | Deprecated | Beta

  /** Prices in dollars per million tokens. */
  datatype Pricing = Pricing(inputPer1M: real, outputPer1M: real)

  datatype Model = Model(
    id: string,
    provider: string,
    modelName: string,
    apiString: string,
    pricing: Pricing,
    contextWindow: int,
    capabilities: seq<string>,
    lastVerified: string,
    status: Status,
    description: Option<string>,
    releaseDate: Option<string>)

  /** `models.map((m) => m.provider)`. */
  function ProviderNames(models: seq<Model>): (names: seq<string>)
    ensures |names| == |models|
    ensures forall p :: p in names <==> exists m :: m in models && m.provider == p
  {
    if models == [] then []
    else [models[0].provider] + ProviderNames(models[1..])
  }

  /** `Array.from(new Set(models.map((m) => m.provider))).sort()`: every
      provider that occurs, once each, in ascending order. */
  function SortedProviders(models: seq<Model>): (providers: seq<string>)
    ensures StrictlySorted(providers)
    ensures NoDups(providers)
    ensures forall p :: p in providers <==> exists m :: m in models && m.provider == p
  {
    var names := ProviderNames(models);
    var distinct := Distinct(names);
    var providers := SortDistinct(distinct);
    assert forall p :: p in providers <==> p in multiset(distinct);
    assert forall p :: p in providers <==> p in names;
    providers
  }

  /** The provider list does not depend on the order of the models nor on
      the sorting algorithm: any strictly ascending list of exactly the
      occurring providers is that list. */
  lemma SortedProvidersUnique(models: seq<Model>, ps: seq<string>)
    requires StrictlySorted(ps)
    requires forall p :: p in ps <==> exists m :: m in models && m.provider == p
    ensures ps == SortedProviders(models)
  {
    StrictlySortedUnique(ps, SortedProviders(models));
  }
}
