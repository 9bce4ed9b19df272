/** The card list: the filters it reads from the query, the filtered
    models, the provider drop-down, and the query updates made by its
    controls (`updateFilter`, `removeCapability`). */
module ModelList {
  import opened Wrappers
  import opened Text
  import opened Lists
  import opened Ordering
  import opened Catalog
  import opened UrlSearchParams
  import opened CapabilityParam

  /** The filter state decoded from the query. */
  datatype Filters = Filters(search: string, provider: string, capabilities: seq<string>)

  /** JavaScript's `value || fallback` on a possibly absent string: absent
      and empty both fall back. */
  function OrElse(value: Option<string>, fallback: string): string
  {
    if value.Some? && value.value != "" then value.value else fallback
  }

  /** `search`, `selectedProvider` and `selectedCapabilities` as the list
      reads them from its query. */
  function ReadFilters(q: Query): (f: Filters)
    ensures f.search == "" <==> GetParam(q, "search") in {None, Some("")}
    ensures f.provider == "all" <==> GetParam(q, "provider") in {None, Some(""), Some("all")}
    ensures f.capabilities == [] <==> GetParam(q, "capability") in {None, Some("")}
  {
    Filters(
      OrElse(GetParam(q, "search"), ""),
      OrElse(GetParam(q, "provider"), "all"),
      DecodeCapabilities(GetParam(q, "capability")))
  }

  predicate MatchesSearch(m: Model, search: string)
  {
    var needle := ToLower(search);
    Includes(ToLower(m.modelName), needle) ||
    Includes(ToLower(m.apiString), needle) ||
    Includes(ToLower(m.provider), needle)
  }

  predicate MatchesProvider(m: Model, provider: string)
  {
    provider == "all" || m.provider == provider
  }

  predicate MatchesCapabilities(m: Model, capabilities: seq<string>)
  {
    |capabilities| == 0 || forall c :: c in capabilities ==> c in m.capabilities
  }

  /** The predicate `models.filter` applies. With no filter set every model
      passes; a model that passes has the chosen provider (unless "all" is
      chosen) and every selected capability tag. */
  predicate Matches(m: Model, f: Filters): (b: bool)
    ensures f.search == "" && f.provider == "all" && f.capabilities == [] ==> b
    ensures b && f.provider != "all" ==> m.provider == f.provider
    ensures b ==> forall c :: c in f.capabilities ==> c in m.capabilities
  {
    MatchesSearch(m, f.search) && MatchesProvider(m, f.provider) && MatchesCapabilities(m, f.capabilities)
  }

  function Keep(f: Filters): Model -> bool
  {
    m => Matches(m, f)
  }

  /** What a query asks of a model, stated on the query's parameters: an
      absent or empty search, or one that some of name, API string and
      provider contains ignoring case; an absent, empty or "all" provider,
      or exactly the model's; every selected capability tag among the
      model's. */
  ghost predicate Selected(m: Model, q: Query)
  {
    && (var s := GetParam(q, "search");
        s.None? || s.value == "" ||
        IncludesIgnoringCase(m.modelName, s.value) ||
        IncludesIgnoringCase(m.apiString, s.value) ||
        IncludesIgnoringCase(m.provider, s.value))
    && (var p := GetParam(q, "provider");
        p.None? || p.value == "" || p.value == "all" || m.provider == p.value)
    && (forall c :: c in DecodeCapabilities(GetParam(q, "capability")) ==> c in m.capabilities)
  }

  lemma MatchesIffSelected(m: Model, q: Query)
    ensures Matches(m, ReadFilters(q)) <==> Selected(m, q)
  {
    var f := ReadFilters(q);
    IncludesLowered(m.modelName, f.search);
    IncludesLowered(m.apiString, f.search);
    IncludesLowered(m.provider, f.search);
  }

  /** `filteredModels`: every model the query selects, as often as it occurs
      in `models`, and no other. */
  function FilteredModels(models: seq<Model>, q: Query): (shown: seq<Model>)
    ensures forall m :: multiset(shown)[m] == if Selected(m, q) then multiset(models)[m] else 0
  {
    var shown := Filter(models, Keep(ReadFilters(q)));
    forall m
      ensures Keep(ReadFilters(q))(m) <==> Selected(m, q)
    {
      MatchesIffSelected(m, q);
    }
    shown
  }

  /** The shown models keep the order they have in `models`. */
  lemma FilteredModelsInOrder(a: seq<Model>, b: seq<Model>, q: Query)
    ensures FilteredModels(a + b, q) == FilteredModels(a, q) + FilteredModels(b, q)
  {
    FilterAppend(a, b, Keep(ReadFilters(q)));
  }

  /** With no search, no provider (or "all") and no capability selected,
      every model is shown, in order. */
  lemma NoFiltersShowAll(models: seq<Model>, q: Query)
    requires GetParam(q, "search") in {None, Some("")}
    requires GetParam(q, "provider") in {None, Some(""), Some("all")}
    requires GetParam(q, "capability") in {None, Some("")}
    ensures FilteredModels(models, q) == models
  {
    var f := ReadFilters(q);
    assert forall i :: 0 <= i < |models| ==> Keep(f)(models[i]);
    FilterKeepsAll(models, Keep(f));
  }

  /** Search ignores the case of the query. */
  lemma SearchIgnoresCase(m: Model, search: string)
    ensures MatchesSearch(m, ToUpper(search)) == MatchesSearch(m, search)
    ensures MatchesSearch(m, ToLower(search)) == MatchesSearch(m, search)
  {
    ToLowerOfToUpper(search);
    ToLowerIdempotent(search);
  }

  /** Selecting one more capability tag can only shrink the list: the new
      list is what remains of the old one after the new test. */
  lemma AddingCapabilityNarrows(models: seq<Model>, f: Filters, c: string)
    ensures var g := f.(capabilities := f.capabilities + [c]);
      Filter(models, Keep(g)) == Filter(Filter(models, Keep(f)), Keep(g))
  {
    var g := f.(capabilities := f.capabilities + [c]);
    forall m | Keep(g)(m)
      ensures Keep(f)(m)
    {
      assert forall t :: t in f.capabilities ==> t in g.capabilities;
    }
    FilterNarrower(models, Keep(f), Keep(g));
  }

  /** `providers`: "all", then every provider that occurs, once each, in
      ascending order. */
  function Providers(models: seq<Model>): (options: seq<string>)
    ensures |options| >= 1 && options[0] == "all"
    ensures StrictlySorted(options[1..]) && NoDups(options[1..])
    ensures forall p :: p in options[1..] <==> exists m :: m in models && m.provider == p
  {
    var options := ["all"] + SortedProviders(models);
    assert options[1..] == SortedProviders(models);
    options
  }

  /** The query `updateFilter(key, value)` produces, with the "all"
      sentinel read as the provider drop-down's "every provider": `key` set
      to `value` when that is not empty and not the provider's "all", and
      removed otherwise; every other pair unchanged and in the same order.
      The code as written applies the sentinel to every key; see
      `UpdatedQueryAsWritten`. */
  function UpdatedQuery(q: Query, key: string, value: string): (r: Query)
    ensures GetParam(r, key) == if value != "" && !(key == "provider" && value == "all") then Some(value) else None
    ensures AtMostOnce(r, key)
    ensures DeleteParam(r, key) == DeleteParam(q, key)
  {
    if value != "" && !(key == "provider" && value == "all") then
      DeleteAfterSet(q, key, value);
      SetParamOnce(q, key, value);
      SetParam(q, key, value)
    else
      var r := DeleteParam(q, key);
      DeleteAbsent(r, key);
      r
  }

  /** `updateFilter`: copies the query into a `URLSearchParams` and sets or
      deletes `key` on it, reading "all" as the provider sentinel only (the
      corrected rule of `UpdatedQuery`). */
  method UpdateFilter(query: Query, key: string, value: string) returns (next: Query)
    ensures next == UpdatedQuery(query, key, value)
  {
    var params := new Params(query);
    if value != "" && !(key == "provider" && value == "all") {
      params.Set(key, value);
    } else {
      params.Delete(key);
    }
    next := params.pairs;
  }

  /** Under the corrected sentinel rule, whatever is typed into the search
      box is the search the list then applies, and the filters other than
      the one written read as before. */
  lemma SearchBoxKeepsTyped(q: Query, typed: string)
    ensures var f, g := ReadFilters(q), ReadFilters(UpdatedQuery(q, "search", typed));
      g == f.(search := typed)
  {
    var r := UpdatedQuery(q, "search", typed);
    GetParamOther(q, "search", typed, "provider");
    GetParamOther(q, "search", typed, "capability");
  }

  /** Choosing a provider in the drop-down selects exactly that provider,
      and "all" selects every provider; the other filters read as before. */
  lemma ProviderChoiceKept(q: Query, choice: string)
    ensures var f, g := ReadFilters(q), ReadFilters(UpdatedQuery(q, "provider", choice));
      g == f.(provider := if choice == "" then "all" else choice)
  {
    GetParamOther(q, "provider", choice, "search");
    GetParamOther(q, "provider", choice, "capability");
  }

  /** The query `removeCapability(capability)` produces under the corrected
      sentinel rule of `UpdatedQuery`: every copy of the
      tag leaves the selection, the other selected tags stay in order, and
      the parameter goes away when nothing is left. */
  function RemovedCapabilityQuery(q: Query, capability: string): (r: Query)
    ensures var selected := DecodeCapabilities(GetParam(q, "capability"));
      var after := DecodeCapabilities(GetParam(r, "capability"));
      var rest := RemoveAll(selected, capability);
      && capability !in after
      && after == (if rest == [""] then [] else rest)
      && (GetParam(r, "capability") == None <==> EncodeCapabilities(rest) == "")
      && DeleteParam(r, "capability") == DeleteParam(q, "capability")
  {
    var selected := DecodeCapabilities(GetParam(q, "capability"));
    var rest := RemoveAll(selected, capability);
    RemainingTagsDecode(selected, capability);
    UpdatedQuery(q, "capability", EncodeCapabilities(rest))
  }

  /** The tags left after removing one from a decoded selection are
      comma-free, so their join decodes back to them (an only empty tag
      decodes to none). */
  lemma RemainingTagsDecode(selected: seq<string>, capability: string)
    requires forall i :: 0 <= i < |selected| ==> ',' !in selected[i]
    ensures var rest := RemoveAll(selected, capability);
      && (EncodeCapabilities(rest) != "" ==> DecodeCapabilities(Some(EncodeCapabilities(rest))) == rest)
      && (EncodeCapabilities(rest) == "" <==> rest == [] || rest == [""])
  {
    var rest := RemoveAll(selected, capability);
    if EncodeCapabilities(rest) != "" {
      forall i | 0 <= i < |rest|
        ensures ',' !in rest[i]
      {
        assert rest[i] in multiset(rest);
      }
      DecodeEncoded(rest);
    }
  }

  /** `removeCapability`: drops every copy of one tag from the selection and
      writes the rest back through `updateFilter`, under the corrected
      sentinel rule. */
  method RemoveCapability(query: Query, capability: string) returns (next: Query)
    ensures next == RemovedCapabilityQuery(query, capability)
  {
    var selected := DecodeCapabilities(GetParam(query, "capability"));
    var rest := RemoveAll(selected, capability);
    next := UpdateFilter(query, "capability", EncodeCapabilities(rest));
  }

  /** `updateFilter` as written: the "all" sentinel clears whatever key it
      is written to. */
  function UpdatedQueryAsWritten(q: Query, key: string, value: string): (r: Query)
    ensures GetParam(r, key) == if value != "" && value != "all" then Some(value) else None
    ensures DeleteParam(r, key) == DeleteParam(q, key)
  {
    if value != "" && value != "all" then
      DeleteAfterSet(q, key, value);
      SetParamOnce(q, key, value);
      SetParam(q, key, value)
    else
      var r := DeleteParam(q, key);
      DeleteAbsent(r, key);
      r
  }

  /** `removeCapability` as written: the remaining tags go through the
      as-written `updateFilter`, so the parameter also goes away when the
      only tag left is "all". */
  function RemovedCapabilityQueryAsWritten(q: Query, capability: string): (r: Query)
    ensures var selected := DecodeCapabilities(GetParam(q, "capability"));
      var rest := RemoveAll(selected, capability);
      var encoded := EncodeCapabilities(rest);
      var after := DecodeCapabilities(GetParam(r, "capability"));
      && (GetParam(r, "capability") == None <==> encoded == "" || encoded == "all")
      && (GetParam(r, "capability") != None ==> after == rest)
      && capability !in after
      && DeleteParam(r, "capability") == DeleteParam(q, "capability")
  {
    var selected := DecodeCapabilities(GetParam(q, "capability"));
    var rest := RemoveAll(selected, capability);
    RemainingTagsDecode(selected, capability);
    UpdatedQueryAsWritten(q, "capability", EncodeCapabilities(rest))
  }

  /** As written, removing "vision" from the selection "all,vision" leaves
      the tag "all", which the sentinel then clears together with the
      parameter; under the corrected rule "all" stays selected. */
  lemma RemoveLeavingAllAsWritten()
    ensures var q := [("capability", "all,vision")];
      && DecodeCapabilities(GetParam(q, "capability")) == ["all", "vision"]
      && GetParam(RemovedCapabilityQueryAsWritten(q, "vision"), "capability") == None
      && GetParam(RemovedCapabilityQuery(q, "vision"), "capability") == Some("all")
  {
    var q := [("capability", "all,vision")];
    var tags := ["all", "vision"];
    assert GetParam(q, "capability") == Some("all,vision");
    assert EncodeCapabilities(tags) == "all,vision" by {
      assert Join(tags[1..], ',') == "vision";
    }
    EncodeDecode(tags);
    assert RemoveAll(tags, "vision") == ["all"] by {
      var keep := (y: string) => y != "vision";
      assert tags[1..] == ["vision"];
      assert Filter(["vision"], keep) == [];
      assert Filter(tags, keep) == ["all"] + Filter(["vision"], keep);
    }
    assert EncodeCapabilities(["all"]) == "all";
  }

  /** A text without the letter l does not contain "all". */
  lemma WithoutLetterL(s: string)
    requires forall i :: 0 <= i < |s| ==> s[i] != 'l'
    ensures !Includes(s, "all")
  {
    forall i: nat
      ensures !OccursAt(s, "all", i)
    {
      if i + 3 <= |s| {
        assert s[i..i + 3][1] == s[i + 1];
      }
    }
  }

  /** As written, typing exactly "all" into the search box removes the
      `search` parameter, so the list shows again a model none of whose
      name, API string and provider contains "all"; and removing a tag so
      that only a tag named "all" is left deselects that one too. */
  lemma AllSentinelClearsAnyKey()
    ensures var m := Model("gpt-4o", "OpenAI", "GPT-4o", "gpt-4o", Pricing(2.5, 10.0), 128000,
        ["vision"], "2024-05-13", Active, None, None);
      var q := UpdatedQueryAsWritten([], "search", "all");
      && !MatchesSearch(m, "all")
      && ReadFilters(q).search == ""
      && FilteredModels([m], q) == [m]
    ensures ReadFilters(UpdatedQueryAsWritten([], "capability", EncodeCapabilities(["all"]))).capabilities == []
  {
    var m := Model("gpt-4o", "OpenAI", "GPT-4o", "gpt-4o", Pricing(2.5, 10.0), 128000,
      ["vision"], "2024-05-13", Active, None, None);
    var q := UpdatedQueryAsWritten([], "search", "all");
    assert q == [];
    NoFiltersShowAll([m], q);
    assert ToLower("all") == "all";
    assert ToLower("GPT-4o") == "gpt-4o";
    assert ToLower("gpt-4o") == "gpt-4o";
    assert ToLower("OpenAI") == "openai";
    WithoutLetterL("gpt-4o");
    WithoutLetterL("openai");
    assert EncodeCapabilities(["all"]) == "all";
  }
}
