/** The plain-text model reference served at `/llms.txt`: a fixed header,
    then one section per provider in ascending order, listing that
    provider's models in catalogue order. */
module LlmsTxt {
  import opened Wrappers
  import opened Text
  import opened Lists
  import opened Ordering
  import opened Catalog

  /** The two number renderings the export uses: `toLocaleString()` of the
      context window in thousands and `toFixed(2)` of a price. */
  datatype NumberFormat = NumberFormat(thousands: real -> string, fixed2: real -> string)

  const HeaderText := "# LLM Model Reference\n" + "# See https://llmstxt.org for format details\n\n"

  function Heading(provider: string): string
  {
    "## " + provider + "\n\n"
  }

  /** The description line, present exactly when the model has a
      description that is not empty (a truthy JavaScript string). */
  function DescriptionLine(description: Option<string>): (line: string)
    ensures line != "" <==> description.Some? && description.value != ""
    ensures line != "" ==> line == "  - Description: " + description.value + "\n"
  {
    match description
    case Some(d) => if d != "" then "  - Description: " + d + "\n" else ""
    case None => ""
  }

  function NameLine(m: Model): string
  {
    "- " + m.modelName + " (" + m.apiString + ")\n"
  }

  function ContextLine(m: Model, fmt: NumberFormat): string
  {
    "  - Context: " + fmt.thousands(m.contextWindow as real / 1000.0) + "k\n"
  }

  function InputLine(m: Model, fmt: NumberFormat): string
  {
    "  - Input: $" + fmt.fixed2(m.pricing.inputPer1M) + "/1M\n"
  }

  function OutputLine(m: Model, fmt: NumberFormat): string
  {
    "  - Output: $" + fmt.fixed2(m.pricing.outputPer1M) + "/1M\n"
  }

  /** One model's block: name and API string, context window, both prices,
      the optional description, and a blank line. It opens with the name
      line and ends with a blank line. */
  function EntryText(m: Model, fmt: NumberFormat): (e: string)
    ensures |e| > |NameLine(m)| + 1 && e[..|NameLine(m)|] == NameLine(m)
    ensures e[|e| - 2..] == "\n\n"
  {
    var lines := NameLine(m) + ContextLine(m, fmt) + InputLine(m, fmt) + OutputLine(m, fmt);
    var d := DescriptionLine(m.description);
    assert lines[..|NameLine(m)|] == NameLine(m);
    assert (lines + d + "\n")[|lines + d + "\n"| - 2] == (if d == "" then lines[|lines| - 1] else d[|d| - 1]);
    lines + d + "\n"
  }

  /** Layout of one block: the name line is followed by the context, input
      and output lines in that order, and the block is longer than those
      four lines and the closing blank line exactly when there is a
      description. */
  lemma EntryLayout(m: Model, fmt: NumberFormat)
    ensures var e, n, c, i, o := EntryText(m, fmt), NameLine(m), ContextLine(m, fmt), InputLine(m, fmt), OutputLine(m, fmt);
      && |e| >= |n| + |c| + |i| + |o| + 1
      && OccursAt(e, c, |n|)
      && OccursAt(e, i, |n| + |c|)
      && OccursAt(e, o, |n| + |c| + |i|)
      && (|e| > |n| + |c| + |i| + |o| + 1 <==> m.description.Some? && m.description.value != "")
  {
    var e, n, c, i, o := EntryText(m, fmt), NameLine(m), ContextLine(m, fmt), InputLine(m, fmt), OutputLine(m, fmt);
    assert e == n + c + i + o + DescriptionLine(m.description) + "\n";
  }

  function EntriesText(ms: seq<Model>, fmt: NumberFormat): string
  {
    if ms == [] then "" else EntriesText(ms[..|ms| - 1], fmt) + EntryText(ms[|ms| - 1], fmt)
  }

  function ProviderIs(provider: string): Model -> bool
  {
    (m: Model) => m.provider == provider
  }

  /** `models.filter((m) => m.provider === provider)`. */
  function ModelsOf(models: seq<Model>, provider: string): (group: seq<Model>)
    ensures forall m :: m in group ==> m.provider == provider
    ensures forall m :: m in models && m.provider == provider ==> m in group
    ensures forall m: Model :: m.provider == provider ==> multiset(group)[m] == multiset(models)[m]
  {
    var group := Filter(models, ProviderIs(provider));
    assert forall m :: multiset(group)[m] == if m.provider == provider then multiset(models)[m] else 0;
    group
  }

  /** A provider's models keep their catalogue order. */
  lemma ModelsOfInOrder(a: seq<Model>, b: seq<Model>, provider: string)
    ensures ModelsOf(a + b, provider) == ModelsOf(a, provider) + ModelsOf(b, provider)
  {
    FilterAppend(a, b, ProviderIs(provider));
  }

  function SectionText(provider: string, models: seq<Model>, fmt: NumberFormat): string
  {
    Heading(provider) + EntriesText(ModelsOf(models, provider), fmt)
  }

  function SectionsText(providers: seq<string>, models: seq<Model>, fmt: NumberFormat): string
  {
    if providers == [] then ""
    else
      SectionsText(providers[..|providers| - 1], models, fmt)
      + SectionText(providers[|providers| - 1], models, fmt)
  }

  /** The whole document: it opens with the two header lines and a blank
      line, and holds the section of every provider in the catalogue. */
  function LlmsTxt(models: seq<Model>, fmt: NumberFormat): (doc: string)
    ensures |doc| >= |HeaderText| && doc[..|HeaderText|] == HeaderText
    ensures forall m :: m in models ==> Includes(doc, SectionText(m.provider, models, fmt))
  {
    var ps := SortedProviders(models);
    SectionsIncludeEvery(HeaderText, ps, models, fmt);
    assert forall m :: m in models ==> m.provider in ps;
    HeaderText + SectionsText(ps, models, fmt)
  }

  /** The body of the inner loop: appends one model's lines to `content`. */
  method AppendEntry(content: string, model: Model, fmt: NumberFormat) returns (next: string)
    ensures next == content + EntryText(model, fmt)
  {
    next := content + NameLine(model);
    next := next + ContextLine(model, fmt);
    assert next == content + (NameLine(model) + ContextLine(model, fmt));
    next := next + InputLine(model, fmt);
    next := next + OutputLine(model, fmt);
    ghost var lines := NameLine(model) + ContextLine(model, fmt) + InputLine(model, fmt) + OutputLine(model, fmt);
    assert next == content + lines;
    if model.description.Some? && model.description.value != "" {
      next := next + "  - Description: " + model.description.value + "\n";
    }
    assert next == content + lines + DescriptionLine(model.description);
    next := next + "\n";
    assert next == content + (lines + DescriptionLine(model.description) + "\n");
  }

  /** Appending the next entry to the text so far extends the entries by
      one model. */
  lemma EntriesStep(pre: string, ms: seq<Model>, j: nat, fmt: NumberFormat)
    requires j < |ms|
    ensures pre + EntriesText(ms[..j], fmt) + EntryText(ms[j], fmt) == pre + EntriesText(ms[..j + 1], fmt)
  {
    assert ms[..j + 1][..j] == ms[..j];
    Assoc(pre, EntriesText(ms[..j], fmt), EntryText(ms[j], fmt));
  }

  /** Appending the next section to the text so far extends the sections by
      one provider. */
  lemma SectionsStep(pre: string, ps: seq<string>, i: nat, models: seq<Model>, fmt: NumberFormat)
    requires i < |ps|
    ensures pre + SectionsText(ps[..i], models, fmt) + SectionText(ps[i], models, fmt) == pre + SectionsText(ps[..i + 1], models, fmt)
  {
    assert ps[..i + 1][..i] == ps[..i];
    Assoc(pre, SectionsText(ps[..i], models, fmt), SectionText(ps[i], models, fmt));
  }

  lemma Assoc(a: string, b: string, c: string)
    ensures a + b + c == a + (b + c)
  {
  }

  /** The body of the outer loop: appends one provider's heading and the
      blocks of its models, in catalogue order. */
  method AppendSection(content: string, provider: string, models: seq<Model>, fmt: NumberFormat)
    returns (next: string)
    ensures next == content + SectionText(provider, models, fmt)
  {
    next := content + Heading(provider);
    ghost var pre := next;
    var providerModels := ModelsOf(models, provider);
    var j := 0;
    while j < |providerModels|
      invariant j <= |providerModels|
      invariant next == pre + EntriesText(providerModels[..j], fmt)
    {
      next := AppendEntry(next, providerModels[j], fmt);
      EntriesStep(pre, providerModels, j, fmt);
      j := j + 1;
    }
    assert providerModels[..j] == providerModels;
    Assoc(content, Heading(provider), EntriesText(providerModels, fmt));
  }

  /** `GET()`: builds the document section by section, as the route
      handler does, and yields the response body. */
  method BuildLlmsTxt(models: seq<Model>, fmt: NumberFormat) returns (content: string)
    ensures content == LlmsTxt(models, fmt)
  {
    content := "# LLM Model Reference\n";
    content := content + "# See https://llmstxt.org for format details\n\n";
    assert content == HeaderText + SectionsText([], models, fmt);
    var providers := SortedProviders(models);
    var i := 0;
    while i < |providers|
      invariant i <= |providers|
      invariant content == HeaderText + SectionsText(providers[..i], models, fmt)
    {
      content := AppendSection(content, providers[i], models, fmt);
      SectionsStep(HeaderText, providers, i, models, fmt);
      i := i + 1;
    }
    assert providers[..i] == providers;
  }

  /** The models listed under the given providers, section after section. */
  ghost function Grouped(providers: seq<string>, models: seq<Model>): seq<Model>
  {
    if providers == [] then []
    else Grouped(providers[..|providers| - 1], models) + ModelsOf(models, providers[|providers| - 1])
  }

  /** Grouping by distinct providers lists each model of those providers as
      often as the catalogue does, and no other model. */
  lemma {:induction false} GroupedCounts(providers: seq<string>, models: seq<Model>)
    requires NoDups(providers)
    ensures forall m: Model ::
      multiset(Grouped(providers, models))[m] == if m.provider in providers then multiset(models)[m] else 0
    decreases |providers|
  {
    if providers != [] {
      var init, last := providers[..|providers| - 1], providers[|providers| - 1];
      assert providers == init + [last];
      assert multiset(providers) == multiset(init) + multiset{last};
      assert NoDups(init) by {
        forall x ensures multiset(init)[x] <= 1 {
          assert multiset(providers)[x] <= 1;
        }
      }
      assert last !in init by {
        assert multiset(providers)[last] <= 1;
      }
      GroupedCounts(init, models);
      forall m: Model
        ensures multiset(Grouped(providers, models))[m]
          == if m.provider in providers then multiset(models)[m] else 0
      {
        assert multiset(Grouped(providers, models))
          == multiset(Grouped(init, models)) + multiset(ModelsOf(models, last));
        if m.provider == last {
          assert m.provider !in init;
        } else {
          assert m !in ModelsOf(models, last);
        }
      }
    }
  }

  /** Every model of the catalogue is listed exactly as often as it occurs
      there: the provider sections partition the catalogue. */
  lemma EveryModelListedOnce(models: seq<Model>)
    ensures multiset(Grouped(SortedProviders(models), models)) == multiset(models)
  {
    var ps := SortedProviders(models);
    GroupedCounts(ps, models);
    forall m: Model ensures multiset(Grouped(ps, models))[m] == multiset(models)[m] {
      if multiset(models)[m] > 0 {
        assert m in models;
        assert m.provider in ps;
      }
    }
  }

  lemma {:induction false} EntriesIncludeEntry(ms: seq<Model>, m: Model, fmt: NumberFormat)
    requires m in ms
    ensures Includes(EntriesText(ms, fmt), EntryText(m, fmt))
    decreases |ms|
  {
    var init, last := ms[..|ms| - 1], ms[|ms| - 1];
    assert ms == init + [last];
    if m == last {
      IncludesPrepend(EntriesText(init, fmt), EntryText(m, fmt), EntryText(m, fmt));
    } else {
      EntriesIncludeEntry(init, m, fmt);
      IncludesAppend(EntriesText(init, fmt), EntryText(last, fmt), EntryText(m, fmt));
    }
  }

  lemma {:induction false} SectionsIncludeSection(ps: seq<string>, k: nat, models: seq<Model>, fmt: NumberFormat)
    requires k < |ps|
    ensures Includes(SectionsText(ps, models, fmt), SectionText(ps[k], models, fmt))
    decreases |ps|
  {
    var init, last := ps[..|ps| - 1], ps[|ps| - 1];
    if k == |ps| - 1 {
      IncludesPrepend(SectionsText(init, models, fmt), SectionText(last, models, fmt), SectionText(last, models, fmt));
    } else {
      SectionsIncludeSection(init, k, models, fmt);
      IncludesAppend(SectionsText(init, models, fmt), SectionText(last, models, fmt), SectionText(ps[k], models, fmt));
    }
  }

  lemma SectionsIncludeEvery(pre: string, ps: seq<string>, models: seq<Model>, fmt: NumberFormat)
    ensures forall p :: p in ps ==> Includes(pre + SectionsText(ps, models, fmt), SectionText(p, models, fmt))
  {
    forall p | p in ps
      ensures Includes(pre + SectionsText(ps, models, fmt), SectionText(p, models, fmt))
    {
      var k :| 0 <= k < |ps| && ps[k] == p;
      SectionsIncludeSection(ps, k, models, fmt);
      IncludesPrepend(pre, SectionsText(ps, models, fmt), SectionText(p, models, fmt));
    }
  }

  /** Every model of the catalogue appears in the document, as a block inside
      the section headed by its provider. */
  lemma EveryModelAppears(models: seq<Model>, m: Model, fmt: NumberFormat)
    requires m in models
    ensures Includes(SectionText(m.provider, models, fmt), EntryText(m, fmt))
    ensures Includes(LlmsTxt(models, fmt), SectionText(m.provider, models, fmt))
    ensures Includes(LlmsTxt(models, fmt), EntryText(m, fmt))
  {
    var ps := SortedProviders(models);
    var section := SectionText(m.provider, models, fmt);
    assert m.provider in ps;
    var k :| 0 <= k < |ps| && ps[k] == m.provider;
    SectionsIncludeSection(ps, k, models, fmt);
    IncludesPrepend(HeaderText, SectionsText(ps, models, fmt), section);
    EntriesIncludeEntry(ModelsOf(models, m.provider), m, fmt);
    IncludesPrepend(Heading(m.provider), EntriesText(ModelsOf(models, m.provider), fmt), EntryText(m, fmt));
    IncludesTransitive(LlmsTxt(models, fmt), section, EntryText(m, fmt));
  }

  lemma {:induction false} SectionsAppend(a: seq<string>, b: seq<string>, models: seq<Model>, fmt: NumberFormat)
    ensures SectionsText(a + b, models, fmt) == SectionsText(a, models, fmt) + SectionsText(b, models, fmt)
    decreases |b|
  {
    if b == [] {
      assert a + b == a;
    } else {
      var init, last := b[..|b| - 1], b[|b| - 1];
      assert (a + b)[..|a + b| - 1] == a + init;
      SectionsAppend(a, init, models, fmt);
    }
  }

  /** The sections split around any one of them. */
  lemma SectionsSplit(ps: seq<string>, j: nat, models: seq<Model>, fmt: NumberFormat)
    requires j < |ps|
    ensures SectionsText(ps, models, fmt)
      == SectionsText(ps[..j], models, fmt) + SectionText(ps[j], models, fmt) + SectionsText(ps[j + 1..], models, fmt)
  {
    assert ps == ps[..j] + [ps[j]] + ps[j + 1..];
    SectionsAppend(ps[..j] + [ps[j]], ps[j + 1..], models, fmt);
    SectionsAppend(ps[..j], [ps[j]], models, fmt);
    assert SectionsText([ps[j]], models, fmt) == SectionText(ps[j], models, fmt);
  }

  /** Sections follow the ascending provider order: for providers at
      positions i < j, the document splits just before the j-th section,
      and the part before it already holds the i-th. */
  lemma SectionsInProviderOrder(models: seq<Model>, fmt: NumberFormat, i: nat, j: nat)
    requires i < j < |SortedProviders(models)|
    ensures var ps := SortedProviders(models);
      var before := HeaderText + SectionsText(ps[..j], models, fmt);
      && Less(ps[i], ps[j])
      && Includes(before, SectionText(ps[i], models, fmt))
      && LlmsTxt(models, fmt) == before + SectionText(ps[j], models, fmt) + SectionsText(ps[j + 1..], models, fmt)
  {
    var ps := SortedProviders(models);
    var head, middle, tail := SectionsText(ps[..j], models, fmt), SectionText(ps[j], models, fmt), SectionsText(ps[j + 1..], models, fmt);
    SectionsIncludeSection(ps[..j], i, models, fmt);
    IncludesPrepend(HeaderText, head, SectionText(ps[i], models, fmt));
    SectionsSplit(ps, j, models, fmt);
    Assoc(HeaderText, head + middle, tail);
    Assoc(HeaderText, head, middle);
  }


  /** The document below its header, read as a list of blocks: a provider's
      heading, or one model's entry. */
  datatype Block = Head(provider: string) | Entry(model: Model)

  function BlockText(b: Block, fmt: NumberFormat): string
  {
    match b
    case Head(provider) => Heading(provider)
    case Entry(m) => EntryText(m, fmt)
  }

  function BlocksText(bs: seq<Block>, fmt: NumberFormat): string
  {
    if bs == [] then "" else BlocksText(bs[..|bs| - 1], fmt) + BlockText(bs[|bs| - 1], fmt)
  }

  /** The models whose entries the blocks hold, in order. */
  function Listed(bs: seq<Block>): seq<Model>
  {
    if bs == [] then []
    else Listed(bs[..|bs| - 1]) + (match bs[|bs| - 1] case Entry(m) => [m] case Head(_) => [])
  }

  /** The headings the blocks hold, in order. */
  function Headings(bs: seq<Block>): seq<string>
  {
    if bs == [] then []
    else Headings(bs[..|bs| - 1]) + (match bs[|bs| - 1] case Head(p) => [p] case Entry(_) => [])
  }

  function EntryBlocks(ms: seq<Model>): seq<Block>
  {
    if ms == [] then [] else EntryBlocks(ms[..|ms| - 1]) + [Entry(ms[|ms| - 1])]
  }

  /** The blocks the route emits for the given providers: each heading,
      followed by the entries of that provider's models. */
  function Layout(providers: seq<string>, models: seq<Model>): seq<Block>
  {
    if providers == [] then []
    else
      var last := providers[|providers| - 1];
      Layout(providers[..|providers| - 1], models) + [Head(last)] + EntryBlocks(ModelsOf(models, last))
  }

  lemma {:induction false} BlocksAppend(a: seq<Block>, b: seq<Block>, fmt: NumberFormat)
    ensures BlocksText(a + b, fmt) == BlocksText(a, fmt) + BlocksText(b, fmt)
    decreases |b|
  {
    if b == [] {
      assert a + b == a;
    } else {
      var init, last := b[..|b| - 1], b[|b| - 1];
      calc {
        BlocksText(a + b, fmt);
        { assert (a + b)[..|a + b| - 1] == a + init; }
        BlocksText(a + init, fmt) + BlockText(last, fmt);
        { BlocksAppend(a, init, fmt); }
        BlocksText(a, fmt) + BlocksText(init, fmt) + BlockText(last, fmt);
        { Assoc(BlocksText(a, fmt), BlocksText(init, fmt), BlockText(last, fmt)); }
        BlocksText(a, fmt) + BlocksText(b, fmt);
      }
    }
  }

  lemma {:induction false} ListedAppend(a: seq<Block>, b: seq<Block>)
    ensures Listed(a + b) == Listed(a) + Listed(b)
    ensures Headings(a + b) == Headings(a) + Headings(b)
    decreases |b|
  {
    if b == [] {
      assert a + b == a;
    } else {
      assert (a + b)[..|a + b| - 1] == a + b[..|b| - 1];
      ListedAppend(a, b[..|b| - 1]);
    }
  }

  /** Entry blocks render as the entries and list exactly those models. */
  lemma {:induction false} EntryBlocksText(ms: seq<Model>, fmt: NumberFormat)
    ensures BlocksText(EntryBlocks(ms), fmt) == EntriesText(ms, fmt)
    decreases |ms|
  {
    if ms != [] {
      var init, last := ms[..|ms| - 1], ms[|ms| - 1];
      calc {
        BlocksText(EntryBlocks(ms), fmt);
        BlocksText(EntryBlocks(init) + [Entry(last)], fmt);
        { assert (EntryBlocks(init) + [Entry(last)])[..|EntryBlocks(init)|] == EntryBlocks(init); }
        BlocksText(EntryBlocks(init), fmt) + EntryText(last, fmt);
        { EntryBlocksText(init, fmt); }
        EntriesText(ms, fmt);
      }
    }
  }

  lemma {:induction false} EntryBlocksListed(ms: seq<Model>)
    ensures Listed(EntryBlocks(ms)) == ms
    ensures Headings(EntryBlocks(ms)) == []
    decreases |ms|
  {
    if ms != [] {
      var init := ms[..|ms| - 1];
      EntryBlocksListed(init);
      assert (EntryBlocks(init) + [Entry(ms[|ms| - 1])])[..|EntryBlocks(init)|] == EntryBlocks(init);
      assert ms == init + [ms[|ms| - 1]];
    }
  }

  lemma {:induction false} LayoutText(providers: seq<string>, models: seq<Model>, fmt: NumberFormat)
    ensures BlocksText(Layout(providers, models), fmt) == SectionsText(providers, models, fmt)
    decreases |providers|
  {
    if providers != [] {
      var init, last := providers[..|providers| - 1], providers[|providers| - 1];
      var before, entries := Layout(init, models), EntryBlocks(ModelsOf(models, last));
      calc {
        BlocksText(Layout(providers, models), fmt);
        BlocksText(before + [Head(last)] + entries, fmt);
        { BlocksAppend(before + [Head(last)], entries, fmt); }
        BlocksText(before + [Head(last)], fmt) + BlocksText(entries, fmt);
        { assert (before + [Head(last)])[..|before|] == before;
          EntryBlocksText(ModelsOf(models, last), fmt); }
        BlocksText(before, fmt) + Heading(last) + EntriesText(ModelsOf(models, last), fmt);
        { LayoutText(init, models, fmt);
          Assoc(SectionsText(init, models, fmt), Heading(last), EntriesText(ModelsOf(models, last), fmt)); }
        SectionsText(providers, models, fmt);
      }
    }
  }

  lemma {:induction false} LayoutListed(providers: seq<string>, models: seq<Model>)
    ensures Listed(Layout(providers, models)) == Grouped(providers, models)
    ensures Headings(Layout(providers, models)) == providers
    decreases |providers|
  {
    if providers != [] {
      var init, last := providers[..|providers| - 1], providers[|providers| - 1];
      var before, entries := Layout(init, models), EntryBlocks(ModelsOf(models, last));
      LayoutListed(init, models);
      EntryBlocksListed(ModelsOf(models, last));
      ListedAppend(before, [Head(last)]);
      ListedAppend(before + [Head(last)], entries);
      assert [Head(last)][..0] == [];
      assert providers == init + [last];
    }
  }

  /** Below its header the document is one heading per provider, in
      ascending order, each followed by its models' entries; and the
      entries, taken together, list every model of the catalogue exactly
      as often as the catalogue holds it. */
  lemma DocumentLayout(models: seq<Model>, fmt: NumberFormat)
    ensures var bs := Layout(SortedProviders(models), models);
      && LlmsTxt(models, fmt) == HeaderText + BlocksText(bs, fmt)
      && Headings(bs) == SortedProviders(models)
      && multiset(Listed(bs)) == multiset(models)
  {
    LayoutText(SortedProviders(models), models, fmt);
    LayoutListed(SortedProviders(models), models);
    EveryModelListedOnce(models);
  }
}
