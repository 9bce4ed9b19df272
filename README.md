# LLM model catalogue: query-state filtering, capability toggles, snippets and llms.txt

The catalogue is a Next.js site that lists LLM API offerings from a static
JSON dataset. This project models its small core of logic in Dafny:

- **Query state.** The card list (`ModelList`) reads its filters from the
  URL query: a free-text `search`, a `provider` (where "all" means every
  provider) and a comma-joined `capability` list. It shows the models that
  match all three. Its controls rewrite the query with `URLSearchParams`
  `set`/`delete` (`updateFilter`, `removeCapability`).
- **Capability toggle.** A card's capability chip (`ModelCard`) adds or
  removes one tag in the `capability` parameter.
- **Snippets.** `generateSnippets` fills curl, Python and JavaScript
  request templates with a model's provider and API string.
- **llms.txt export.** The `/llms.txt` route builds a plain-text listing:
  a fixed header, then one section per provider in ascending order, each
  listing that provider's models with name, API string, context window in
  thousands, prices and an optional description.

The query is a list of name–value pairs. `get`, `set` and `delete` follow
section 6.2 of the WHATWG URL Standard (`UrlSearchParams`). Each step-wise
piece of code is a method proved equal to a specification function:
`updateFilter`, `removeCapability`, `toggleCapability` and the llms.txt
content builder. The properties are proved about those functions.

Modules:
- `Wrappers`: `Option`.
- `Text`: ASCII case mapping, substring search, split and join.
- `Lists`: `filter`, removing an element, first-occurrence de-duplication.
- `Ordering`: code-point lexicographic order and sorting.
- `Catalog`: the model record and the sorted provider list.
- `UrlSearchParams`, `CapabilityParam`.
- `ModelList`, `ModelCard`, `Snippets`, `LlmsTxt`.

The model record is the `Model` interface of lib/types.ts:1-16, as the
datatype `Catalog.Model`.

Two notes on what the card list's code does:
- The card list reads no price ceiling and no sort key, so neither is
  modelled.
- The "all" sentinel in `updateFilter` applies to every key, not only to
  the provider drop-down; see Findings. `UpdatedQueryAsWritten` and
  `RemovedCapabilityQueryAsWritten` model that code as written.
  `UpdatedQuery`, `UpdateFilter`, `RemovedCapabilityQuery`,
  `RemoveCapability` and `SearchBoxKeepsTyped` model the corrected rule
  named there, where "all" clears only `provider`. For the `provider` key
  the two definitions take the same branch, so `ProviderChoiceKept`
  describes the drop-down as written.

## Model

| member | source | states |
|---|---|---|
| UrlSearchParams.FirstIndex | components/ModelList.tsx:18-20 | the position of the first pair with the name, or the length of the list: no earlier pair has the name, and the pair there does |
| UrlSearchParams.GetParam | components/ModelList.tsx:18-20 | `get` is absent exactly when no pair has the name; when present, its value belongs to a pair with that name |
| UrlSearchParams.DeleteParam | components/ModelList.tsx:54 | `delete` leaves no pair with the name and keeps every other pair as often as it occurred |
| UrlSearchParams.SetParam | components/ModelList.tsx:52 | after `set`, `get` returns the new value |
| UrlSearchParams.SetParamOnce | components/ModelList.tsx:52 | after `set`, the name occurs exactly once, at the position where it first stood |
| UrlSearchParams.DeleteAfterSet | components/ModelList.tsx:52 | `set` changes no pair of another name: deleting the name afterwards gives the same list as deleting it before |
| UrlSearchParams.GetParamOther | components/ModelList.tsx:52-54 | `set` and `delete` of one name leave every other name's `get` unchanged |
| UrlSearchParams.GetParamDeleted | components/ModelList.tsx:54 | looking up another name sees through a `delete` |
| UrlSearchParams.DeleteAbsent | components/ModelList.tsx:54 | `delete` of an absent name changes nothing |
| UrlSearchParams.SetAbsent | components/ModelList.tsx:52 | `set` of an absent name appends one pair at the end |
| UrlSearchParams.SetPresentOnce | components/ModelList.tsx:52 | `set` of a name that occurs once replaces that pair in place |
| UrlSearchParams.SetPresentFirst | components/ModelList.tsx:52 | `set` of a name held only by the first pair replaces that pair |
| UrlSearchParams.Params.constructor | components/ModelList.tsx:50 | the new params object holds a copy of the query's pairs |
| UrlSearchParams.Params.Set | components/ModelList.tsx:52 | the object's pairs become `set` applied to the old pairs |
| UrlSearchParams.Params.Delete | components/ModelList.tsx:54 | the object's pairs become `delete` applied to the old pairs |
| CapabilityParam.DecodeCapabilities | components/ModelList.tsx:20-23 | an absent or empty parameter selects no tag; any other value splits into comma-free tags whose join is that value |
| CapabilityParam.EncodeDecode | components/ModelCard.tsx:25-35 | joining a non-empty list of non-empty comma-free tags and splitting the result gives the list back |
| CapabilityParam.DecodeEncoded | components/ModelCard.tsx:25-35 | the same round trip for comma-free tags, where the single empty tag decodes to no tag |
| CapabilityParam.EncodeCapabilities | components/ModelCard.tsx:35 | `join(",")` of the tags is empty exactly when there is no tag or only the empty tag |
| Text.ToLower | components/ModelList.tsx:33-35 | lower-casing keeps the length, maps each letter A–Z to its lower-case letter (code point + 32), leaves no upper-case letter and changes no other character |
| Text.ToUpper | lib/snippets.ts:21 | upper-casing keeps the length, maps each letter a–z to its upper-case letter (code point − 32), leaves no lower-case letter and changes no other character |
| Text.ToLowerIdempotent | components/ModelList.tsx:33-35 | lower-casing twice is lower-casing once |
| Text.ToLowerOfToUpper | components/ModelList.tsx:33-35 | lower-casing an upper-cased string is lower-casing the original |
| Text.IncludesLowered | components/ModelList.tsx:33-35 | `includes` on two lower-cased strings holds exactly when the needle occurs in the haystack ignoring case |
| Text.Includes | components/ModelList.tsx:33-35 | `includes` holds for the empty needle and for the haystack itself, and only for a needle no longer than the haystack |
| Text.Join | components/ModelCard.tsx:35 | `join` of no piece is empty; otherwise the text starts with the first piece, followed by the separator when there is a second piece |
| Text.Split | components/ModelList.tsx:22 | `split(",")` yields at least one piece and no piece holds a comma |
| Text.JoinSplit | components/ModelList.tsx:22 | joining the pieces of a split gives the string back |
| Text.SplitJoin | components/ModelCard.tsx:35 | splitting a join of comma-free pieces gives the pieces back |
| Lists.Filter | components/ModelList.tsx:31 | `filter` keeps every element that passes the test as often as it occurred and drops every other |
| Lists.FilterAppend | components/ModelList.tsx:31 | `filter` distributes over concatenation, so kept elements keep their relative order |
| Lists.RemoveAll | components/ModelCard.tsx:29 | `filter(c => c !== x)` removes every copy of `x` and keeps every other element's count |
| Lists.RemoveAllAppended | components/ModelCard.tsx:29-31 | removing a tag that was just appended, and was absent before, gives the old list back |
| Lists.Distinct | components/ModelList.tsx:26 | `Array.from(new Set(xs))` has no duplicates and the same elements as `xs` |
| Ordering.Less | components/ModelList.tsx:27 | the order used by `sort()` is the lexicographic order: a proper prefix sorts first, otherwise the first differing character decides |
| Ordering.LexicographicStep | components/ModelList.tsx:27 | two non-empty strings compare by their first characters, and by the rests when those are equal |
| Ordering.LessIrreflexive | components/ModelList.tsx:27 | no string sorts before itself |
| Ordering.LessAsymmetric | components/ModelList.tsx:27 | two strings are never each before the other |
| Ordering.LessTransitive | components/ModelList.tsx:27 | the string order used by `sort()` is transitive |
| Ordering.LessTotal | components/ModelList.tsx:27 | any two different strings are ordered one way or the other |
| Ordering.SortStrings | components/ModelList.tsx:27 | sorting permutes its input |
| Ordering.SortStringsSorted | components/ModelList.tsx:27 | sorting yields an ascending list |
| Ordering.SortDistinct | components/ModelList.tsx:27 | sorting a duplicate-free list yields a strictly ascending permutation of it |
| Ordering.StrictlySortedUnique | components/ModelList.tsx:27 | two strictly ascending lists with the same elements are equal, so any correct sort gives the same result |
| Catalog.ProviderNames | components/ModelList.tsx:26 | `models.map(m => m.provider)` has one name per model and holds exactly the providers that occur |
| Catalog.SortedProviders | app/llms.txt/route.ts:12 | the distinct sorted providers are strictly ascending, duplicate-free, and exactly the providers that occur |
| Catalog.SortedProvidersUnique | app/llms.txt/route.ts:12 | any strictly ascending list of exactly the occurring providers is that list |
| ModelList.ReadFilters | components/ModelList.tsx:18-23 | search is empty, provider is "all" and the tag list is empty each exactly when the parameter is absent or empty (or "all", for the provider) |
| ModelList.Matches | components/ModelList.tsx:30-45 | with no filter set the test passes; a passing model has the chosen provider (unless "all") and every selected tag |
| ModelList.MatchesIffSelected | components/ModelList.tsx:30-45 | the filter's test, on lower-cased text, holds exactly when the query selects the model by its parameters: search text found ignoring case in name, API string or provider, provider "all" or equal, every selected tag present |
| ModelList.FilteredModels | components/ModelList.tsx:30-47 | the shown list holds every model the query selects, as often as it occurs, and no other |
| ModelList.FilteredModelsInOrder | components/ModelList.tsx:31 | the shown models keep their relative order in the catalogue |
| ModelList.NoFiltersShowAll | components/ModelList.tsx:18-45 | with no search, no provider or "all", and no capability, every model is shown in order |
| ModelList.SearchIgnoresCase | components/ModelList.tsx:32-35 | the search matches the same models whether it is typed in upper, lower or mixed case |
| ModelList.AddingCapabilityNarrows | components/ModelList.tsx:40-43 | selecting one more tag gives the old list filtered once more, so the list can only shrink |
| ModelList.Providers | components/ModelList.tsx:25-28 | the drop-down options are "all" followed by exactly the occurring providers, each once, strictly ascending |
| ModelList.UpdatedQuery | components/ModelList.tsx:49-57 | after `updateFilter`, `get(key)` is the value when it is non-empty and not the provider's "all", and absent otherwise; the key occurs at most once; every other pair is unchanged and in order |
| ModelList.UpdateFilter | components/ModelList.tsx:49-57 | under the corrected rule of Findings, the method, working on a params object, yields exactly that query |
| ModelList.SearchBoxKeepsTyped | components/ModelList.tsx:73 | under the corrected rule of Findings, after typing into the search box, the filters read back carry exactly the typed search, and the provider and tags are unchanged |
| ModelList.ProviderChoiceKept | components/ModelList.tsx:81 | after choosing in the drop-down, the filters read back carry that provider ("all" for an empty choice), and search and tags are unchanged |
| ModelList.RemovedCapabilityQuery | components/ModelList.tsx:59-62 | under the corrected rule of Findings, after `removeCapability`, the tag is no longer selected; the other tags stay selected in order; the parameter is gone exactly when their join is empty; every other pair is unchanged |
| ModelList.RemainingTagsDecode | components/ModelList.tsx:60-61 | the join of the remaining tags decodes back to them and is empty only when no tag, or only the empty tag, is left |
| ModelList.RemoveCapability | components/ModelList.tsx:59-62 | under the corrected rule of Findings, the method yields exactly that query |
| ModelList.UpdatedQueryAsWritten | components/ModelList.tsx:49-55 | the code as written: `get(key)` is the value when it is non-empty and not "all" for any key, and absent otherwise; other pairs are unchanged |
| ModelList.RemovedCapabilityQueryAsWritten | components/ModelList.tsx:59-62 | the code as written: the tag is no longer selected; the parameter is gone exactly when the remaining tags join to "" or to "all", and otherwise decodes to exactly the remaining tags; every other pair is unchanged |
| ModelList.RemoveLeavingAllAsWritten | components/ModelList.tsx:51-62 | as written, removing "vision" from the selection "all,vision" drops the parameter, while the corrected rule keeps the tag "all" |
| ModelList.AllSentinelClearsAnyKey | components/ModelList.tsx:51-54 | as written, searching for "all" removes the search, so the list shows again a model whose text does not contain "all"; a lone tag named "all" is dropped too |
| ModelCard.ToggledTags | components/ModelCard.tsx:27-32 | a selected tag is removed everywhere, and an unselected one is appended at the end |
| ModelCard.ToggledQuery | components/ModelCard.tsx:23-41 | after `toggleCapability`, the parameter is the join of the toggled tags, or absent when none is left; it occurs at most once; no other pair is added, removed or moved |
| ModelCard.ToggleCapability | components/ModelCard.tsx:23-41 | the method, working on a params object, yields exactly that query |
| ModelCard.ToggleFlipsMembership | components/ModelCard.tsx:27-32 | toggling a non-empty, comma-free tag flips whether it is selected, and leaves every other non-empty tag as it was |
| ModelCard.ToggleSelects | components/ModelCard.tsx:31 | toggling an unselected tag appends it to the selection |
| ModelCard.ToggleTwiceRestores | components/ModelCard.tsx:23-41 | toggling an unselected tag on and off restores the parameter's value, or its absence (an empty value becomes absent) |
| ModelCard.ToggleTwiceRestoresQuery | components/ModelCard.tsx:23-41 | when the parameter occurs at most once and is not empty, toggling on and off restores the whole query: every pair, in order |
| ModelCard.RestoreAbsent | components/ModelCard.tsx:34-38 | the first toggle appends the pair and the second deletes it |
| ModelCard.RestorePresent | components/ModelCard.tsx:34-38 | both toggles rewrite the one pair in place, the second back to its old value |
| ModelCard.ToggleInPlace | components/ModelCard.tsx:34-35 | when the parameter occurs once and stays present, a toggle rewrites that pair where it stands and changes nothing else |
| Snippets.CurlSnippet | lib/snippets.ts:5-16 | the curl command starts with `curl https://api.<provider lower-cased>.com/v1/chat/completions`, names the model by its API string, and sends "Hello, world!" |
| Snippets.PythonSnippet | lib/snippets.ts:17-34 | the Python snippet imports `<provider>Client` from the lower-cased provider, reads `<PROVIDER>_API_KEY`, passes the API string as `model`, and sends "Hello, world!" |
| Snippets.JavaScriptSnippet | lib/snippets.ts:35-48 | the JavaScript snippet starts by importing `{ <provider> }` from the lower-cased provider, passes the API string as `model`, and sends "Hello, world!" |
| Snippets.GenerateSnippets | lib/snippets.ts:3-50 | each of the three snippets names the model by its API string and sends "Hello, world!"; the curl command calls `api.<provider lower-cased>.com` |
| Snippets.SnippetsDependOnProviderAndApi | lib/snippets.ts:3-50 | the three snippets depend on nothing but the provider and the API string |
| Snippets.OpenAiHost | lib/snippets.ts:5 | provider "OpenAI" gives host `api.openai.com` |
| Snippets.OpenAiCurlExample | lib/snippets.ts:5-9 | for provider "OpenAI" and API string "gpt-4o", the curl command contains `api.openai.com` and `"model": "gpt-4o"` |
| LlmsTxt.DescriptionLine | app/llms.txt/route.ts:23-25 | the description line is written exactly when the description is present and non-empty, and then reads `  - Description: <text>` |
| LlmsTxt.EntryText | app/llms.txt/route.ts:19-26 | an entry opens with the line `- <name> (<API string>)` and ends with a blank line |
| LlmsTxt.EntryLayout | app/llms.txt/route.ts:19-26 | the name line is followed by the context, input and output lines at their offsets; the entry is longer exactly when a description is present |
| LlmsTxt.ModelsOf | app/llms.txt/route.ts:16 | a provider's group holds only its models, and every one of them as often as it occurs |
| LlmsTxt.ModelsOfInOrder | app/llms.txt/route.ts:16 | a group keeps the catalogue's order |
| LlmsTxt.AppendEntry | app/llms.txt/route.ts:19-26 | appending one model's lines adds exactly its entry text |
| LlmsTxt.EntriesStep | app/llms.txt/route.ts:18-26 | appending the next model's entry to the text so far extends the entries by that model |
| LlmsTxt.SectionsStep | app/llms.txt/route.ts:14-27 | appending the next provider's section to the text so far extends the sections by that provider |
| LlmsTxt.AppendSection | app/llms.txt/route.ts:15-27 | appending a provider's heading and entries adds exactly its section text |
| LlmsTxt.BuildLlmsTxt | app/llms.txt/route.ts:7-29 | the content built step by step is the header followed by the sections of the sorted providers |
| LlmsTxt.LlmsTxt | app/llms.txt/route.ts:7-29 | the document starts with the two header lines and a blank line, and holds the section of the provider of every model in the catalogue |
| LlmsTxt.GroupedCounts | app/llms.txt/route.ts:14-16 | grouping by a duplicate-free list of providers lists each model of those providers as often as it occurs, and no other |
| LlmsTxt.EveryModelListedOnce | app/llms.txt/route.ts:12-18 | grouping by the sorted providers lists every model exactly as often as it occurs in the catalogue |
| LlmsTxt.EntriesIncludeEntry | app/llms.txt/route.ts:18-27 | the entries of a group contain each member's entry |
| LlmsTxt.SectionsIncludeSection | app/llms.txt/route.ts:14-28 | the sections contain each provider's section |
| LlmsTxt.EveryModelAppears | app/llms.txt/route.ts:12-28 | each model's entry is in its provider's section, and both are in the document |
| LlmsTxt.SectionsAppend | app/llms.txt/route.ts:14 | the sections of two provider lists in a row are their texts in a row |
| LlmsTxt.SectionsSplit | app/llms.txt/route.ts:14 | the document splits around any provider's section |
| LlmsTxt.SectionsIncludeEvery | app/llms.txt/route.ts:14-28 | whatever precedes them, the sections contain the section of each listed provider |
| LlmsTxt.BlocksAppend | app/llms.txt/route.ts:14-27 | the text of two block lists in a row is their texts in a row |
| LlmsTxt.ListedAppend | app/llms.txt/route.ts:14-27 | the models and headings of two block lists in a row are theirs in a row |
| LlmsTxt.EntryBlocksText | app/llms.txt/route.ts:18-27 | a group's entry blocks render as its entries |
| LlmsTxt.EntryBlocksListed | app/llms.txt/route.ts:18-27 | a group's entry blocks list exactly its models, in order, and no heading |
| LlmsTxt.LayoutText | app/llms.txt/route.ts:14-27 | the blocks of a provider list render as its sections |
| LlmsTxt.LayoutListed | app/llms.txt/route.ts:14-27 | the blocks of a provider list hold its headings in order and list the grouped models |
| LlmsTxt.DocumentLayout | app/llms.txt/route.ts:7-29 | below its header, the document is one heading per sorted provider, each followed by entry blocks, and the entries together list every catalogue model exactly as often as it occurs |
| LlmsTxt.SectionsInProviderOrder | app/llms.txt/route.ts:12-15 | for positions i < j, provider i sorts before provider j, and its section lies wholly before the j-th section |

## Left out

- Rendering: JSX markup, icons, styling, the skeleton, modals, the comparison view and the theme provider. They compute nothing the core depends on.
- `router.replace` and `searchParams.toString()`: the model passes the query as a list of pairs. The percent-encoding of the query string is not part of this model.
- `useMemo` caching: it changes when values are computed, not what they are.
- The JSON dataset import: the catalogue is a parameter `models`. The update script, clipboard access and the `NextResponse` wrapper with its content-type header are not part of this model.
- Text.ToLower / Text.ToUpper: map only the ASCII letters A–Z. JavaScript's full Unicode case mapping is not modelled.
- Ordering.Less: compares characters as Dafny code points. JavaScript's default `sort()` compares UTF-16 code units, which differs only for characters outside the Basic Multilingual Plane.
- Ordering.SortStrings: an insertion sort stands in for the engine's sort. `StrictlySortedUnique` shows that any correct sort of distinct strings gives the same list.
- LlmsTxt.ContextLine, LlmsTxt.InputLine, LlmsTxt.OutputLine: `toLocaleString()` and `toFixed(2)` are parameters of type `NumberFormat`, with no model of their digits.
- Snippets.CurlSnippet, Snippets.PythonSnippet, Snippets.JavaScriptSnippet: state prefixes and contained fragments. The complete text is in the templates themselves.
- ModelList.Providers: the drop-down also renders its own "All Providers" option before the list, which already starts with "all". The duplicate option is rendering only.
- The card list reads no price ceiling and no sort key, so neither is modelled.

## Findings

| source | as written | input that shows it | evidently intended | confidence | as-written member | corrected member |
|---|---|---|---|---|---|---|
| components/ModelList.tsx:51-54 | `updateFilter` deletes the parameter whenever the value is "all", for every key, not only `provider` | type "all" in the search box: the search is dropped and a model such as "GPT-4o" (OpenAI, gpt-4o), whose text has no "all", is shown again; removing tags so that only a tag "all" remains drops that tag too (`RemoveLeavingAllAsWritten`: removing "vision" from "all,vision") | the "all" sentinel applies only to the provider drop-down; a search or tag "all" is kept | high, not executed | ModelList.AllSentinelClearsAnyKey | ModelList.UpdatedQuery |
