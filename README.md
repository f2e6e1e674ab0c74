# piskolab core, modelled in Dafny

piskolab is a static personal site. Its pages are written as JSON documents
and rendered in the browser. This project models the parts of its JavaScript
that make decisions:

- **The JSON-to-HTML renderer.** It exists in two iterations: DocJSON
  (`js/utils/DocJSON.mjs`) and HyperJSON (`js/hyperjson.mjs`). A node's
  `type` selects a rule. The rule names the tag, the keys kept as attributes
  and the keys kept as content properties. `compose` assembles the element,
  and an unknown type falls back to a paragraph holding the node's escaped
  JSON text. Both iterations are modelled once, with a `Dialect` parameter,
  in modules `Markup`, `MarkupProperties` and `MarkupContent`.
- **The escapers.** `Text.escape`/`escapeLines` and
  `TextUtils.sanitize`/`sanitizeLines` replace `<`, `>`, `"` and `'` with
  entities (module `Escaping`).
- **Small utilities.**
  - The `Search` query-string parser (module `QueryString`).
  - `NumberFormatter.pad`, and the two `DateFormatter`s over UTC date
    components (module `Formatting`).
  - The `Paginator`/`PaginatorController` page index (module `Pagination`).
- **The index caches.** `Index.get` in `js/core/Indexer.mjs` (module
  `Indexer`) and `js/provider.mjs` (module `Provider`) is a freshness cache
  with a 15-second window and a force flag. Around it sit the record
  normalisation of articles, posts and projects, and the lookups by id or
  uuid. The shared parts are in module `Records`: the cache state, the
  stable sort by date with newest first, and `find`.
- **Navigation.**
  - `ViewManager` (`js/utils/ViewManager.mjs`) and `Pages`
    (`js/core/Pages.mjs`) share one state machine, parameterised by registry
    and directives (module `Navigation`).
  - `views.mjs`, with its sessionStorage session and event detail, is in
    module `Views`.
  - The tab registry (`js/ui/TabRegistry.mjs`, `js/ui/TabInfo.mjs`) is in
    module `Tabs`.

JavaScript values are modelled by the `Json` datatype of module `JsValues`:
null, booleans, integers, strings, arrays, and objects with their entries in
property order. `undefined` is `None` of an `Option`. A thrown exception is
the `Err` case of a `Result`. `JsValues` also holds the conversions the code
relies on: truthiness, `??`, property reads, `ToString`, loose equality
`==` and `Array.prototype.join`. `JSON.stringify` is in module `JsonText`.

The registries are plain objects. A lookup such as `store[name]` or
`n.type in rules` is therefore true for the names every object inherits
from `Object.prototype`, such as `toString` and `constructor`. The model
keeps this; it is the `ObjectPrototypeNames` set.

Where the source mutates an object, the model is a class whose methods are
specified by a function of the old state:

- `Pagination.Paginator`;
- `Indexer.Index` and `Provider.RefreshIndex`;
- `Navigation.Navigator`;
- `Views.ViewManager`.

Each loop in the source is a method proved equal to a reference function:

- the `escape` and `sanitize` passes;
- the `Search` parser;
- `pad`;
- `parseNodes`, `composeAttributes` and `makeTable`;
- the record-filling loops of the caches.

Time is an integer parameter. A fetched document is an input value or a
failure. The browser effects are recorded in an effect list instead of
being performed:

- a reload or assignment of `window.location`;
- clearing the query string;
- the views that get built;
- the dispatched event detail.

## Model

| member | source | states |
|---|---|---|
| Escaping.EscapeText | js/utils/Text.mjs:20-41 | `escape` returns a string exactly for a non-empty string; undefined, null, "" and every non-string give undefined |
| Escaping.Escape | js/utils/Text.mjs:20-41 | the loop over the entity table returns the per-character entity substitution of the reference `EscapeText` |
| Escaping.ReplaceUnsafe | js/utils/Text.mjs:32-40 | the four successive `replaceAll` passes equal replacing every character by its entity in one pass, since no entity contains a later pattern |
| Escaping.EscapeCharsSafe | js/utils/Text.mjs:21-38 | escaped output contains none of `<`, `>`, `"`, `'` |
| Escaping.EscapeCharsIdempotent | js/utils/Text.mjs:21-38 | escaping twice is escaping once (`&` is not escaped) |
| Escaping.EscapeTextIdempotent | js/utils/Text.mjs:20-41 | `escape(escape(s)) == escape(s)` for every non-empty string |
| Escaping.EscapeCharsLength | js/utils/Text.mjs:21-38 | output length is input length plus 3 per `<` or `>`, 5 per `"` and 4 per `'` |
| Escaping.EscapeCharsUnchangedIff | js/utils/Text.mjs:21-38 | a string is left unchanged exactly when it contains none of the four characters |
| Escaping.EscapeCharsConcat | js/utils/Text.mjs:21-38 | escaping is per character: it distributes over concatenation |
| Escaping.UnsafeCounted | js/utils/Text.mjs:21-38 | a string that is not safe contains at least one of the four characters, so by `EscapeCharsLength` escaping lengthens it |
| Escaping.EscapeLines | js/utils/Text.mjs:50-55 | throws exactly for a non-array; otherwise a same-length array with `escape` applied to each element |
| Escaping.Sanitize | js/utils.mjs:319-344 | null and undefined give "", other non-strings are returned unchanged, strings get the entity substitution ("" stays "") |
| Escaping.SanitizeValue | js/utils.mjs:319-344 | the imperative `sanitize` returns `Sanitize(text)` |
| Escaping.SanitizeIdempotent | js/utils.mjs:319-344 | sanitizing a sanitized value changes nothing |
| Escaping.SanitizeLines | js/utils.mjs:353-357 | throws exactly for a non-array; otherwise each element sanitized, same length |
| QueryString.ParseSearch | js/utils/Search.mjs:11-27 | the parsing loop builds exactly the object `Search(location)` describes, or throws what it throws |
| QueryString.Split | js/utils/Search.mjs:20 | `split("&")` gives at least one piece, none containing `&` |
| QueryString.SplitJoin | js/utils/Search.mjs:20 | the pieces joined with `&` give back the query text |
| QueryString.WordEndSpec | js/utils/Search.mjs:21 | the key group `\w+` is the maximal run of word characters from its start |
| QueryString.FirstWordAt | js/utils/Search.mjs:21 | the unanchored match starts at the first word character of the piece |
| QueryString.FirstWordNone | js/utils/Search.mjs:21 | there is no match start exactly when the piece has no word character |
| QueryString.LineTextSpec | js/utils/Search.mjs:21 | the value group `.*` is the longest prefix without a line terminator |
| QueryString.MatchPieceNull | js/utils/Search.mjs:21 | `match` returns null exactly when the piece has no word character |
| QueryString.PieceValue | js/utils/Search.mjs:23 | the value is the text after `=`, or `true` without one |
| QueryString.EmptyQuery | js/utils/Search.mjs:12-16 | an empty query (or a lone `?`) gives `{}` |
| QueryString.SearchPairsThrows | js/utils/Search.mjs:19-25 | parsing succeeds exactly when every piece matches; otherwise reading `.groups` of null throws a TypeError |
| QueryString.ErrorPersists | js/utils/Search.mjs:19-25 | once a piece throws, later pieces do not change the outcome |
| QueryString.SearchPairsGet | js/utils.mjs:11-27 | every key reads the value of the last piece naming it: later duplicates win |
| QueryString.SearchPairsNoProto | js/utils/Search.mjs:23 | assigning `__proto__` a string creates no entry |
| QueryString.OnePair | js/utils/Search.mjs:20-24 | `?k=v` with a word key gives exactly `{k: "v"}` |
| QueryString.ValueKeepsEquals | js/utils/Search.mjs:20-24 | `?a=b=c` gives `{a: "b=c"}` |
| QueryString.UnanchoredKey | js/utils/Search.mjs:21 | `?-x=1` gives `{x: "1"}` |
| QueryString.KeyStopsAtNonWord | js/utils/Search.mjs:21 | `?a-b=1` gives `{a: true}` |
| QueryString.EmptyPieceThrows | js/utils/Search.mjs:21 | `?a&&b` throws a TypeError |
| Formatting.PadStart | js/utils/DateFormatter.mjs:18 | `padStart(n, "0")` prepends zeros up to length n and never truncates |
| Formatting.Pad | js/utils.mjs:193-205 | `pad` throws exactly for a value that is not an integer |
| Formatting.PadValue | js/utils.mjs:193-205 | `pad` returns `Pad(value, length)`: the integer check, then the padding loop |
| Formatting.PadDigits | js/utils.mjs:198-204 | the loop that prepends "0" while re-reading `result.length` leaves ceil((length − n)/2) zeros in front of the digits (`PadText`) |
| Formatting.PadKeepsDigits | js/utils.mjs:198-204 | `pad` only prepends zeros: the digits stay at the end |
| Formatting.PadReachesLengthIff | js/utils.mjs:198-204 | `pad` adds ceil((length − n)/2) zeros, and it agrees with `padStart` exactly when at most one zero is missing |
| Formatting.PadFiveToFour | js/utils.mjs:198-204 | `pad(5, 4)` is "005" while `padStart` gives "0005" |
| Formatting.ShortDateShape | js/utils/DateFormatter.mjs:17-22 | for years 0..9999 `shortDate` has 10 characters, `-` at 4 and 7, and its digit fields read back as year, month + 1 and day |
| Formatting.LongDateShape | js/utils/DateFormatter.mjs:31-35 | `longDate` is `shortDate` + " HH:MM UTC", 20 characters, with hours and minutes read back from their fields |
| Formatting.LongYearKept | js/utils/DateFormatter.mjs:18 | a five-digit year is kept whole: `padStart` never truncates |
| Formatting.ShortDateAsWrittenAgrees | js/utils.mjs:217-223 | the `pad`-based `shortDate` agrees with the `padStart` one for years from 100 on |
| Formatting.LongDateAsWrittenAgrees | js/utils.mjs:231-236 | the `pad`-based `longDate` agrees with the `padStart` one for years from 100 on |
| Formatting.YearPad | js/utils.mjs:217-223 | a year of 3 or 4 digits is padded to 4 by `pad` as by `padStart` |
| Formatting.TwoDigitPad | js/utils.mjs:217-236 | a value below 100 is padded to 2 by `pad` as by `padStart` |
| Formatting.ShortYearPad | js/utils.mjs:217-223 | a year below 100 is padded by `pad` to fewer than 4 characters |
| Formatting.ShortDateAsWrittenShort | js/utils.mjs:217-223 | for a year below 100 the `pad`-based `shortDate` has 9 characters, not 10 |
| Pagination.TotalPagesOf | js/utils/Paginator.mjs:72-74 | `ceil(len/k)`: the least page count whose pages hold all items; 0 exactly for an empty list |
| Pagination.NextIndex | js/utils.mjs:275-282 | `next` moves only while the index is below the page count, by one, never past it |
| Pagination.PreviousIndex | js/utils.mjs:284-291 | `previous` moves only while the index is above 1, by one, never below 1 |
| Pagination.NextThenPrevious | js/utils/Paginator.mjs:43-59 | a `next` that moved, followed by `previous`, restores the index |
| Pagination.PreviousThenNext | js/utils/Paginator.mjs:43-59 | a `previous` that moved, followed by `next`, restores the index |
| Pagination.MovesInRange | js/utils/Paginator.mjs:21-59 | any sequence of moves keeps 1 ≤ index ≤ max(1, totalPages) |
| Pagination.PageSlice | js/utils/Paginator.mjs:61-66 | the shadowed getter's slice `[(p−1)k, min(start+k, len))` holds at most k items |
| Pagination.PageSliceSize | js/utils/Paginator.mjs:61-66 | for an index in range every page is non-empty, and every page but the last is full |
| Pagination.PageExists | js/utils/Paginator.mjs:72-74 | page p exists exactly when (p−1)k < len |
| Pagination.PagesCoverItems | js/utils.mjs:293-306 | the pages 1..totalPages, concatenated, are the item list |
| Pagination.Paginator.constructor | js/utils/Paginator.mjs:21-41 | the index starts at 1, and items, page size and listener are stored |
| Pagination.Paginator.Next | js/utils/Paginator.mjs:43-50 | the index becomes `NextIndex`; `onpagechange(index, totalPages, items)` fires exactly when it changed and a listener is set; the range invariant is kept |
| Pagination.Paginator.Previous | js/utils/Paginator.mjs:52-59 | the index becomes `PreviousIndex`; the callback fires exactly when it changed; the range invariant is kept |
| Records.TimeClip | js/core/Indexer.mjs:85-100 | `new Date(n)` is a valid date exactly within ±8.64e15 ms, holding n |
| Records.DateOf | js/core/Indexer.mjs:85-100 | `new Date(v)` takes a number as a time, parses a string, and throws where conversion throws |
| Records.InsertPermutes | js/core/Indexer.mjs:99 | inserting keeps every record: the multiset grows by exactly the inserted one |
| Records.SortPermutes | js/provider.mjs:80 | sorting is a permutation of its input |
| Records.SortSorted | js/core/Indexer.mjs:99 | with valid dates, the sort puts every record at least as recent as the next |
| Records.SortKeepsDateGroups | js/core/Indexer.mjs:99 | the sort is stable: records with equal dates keep their input order |
| Records.FindFirst | js/ui/TabRegistry.mjs:31-33 | a found record is in the list and matches the target |
| Records.FindFirstAt | js/core/Indexer.mjs:77-83 | `find` returns the first matching record when the ones before it do not match |
| Records.FindFirstNone | js/core/Indexer.mjs:77-83 | `find` returns undefined exactly when no record matches |
| Indexer.Sync | js/core/Indexer.mjs:39-53 | whatever `get` returns is the store it leaves behind |
| Indexer.ServedFromStore | js/core/Indexer.mjs:39-44 | without `forceSync`, within 15000 ms of the last sync, the store is returned and the fetched result is ignored |
| Indexer.ForcedSync | js/core/Indexer.mjs:42-52 | `forceSync` always fetches: the processed data becomes the store, stamped with the time read before the fetch |
| Indexer.FailureServesEmpty | js/core/Indexer.mjs:46-52 | when the fetch or processing throws, the store is `[]` stamped with that time, and calls within the next 15 s return `[]` |
| Indexer.EarlyFirstCall | js/core/Indexer.mjs:19-44 | the initial state is store null, last sync 0, so a call in the first 15 s returns null without fetching |
| Indexer.Index.constructor | js/core/Indexer.mjs:34-37 | a new index has store null and last sync 0 |
| Indexer.Index.Get | js/core/Indexer.mjs:39-53 | the fields' new values and the result are those of `Sync` on the old state |
| Indexer.ArticleRecord | js/core/Indexer.mjs:88-97 | reading a property of a null article throws |
| Indexer.ArticleRecords | js/core/Indexer.mjs:87-98 | one record per article when none throws |
| Indexer.ArticleRecordsSpec | js/core/Indexer.mjs:87-98 | the loop succeeds exactly when every article converts, and record i is article i's conversion |
| Records.CollectErrorPersists | js/core/Indexer.mjs:87-98 | an item that throws ends the push loop with that error: later items change nothing |
| Records.CollectAllSpec | js/core/Indexer.mjs:87-98 | the push loop succeeds exactly when no item throws, and then holds each item's record at its index |
| Indexer.Articles | js/core/Indexer.mjs:85-100 | a null document throws |
| Indexer.ProcessArticles | js/core/Indexer.mjs:85-100 | the push loop and sort return `Articles(data)` |
| Indexer.ArticleDefaults | js/core/Indexer.mjs:88-97 | a missing date becomes 0, and the resource path is `meta/articles/repo/<id>.json` |
| Indexer.ArticleWithoutId | js/core/Indexer.mjs:88-97 | an article without id gets the path `meta/articles/repo/undefined.json` |
| Indexer.ArticlesByRecency | js/core/Indexer.mjs:85-100 | the processed articles are a permutation of the records, newest first, with equal dates in input order |
| Indexer.Projects | js/core/Indexer.mjs:102-104 | `processProjects` returns `data.projects` unchanged, and throws for null |
| Indexer.ArticleLookup | js/core/Indexer.mjs:77-79 | the article found is in the stored list and is loosely equal (`==`) by id; a null store gives undefined and errors propagate |
| Indexer.ProjectLookup | js/core/Indexer.mjs:81-83 | the project found is in the stored array; null or absent projects give undefined; a non-array without `find` throws |
| Indexer.GetArticleInfo | js/core/Indexer.mjs:77-79 | a non-forced `get` followed by the id lookup |
| Indexer.GetProjectInfo | js/core/Indexer.mjs:81-83 | a non-forced `get` followed by the uuid lookup |
| Provider.Refresh | js/provider.mjs:36-51 | `get` returns the store it leaves, and every error it throws is wrapped in a new Error |
| Provider.RefreshServedFromStore | js/provider.mjs:36-41 | without `forceRefresh`, within 15000 ms of the last refresh, the store is returned without fetching |
| Provider.ForcedRefresh | js/provider.mjs:39-48 | `forceRefresh` bypasses the window: the store is reset, stamped, and filled by the parse callback |
| Provider.FetchFailureWrapped | js/provider.mjs:43-48 | a failed fetch leaves store `[]` stamped with the call time and rethrows wrapped; calls within 15 s return `[]` |
| Provider.PartialStoreServed | js/provider.mjs:43-81 | a parse that throws part-way leaves the records pushed so far in the store, and later calls serve them |
| Provider.RefreshIndex.constructor | js/provider.mjs:31-34 | a new index has store null and last refresh 0 |
| Provider.RefreshIndex.Get | js/provider.mjs:36-51 | the fields' new values and the result are those of `Refresh` on the old state |
| Provider.Or | js/provider.mjs:71-75 | `v ?? fallback` |
| Provider.PostRecord | js/provider.mjs:69-78 | reading a property of a null post throws |
| Provider.PushPosts | js/provider.mjs:69-79 | never more records than posts, and one per post when none throws |
| Provider.PushPostsSpec | js/provider.mjs:69-79 | the records pushed are the posts' conversions in order, up to the first post that throws |
| Provider.PushStopsAtError | js/provider.mjs:69-79 | an item that throws ends the `forEach` loop: later items change nothing |
| Provider.PushAllSpec | js/provider.mjs:69-79 | record i is item i's conversion for every pushed record; on error the next item is the one that threw; no error exactly when every item converts |
| Provider.PostsParse | js/provider.mjs:68-81 | a null document throws before anything is pushed |
| Provider.FillPosts | js/provider.mjs:68-81 | the push loop and in-place sort give `PostsParse(data)` |
| Provider.PostDefaults | js/provider.mjs:71-78 | defaults: id "the-void", date 0, title and description "N/A"; the resource URL uses the raw (undefined) id |
| Provider.PostsByRecency | js/provider.mjs:80 | the posts store is a permutation of the records, newest first, stable |
| Provider.ProjectRecord | js/provider.mjs:100-109 | reading a property of a null project throws |
| Provider.PushProjects | js/provider.mjs:100-110 | never more records than projects |
| Provider.ProjectsParse | js/provider.mjs:98-111 | a null document throws before anything is pushed |
| Provider.ProjectsStopAtError | js/provider.mjs:100-110 | a project that throws ends the loop |
| Provider.FillProjects | js/provider.mjs:98-111 | the push loop gives `ProjectsParse(data)` |
| Provider.ProjectsKeepOrder | js/provider.mjs:98-111 | project records keep input order, one per project when none throws |
| Provider.ProjectDefaults | js/provider.mjs:100-109 | `logo ?? null`, `details ?? []`, and the URL `meta/projects/repo/<uuid>` |
| Provider.Lookup | js/provider.mjs:116-130 | the record found is in the stored list and matches the key; a null store gives undefined; errors propagate |
| Provider.GetPostInfo | js/provider.mjs:124-126 | a non-forced `get` then a strict (`===`) id lookup |
| Provider.GetProjectInfo | js/provider.mjs:128-130 | a non-forced `get` then a loose (`==`) uuid lookup |
| Provider.StrictAndLooseLookups | js/provider.mjs:124-130 | the post with id 5 is not found by "5", while the project with uuid 5 is |
| Markup.RuleFor | js/utils/DocJSON.mjs:45-135 | the rule table has exactly the 18 rule names, and every rule but image is closable |
| Markup.RenderNodes | js/utils/DocJSON.mjs:144-156 | a falsy node list renders as "" |
| Markup.ParseNodes | js/utils/DocJSON.mjs:144-156 | the loop pushing each node's rendering and joining with "" gives `RenderNodes` |
| Markup.ComposeAttributes | js/utils/DocJSON.mjs:213-265 | the loop over the entries gives the attribute pieces joined with spaces |
| Markup.PushAttribute | js/utils/DocJSON.mjs:227-261 | one round of the `switch`: a null value pushes nothing, `draggable` falls through to `openInNew`, and what is pushed onto `tmp` (or thrown) is exactly the entry's pieces |
| Markup.MakeRow | js/utils/DocJSON.mjs:322-354 | one row: each cell in a `<th>`/`<td>`, inside `<tr>` |
| Markup.MakeSection | js/utils/DocJSON.mjs:322-354 | a `<thead>`/`<tbody>` of the rows in order |
| Markup.MakeTable | js/utils/DocJSON.mjs:322-354 | caption, then head rows, then body rows, accumulated with `+=` |
| Markup.ProcessText | js/utils/DocJSON.mjs:312-320 | a string is always accepted |
| Markup.IconSource | js/utils/DocJSON.mjs:287-310 | an icon exists only for `link` and `external-link` (and the inherited names) |
| Markup.Then | js/utils/DocJSON.mjs:322-354 | concatenation in which the first error wins |
| Markup.StyleTokens | js/utils/DocJSON.mjs:232-245 | one class token per style entry |
| Markup.Pick | js/utils/DocJSON.mjs:38-43 | only listed keys of the node are kept |
| Markup.RenderListErr | js/utils/DocJSON.mjs:151-153 | a node that throws ends the list with its error |
| Markup.RenderListPrefixErr | js/utils/DocJSON.mjs:151-153 | an error in a prefix of the list is the error of the list |
| Markup.AttrPartsPrefixErr | js/utils/DocJSON.mjs:226-261 | an attribute that throws ends the loop |
| Markup.CellsTextPrefixErr | js/utils/DocJSON.mjs:322-354 | a cell that throws ends the row |
| Markup.RowsTextPrefixErr | js/utils/DocJSON.mjs:322-354 | a row that throws ends the section |
| MarkupProperties.RenderListConcat | js/utils/DocJSON.mjs:144-156 | rendering `a + b` is rendering `a` followed by rendering `b` |
| MarkupProperties.RenderListSingle | js/hyperjson.mjs:143-155 | a one-node list renders as that node |
| MarkupProperties.FallbackText | js/utils/DocJSON.mjs:137-139 | the fallback is `<p>` + escaped JSON + `</p>`, with no newline, and its text is safe |
| MarkupProperties.UnknownTypeFallback | js/hyperjson.mjs:136-138 | a node whose type is no rule name renders as the fallback paragraph, without `compose` |
| MarkupProperties.UntypedNodeFallback | js/utils/DocJSON.mjs:137-139 | a non-null node without `type` renders as the fallback paragraph |
| MarkupProperties.NullNodeThrows | js/utils/DocJSON.mjs:137 | reading `type` of a null node throws |
| MarkupProperties.PickGet | js/utils/DocJSON.mjs:38-43 | a picked key reads the node's value, an unlisted key reads nothing |
| MarkupProperties.GetNodePropertiesSpec | js/utils/DocJSON.mjs:38-43 | a prefix entry overrides the node's value of the same key; listed keys read the node; others are absent |
| MarkupProperties.UnlistedKeyAbsent | js/hyperjson.mjs:37-42 | a key neither listed nor in the prefix is absent |
| MarkupProperties.NamedNodeProperties | js/utils/DocJSON.mjs:38-43 | with named keys, the properties are the picked entries followed by the prefix |
| MarkupProperties.SkippedAttribute | js/utils/DocJSON.mjs:226-261 | a null value, or a key without a case (such as `classes`), adds no attribute |
| MarkupProperties.StyleAttribute | js/utils/DocJSON.mjs:232-245 | `style` tokens become a single `class="prefix-t1 prefix-t2 …"` in token order |
| MarkupProperties.StyleTokensText | js/hyperjson.mjs:228-256 | each string token gets the dialect's prefix (`style-` or `hj-`) |
| MarkupProperties.DocAttributeEscaped | js/utils/DocJSON.mjs:232-245 | `id`/`alt`/`src`/`cite`/`href` and `data-language` values go through `escape` |
| MarkupProperties.HyperArrayAttributeRaw | js/hyperjson.mjs:228-256 | HyperJSON passes a non-string value through `sanitize` unchanged, so an array is printed raw |
| MarkupProperties.DraggableFallsThrough | js/utils/DocJSON.mjs:246-251 | `draggable` emits both `draggable="…"` and `target='_blank'`, and `openInNew: false` still emits `target='_blank'` |
| MarkupProperties.RuleNode | js/utils/DocJSON.mjs:45-141 | a node with a rule name renders as `compose` of its rule's attributes and properties |
| MarkupProperties.ComposeSelfClosing | js/utils/DocJSON.mjs:182-211 | a non-closable tag without content self-closes as `<tag attrs/>` |
| MarkupProperties.ComposeClosable | js/utils/DocJSON.mjs:182-211 | a closable tag is `<tag attrs>content</tag>`, with undefined content printed as "undefined" |
| MarkupProperties.TextContent | js/utils/DocJSON.mjs:275-285 | truthy string text wins over lines, children and table parts, and is escaped |
| MarkupProperties.NoContent | js/utils/DocJSON.mjs:275-285 | without a content property the content is undefined |
| MarkupProperties.EmptyTextShadowsLines | js/utils/DocJSON.mjs:275-285 | `text: ""` beside truthy lines is passed on by `??`: DocJSON's content is undefined and HyperJSON's is "" |
| MarkupProperties.FinishShape | js/utils/DocJSON.mjs:202-208 | `verticalScroll` wraps the result in the scroll `div`; "\n" follows unless `stripBlank` is truthy |
| MarkupProperties.SelfClosing | js/utils/DocJSON.mjs:198-200 | the self-closing form ends in `/>` |
| MarkupProperties.Element | js/utils/DocJSON.mjs:192-197 | the closable form ends in `</tag>` |
| MarkupProperties.ImageRendering | js/utils/DocJSON.mjs:93-96 | an image is `<img src alt draggable="false" target='_blank'/>` + "\n" |
| MarkupProperties.ImageEndsWithTarget | js/utils/DocJSON.mjs:246-251 | every rendered image ends with `draggable="false" target='_blank'/>` |
| MarkupProperties.ParagraphText | js/utils/DocJSON.mjs:83-87 | a paragraph with text is `<p attrs>escaped text</p>` plus the newline rule |
| MarkupProperties.ParagraphWithoutContent | js/utils/DocJSON.mjs:83-87 | a paragraph without content renders `<p >undefined</p>` + "\n" |
| MarkupProperties.ClosableEmpty | js/utils/DocJSON.mjs:192-197 | a closable tag without content interpolates `undefined` |
| MarkupContent.DocLinesEscaped | js/utils/DocJSON.mjs:312-320 | lines are each escaped and joined with "\n" |
| MarkupContent.DocCellsEscaped | js/utils/DocJSON.mjs:322-354 | string cells are each escaped, in row order |
| MarkupContent.CellValues | js/hyperjson.mjs:318-350 | HyperJSON prints a null cell as "" and a number unchanged; DocJSON throws on null and prints "" as "undefined" |
| MarkupContent.CaptionNotEscaped | js/utils/DocJSON.mjs:322-354 | the caption is inserted without escaping |
| MarkupContent.OverlayLabelNotEscaped | js/hyperjson.mjs:283-306 | the overlay label is inserted without escaping |
| MarkupContent.UnknownIconOmitted | js/hyperjson.mjs:283-306 | an icon name other than the two known ones adds no icon element |
| MarkupContent.FinishNewline | js/hyperjson.mjs:202-204 | without a truthy `stripBlank`, the output ends in "\n" |
| MarkupContent.UnselectedStripBlankNewline | js/hyperjson.mjs:178-207 | a node whose rule does not select `stripBlank` among its properties renders either an error or text ending in "\n" |
| MarkupContent.HyperQuoteEndsWithNewline | js/hyperjson.mjs:111-120 | HyperJSON quote and blockquote list `stripBlank` as an attribute, so their output always ends in "\n", and blockquote ignores `lines` |
| MarkupContent.DocQuoteKeepsStripBlank | js/utils/DocJSON.mjs:112-116 | DocJSON's quote passes `stripBlank` to `compose` |
| MarkupContent.JoinOptPresent | js/utils/Text.mjs:50-55 | joining escaped lines none of which is undefined is joining their strings |
| Navigation.IsSecret | js/utils/ViewManager.mjs:95-101 | undefined for an invalid name; otherwise the entry's secret flag |
| Navigation.GetParent | js/utils/ViewManager.mjs:73-79 | the fallback for an invalid name; otherwise the entry's parent, possibly null |
| Navigation.Activate | js/utils/ViewManager.mjs:49-59 | an invalid name builds nothing; a build only happens for a registered entry that is not secret, or when `allowSecret` is set |
| Navigation.SecretGuard | js/core/Pages.mjs:49-59 | a secret entry without `allowSecret` throws "Invalid access to secret …"; with it, it is built with `options ?? {}` |
| Navigation.ValidViews | js/utils/ViewManager.mjs:24-31 | a view name is valid exactly when registered, or inherited from Object.prototype |
| Navigation.ValidPages | js/core/Pages.mjs:113-115 | a page name is valid exactly when registered, or inherited from Object.prototype |
| Navigation.FindDirective | js/utils/ViewManager.mjs:126-147 | a directive found is one of the table's, with the query's `q` |
| Navigation.UnknownNameResets | js/utils/ViewManager.mjs:162-164 | an invalid name clears the session and reloads |
| Navigation.BackReturns | js/core/Pages.mjs:171-219 | showing a then b, then going back, shows a again with its options, with b as the previous |
| Navigation.FallbackResets | js/utils/ViewManager.mjs:206-219 | with no previous view, the fallback passes the (falsy) previous name to `showView`, which resets |
| Navigation.ShowPreviousIntended | js/utils/ViewManager.mjs:206-219 | the corrected `showPreviousView` agrees with the original whenever a previous view exists or no fallback is asked for |
| Navigation.IntendedFallbackShowsHome | js/utils/ViewManager.mjs:206-219 | the corrected fallback shows Home and reports true |
| Navigation.NoPreviousNoChange | js/core/Pages.mjs:206-219 | with no previous and no fallback nothing changes and false is returned |
| Navigation.InitializeViewPost | js/utils/ViewManager.mjs:126-147 | `q=view-post&id=X` stores PostReader with `{postId: X}` and clears the query |
| Navigation.InitializeWithoutQuery | js/utils/ViewManager.mjs:126-147 | without `q`, a stored current view is reloaded, else Home is shown |
| Navigation.NewsDirectiveResets | js/core/Pages.mjs:129-131 | the `page-News` directive stores "NewsReader", which is not registered, so the next start-up resets |
| Navigation.Navigator.constructor | js/utils/ViewManager.mjs:126-147 | the navigator starts from a given session with no effects |
| Navigation.Navigator.Reset | js/utils/ViewManager.mjs:239-242 | the session is cleared and a reload recorded |
| Navigation.Navigator.ShowView | js/utils/ViewManager.mjs:159-193 | previous ← current, current ← view, then activation, as `Show`; an invalid name resets |
| Navigation.Navigator.ShowPreviousView | js/utils/ViewManager.mjs:206-219 | as `ShowPrevious`, returning whether it restored |
| Navigation.Navigator.ShowWith | js/utils/ViewManager.mjs:221-227 | `showPost`/`showProject`: show the reader with a one-key options object |
| Navigation.Navigator.Reload | js/core/Pages.mjs:232-234 | the current entry is shown again with its options |
| Navigation.Navigator.Initialize | js/core/Pages.mjs:126-147 | as `InitializeStep` on the session and search parameters |
| Views.ParseStored | js/views.mjs:180 | `JSON.parse` of stored options throws exactly for the text "undefined" |
| Views.Updated | js/views.mjs:209-219 | current and its options are always written, options as `JSON.stringify(options ?? "null")`; the shift into previous happens only when the view changes |
| Views.UpdateKeepingAbsence | js/views.mjs:209-219 | the corrected update copies an absent current key as absent |
| Views.ResetStorage | js/views.mjs:224-229 | `reset` deletes exactly the four view keys |
| Views.ViewStep | js/views.mjs:136-152 | an unknown view assigns "/" and changes nothing; otherwise the action is "activate" for the stored current view and "refresh" otherwise, computed before the update |
| Views.UnknownViewKeepsSession | js/views.mjs:136-152 | an unregistered name goes to "/" and keeps the session |
| Views.Action | js/views.mjs:38-45 | "reload" and "reset" go to "/" (reset clearing the session); other names are ignored, or throw for the inherited names that are not callable as actions |
| Views.RestoreStep | js/views.mjs:234-243 | `restore` returns false, changing nothing, exactly when no current view is stored |
| Views.RestoreRoundTrip | js/views.mjs:234-243 | restoring the view just shown shows it again, as "activate", with its stored options |
| Views.PreviousStep | js/views.mjs:165-183 | without previous: undefined with fallback, else false; with previous: that view with its parsed options and true, or a SyntaxError for "undefined" options |
| Views.FallbackShowsHome | js/views.mjs:165-183 | with no previous view and `fallbackParent`, "home" is shown and undefined returned |
| Views.BackReturns | js/views.mjs:165-183 | after showing a then b, `previousView` shows a again with a's options |
| Views.FirstBackThrows | js/views.mjs:211-214 | the first view shown on a fresh session stores previousView "undefined", so `previousView` throws |
| Views.FirstBackWithoutThrow | js/views.mjs:209-219 | with the corrected update the first `previousView` returns false |
| Views.ActionFirst | js/views.mjs:106-124 | a query `action` wins over every other start-up choice |
| Views.UnderscoreViewResets | js/views.mjs:106-124 | a `view` starting with "_" resets the session |
| Views.SetupFromSession | js/views.mjs:106-124 | without query choices a stored current view is restored, else "home" is shown |
| Views.ViewManager.constructor | js/views.mjs:255-262 | the manager starts from the stored session with the initial detail |
| Views.ViewManager.Update | js/views.mjs:209-219 | the storage becomes `Updated` of the old storage |
| Views.ViewManager.Reset | js/views.mjs:224-229 | the storage becomes `ResetStorage` of the old storage |
| Views.ViewManager.View | js/views.mjs:136-152 | storage, detail and effects as `ViewStep` |
| Views.ViewManager.Activate | js/views.mjs:38-45 | as `Action`; a throw leaves everything unchanged |
| Views.ViewManager.Restore | js/views.mjs:234-243 | as `RestoreStep` |
| Views.ViewManager.PreviousView | js/views.mjs:165-183 | as `PreviousStep`; a throw leaves everything unchanged |
| Views.ViewManager.ReadPost | js/views.mjs:185-187 | shows "post-reader" with `{postId}` |
| Views.ViewManager.ShowProject | js/views.mjs:189-191 | shows "project-viewer" with `{projectUuid}` |
| Views.ViewManager.Setup | js/views.mjs:106-124 | as `SetupStep`: action > project > post > view > stored view > "home" |
| Tabs.GetTab | js/ui/TabRegistry.mjs:31-33 | a found tab is registered and its id `==` the argument |
| Tabs.GetParentId | js/ui/TabRegistry.mjs:35-37 | the tab's `parentId`, or null for an unknown id |
| Tabs.IsValid | js/ui/TabRegistry.mjs:39-41 | holds exactly when `getTab` finds a tab |
| Tabs.IsRootTab | js/ui/TabRegistry.mjs:43-45 | throws for an unknown id; otherwise holds exactly when the parent id is falsy |
| Tabs.IsDynamic | js/ui/TabRegistry.mjs:47-49 | false for an unknown id; true only for a dynamic tab |
| Tabs.BuildTarget | js/ui/TabRegistry.mjs:27-29 | `build` calls the found tab's `buildUI`, and throws for an unknown id |
| Tabs.StringsLooselyEqual | js/ui/TabRegistry.mjs:31-33 | two strings are `==` exactly when equal |
| Tabs.GetTabFound | js/ui/TabRegistry.mjs:31-33 | looking up a string finds the first tab with that id |
| Tabs.GetTabMissing | js/ui/TabRegistry.mjs:31-33 | a string no tab has finds nothing |
| Tabs.ValidIds | js/ui/TabRegistry.mjs:18-25 | a string id is valid exactly when it is one of the six registered ids |
| Tabs.UnknownId | js/ui/TabRegistry.mjs:35-49 | for an unknown id `getParentId` is null, `isDynamic` false, and `isRootTab` throws |
| Tabs.ReaderParents | js/ui/TabInfo.mjs:54-56 | the reader tabs have their list tabs as parents and are not roots; Home is a root |
| Tabs.ArrayFindsTab | js/ui/TabRegistry.mjs:31-33 | by loose equality, `["Home"]` finds the Home tab |

## Left out

- Network, DOM and timers are left out. `fetch` is not modelled; a fetched document is an input value or a failure. The DOM, templates, SVG handling, `Dialog`, `Animator`, `Presenter` and every page, view or tab `build`/`buildUI` are left out, and so are `console` logging and real clocks. These only move data between the browser and the modelled logic.
- `window.location.reload()`, `assign("/")` and clearing the query string are recorded as effects that end the call. Code that would still run in the page before it unloads is not modelled: for example, the build after a reset in `showView`.
- Event dispatch is left out. In `ViewManager`/`Pages` it is not modelled at all. In `views.mjs` the event detail is modelled, but not the listeners.
- Numbers are integers. Fractions, exponents, NaN and the infinities are not modelled, except for an invalid date.
- Dates are not modelled as `Date` objects. A Date is its millisecond time value, or invalid. Date-string parsing is a function parameter, and formatting takes UTC components.
- Records.SortByRecency: the sort is proved descending and stable only when every date is valid. With an invalid date the comparator is inconsistent, and the engine's resulting order is not modelled.
- Pagination.Paginator: a page size of at least 1 is assumed. A size of 0 or a fraction gives `Infinity`/`NaN` page counts in the source.
- `itemsPerPage` and `items` are not modelled as reassignable fields. The source never reassigns them after construction.
- `js/utils/Session.mjs` has no accessors for the view keys that `ViewManager`/`Pages` use. The session there is modelled as the plain record those classes read and write, and it is taken to persist across a reload.
- In `views.mjs`, `JSON.parse(JSON.stringify(v))` is taken to give back `v`. Stored options are the value itself, or the text "undefined".
- An options object whose property is undefined (`{postId: undefined}`) is modelled without that property, as `JSON.stringify` drops it.
- `js/ui/views/AboutView.mjs`, `js/core/pages/NewsPage.mjs` and `js/core/pages/AboutPage.mjs` are not part of this model. Their registry entries are taken to have a null parent and not to be secret. The same holds for the views and pages whose files are present but declare neither.
- Navigation.ValidViews: `isValid` is true for the six registered names and also for every name inherited from Object.prototype. The model follows the code rather than "exactly six".
- The DocJSON rule table has 18 rule names, counting `group`, and the model follows that.
- Concurrency is left out. Concurrent `get` calls and the aliasing of the shared store between callers and the cache are not modelled. The cache's `get` is modelled as one atomic step.

## Findings

| source | as written | input that shows it | evidently intended | confidence | as-written member | corrected member |
|---|---|---|---|---|---|---|
| js/utils.mjs:198-204 | the loop bound `length - result.length` shrinks as zeros are prepended, so only ceil((length − n)/2) zeros are added | `pad(5, 4)` gives "005"; `shortDate` for year 5 gives "005-01-01" | pad to the full length, as `padStart` in js/utils/DateFormatter.mjs does | not executed | Formatting.PadFiveToFour | Formatting.ShortDateShape |
| js/utils/ViewManager.mjs:212-215 | the fallback calls `showView(previousView, parent)` with the falsy previous name as the view and the parent as options, so it always resets the session | `showPreviousView(true)` with no previous view clears the session and reloads | show the parent view (Home for a missing one) | not executed | Navigation.FallbackResets | Navigation.IntendedFallbackShowsHome |
| js/views.mjs:211-214 | a missing current key is copied into previousView as `undefined`, which sessionStorage stores as the string "undefined" | the first `view("home")` on a fresh session, then `previousView()`: `JSON.parse("undefined")` throws a SyntaxError | keep the previous keys absent, so `previousView()` returns false | not executed | Views.FirstBackThrows | Views.FirstBackWithoutThrow |
