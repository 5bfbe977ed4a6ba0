# CG-Blog core, modelled in Dafny

CG-Blog is a React blog front-end. Articles live on a content host as a Markdown
body (`Articles/<name>.md`) and a JSON metadata record (`Articles/<name>.json`),
listed in `Articles/index.json`. The pages, routes and build scripts around them
hold a set of small, precise rules. This project states those rules in Dafny and
proves what they promise. Network, file system, DOM and React are replaced by
values: maps stand for what a host or a directory serves, and function-typed
parameters stand for library calls such as date formatting and `path.join`.

One module per source file:

- `TextUtil`: the string operations the source borrows from JavaScript (`trim`,
  `includes`, `indexOf`, `startsWith`, `toLowerCase`, `String(n)`, `parseInt`).
- `LibUtils`: `startsWithArabic`, the Arabic-block test on the trimmed text.
- `SearchService`: the article search, with its in-place metadata and content
  memo caches and its filter loop. The loop is proved equal to a filter
  function, whose results are an order-preserving subsequence of the index.
- `SearchDialog`: the context snippet around the first match, and the dialog's
  state. That state covers the query, the results and the result cursor with
  its wrap-around arrow keys and resets.
- `ViewArticle`: the article loader. It fetches both resources or fails, then
  resolves a relative image or probes for an image file by extension.
- `ArticleMarkdown`: the direction and alignment rules of the Markdown
  overrides, the `~/` image rewrite, link isolation and the article header.
- `Projects`: the projects route, with a time-to-live cache on an injected
  clock, the filter and normalisation of projects, and the twitter handle.
- `GenerateIndex`, `IndexOrder`, `IndexProjects`: the three steps of the
  index generator script. The first is the file loop with its hidden and
  invalid articles. The second is the sort comparator and the index and sitemap
  texts. The third is the project enrichment loop.
- `SitemapRoute`: the sitemap serialiser (sitemaps.org protocol 0.9) and the
  route's response.
- `StructuredData`: the schema.org JSON-LD builders.
- `Theme`: the accent-colour hover transform, `getAccentColor`, and the reuse
  of the theme style element.
- `ImageModal`: the zoom and pan state machine of the image viewer.
- `MetaTags`: the `useMetaTags` effect and its save-and-restore cleanup.
- `ServeContent`: the development content server's request decisions.
- `ArticleCard`, `BlogSection`, `ViteConfig`: description truncation, the
  choice between featured and latest articles, and the vendor chunk classifier.

Where the source updates state in place, the model is a class. This covers the
search caches, the search dialog, the projects cache, the image viewer, the
document head and the theme's document. Methods state the new state, and the
properties are proved as lemmas about the functions that specify them. Loops
become `while` or `for` loops with invariants, tied to a specification function.

## Model

| member | source | states |
|---|---|---|
| LibUtils.StartsWithArabic | app/lib/utils.ts:8-12 | true exactly when the first non-whitespace character of the text lies in U+0600..U+06FF |
| LibUtils.TrimFirstChar | app/lib/utils.ts:11 | the trimmed text is non-empty iff some character is not whitespace, and it starts with the first such character |
| LibUtils.WhitespaceIsNotArabic | app/lib/utils.ts:11 | empty or whitespace-only text is never reported as Arabic |
| LibUtils.TrimInvariant | app/lib/utils.ts:11 | trimming the text first does not change the answer |
| LibUtils.TrimIdempotent | app/lib/utils.ts:11 | a trimmed text has no leading whitespace left to trim |
| LibUtils.SuffixInvariant | app/lib/utils.ts:8-12 | once the text has a visible character, appending anything keeps the answer |
| SearchService.Spread | app/services/searchService.ts:93 | the spread `{...article, ...metadata}`: every field present in the metadata wins, the others come from the index entry |
| SearchService.FetchArticlesIndex | app/services/searchService.ts:23-32 | the index entries on success; the message "Failed to fetch articles" on a non-ok response; the thrown message otherwise |
| SearchService.Lookup | app/services/searchService.ts:35-72 | a memoised fetch returns the cached value if there is one, else the served one, and fails exactly when neither exists |
| SearchService.Warmed | app/services/searchService.ts:19-20 | the caches after a run hold the old entries plus exactly the looked-up names that were served |
| SearchService.WarmedLookup | app/services/searchService.ts:39-41 | a warmer cache never changes what a lookup returns |
| SearchService.WarmedRemember | app/services/searchService.ts:47 | caching one more fetched name is warming by that name |
| SearchService.NamesOfSnoc | app/services/searchService.ts:89 | the names visited grow by exactly the next entry's name |
| SearchService.Process | app/services/searchService.ts:90-113 | one entry: skipped when its metadata (or, with content search, its content) cannot be fetched; otherwise kept with the spread title and description and the fetched content |
| SearchService.FilterAppend | app/services/searchService.ts:89-114 | the loop treats entries independently: results of a concatenation are the concatenated results |
| SearchService.FilterSnoc | app/services/searchService.ts:107-109 | one more entry appends its processed form, if any, at the end of the results |
| SearchService.FilterIsSubsequence | app/services/searchService.ts:89-114 | the results are the processed entries at strictly increasing index positions, in index order |
| SearchService.FilterMembership | app/services/searchService.ts:89-114 | an article is a result iff some index entry processes to it |
| SearchService.InclusionRule | app/services/searchService.ts:96-107 | a fetched article is a result iff its lower-cased title or description contains the lower-cased query, or, with content search, its lower-cased content does |
| SearchService.ResultsCarryContent | app/services/searchService.ts:101-105 | with content search, every result carries its fetched Markdown text |
| SearchService.ProcessWarmed | app/services/searchService.ts:39-41 | processing an entry against warmed caches gives what the initial caches give |
| SearchService.SearchStep | app/services/searchService.ts:89-109 | one iteration moves both caches from the state warmed by the prefix to the state warmed by the prefix plus the entry |
| SearchService.Service.constructor | app/services/searchService.ts:19-20 | both memo caches start empty |
| SearchService.Service.FetchArticleMetadata | app/services/searchService.ts:35-53 | a cached entry is returned without a fetch; a served one is returned and cached; a failure caches nothing |
| SearchService.Service.FetchArticleContent | app/services/searchService.ts:56-72 | the same memoisation for the Markdown text |
| SearchService.Service.ProcessArticle | app/services/searchService.ts:90-109 | returns the entry's processed form and advances both caches by one lookup |
| SearchService.Service.SearchArticles | app/services/searchService.ts:75-125 | a blank query gives no results and touches no cache; a failed index gives its error message; otherwise the filtered results of the lower-cased query, with both caches warmed |
| SearchService.Service.SearchLoop | app/services/searchService.ts:86-114 | the loop's results are the filter of the whole index, and the caches end warmed by every visited name |
| SearchService.Service.SearchOne | app/services/searchService.ts:90-113 | one iteration on caches warmed by the entries before it returns the entry's processed form against the initial caches |
| SearchDialog.GetContentSnippet | app/components/SearchDialog.tsx:106-130 | no snippet without content, without content search, or without a case-insensitive match |
| SearchDialog.SnippetWindow | app/components/SearchDialog.tsx:112-129 | the snippet is the text from 50 characters before the first match to 50 after its end, clipped to the content, with "..." on each clipped side |
| SearchDialog.WindowHoldsMatch | app/components/SearchDialog.tsx:118-123 | the window always contains the match itself |
| SearchDialog.LowerSlice | app/components/SearchDialog.tsx:112 | lower-casing commutes with slicing |
| SearchDialog.NextIndex | app/components/SearchDialog.tsx:137-141 | ArrowDown moves to the next result and wraps from the last to the first; from -1 it selects the first |
| SearchDialog.PrevIndex | app/components/SearchDialog.tsx:144-150 | ArrowUp moves to the previous result and wraps from the first (or none) to the last |
| SearchDialog.CursorRoundTrip | app/components/SearchDialog.tsx:137-150 | on a selected result, Up undoes Down and Down undoes Up |
| SearchDialog.Dialog.constructor | app/components/SearchDialog.tsx:53-58 | the initial state: empty query and results, no loading, no error, nothing selected |
| SearchDialog.Dialog.SetResults | app/components/SearchDialog.tsx:100-103 | new results reset the selection to -1 |
| SearchDialog.Dialog.SetQuery | app/components/SearchDialog.tsx:53 | the query is replaced; the selection stays valid |
| SearchDialog.Dialog.SetSearchContent | app/components/SearchDialog.tsx:54 | the switch is set; the selection stays valid |
| SearchDialog.Dialog.RunSearch | app/components/SearchDialog.tsx:63-84 | a blank query clears the results; otherwise the results and error of the search, or "Failed to search articles" and no results when it throws, and loading ends |
| SearchDialog.Dialog.OpenChanged | app/components/SearchDialog.tsx:87-97 | closing clears query, results, error and selection; opening only clears the selection |
| SearchDialog.Dialog.HandleKeyDown | app/components/SearchDialog.tsx:133-160 | no results: nothing happens; arrows move the cursor with wrap-around; Enter on a selection closes the dialog, navigates to "/blog/" + its name and clears query, results, error and selection; other keys and Enter without a selection change nothing; only that Enter touches the query, results, error and open flag, and no key touches the content-search switch or loading |
| GenerateIndex.FieldOr | template/generate-index.js:79-82 | `data.key || default`: a non-empty string value is kept, a missing or empty one gives the default |
| GenerateIndex.ReplaceFirst | template/generate-index.js:62 | a string-pattern replace changes only the first occurrence, and nothing when there is none |
| GenerateIndex.ArticleNameOfPlainFile | template/generate-index.js:62 | the article name of `<x>.json` is `x` when `x` itself holds no ".json" |
| GenerateIndex.DotOnlyFirst | template/generate-index.js:62 | the only dot of ".json" is its first character, so the pattern cannot overlap itself |
| GenerateIndex.ParsedRecord | template/generate-index.js:77-84 | the record of a parsed file: title defaults to "Untitled", author to "Unknown", rawDate to "", hidden iff the value is exactly `true`, date parsed from the string |
| GenerateIndex.ProcessArticleFiles | template/generate-index.js:45-115 | the loop's records and sitemap entries are those of `Run` over the directory listing |
| GenerateIndex.ProcessArticleFile | template/generate-index.js:50-114 | one turn on one file gives exactly the step function's progress |
| GenerateIndex.IgnoredFilesSkipped | template/generate-index.js:52-60 | index.json, sitemap_template.xml, non-.json names and non-files change nothing |
| GenerateIndex.HiddenSkipped | template/generate-index.js:83-89 | an article whose `hidden` is `true` reaches neither the index nor the sitemap |
| GenerateIndex.InvalidFileRecord | template/generate-index.js:63-71 | an unreadable file keeps the default record ("Invalid Article" by "Unknown", no date) once per name and never adds a sitemap entry (also lines 109-113) |
| GenerateIndex.RunInvariant | template/generate-index.js:50-115 | no collected record is hidden, and there are never more sitemap entries than records |
| GenerateIndex.StepInvariant | template/generate-index.js:86-103 | one turn keeps both parts of that invariant |
| GenerateIndex.AppendedNotHidden | template/generate-index.js:91 | pushing a visible record keeps every record visible |
| IndexOrder.LexCompare | template/generate-index.js:122 | the title comparison is -1, 0 or 1, and 0 exactly on equal titles |
| IndexOrder.LexAntisymmetric | template/generate-index.js:122 | swapping the titles flips the sign |
| IndexOrder.LexTransitive | template/generate-index.js:122 | the title order is transitive |
| IndexOrder.CompareAntisymmetric | template/generate-index.js:118-123 | swapping the comparator's arguments flips the sign |
| IndexOrder.CompareTransitive | template/generate-index.js:118-123 | the comparator is transitive, so the sorted order is well defined |
| IndexOrder.Insert | template/generate-index.js:118 | inserting into a sorted list keeps it sorted and adds exactly the new record |
| IndexOrder.SortArticles | template/generate-index.js:117-123 | the sorted list is ordered by the comparator and is a permutation of the records |
| IndexOrder.StrictThenLe | template/generate-index.js:118-123 | a record strictly before a second that may stand before a third is strictly before the third |
| IndexOrder.LeThenStrict | template/generate-index.js:118-123 | a record that may stand before a second strictly before a third is strictly before the third |
| IndexOrder.TiedWithAppend | template/generate-index.js:117-123 | the records tied with a given one, taken from two runs, are those of each run in turn |
| IndexOrder.NoneTied | template/generate-index.js:118-123 | nothing in a sorted list ties with a record strictly before its head |
| IndexOrder.InsertTied | template/generate-index.js:117-123 | insertion puts the new record after every record it ties with and keeps their order |
| IndexOrder.InsertTiedPast | template/generate-index.js:117-123 | a record that does not precede the head is inserted after the head, behind every tied record |
| IndexOrder.InsertTiedFront | template/generate-index.js:117-123 | a record that precedes the head goes to the front, and then no record of the list ties with anything it ties with |
| IndexOrder.SortStable | template/generate-index.js:117-123 | the sort is stable: the records that tie under the comparator come out in their input order |
| IndexOrder.SortedPairwise | template/generate-index.js:118-123 | a sorted list is ordered between any two positions, not only neighbours |
| IndexOrder.IndexOrdering | template/generate-index.js:118-123 | index.json lists undated articles first, by title, then dated ones newest first |
| IndexOrder.IndexEntry | template/generate-index.js:126-140 | an entry is the article's metadata with `name` forced to the article name, or `{name}` alone when the file cannot be read |
| IndexOrder.Index | template/generate-index.js:126-142 | one entry per sorted record, in the sorted order |
| IndexOrder.Concat | template/generate-index.js:152 | joining no entries gives the empty text |
| IndexOrder.ConcatAppend | template/generate-index.js:152 | joining two runs of entries gives the two joined texts one after the other |
| IndexOrder.ConcatPrefix | template/generate-index.js:152 | joining a prefix of the entries gives a prefix of the joined text |
| IndexOrder.ConcatHoldsEntries | template/generate-index.js:152 | every entry stands in the joined text, in order, after the entries before it |
| IndexOrder.SitemapTemplate | template/generate-index.js:148-155 | the template opens with the XML declaration and the sitemaps 0.9 urlset, holds exactly the joined entries, and closes the urlset |
| IndexOrder.GenerateIndexAndTemplate | template/generate-index.js:44-161 | index.json is the index of the sorted records, and the template is built from the loop's sitemap entries |
| IndexProjects.LastSegment | template/generate-index.js:178 | `path.split("/").pop()` holds no '/' and is the whole path when there is none |
| IndexProjects.LastSegmentIsSuffix | template/generate-index.js:178 | the segment is a suffix of the path |
| IndexProjects.Defaults | template/generate-index.js:196-203 | the generator fills in exactly name, title, description, image, date, author and path |
| IndexProjects.Enriched | template/generate-index.js:196-205 | every metadata key wins over the defaults, and the defaults fill in the rest |
| IndexProjects.EnrichProjects | template/generate-index.js:171-212 | the loop gives the enriched records of `Enrich`, or nothing when an entry throws |
| IndexProjects.EnrichAbortSticks | template/generate-index.js:173-212 | once an entry has thrown, the later entries cannot undo it |
| IndexProjects.GenerateProjects | template/generate-index.js:164-234 | nothing is written for a missing or unparsable source or a missing `projects` array; otherwise the enriched records |
| IndexProjects.EnrichedRecords | template/generate-index.js:173-212 | never more records than entries, and every record has a name and a path |
| IndexProjects.BareMetadataDefaults | template/generate-index.js:196-203 | without metadata the record is "Untitled Project", image `<name>.jpg`, author "Unknown", path `Articles/<name>` |
| IndexProjects.PathEntryName | template/generate-index.js:175-178 | an object entry is named by the last segment of its path |
| Projects.ProjectsCache.constructor | app/routes/projects.tsx:19-22 | the cache starts empty with timestamp 0 |
| Projects.ProjectsCache.FetchWithCache | app/routes/projects.tsx:25-47 | a fresh cache answers without a request and unchanged; otherwise a non-ok response throws "Failed to fetch projects", a bad body throws its message, and both leave the cache alone; a served list is stored with the current time |
| Projects.FreshWindow | app/routes/projects.tsx:23-33 | a stored list is served again exactly while less than 300000 ms (5 minutes) have passed |
| Projects.Keep | app/routes/projects.tsx:57 | the kept projects are exactly the non-null entries with a truthy name and title |
| Projects.KeepAppend | app/routes/projects.tsx:56-57 | filtering distributes over concatenation, so kept projects keep their order |
| Projects.OrDefault | app/routes/projects.tsx:70-74 | `v || d`: a non-empty value is kept, otherwise the default |
| Projects.ProjectImage | app/routes/projects.tsx:60-66 | an "http" image is kept, another image is placed under BASE_URL/Articles/, a missing one becomes BASE_URL/Articles/<name>.jpg |
| Projects.Normalize | app/routes/projects.tsx:58-76 | the shown project: name, title and path kept, description "" and date "" and author "Unknown" by default, image resolved |
| Projects.Loader | app/routes/projects.tsx:49-89 | the normalised kept projects, in order; an empty list when the fetch fails or the file has no `projects` |
| Projects.LoadedProjectsComplete | app/routes/projects.tsx:56-77 | every shown project has a non-empty name, title, image and author |
| Projects.TwitterHandle | app/routes/projects.tsx:128-132 | the handle starts with "@", is at most one character longer than the name, and holds no whitespace and no capitals after the "@" |
| Projects.TwitterHandleKeepsNonWhite | app/routes/projects.tsx:128 | the handle is "@" followed by the lower-cased name with its whitespace dropped, as TextUtil.NonWhite (a filter built from the other end) gives it |
| Projects.TwitterHandleIgnoresWhite | app/routes/projects.tsx:128 | inserting a run of whitespace anywhere in the name does not change the handle |
| Projects.TwitterHandleOfPlainName | app/routes/projects.tsx:128 | a name without whitespace gives "@" and the lower-cased name, every character kept in order |
| Projects.TwitterHandleExample | app/routes/projects.tsx:128 | the site name "Creative Geek" gives the handle "@creativegeek" |
| TextUtil.RemoveWhiteAppend | app/routes/projects.tsx:128 | `replace(/\s+/g, "")` distributes over concatenation |
| TextUtil.RemoveWhiteIsNonWhite | app/routes/projects.tsx:128 | removing whitespace from the front equals the reference filter that keeps the non-white characters from the back |
| TextUtil.LowerCons | app/routes/projects.tsx:128 | `toLowerCase` lowers the first character and then the rest |
| Projects.RemoveWhiteClean | app/routes/projects.tsx:128 | removing whitespace from text that has none changes nothing |
| Projects.TwitterHandleIdempotent | app/routes/projects.tsx:128-132 | deriving a handle from a handle's own name part gives the same handle: the handle is already normalised |
| ImageModal.ZoomWheel | app/components/ui/ImageModal.tsx:130-137 | wheeling up adds 0.2 to the scale, capped at 5.0; wheeling down takes 0.2 off, floored at 0.5; nothing else changes |
| ImageModal.ToggleZoom | app/components/ui/ImageModal.tsx:120-127 | a zoomed image goes back to 1.0 at the origin; an unzoomed one goes to 2.0 in place |
| ImageModal.DragStart | app/components/ui/ImageModal.tsx:73-78 | a drag starts only on an image zoomed past 1.0, anchored at the pointer minus the position (also lines 96-104) |
| ImageModal.DragMove | app/components/ui/ImageModal.tsx:81-88 | while dragging a zoomed image the position is the pointer minus the anchor; otherwise nothing changes (also lines 106-113) |
| ImageModal.OpenWith | app/components/ui/ImageModal.tsx:55-70 | opening sets the image props; scale and position are reset when the viewer was closed or the image changed (also lines 231-234) |
| ImageModal.ApplyKeepsScale | app/components/ui/ImageModal.tsx:120-137 | no event takes the scale out of [0.5, 5.0] (also line 57) |
| ImageModal.RunKeepsScale | app/components/ui/ImageModal.tsx:120-137 | whatever the events, the scale stays within [0.5, 5.0] (also line 57) |
| ImageModal.PositionMovesOnlyByDrag | app/components/ui/ImageModal.tsx:83-86 | the position changes only by a drag of a zoomed image, or by a reset to the origin (also lines 58, 108-111, 123) |
| ImageModal.DragDisplacement | app/components/ui/ImageModal.tsx:73-113 | pressing at p0 and moving to p1 shifts the image by exactly p1 - p0 |
| ImageModal.ReleaseStopsDrag | app/components/ui/ImageModal.tsx:91-93 | after mouse up, mouse leave or touch end, moves change nothing (also lines 115-117, 208-209) |
| ImageModal.DoubleClickTwice | app/components/ui/ImageModal.tsx:120-127 | two double-clicks on an unzoomed image come back to 1.0 at the origin |
| ImageModal.EscapeOnlyWhenOpen | app/components/ui/ImageModal.tsx:29-38 | Escape closes an open viewer and changes nothing else; other keys and a closed viewer are untouched |
| ImageModal.CloseThenOpenResets | app/components/ui/ImageModal.tsx:55-70 | closing keeps the image props, and reopening the same image starts again at 1.0 at the origin (also lines 236-238) |
| ImageModal.ImageViewer.constructor | app/components/ui/ImageModal.tsx:18-21 | the viewer starts closed, without image, at 1.0 at the origin, not dragging (also lines 225-229) |
| ImageModal.ImageViewer.HandleWheel | app/components/ui/ImageModal.tsx:130-137 | the new state is the wheel step of the old one |
| ImageModal.ImageViewer.HandleDoubleClick | app/components/ui/ImageModal.tsx:120-127 | the new state is the zoom toggle of the old one |
| ImageModal.ImageViewer.HandlePointerDown | app/components/ui/ImageModal.tsx:73-78 | mouse down and touch start give the same new state, the drag start (also lines 96-104) |
| ImageModal.ImageViewer.HandlePointerMove | app/components/ui/ImageModal.tsx:81-88 | mouse move and touch move give the same new state, the drag move (also lines 106-113) |
| ImageModal.ImageViewer.HandlePointerUp | app/components/ui/ImageModal.tsx:91-93 | mouse up, mouse leave and touch end all just end the drag (also lines 115-117) |
| ImageModal.ImageViewer.HandleKeyDown | app/components/ui/ImageModal.tsx:29-38 | the key listener's new state |
| ImageModal.ImageViewer.OpenModal | app/components/ui/ImageModal.tsx:55-70 | openModal followed by the reset effect (also lines 231-234) |
| ImageModal.ImageViewer.CloseModal | app/components/ui/ImageModal.tsx:236-238 | closeModal only closes |
| ArticleMarkdown.DirOf | app/components/Article.tsx:24-38 | the `dir` attribute is "rtl" exactly when the test says right-to-left |
| ArticleMarkdown.JoinChildren | app/components/Article.tsx:33 | an array of children turns into its items' strings joined with "," |
| ArticleMarkdown.Paragraph | app/components/Article.tsx:19-30 | a paragraph is right-to-left iff its children contain Arabic, aligned to match, with `mb-4` |
| ArticleMarkdown.Heading | app/components/Article.tsx:32-74 | a heading is right-to-left iff its children's text starts with Arabic; h1 has no alignment token, h2 and h3 align with their direction |
| ArticleMarkdown.ListBlock | app/components/Article.tsx:84-107 | a right-to-left list indents on the right and aligns right, a left-to-right one indents on the left and aligns left |
| ArticleMarkdown.UnorderedList | app/components/Article.tsx:76-95 | ul is right-to-left iff its first child is a string starting with Arabic or its children contain Arabic |
| ArticleMarkdown.OrderedList | app/components/Article.tsx:96-109 | ol is right-to-left iff its children contain Arabic, indented like ul |
| ArticleMarkdown.ListItem | app/components/Article.tsx:112-123 | li is right-to-left iff its children contain Arabic; its only class is the alignment |
| ArticleMarkdown.ArabicFirstItemList | app/components/Article.tsx:77-82 | a list whose first item text starts with Arabic is right-to-left whatever the rest holds |
| ArticleMarkdown.HeadingOfText | app/components/Article.tsx:33-34 | a heading made of one text node takes its direction from that text |
| ArticleMarkdown.ElementHeadingIsLtr | app/components/Article.tsx:33-34 | a heading whose first node is an element renders as "[object Object]" and is always left-to-right |
| ArticleMarkdown.ImageSrc | app/components/Article.tsx:126-129 | a source starting with "~/" becomes BASE_URL followed by the source without its "~"; other sources are kept |
| ArticleMarkdown.Link | app/components/Article.tsx:139-149 | links starting with "http" open in a new tab with `noopener noreferrer`; others get neither attribute |
| ArticleMarkdown.ArticleHeader | app/components/Article.tsx:152-199 | title and description appear when non-empty, each with its own direction; author and date each appear when truthy, with the separator only between both; the featured image alt is the title or "Article featured image" |
| ArticleMarkdown.SeparatorBetween | app/components/Article.tsx:169-177 | the separator never appears without both the author and the date beside it |
| ServeContent.ExtName | scripts/serve-content.js:58 | the extension is empty or a "." followed by no "/", and it ends the path |
| ServeContent.GetMimeType | scripts/serve-content.js:57-60 | the type listed for the lower-cased extension, and "application/octet-stream" when none is listed |
| ServeContent.MimeTypeOfFile | scripts/serve-content.js:35-60 | a file `<dir>/<stem>.<ext>` gets the type listed for the lower-cased ".ext", or the octet-stream type |
| ServeContent.ExtOfName | scripts/serve-content.js:58 | the extension of `<dir>/<stem>.<ext>` is ".ext" |
| ServeContent.NoSlashAfter | scripts/serve-content.js:58 | no "/" follows the directory part of `<dir>/<stem>.<ext>` |
| ServeContent.NoDotAfter | scripts/serve-content.js:58 | no "." follows the stem of `<stem>.<ext>` |
| ServeContent.StripDots | scripts/serve-content.js:87 | removing ".." leaves no two adjacent dots, keeps a leading non-dot and never lengthens the path |
| ServeContent.NonDots | scripts/serve-content.js:87 | the non-dot characters of a path, a reference for what stripping keeps |
| ServeContent.StripKeepsOtherChars | scripts/serve-content.js:87 | stripping removes only dots: every other character survives, in order |
| ServeContent.StripNoDoubleDot | scripts/serve-content.js:87 | a path without ".." is left unchanged |
| ServeContent.StripIdempotent | scripts/serve-content.js:87 | stripping twice is stripping once |
| ServeContent.NoParentSegments | scripts/serve-content.js:86-87 | after stripping, ".." occurs nowhere in the path |
| ServeContent.NoDoubleDotNoParent | scripts/serve-content.js:86-87 | a text with no two adjacent dots does not contain ".." |
| ServeContent.DotsAt | scripts/serve-content.js:87 | where ".." occurs there are two dots |
| ServeContent.RequestPath | scripts/serve-content.js:84-92 | the looked-up path never contains "..", and is "/index.html" exactly when the stripped path is "/" |
| ServeContent.HandleRequest | scripts/serve-content.js:62-141 | OPTIONS gives 204; other methods than GET and HEAD give 405; an undecodable path gets no response; a joined path outside the directory gives 403; a directory serves its index.html as text/html or 404; a file gets 200 with its MIME type and size; ENOENT gives 404 and other errors 500; every response starts with the three CORS headers |
| ServeContent.DigitPrefix | scripts/serve-content.js:32 | the leading digits of a text: all digits, a prefix, and followed by a non-digit when shorter |
| ServeContent.Port | scripts/serve-content.js:32 | 4000 when the argument is missing, has no number or parses to 0; otherwise the parsed number |
| ServeContent.PortRoundTrip | scripts/serve-content.js:32 | a port written in decimal is the port used, except 0 which means 4000 |
| ServeContent.DigitsArePrefix | scripts/serve-content.js:32 | the digit prefix of an all-digit text is the text |
| Theme.DigitRunStart | app/utils/theme.ts:15 | the start of the longest run of digits ending at a position: all digits from there, and no digit just before |
| Theme.HoverColor | app/utils/theme.ts:15-17 | a colour ending in digits and "%)" gets that whole number lowered by 10 with the rest kept; any other colour is returned unchanged |
| Theme.HoverLowersLightness | app/utils/theme.ts:15-17 | on `<prefix><n>%)`, with a prefix not ending in a digit, the hover colour is `<prefix><n - 10>%)` |
| Theme.DigitRunOf | app/utils/theme.ts:15 | the digit run that ends after `<prefix><digits>` starts right after the prefix |
| Theme.HoverKeepsPrefix | app/utils/theme.ts:15-17 | the hover colour still has a lightness and keeps everything before the number |
| Theme.NumberEndsInDigit | app/utils/theme.ts:16 | a number written in decimal ends in a digit |
| Theme.GetAccentColor | app/utils/theme.ts:42-62 | without a window, the light primary for "primary" and the light secondary otherwise; in a browser, the dark colour exactly when data-theme is "dark", and hover is the primary of that theme with its lightness lowered |
| Theme.HoverFollowsPrimary | app/utils/theme.ts:43-58 | in a browser hover is the primary colour's hover form; without a window hover is the secondary colour |
| Theme.LightUnlessDark | app/utils/theme.ts:47 | any data-theme other than "dark", or none, gives the light colours |
| Theme.CountId | app/utils/theme.ts:29 | the number of elements with an id never exceeds the number of elements |
| Theme.FindId | app/utils/theme.ts:29 | `getElementById`: the first element with the id, or -1 when none has it |
| Theme.WithStyle | app/utils/theme.ts:28-36 | a missing style element is appended with the text; an existing one has only its text replaced, in place |
| Theme.WithStyleCount | app/utils/theme.ts:29-34 | after writing the style there is at least one such element, and a new one only when there was none |
| Theme.RepeatedApply | app/utils/theme.ts:28-36 | applying twice to a page with at most one style element leaves exactly one, holding the last text |
| Theme.Document.constructor | app/utils/theme.ts:10 | a page with the given elements and an empty root style |
| Theme.Document.ApplyThemeConfig | app/utils/theme.ts:7-37 | without a window nothing changes; otherwise the three light-mode properties are set on the root, hover derived from the primary, and the dark-mode rule is written into the style element |
| Theme.Document.SetStyleText | app/utils/theme.ts:28-36 | the elements become the style write applied to the old ones and the root style is untouched |
| Theme.NoneFound | app/utils/theme.ts:29-30 | the lookup fails exactly when no element carries the id |
| Theme.CountKeepsId | app/utils/theme.ts:36 | setting an element's text changes no id count |
| MetaTags.Key | app/hooks/useMetaTags.ts:24-27 | a tag has a key exactly when its name or its property is non-empty, and the key is the name when that is non-empty, else the property (also lines 72-75) |
| MetaTags.SavedMetaKeys | app/hooks/useMetaTags.ts:23-30 | the saved keys are exactly the keys of the original tags |
| MetaTags.FindTag | app/hooks/useMetaTags.ts:41-42 | the first tag whose name is the key, else the first whose property is, else -1 when no tag has the key as either |
| MetaTags.FirstWith | app/hooks/useMetaTags.ts:41-42 | `querySelector` on one attribute: the first tag whose attribute is exactly the key, or -1 |
| MetaTags.NewTag | app/hooks/useMetaTags.ts:44-49 | a created tag carries the key as `property` when it starts with "og:", as `name` otherwise, and the content |
| MetaTags.SetTag | app/hooks/useMetaTags.ts:38-50 | an empty or absent content changes nothing; else the found tag gets the content in place, or a new tag is appended |
| MetaTags.SetThenFind | app/hooks/useMetaTags.ts:38-50 | after setting a non-empty content, looking the key up finds a tag holding that content |
| MetaTags.SameAttributesSameFind | app/hooks/useMetaTags.ts:41-42 | the lookup depends only on the tags' names and properties, not their contents |
| MetaTags.SameFirstWith | app/hooks/useMetaTags.ts:41-42 | the single-attribute lookup ignores contents too |
| MetaTags.OgType | app/hooks/useMetaTags.ts:16 | `og:type` is the given type, or "article" when none is given |
| MetaTags.EffectTitle | app/hooks/useMetaTags.ts:33-35 | a non-empty title gives "<title> \| <original>"; otherwise the title stays |
| MetaTags.Restore | app/hooks/useMetaTags.ts:70-82 | the cleanup pass never adds tags, and every keyed tag that survives has its key saved |
| MetaTags.Head.constructor | app/hooks/useMetaTags.ts:22-23 | a head with the given title and tags |
| MetaTags.Head.SetMetaTag | app/hooks/useMetaTags.ts:38-50 | the tags become the set applied to the old tags; the title is unchanged |
| MetaTags.Head.UseMetaTags | app/hooks/useMetaTags.ts:20-64 | it saves the original title and tag contents, sets the title and applies the eleven sets in order |
| MetaTags.Head.Cleanup | app/hooks/useMetaTags.ts:66-83 | the title goes back to the saved one, and the tags become the restore pass over the current ones |
| MetaTags.SetTagExtends | app/hooks/useMetaTags.ts:38-50 | each set keeps the original tags in place, attributes unchanged, and appends only tags whose keys were not saved |
| MetaTags.SetAllExtends | app/hooks/useMetaTags.ts:53-63 | the eleven sets together keep that shape |
| MetaTags.SavedOwnContent | app/hooks/useMetaTags.ts:23-30 | on distinctly keyed tags, each tag's saved content is its own |
| MetaTags.SavedMetaSavesAll | app/hooks/useMetaTags.ts:23-30 | on distinctly keyed tags, the saved map holds every tag with its content |
| MetaTags.RestoreExtension | app/hooks/useMetaTags.ts:70-82 | restoring the original tags followed by added, unsaved ones gives back exactly the original tags |
| MetaTags.RestorePrefix | app/hooks/useMetaTags.ts:74-78 | tags whose contents were changed get their saved contents back |
| MetaTags.RestoreOne | app/hooks/useMetaTags.ts:74-78 | the restore of one more tag puts back its saved content |
| MetaTags.CleanupUndoesEffect | app/hooks/useMetaTags.ts:20-84 | on a head of distinctly keyed tags with content, the effect followed by its cleanup gives back the original title and tags |
| StructuredData.SiteOf | app/utils/structuredData.ts:34 | the site part is a prefix of the url without "/blog/"; it is followed by the first "/blog/", or is the whole url when there is none |
| StructuredData.ArticleStructuredData | app/utils/structuredData.ts:25-60 | the record exists exactly when the date converts (an invalid date throws); headline, description and url are the data's, the author is the given author or the owner, author and publisher carry the site part of the url, both dates are the same text, and the 1200x630 image is present exactly when an image is given |
| StructuredData.PersonStructuredData | app/utils/structuredData.ts:62-95 | name, description and url are the data's, the job and employer are fixed, seven topics are listed, and the 400x400 image is present exactly when an image is given |
| StructuredData.WebsiteStructuredData | app/utils/structuredData.ts:97-113 | a "Website" record of the data, whose author and publisher are the owner without a url |
| StructuredData.BlogStructuredData | app/utils/structuredData.ts:115-134 | a "Blog" record named "<name> - Blog" at "<url>/blog", by the owner at the site's url |
| StructuredData.ArticleAuthorIsBlogAuthor | app/utils/structuredData.ts:34-39 | an article at `<site>/blog/<slug>` names the same author url, and the same publisher, as the blog of `<site>` (also lines 115-134) |
| StructuredData.SiteOfBlogUrl | app/utils/structuredData.ts:34 | the site part of `<site>/blog/<slug>` is `<site>` when "/blog/" first occurs after it |
| SitemapRoute.LastmodLine | app/routes/sitemap.xml.tsx:49-65 | the lastmod line appears exactly when the metadata was served with a date that converts |
| SitemapRoute.ArticleBlocks | app/routes/sitemap.xml.tsx:45-70 | one `<url>` element per article name, in index order |
| SitemapRoute.AppendArticle | app/routes/sitemap.xml.tsx:46-69 | one loop turn appends exactly that article's `<url>` element |
| SitemapRoute.AppendArticles | app/routes/sitemap.xml.tsx:45-70 | the loop appends the articles' elements, joined in index order, to what was written before |
| SitemapRoute.GenerateSitemapXml | app/routes/sitemap.xml.tsx:5-80 | no document when the index cannot be fetched; otherwise the declaration, the urlset, the three static pages, the articles and the closing tag |
| SitemapRoute.Framed | app/routes/sitemap.xml.tsx:20-73 | a text between a prefix and a suffix keeps its pieces, shifted by the prefix |
| SitemapRoute.DocumentLayout | app/routes/sitemap.xml.tsx:44-73 | each joined block stands after the prelude and the blocks before it, and the document ends with the closing tag |
| SitemapRoute.SitemapLayout | app/routes/sitemap.xml.tsx:20-73 | the document starts with the prelude, ends with `</urlset>` and holds the k-th article's element at its place in index order |
| SitemapRoute.Utf16Length | app/routes/sitemap.xml.tsx:92 | JavaScript's `length` counts at least one unit per character |
| SitemapRoute.EncodeChar | app/routes/sitemap.xml.tsx:88-92 | a character encodes as one to four bytes, a single one exactly when it is ASCII |
| SitemapRoute.Utf8Encode | app/routes/sitemap.xml.tsx:88-92 | the body's UTF-8 encoding is a sequence of bytes |
| SitemapRoute.CharLengths | app/routes/sitemap.xml.tsx:92 | a character takes at least as many UTF-8 bytes as UTF-16 units, and more for non-ASCII characters of the basic plane |
| SitemapRoute.Utf16NotAboveUtf8 | app/routes/sitemap.xml.tsx:92 | a text's UTF-16 length never exceeds its UTF-8 size |
| SitemapRoute.Utf16BelowUtf8 | app/routes/sitemap.xml.tsx:92 | one non-ASCII character of the basic plane makes the UTF-16 length smaller than the UTF-8 size |
| SitemapRoute.ContentLengthAsWritten | app/routes/sitemap.xml.tsx:92 | the header as written: the decimal count of UTF-16 units |
| SitemapRoute.ContentLength | app/routes/sitemap.xml.tsx:92 | the header as HTTP defines it: the decimal size of the UTF-8 body |
| SitemapRoute.AsWrittenUndercounts | app/routes/sitemap.xml.tsx:92 | an article name with a non-ASCII character of the basic plane makes the written header differ from the body's size (also line 47) |
| SitemapRoute.DocumentUndercounts | app/routes/sitemap.xml.tsx:92 | such a character in any article block makes the written header wrong for the whole document |
| SitemapRoute.CharOfBlock | app/routes/sitemap.xml.tsx:45-73 | each character of each block appears in the document at a computed position |
| SitemapRoute.NameInBlock | app/routes/sitemap.xml.tsx:47 | each character of an article name appears in its `<url>` element |
| SitemapRoute.UndercountsAt | app/routes/sitemap.xml.tsx:92 | one non-ASCII character of the basic plane anywhere in the body makes the written header wrong |
| SitemapRoute.ArabicNameExample | app/routes/sitemap.xml.tsx:92 | the sitemap of one article with an Arabic name has a wrong written header (also line 47) |
| SitemapRoute.AsciiLengthsAgree | app/routes/sitemap.xml.tsx:92 | an ASCII text has as many UTF-16 units and UTF-8 bytes as characters |
| SitemapRoute.AsWrittenAgreesOnAscii | app/routes/sitemap.xml.tsx:92 | the written header is the right one whenever the body is ASCII |
| SitemapRoute.Loader | app/routes/sitemap.xml.tsx:83-106 | 500 with "Error generating sitemap" as plain text when the index cannot be fetched; otherwise 200 with the document, its type, `String(xml.length)` as its length and the caching headers |
| SitemapRoute.CorrectedLoader | app/routes/sitemap.xml.tsx:83-106 | the same responses, with the UTF-8 size of the body as the sitemap's Content-Length |
| ViewArticle.DirName | app/routes/viewArticle.tsx:37-40 | everything before the last "/", or empty when there is none |
| ViewArticle.DirNameOfArticle | app/routes/viewArticle.tsx:37-40 | the directory of a one-segment article path is "Articles" (also line 18) |
| ViewArticle.ResolveImage | app/routes/viewArticle.tsx:36-41 | an absent, empty or "http" image is kept; a relative one is placed under BASE_URL and the article's directory |
| ViewArticle.FirstAvailable | app/routes/viewArticle.tsx:44-54 | the first probe URL, in the order .jpg, .jpeg, .png, .webp, that the host serves ok; none exactly when no probe answers ok |
| ViewArticle.FinalImage | app/routes/viewArticle.tsx:35-55 | a non-empty image is resolved; otherwise the first probe that answers ok; the result is non-empty exactly when one of the two exists |
| ViewArticle.ProbeImage | app/routes/viewArticle.tsx:43-55 | the probe loop stops at the first URL that answers ok, the one ViewArticle.FirstAvailable names |
| ViewArticle.FirstAvailableAt | app/routes/viewArticle.tsx:44-54 | when probe i is the first that answers ok, it is the one chosen |
| ViewArticle.Loader | app/routes/viewArticle.tsx:16-61 | the article loads only when both its Markdown and its metadata are fetched, and then carries the metadata with the final image and the content; otherwise it fails with "Failed to load article" |
| ViewArticle.TopLevelImage | app/routes/viewArticle.tsx:36-41 | a relative image of a top-level article resolves to `<base>/Articles/<image>` (also line 18) |
| ViewArticle.Meta | app/routes/viewArticle.tsx:63-68 | the page title is "<title> - NAME" when the data has a non-empty title, else NAME; the description is the data's |
| ArticleCard.Truncate | app/components/articleCard.tsx:28-31 | a description of at most 150 characters is shown whole; a longer one as its first 150 characters followed by "..." |
| ArticleCard.TruncateBounds | app/components/articleCard.tsx:28-31 | the shown text has at most 153 characters and starts with the description's first 150 characters |
| ArticleCard.TruncateIdempotent | app/components/articleCard.tsx:28-31 | truncating a truncated description changes nothing |
| ArticleCard.RenderCard | app/components/articleCard.tsx:33-54 | the card links to the path, shows the image with the title as alt, the title, "<author> • <date>" and the truncated description |
| ArticleCard.RenderGiven | app/components/articleCard.tsx:20-31 | the card on the props it is given: a TypeError exactly when no description is passed; otherwise the truncated description, the path and the title, with absent props shown empty |
| ArticleCard.RenderGivenComplete | app/components/articleCard.tsx:20-54 | with every prop passed, the card renders as ArticleCard.RenderCard says and never throws |
| ArticleCard.CardDependsOnlyOnPathAndDescription | app/components/articleCard.tsx:28-35 | two cards with the same path and the same first 150 characters of equally long-or-short descriptions link and read the same |
| BlogSection.OrEmpty | app/components/homePage/blogSection.tsx:17 | an absent list defaults to the empty list |
| BlogSection.FeaturedPaths | app/components/homePage/blogSection.tsx:47-50 | a featured card links to its article's path, one card per article, in order |
| BlogSection.ArticlePaths | app/components/homePage/blogSection.tsx:47-50 | a latest card links to "Articles/<name>", one card per article, in order |
| BlogSection.Render | app/components/homePage/blogSection.tsx:17-57 | while loading, three skeleton cards; nothing exactly when both lists are empty; "Featured Articles" with the featured paths when there are any; else "Latest Blog Posts" with the article paths |
| BlogSection.FeaturedHidesLatest | app/components/homePage/blogSection.tsx:37-38 | with featured articles present, the latest articles do not affect the section |
| BlogSection.LatestPathsNameArticles | app/components/homePage/blogSection.tsx:50 | each latest card's path names its article: removing "Articles/" gives back the name |
| BlogSection.SectionIsNonEmpty | app/components/homePage/blogSection.tsx:35-38 | a rendered section always holds at least one card |
| BlogSection.RenderAsWritten | app/components/homePage/blogSection.tsx:47-51 | with cards passed only their path, the section throws exactly when it is not loading and has an article or a featured article; otherwise it shows BlogSection.Render's view |
| BlogSection.CardsWithProps | app/components/homePage/blogSection.tsx:47-51 | cards passed their article's props render without throwing, link to their paths and show that article's title and cut description |
| BlogSection.RenderWithProps | app/components/homePage/blogSection.tsx:40-56 | the section with complete cards: BlogSection.Render's view and one card per path, linking to it, in order |
| ViteConfig.ManualChunk | vite.config.ts:17-37 | a chunk is named only for a module under node_modules, and only one of the five vendor chunk names |
| ViteConfig.OutsideNodeModules | vite.config.ts:19-36 | a module outside node_modules gets no manual chunk |
| ViteConfig.FramerMotionWins | vite.config.ts:21-23 | a framer-motion module goes to "framer-motion", whatever else its id holds |
| ViteConfig.MarkdownTogether | vite.config.ts:24-26 | react-markdown and remark-gfm modules share the "react-markdown" chunk |
| ViteConfig.LaterRulesInOrder | vite.config.ts:27-35 | the radix, html2canvas and jspdf rules apply in that order, each only when the earlier ones do not |
| ViteConfig.NoRuleNoChunk | vite.config.ts:19-36 | an id matching no library gets no manual chunk |
| ViteConfig.ChunkNamesItsLibrary | vite.config.ts:19-35 | the chosen chunk's name occurs in the module's id |
| ViteConfig.RadixInRadixUi | vite.config.ts:27-28 | an id containing "@radix-ui" contains "radix-ui" |

## Left out

- Network, file-system and server I/O (`fetch`, `fs`, `http.createServer`, `Response` objects) are maps from a URL or path to what is served. A fetch that is not ok and a fetch that throws both appear as a missing key, except where the source reports different messages for them.
- Timers and asynchronous interleaving are not modelled. This covers the 300 ms search debounce, its cancellation, and a slower search overwriting a newer one. The model runs one search at a time.
- `highlightMatches` in the search dialog is not modelled. It splits on a regular expression built from unescaped user input, so its result depends on the regular-expression engine.
- `toLowerCase` is modelled on ASCII letters only, so it keeps the length. The snippet arithmetic assumes the same.
- JavaScript's `Date` (parsing, `toISOString`, `formatDateForSitemap`), `encodeURIComponent`, `decodeURIComponent`, `JSON.parse`, `path.join`, `path.resolve` and `fileURLToPath` are function-typed parameters or oracles, not definitions. `path.extname` is modelled for paths without a trailing separator.
- `localeCompare` is modelled as code-point lexicographic order, not a locale collation.
- `articles.sort` is modelled as an insertion sort, proved sorted, a permutation and stable (records the comparator ties keep their input order, as ECMAScript 2019 requires of `Array.prototype.sort`). The engine's own algorithm is not modelled. Sorted, permutation and stable together fix the result, so a conforming engine gives the same order.
- JSON values that are not strings, where the source reads a string field, are read as absent.
- The image viewer's scale is counted in integer tenths (5 to 50), so the floating-point drift of repeated 0.2 steps and `Math.round(scale * 100)` are not modelled.
- ArticleCard.Truncate and SearchDialog.GetContentSnippet count characters (Unicode scalar values), while JavaScript's `length`, `substring` and `indexOf` count UTF-16 code units. A text with characters outside the basic plane is cut at a different place, and `substring` can split a surrogate pair; neither is modelled.
- SearchService.Fields: the metadata record holds only the fields the search reads (title, description). Other metadata keys, `name` among them, would override the index entry's under the spread `{...article, ...metadata}`; that is not modelled.
- StructuredData.DateText: one current time, `nowIso`, stands for both `new Date()` calls of the published and modified dates. Calls that straddle a clock tick give two different texts in the source.
- ImageModal: pointer coordinates and positions are integers; fractional pixel positions are not modelled.
- ServeContent.HandleRequest: a `readFile` that fails after `stat` succeeded (answered 500 by the source) is not modelled; a file that stats is read.
- ArticleCard.RenderGiven: an absent prop other than the description renders as empty text. React omits an `undefined` attribute where the model has an empty text.
- Projects.TwitterHandleIdempotent: states only that a handle is already normalised. What the handle holds is stated by Projects.TwitterHandle, Projects.TwitterHandleIgnoresWhite, Projects.TwitterHandleOfPlainName and Projects.TwitterHandleExample.
- Rendering and styling (JSX layout, class lists beyond the direction, alignment and indentation tokens, animations, skeleton shapes) are not modelled.
- `containsArabic` is imported by `app/components/Article.tsx` but defined nowhere in `app/lib/utils.ts`, so it is an input to the block renderers.
- `THEME_CONFIG` and the constants of `app/config/constants.ts` (BASE_URL, NAME) are parameters.
- `applyThemeConfig`'s writes of the root style properties are modelled as a map from property to value. The CSS engine is not modelled.
- ServeContent.HandleRequest: HEAD gets the same response as GET, including the body, because the body write is left to Node's HTTP layer, which is not modelled. The file's bytes stand as its path.
- ServeContent.HandleRequest: a `decodeURIComponent` that throws happens outside the `try`, so the request is left unanswered. This is `NoResponse`; the runtime's handling of the rejected promise is not modelled.
- The server start-up (checking that the content directory exists, `listen`, shutdown on SIGINT) and logging are not modelled.
- MetaTags.Restore: its own contract states only that the cleanup adds no tags and keeps only saved keys. The exact result is stated by MetaTags.RestoreExtension and MetaTags.CleanupUndoesEffect for heads whose tags are distinctly keyed and carry content.
- MetaTags.CleanupUndoesEffect: only heads whose tags have distinct keys and content are covered. With duplicate keys, the last saved content is restored to every tag of that key. A tag without a content attribute is restored with the text "null".
- StructuredData.PersonStructuredData: the contract gives the number of `knowsAbout` topics, not their texts.
- Parts of the design description that this code does not have are not modelled: heading slugs and deep-link copying, code-block copy buttons, the paging article list, and a guard against stale search responses. The model follows the code wherever the two disagree. Three such places:
  - Heading direction tests the first character of the trimmed text, not the first letter.
  - With content search on, the content of every article is fetched whatever the query's length.
  - The snippet takes 50 characters of context on each side of the match.

## Findings

| source | as written | input that shows it | evidently intended | confidence | as-written member | corrected member |
|---|---|---|---|---|---|---|
| app/routes/sitemap.xml.tsx:92 | `Content-Length` is `String(xml.length)`, which counts UTF-16 code units, while the body is sent as UTF-8 | an index holding one article named "مقال": its four letters count as four UTF-16 units but take eight UTF-8 bytes, so the header announces fewer bytes than are sent (SitemapRoute.ArabicNameExample; SitemapRoute.AsWrittenUndercounts for any name with a non-ASCII character of the basic plane) | the number of UTF-8 bytes of the body (section 8.6 of RFC 9110), which SitemapRoute.CorrectedLoader sends; SitemapRoute.Loader sends the header as written | not executed | SitemapRoute.ContentLengthAsWritten | SitemapRoute.ContentLength |
| app/components/homePage/blogSection.tsx:48-51 | the grid passes each `ArticleCard` only `key` and `path`, while the card reads `description.length` (app/components/articleCard.tsx line 29) | any non-empty `articles` or `featuredArticles`, such as one article named "a": its card reads the length of an undefined description and throws a TypeError, so the section cannot render (BlogSection.RenderAsWritten); app/components/homePage/projectsSection.tsx, which is not part of this model, passes the same two props | each card receives its article's title, description, image, date and author with the path, and renders without throwing (ArticleCard.RenderGivenComplete) | not executed | BlogSection.RenderAsWritten | BlogSection.RenderWithProps |
