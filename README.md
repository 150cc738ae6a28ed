# AI content summarizer: the `generateSummary` handler in Dafny

This project models the core of the summarizer's back end: the Express handler
`generateSummary`. It takes a `url` from the request body, loads the page in a headless
browser and strips the noise elements from the live document. It then picks a title and
a main content region through fallback chains, collapses and truncates the text, and
fills a fixed Markdown prompt with it. It sends the prompt to the language model, stores
the reply as a summary record and answers with that record. The browser is closed on
every path, whether the request succeeds or fails.

The files follow the handler's stages:

- `options.dfy`: `Option` (JavaScript's `undefined` from optional chaining), `Result`
  and the one exception the modelled code raises itself (`TypeError`).
- `text.dfy` (`TextNorm`): the whitespace set shared by `\s` and `trim`, plus `Trim`,
  `Collapse` (every maximal whitespace run becomes one space), `Substring` with
  JavaScript's clamping, and `CleanText`.
- `dom.dfy` (`Dom`): the page as a forest of nodes. Each element gets an identity from
  pre-order numbering when the document is loaded. The file has `textContent`,
  `querySelectorAll`/`querySelector` over selector lists (proved against `Elements`, the
  list of all elements in tree order), `document.body`, and the
  `Document` class. Its `RemoveMatching` method removes the matched elements one at a
  time in tree order and is proved equal to the pure pruning function `Prune`.
- `extract.dfy` (`Extract`): the `page.evaluate` callback. It covers JavaScript `||`
  over strings (only the empty string is falsy), the title chain, the content chain that
  ends in `document.body.textContent`, and the `Evaluate` method on a live `Document`.
- `prompt.dfy` (`Prompt`): the prompt template as data. `Template` holds the
  introduction, the six section headings with their bodies, the title and content labels
  and the closing line. `Summary` is the handler's own template, and `Fill` puts the
  title and the cleaned text into it.
- `controller.dfy` (`Controller`): the request lifecycle. A `World` value says how each
  external step behaves: launch, new page, user agent, navigation and the browser side
  of `page.evaluate` (each may throw),
  the loaded markup and `document.title`, the model's reply, and the identity the
  database assigns (or a failure). `Lifecycle` is the specification of one request: its
  response, its ordered effects (`Launched`, `Navigated`, `Invoked`, `Stored`, `Closed`)
  and the stored record. The `Server` class keeps the stored `records`, a ghost `trace`
  of effects and a ghost count of open browsers, and its `GenerateSummary` method is
  proved against `Lifecycle`.

## Model

| member | source | states |
|---|---|---|
| TextNorm.Trim | backend/controllers/summary.controller.js:53 | the result is the input between its leading and trailing whitespace, and it neither starts nor ends with whitespace |
| TextNorm.Collapse | backend/controllers/summary.controller.js:52 | the result is no longer than the input and empty exactly when the input is; it starts and ends with whitespace exactly when the input does; no two whitespace characters are adjacent in it |
| TextNorm.Clamp | backend/controllers/summary.controller.js:54 | a `substring` bound is left alone inside `[0, length]`, a negative bound becomes 0 and a bound past the end becomes the length |
| TextNorm.CollapseKeepsNonWs | backend/controllers/summary.controller.js:52 | collapsing whitespace keeps every non-whitespace character, in order |
| TextNorm.CollapseConcat | backend/controllers/summary.controller.js:52 | collapsing two pieces of text that do not meet in the middle of a whitespace run is collapsing each piece on its own |
| TextNorm.CollapseRun | backend/controllers/summary.controller.js:52 | a non-empty run of whitespace alone becomes exactly one space |
| TextNorm.CollapseRunToSpace | backend/controllers/summary.controller.js:52 | a whitespace run between two pieces of text becomes exactly one space, so the words on either side stay apart |
| TextNorm.CollapseKeepsChar | backend/controllers/summary.controller.js:52 | a non-whitespace character is left as it is |
| TextNorm.CollapseSingleSpaced | backend/controllers/summary.controller.js:52 | text with no two adjacent whitespace characters is left unchanged by collapsing |
| TextNorm.NormalizeShape | backend/controllers/summary.controller.js:51-53 | collapse-then-trim gives single-spaced, trimmed text with the same non-whitespace characters as the input |
| TextNorm.NormalizeIdempotent | backend/controllers/summary.controller.js:51-53 | collapse-then-trim applied twice equals applied once |
| TextNorm.NormalizeEmptyIff | backend/controllers/summary.controller.js:51-53 | collapse-then-trim yields the empty string exactly when the content is all whitespace |
| TextNorm.CleanTextBounds | backend/controllers/summary.controller.js:51-54 | the cleaned text has at most 7000 characters and is a prefix of the normalised text; it is all of it when that fits, and exactly 7000 characters otherwise |
| TextNorm.CleanTextShape | backend/controllers/summary.controller.js:51-54 | the cleaned text is single-spaced and does not start with whitespace; it is also trimmed when no truncation happened |
| TextNorm.LongContentTruncated | backend/controllers/summary.controller.js:51-54 | content with at least 7000 non-whitespace characters always yields exactly 7000 characters |
| Dom.Document.constructor | backend/controllers/summary.controller.js:32 | the live document holds the loaded page, with distinct element identities, and `document.title` |
| Dom.LoadKeepsMarkup | backend/controllers/summary.controller.js:32 | numbering the elements on load changes nothing but adds identities: forgetting them gives back the page's markup |
| Dom.QuerySelectorAllMatch | backend/controllers/summary.controller.js:33-35 | every node `querySelectorAll` returns is an element that matches one of the selectors in the list |
| Dom.QuerySelectorFirst | backend/controllers/summary.controller.js:38-45 | `querySelector` finds an element exactly when `querySelectorAll` does, and that element is the first match in tree order |
| Dom.QuerySelectorAllInOrder | backend/controllers/summary.controller.js:33-35 | `querySelectorAll` is the list of all elements of the forest in tree order, keeping those the selector list matches |
| Dom.QuerySelectorAllComplete | backend/controllers/summary.controller.js:33-35 | an element is returned by `querySelectorAll` exactly when it is somewhere in the forest and matches |
| Dom.QuerySelectorInTreeOrder | backend/controllers/summary.controller.js:38-45 | `querySelector` returns `null` exactly when no element of the forest matches, and otherwise a matching element with no matching element before it in tree order |
| Dom.Document.RemoveMatching | backend/controllers/summary.controller.js:33-36 | removing each matched element in turn leaves exactly the pruned forest, and identities stay distinct |
| Dom.RemoveAllMatchedIsPrune | backend/controllers/summary.controller.js:36 | deleting all matched identities from a forest with distinct identities equals pruning every matched subtree |
| Dom.PruneLeavesNoMatch | backend/controllers/summary.controller.js:33-36 | after noise removal, nothing in the document matches the block list |
| Dom.PruneKeepsUnhidden | backend/controllers/summary.controller.js:33-36 | the elements left are exactly those with no matching ancestor-or-self, in their original order |
| Dom.PruneKeepsDistinct | backend/controllers/summary.controller.js:36 | removal keeps element identities distinct |
| Dom.PruneWithoutMatch | backend/controllers/summary.controller.js:33-36 | a page with nothing matching the block list is left unchanged |
| Dom.PruneIdempotent | backend/controllers/summary.controller.js:33-36 | removing the noise a second time changes nothing |
| Dom.FirstChildFound | backend/controllers/summary.controller.js:46 | the child lookup returns the first element child with a wanted tag, and nothing exactly when no child qualifies |
| Dom.BodyIsHtmlChild | backend/controllers/summary.controller.js:46 | `document.body`, when present, is a `body` or `frameset` element among the children of the document element, which is `html` |
| Dom.BodyFound | backend/controllers/summary.controller.js:46 | when the document element is `html` and has a `body` or `frameset` child, `document.body` is present and is the first such child |
| Dom.PruneKeepsFirstChild | backend/controllers/summary.controller.js:33-36 | when the document element does not match, it stays the document element after removal, with its children pruned |
| Dom.PruneRemovesBody | backend/controllers/summary.controller.js:33-46 | after removal an element has no `body` or `frameset` child exactly when every such child matched the block list |
| Extract.Evaluate | backend/controllers/summary.controller.js:32-49 | the callback prunes the live document in place, leaves no noise in it, and returns the title and content selected from what is left |
| Extract.FirstTruthySound | backend/controllers/summary.controller.js:38-46 | an `or` chain stops at one of its operands, a truthy one, and runs on to its final operand exactly when every earlier operand is falsy |
| Extract.FirstTruthyAt | backend/controllers/summary.controller.js:41-45 | an `or` chain stops at its first truthy operand |
| Extract.FirstTruthyConcat | backend/controllers/summary.controller.js:41-46 | operands after a truthy one are never consulted |
| Extract.CandidatesAt | backend/controllers/summary.controller.js:41-45 | the candidate regions are the first matches of `article`, `main`, `.post-content` and `.entry-content`, in that order |
| Extract.TitleFallback | backend/controllers/summary.controller.js:38-39 | the title is the trimmed `h1` text when that is non-empty and `document.title` otherwise; it is non-empty exactly when one of the two is |
| Extract.ContentFromCandidate | backend/controllers/summary.controller.js:41-45 | the first non-empty candidate region supplies the content, even when there is no body |
| Extract.ContentFromBody | backend/controllers/summary.controller.js:41-46 | with no non-empty region the body's text is the content, and the callback throws a `TypeError` exactly when there is no body |
| Extract.WhitespaceArticleWins | backend/controllers/summary.controller.js:41-54 | a whitespace-only `article` is truthy, so it beats every later region and the cleaned text is empty |
| Extract.NoisyBodyThrows | backend/controllers/summary.controller.js:33-46 | when the `html` document element survives noise removal, the body fallback is lost exactly when every `body` or `frameset` child matches the block list; then the callback throws unless a candidate region has text |
| Extract.AdBodyThrows | backend/controllers/summary.controller.js:33-46 | for the page `<html><body class="ad">hello</body></html>` with title `T`, noise removal takes the body and the callback throws |
| Prompt.Template.Fill | backend/controllers/summary.controller.js:56-106 | the prompt's length is the template's fixed text plus the title and the cleaned text |
| Prompt.SectionsPrefix | backend/controllers/summary.controller.js:69-94 | text found in the first `k` sections is found at the same place in every longer run of sections |
| Prompt.HeadingAt | backend/controllers/summary.controller.js:69-94 | in any filled well-formed template, the `k`-th heading occurs at its computed position |
| Prompt.HeadingEnds | backend/controllers/summary.controller.js:69-94 | each heading ends before the next heading begins |
| Prompt.FillTitle | backend/controllers/summary.controller.js:98 | in any filled template, the title label immediately followed by the title occurs at a position that does not depend on the title or the content |
| Prompt.FillContent | backend/controllers/summary.controller.js:98-101 | in any filled template, the content label immediately followed by the cleaned text occurs after the title |
| Prompt.HeadingsInOrder | backend/controllers/summary.controller.js:69-94 | the handler's prompt contains Overview, Key Points, Detailed Breakdown, Examples & Illustrations, Takeaways and Conclusion, each at its position and in that order |
| Prompt.HeadingsBeforeTitle | backend/controllers/summary.controller.js:69-98 | all six sections come before the article title |
| Prompt.TitleInPrompt | backend/controllers/summary.controller.js:98 | the handler's prompt contains `**Article Title:** ` followed by the page title |
| Prompt.ContentInPrompt | backend/controllers/summary.controller.js:100-101 | the handler's prompt contains the content label followed by the cleaned text, after the title |
| Controller.LoadAndEvaluate | backend/controllers/summary.controller.js:24-49 | opening the page and running the callback on its live document returns what the pure page function says |
| Controller.Server.GenerateSummary | backend/controllers/summary.controller.js:10-127 | the response, the effects appended to the trace and the records appended to the collection are those of the request's specification with the handler's template, and no browser stays open |
| Controller.Server.Handle | backend/controllers/summary.controller.js:10-127 | the same three results, for any well-formed template, with `page` the result the callback returns on the page |
| Controller.Server.AfterLaunchSteps | backend/controllers/summary.controller.js:24-121 | the steps between launch and `finally` (new page, user agent, navigation, the `page.evaluate` call and what follows) have the specified response and effects |
| Controller.Server.AfterEvaluateSteps | backend/controllers/summary.controller.js:51-121 | cleaning, prompt, model call, database write and reply have the specified response and effects |
| Controller.UrlRequiredFirst | backend/controllers/summary.controller.js:11-15 | the answer is 400 exactly when `url` is missing or empty; that answer has the `URL is required` body, no effects and no record |
| Controller.BrowserClosedOnce | backend/controllers/summary.controller.js:17-127 | the browser is closed exactly as often as it was launched (once when the URL is present and the launch succeeds, never otherwise); launching is the first effect and closing the last |
| Controller.SuccessPath | backend/controllers/summary.controller.js:108-121 | the answer is 200 exactly when every step succeeds; it then carries the stored record (URL, page title, model reply), after exactly launch, navigation, the model call with the filled prompt, the write and the close |
| Controller.FailurePath | backend/controllers/summary.controller.js:122-124 | when any step after the URL check throws, the answer is 500 with `success: false` and nothing is stored |
| Controller.StoreAfterInvoke | backend/controllers/summary.controller.js:108-116 | a record is stored at most once, right after the model call whose reply is its summary, and it is the record the request reports |

## Left out

- The model module's initialisation (`initChatModel` with its API key and temperature) is left out. The model is an outside service: `World.reply` gives its reply text, and `None` stands for a call that throws.
- The browser's launch options, the user-agent string, `networkidle2` and the 30-second navigation timeout are left out. The model only records whether each of those steps completes or throws. The same holds for a `page.evaluate` that the browser rejects (`World.evaluate`): its reasons are not modelled.
- How the browser fetches and renders the page is left out. The loaded page is given as markup in `World.markup`.
- `document.title` is taken as a given snapshot (`World.docTitle`) rather than derived from a `<title>` element.
- Selectors are modelled only as the tag and class selectors the handler uses, on lower-case tag names. CSS parsing and case folding are not modelled.
- The request's `url` is modelled as an optional string. Other JSON types in the request body are not modelled.
- The model's reply is modelled as a string. `summarizeText.content` as an array of message parts is not modelled.
- The structured-clone serialization of the callback's result is not modelled. The callback returns a record of two strings.
- TextNorm.CleanText: counts characters as Unicode scalar values, while `substring` counts UTF-16 code units. A character outside the Basic Multilingual Plane counts as one here and as two in the source, so the 7000 cut can fall later in text that holds such characters, and a cut between the two halves of a surrogate pair is not modelled.
- `console.log` output is left out because it has no effect on the response.
- A failure of `browser.close()` or of `res.json` itself is left out. Closing is modelled as always succeeding.
- Concurrent requests and the asynchronous scheduling of `await` are left out. One request runs at a time.
- The Mongoose `Summary` model and its validation are left out. `World.create` gives the identity the database assigns, and `None` stands for a write that throws.
- The stored `Record` has no `createdAt`/`updatedAt` fields, although the schema sets `timestamps: true`. The timestamps come from the clock, which is not modelled, so the record in the 200 reply does not include them.
- The other controller handlers (`getSummary`, `getSummaryById`, `deleteSummary`, `updateSummary`), the routes, the server set-up and the database connection are not part of this model.
- TextNorm.Substring: has no contract of its own. Its JavaScript clamping is stated through `Clamp` and the `CleanText` lemmas.
- Controller.Server.Handle: takes any well-formed template, but requires `page` to be what the callback returns on the page (`Scrape`). The lifecycle lemmas (`UrlRequiredFirst`, `BrowserClosedOnce`, `SuccessPath`, `FailurePath`, `StoreAfterInvoke`) hold for every page result. `GenerateSummary` instantiates `Handle` with the handler's template.
