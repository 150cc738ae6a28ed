/**
 * The `page.evaluate` callback: noise removal, then the title and main-content
 * fallback chains built from JavaScript's `||` and optional chaining.
 */
module Extract {
  import opened Options
  import opened TextNorm
  import opened Dom

  /** JavaScript truthiness of a string that may be `undefined`: only a present,
      non-empty string is truthy (a whitespace-only string is truthy too). */
  predicate Truthy(o: Option<string>) {
    o.Some? && o.value != ""
  }

  /** Where the chain `c0 || c1 || ... || cn` stops among the operands `c0 .. c(n-1)`:
      the first truthy one, or `None` when all of them are falsy. JavaScript then
      yields the last operand `cn` whatever it is; the callers supply that operand
      themselves (`document.title`, `document.body.textContent`). */
  function FirstTruthy(cands: seq<Option<string>>): Option<string> {
    if cands == [] then None
    else if Truthy(cands[0]) then cands[0]
    else FirstTruthy(cands[1..])
  }

  /** `document.querySelector(sels)?.textContent`. */
  function SelectedText(s: seq<Node>, sels: seq<Selector>): Option<string> {
    match QuerySelector(s, sels)
    case Some(e) => Some(NodeText(e))
    case None => None
  }

  /** `document.querySelector("h1")?.textContent?.trim()`. */
  function H1Text(s: seq<Node>): Option<string> {
    match SelectedText(s, [Tag("h1")])
    case Some(t) => Some(Trim(t))
    case None => None
  }

  /** The page title: the trimmed text of the first `h1` when that is non-empty,
      `document.title` otherwise. */
  function TitleOf(s: seq<Node>, docTitle: string): string {
    FirstTruthy([H1Text(s)]).GetOr(docTitle)
  }

  /** The content regions tried in order before falling back to the body. */
  const ContentSelectors: seq<Selector> :=
    [Tag("article"), Tag("main"), Class("post-content"), Class("entry-content")]

  /** The `?.textContent` of the first element matched by each selector, in order. */
  function Candidates(s: seq<Node>, sels: seq<Selector>): seq<Option<string>> {
    if sels == [] then []
    else [SelectedText(s, [sels[0]])] + Candidates(s, sels[1..])
  }

  /** The main content: the first truthy candidate region's text, else
      `document.body.textContent`, which throws a `TypeError` when there is no body. */
  function MainContent(s: seq<Node>): Result<string> {
    match FirstTruthy(Candidates(s, ContentSelectors))
    case Some(t) => Ok(t)
    case None =>
      match Body(s)
      case Some(b) => Ok(NodeText(b))
      case None => Err(TypeError)
  }

  /** What the callback returns to the controller: `{ title, mainContent }`. */
  datatype PageData = PageData(title: string, mainContent: string)

  /** The title and content read from a (noise-free) forest. */
  function SelectData(s: seq<Node>, docTitle: string): Result<PageData> {
    match MainContent(s)
    case Ok(c) => Ok(PageData(TitleOf(s, docTitle), c))
    case Err(e) => Err(e)
  }

  /** The whole callback on a freshly loaded page, as a function of its markup. */
  function Scrape(markup: seq<Markup>, docTitle: string): Result<PageData> {
    SelectData(Prune(Load(markup, 0).0, NoiseSelectors), docTitle)
  }

  /** Runs the callback against the live document: removes the noise in place, then
      reads the title and the main content from what is left. */
  method Evaluate(doc: Document) returns (r: Result<PageData>)
    requires doc.Valid()
    modifies doc
    ensures doc.Valid()
    ensures doc.nodes == Prune(old(doc.nodes), NoiseSelectors)
    ensures QuerySelectorAll(doc.nodes, NoiseSelectors) == []
    ensures r == SelectData(doc.nodes, doc.title)
  {
    doc.RemoveMatching(NoiseSelectors);
    PruneLeavesNoMatch(old(doc.nodes), NoiseSelectors);
    r := SelectData(doc.nodes, doc.title);
  }

  // ---------------------------------------------------------------------------
  // Lemmas about the `||` chain

  /** The chain stops at one of its operands, a truthy one, and runs past all of
      them exactly when every one is falsy. */
  lemma {:induction false} FirstTruthySound(cands: seq<Option<string>>)
    ensures FirstTruthy(cands).Some? ==> Truthy(FirstTruthy(cands)) && FirstTruthy(cands) in cands
    ensures FirstTruthy(cands).None? <==> forall i :: 0 <= i < |cands| ==> !Truthy(cands[i])
  {
    if cands != [] && !Truthy(cands[0]) {
      FirstTruthySound(cands[1..]);
      assert forall i :: 1 <= i < |cands| ==> cands[i] == cands[1..][i - 1];
    }
  }

  /** One candidate per selector, each the text of that selector's first match. */
  lemma {:induction false} CandidatesAt(s: seq<Node>, sels: seq<Selector>)
    ensures |Candidates(s, sels)| == |sels|
    ensures forall i :: 0 <= i < |sels| ==> Candidates(s, sels)[i] == SelectedText(s, [sels[i]])
  {
    if sels != [] {
      CandidatesAt(s, sels[1..]);
    }
  }

  /** The chain stops at the first truthy operand. */
  lemma {:induction false} FirstTruthyAt(cands: seq<Option<string>>, i: nat)
    requires i < |cands| && Truthy(cands[i])
    requires forall j :: 0 <= j < i ==> !Truthy(cands[j])
    ensures FirstTruthy(cands) == cands[i]
  {
    if i > 0 {
      assert !Truthy(cands[0]);
      FirstTruthyAt(cands[1..], i - 1);
    }
  }

  /** Operands after a truthy one are never consulted: appending any operands to a
      chain that already has a truthy operand leaves its value unchanged. */
  lemma {:induction false} FirstTruthyConcat(a: seq<Option<string>>, b: seq<Option<string>>)
    requires exists i :: 0 <= i < |a| && Truthy(a[i])
    ensures FirstTruthy(a + b) == FirstTruthy(a)
  {
    assert a != [];
    assert (a + b)[0] == a[0];
    if !Truthy(a[0]) {
      assert (a + b)[1..] == a[1..] + b;
      var i :| 0 <= i < |a| && Truthy(a[i]);
      assert Truthy(a[1..][i - 1]);
      FirstTruthyConcat(a[1..], b);
    }
  }

  // ---------------------------------------------------------------------------
  // Title and content fallback

  /** The title is the trimmed `h1` text when that is non-empty, `document.title`
      otherwise; it is non-empty exactly when one of the two is. */
  lemma TitleFallback(s: seq<Node>, docTitle: string)
    ensures Truthy(H1Text(s)) ==> TitleOf(s, docTitle) == H1Text(s).value
    ensures !Truthy(H1Text(s)) ==> TitleOf(s, docTitle) == docTitle
    ensures TitleOf(s, docTitle) != "" <==> Truthy(H1Text(s)) || docTitle != ""
    ensures Truthy(H1Text(s)) ==> Trimmed(TitleOf(s, docTitle))
  {
    assert [H1Text(s)][1..] == [];
    assert FirstTruthy([]) == None;
  }

  /** A candidate region that is the first non-empty one supplies the content,
      whatever follows it (including a missing body). */
  lemma ContentFromCandidate(s: seq<Node>, i: nat)
    requires i < |ContentSelectors|
    requires Truthy(SelectedText(s, [ContentSelectors[i]]))
    requires forall j :: 0 <= j < i ==> !Truthy(SelectedText(s, [ContentSelectors[j]]))
    ensures MainContent(s) == Ok(SelectedText(s, [ContentSelectors[i]]).value)
  {
    CandidatesAt(s, ContentSelectors);
    FirstTruthyAt(Candidates(s, ContentSelectors), i);
  }

  /** No candidate region has a non-empty text. */
  predicate NoRegion(s: seq<Node>) {
    forall j :: 0 <= j < |ContentSelectors| ==> !Truthy(SelectedText(s, [ContentSelectors[j]]))
  }

  /** With no non-empty candidate region the body's text is the content, and the
      callback throws exactly when there is no body. */
  lemma ContentFromBody(s: seq<Node>)
    requires forall j :: 0 <= j < |ContentSelectors| ==> !Truthy(SelectedText(s, [ContentSelectors[j]]))
    ensures Body(s).Some? ==> MainContent(s) == Ok(NodeText(Body(s).value))
    ensures Body(s).None? ==> MainContent(s) == Err(TypeError)
  {
    var c := Candidates(s, ContentSelectors);
    CandidatesAt(s, ContentSelectors);
    FirstTruthySound(c);
  }

  /** A whitespace-only `article` is truthy, so it wins over every later region, and
      the cleaned text built from it is empty. */
  lemma WhitespaceArticleWins(s: seq<Node>)
    requires SelectedText(s, [Tag("article")]).Some?
    requires SelectedText(s, [Tag("article")]).value != ""
    requires AllWhitespace(SelectedText(s, [Tag("article")]).value)
    ensures MainContent(s) == Ok(SelectedText(s, [Tag("article")]).value)
    ensures CleanText(MainContent(s).value) == ""
  {
    ContentFromCandidate(s, 0);
    NormalizeEmptyIff(SelectedText(s, [Tag("article")]).value);
  }

  /** A page whose `body` carries the class `ad` loses its body to noise removal, and
      with no candidate region left the body fallback throws. */
  lemma AdBodyThrows()
    ensures Scrape([MElement("html", [], [MElement("body", ["ad"], [MText("hello")])])], "T")
      == Err(TypeError)
  {
    AdPageLoads();
    AdPagePrunes();
    BareHtmlThrows();
  }

  /** On a page whose document element is an `html` element that survives noise
      removal, the body fallback is lost exactly when every `body` or `frameset`
      child of it matches the block list; then, unless a candidate region is left,
      the callback throws. */
  lemma NoisyBodyThrows(s: seq<Node>, docTitle: string)
    requires FirstChild(s, None).Some? && FirstChild(s, None).value.Element?
    requires FirstChild(s, None).value.tag == "html"
    requires !MatchesAny(NoiseSelectors, FirstChild(s, None).value)
    ensures var kids := FirstChild(s, None).value.children;
      Body(Prune(s, NoiseSelectors)).None? <==>
        forall i :: 0 <= i < |kids| && Qualifies(kids[i], Some(BodyTags)) ==> MatchesAny(NoiseSelectors, kids[i])
    ensures Body(Prune(s, NoiseSelectors)).None? && NoRegion(Prune(s, NoiseSelectors)) ==>
      SelectData(Prune(s, NoiseSelectors), docTitle) == Err(TypeError)
  {
    var h := FirstChild(s, None).value;
    PruneKeepsFirstChild(s, NoiseSelectors, h);
    PruneRemovesBody(h.children, NoiseSelectors);
    assert Body(Prune(s, NoiseSelectors)) == FirstChild(Prune(h.children, NoiseSelectors), Some(BodyTags));
    if NoRegion(Prune(s, NoiseSelectors)) {
      ContentFromBody(Prune(s, NoiseSelectors));
    }
  }

  lemma AdPageLoads()
    ensures Load([MElement("html", [], [MElement("body", ["ad"], [MText("hello")])])], 0).0
      == [Element(0, "html", [], [Element(1, "body", ["ad"], [Text("hello")])])]
  {
    var body := Element(1, "body", ["ad"], [Text("hello")]);
    var mb := [MElement("body", ["ad"], [MText("hello")])];
    var m := [MElement("html", [], mb)];
    assert m[1..] == [] && mb[1..] == [] && [MText("hello")][1..] == [];
    assert Load([], 2) == ([], 2);
    assert [Text("hello")] + [] == [Text("hello")];
    assert Load([MText("hello")], 2) == ([Text("hello")], 2);
    assert [body] + [] == [body];
    assert Load(mb, 1) == ([body], 2);
  }

  lemma AdPagePrunes()
    ensures Prune([Element(0, "html", [], [Element(1, "body", ["ad"], [Text("hello")])])], NoiseSelectors)
      == [Element(0, "html", [], [])]
  {
    var body := Element(1, "body", ["ad"], [Text("hello")]);
    var html := Element(0, "html", [], [body]);
    assert Matches(NoiseSelectors[6], body);
    assert [body][1..] == [] && [html][1..] == [];
    assert Prune([body], NoiseSelectors) == [];
    HtmlIsNotNoise(html);
    assert Prune([html], NoiseSelectors) == [html.(children := [])] + [];
  }

  lemma HtmlIsNotNoise(html: Node)
    requires html.Element? && html.tag == "html" && html.classes == []
    ensures !MatchesAny(NoiseSelectors, html)
  {
    forall i | 0 <= i < |NoiseSelectors|
      ensures !Matches(NoiseSelectors[i], html)
    {
    }
  }

  lemma BareHtmlThrows()
    ensures SelectData([Element(0, "html", [], [])], "T") == Err(TypeError)
  {
    BareHtmlNoRegion();
    BareHtmlNoBody();
  }

  lemma BareHtmlNoRegion()
    ensures FirstTruthy(Candidates([Element(0, "html", [], [])], ContentSelectors)) == None
  {
    var s := [Element(0, "html", [], [])];
    var c := Candidates(s, ContentSelectors);
    CandidatesAt(s, ContentSelectors);
    forall i | 0 <= i < |ContentSelectors|
      ensures c[i] == None
    {
      BareHtmlHasNo(ContentSelectors[i]);
    }
    FirstTruthySound(c);
  }

  lemma BareHtmlNoBody()
    ensures Body([Element(0, "html", [], [])]) == None
  {
    assert FirstChild([Element(0, "html", [], [])], None) == Some(Element(0, "html", [], []));
    assert FirstChild([], Some(BodyTags)) == None;
  }

  lemma BareHtmlHasNo(sel: Selector)
    requires sel != Tag("html")
    ensures SelectedText([Element(0, "html", [], [])], [sel]) == None
  {
    var s := [Element(0, "html", [], [])];
    assert !Matches([sel][0], s[0]);
    assert s[1..] == [];
    assert QuerySelectorAll(s, [sel]) == [];
  }
}
