/**
 * The rendered page as the `page.evaluate` callback sees it: a forest of DOM nodes,
 * simple selectors, `querySelector`/`querySelectorAll`, `textContent`, and the
 * in-place removal of every element matched by the noise block-list.
 */
module Dom {
  import opened Options

  /** The page's markup as parsed, before the browser gives its elements an identity. */
  datatype Markup =
    | MText(text: string)
    | MElement(tag: string, classes: seq<string>, children: seq<Markup>)

  /** A live DOM node: a text node, or an element whose `id` is its object identity,
      distinct within a document. */
  datatype Node =
    | Text(text: string)
    | Element(id: nat, tag: string, classes: seq<string>, children: seq<Node>)

  /** A simple selector: a (lower-case) tag name such as `nav`, or a class such as `.ad`. */
  datatype Selector = Tag(name: string) | Class(name: string)

  predicate Matches(sel: Selector, e: Node) {
    e.Element? &&
    match sel
    case Tag(t) => e.tag == t
    case Class(c) => c in e.classes
  }

  /** A selector list `a, b, c` matches an element that any of its selectors matches. */
  predicate MatchesAny(sels: seq<Selector>, e: Node) {
    exists i :: 0 <= i < |sels| && Matches(sels[i], e)
  }

  /** The block-list `script, style, nav, header, footer, .advertisement, .ad`. */
  const NoiseSelectors: seq<Selector> :=
    [Tag("script"), Tag("style"), Tag("nav"), Tag("header"), Tag("footer"),
     Class("advertisement"), Class("ad")]

  // ---------------------------------------------------------------------------
  // Reading the tree

  /** `textContent`: the text of every descendant text node, in tree order. */
  function TextContent(s: seq<Node>): string {
    if s == [] then []
    else
      (match s[0]
       case Text(t) => t
       case Element(_, _, _, kids) => TextContent(kids))
      + TextContent(s[1..])
  }

  /** `node.textContent`: a text node's own text, or the text of an element's descendants. */
  function NodeText(n: Node): string {
    match n
    case Text(t) => t
    case Element(_, _, _, kids) => TextContent(kids)
  }

  /** `querySelectorAll(sels)`: every element of the forest that the selector list
      matches, in tree order (pre-order). */
  function QuerySelectorAll(s: seq<Node>, sels: seq<Selector>): seq<Node> {
    if s == [] then []
    else
      (match s[0]
       case Text(_) => []
       case Element(_, _, _, kids) =>
         (if MatchesAny(sels, s[0]) then [s[0]] else []) + QuerySelectorAll(kids, sels))
      + QuerySelectorAll(s[1..], sels)
  }

  /** `querySelector(sels)`: the first element in tree order that matches, or `null`. */
  function QuerySelector(s: seq<Node>, sels: seq<Selector>): Option<Node> {
    var all := QuerySelectorAll(s, sels);
    if all == [] then None else Some(all[0])
  }

  /** A node is an element whose tag is among `tags`, or any element when `tags` is
      `None`. */
  predicate Qualifies(n: Node, tags: Option<set<string>>) {
    n.Element? && (tags.None? || n.tag in tags.value)
  }

  /** The first element among the nodes `s` themselves (not their descendants) that
      qualifies. */
  function FirstChild(s: seq<Node>, tags: Option<set<string>>): Option<Node> {
    if s == [] then None
    else if Qualifies(s[0], tags) then Some(s[0])
    else FirstChild(s[1..], tags)
  }

  /** The tags of the element `document.body` designates. */
  const BodyTags: set<string> := {"body", "frameset"}

  /** `document.body`: the first `body` or `frameset` child of the document element,
      provided the document element is an `html` element; `null` otherwise. */
  function Body(doc: seq<Node>): Option<Node> {
    match FirstChild(doc, None)
    case Some(Element(_, tag, _, kids)) => if tag == "html" then FirstChild(kids, Some(BodyTags)) else None
    case _ => None
  }

  /** Every element of the forest in tree order: each element before its descendants,
      and its descendants before its later siblings. */
  function Elements(s: seq<Node>): seq<Node> {
    if s == [] then []
    else
      (match s[0]
       case Text(_) => []
       case Element(_, _, _, kids) => [s[0]] + Elements(kids))
      + Elements(s[1..])
  }

  /** The nodes of `es` the selector list matches, in their order in `es`. */
  function Matching(es: seq<Node>, sels: seq<Selector>): seq<Node> {
    if es == [] then []
    else (if MatchesAny(sels, es[0]) then [es[0]] else []) + Matching(es[1..], sels)
  }

  /** The identities of the elements in a list of nodes. */
  function IdsOf(es: seq<Node>): set<nat> {
    if es == [] then {}
    else (if es[0].Element? then {es[0].id} else {}) + IdsOf(es[1..])
  }

  /** The identities of all elements in a forest. */
  function IdSet(s: seq<Node>): set<nat> {
    if s == [] then {}
    else
      (match s[0]
       case Text(_) => {}
       case Element(id, _, _, kids) => {id} + IdSet(kids))
      + IdSet(s[1..])
  }

  /** The pre-order list of element identities: the order `querySelectorAll` reports. */
  function IdList(s: seq<Node>): seq<nat> {
    if s == [] then []
    else
      (match s[0]
       case Text(_) => []
       case Element(id, _, _, kids) => [id] + IdList(kids))
      + IdList(s[1..])
  }

  /** No two elements of the forest share an identity. */
  ghost predicate Distinct(s: seq<Node>) {
    s == [] ||
    (Distinct(s[1..]) &&
     match s[0]
     case Text(_) => true
     case Element(id, _, _, kids) =>
       Distinct(kids) && id !in IdSet(kids) && id !in IdSet(s[1..]) &&
       IdSet(kids) !! IdSet(s[1..]))
  }

  // ---------------------------------------------------------------------------
  // Loading and changing the tree

  /** The browser builds the DOM from the markup, giving the elements the identities
      `next, next + 1, ...` in tree order; `r.1` is the first identity left unused. */
  function Load(m: seq<Markup>, next: nat): (r: (seq<Node>, nat))
    ensures next <= r.1
    ensures forall x :: x in IdSet(r.0) ==> next <= x < r.1
    ensures Distinct(r.0)
  {
    if m == [] then ([], next)
    else
      match m[0]
      case MText(t) =>
        var (rest, n) := Load(m[1..], next);
        var s := [Text(t)] + rest;
        assert s[1..] == rest;
        (s, n)
      case MElement(tag, classes, kids) =>
        var (children, n1) := Load(kids, next + 1);
        var (rest, n2) := Load(m[1..], n1);
        var s := [Element(next, tag, classes, children)] + rest;
        assert s[1..] == rest;
        (s, n2)
  }

  /** The markup a forest was built from: the forest without identities. */
  function Unload(s: seq<Node>): seq<Markup> {
    if s == [] then []
    else
      [match s[0]
       case Text(t) => MText(t)
       case Element(_, tag, classes, kids) => MElement(tag, classes, Unload(kids))]
      + Unload(s[1..])
  }

  /** The forest with every subtree whose root the selector list matches taken out:
      what the noise removal leaves behind. */
  function Prune(s: seq<Node>, sels: seq<Selector>): seq<Node> {
    if s == [] then []
    else
      (match s[0]
       case Text(_) => [s[0]]
       case Element(_, _, _, kids) =>
         if MatchesAny(sels, s[0]) then [] else [s[0].(children := Prune(kids, sels))])
      + Prune(s[1..], sels)
  }

  /** `el.remove()`: detaches the element with identity `id` (with its subtree); a
      no-op when it is no longer in the tree. */
  function Remove(s: seq<Node>, id: nat): seq<Node> {
    RemoveAll(s, {id})
  }

  /** The forest with every element whose identity is in `ids` detached. */
  function RemoveAll(s: seq<Node>, ids: set<nat>): seq<Node> {
    if s == [] then []
    else
      (match s[0]
       case Text(_) => [s[0]]
       case Element(id, _, _, kids) =>
         if id in ids then [] else [s[0].(children := RemoveAll(kids, ids))])
      + RemoveAll(s[1..], ids)
  }

  /** The identities, in tree order, of the elements that neither match nor lie under
      an element that matches; `hidden` says whether an ancestor already matched. */
  function Unhidden(s: seq<Node>, sels: seq<Selector>, hidden: bool): seq<nat> {
    if s == [] then []
    else
      (match s[0]
       case Text(_) => []
       case Element(id, _, _, kids) =>
         var h := hidden || MatchesAny(sels, s[0]);
         (if h then [] else [id]) + Unhidden(kids, sels, h))
      + Unhidden(s[1..], sels, hidden)
  }

  /** The document of one page: its node forest, which noise removal changes in place,
      and `document.title`. */
  class Document {
    var nodes: seq<Node>
    const title: string

    ghost predicate Valid()
      reads this
    {
      Distinct(nodes)
    }

    /** The document the browser builds from the page's markup and title. */
    constructor (markup: seq<Markup>, title: string)
      ensures Valid()
      ensures nodes == Load(markup, 0).0 && this.title == title
    {
      nodes := Load(markup, 0).0;
      this.title := title;
    }

    /** Noise removal on the live document: collects the
        matching elements in tree order, then detaches each one in turn. */
    method RemoveMatching(sels: seq<Selector>)
      requires Valid()
      modifies this
      ensures Valid()
      ensures nodes == Prune(old(nodes), sels)
    {
      var matched := QuerySelectorAll(nodes, sels);
      QuerySelectorAllMatch(nodes, sels);
      RemoveNothing(nodes);
      var k := 0;
      while k < |matched|
        invariant 0 <= k <= |matched|
        invariant nodes == RemoveAll(old(nodes), IdsOf(matched[..k]))
      {
        var el := matched[k];
        assert el in matched;
        RemoveStep(old(nodes), matched, k);
        nodes := Remove(nodes, el.id);
        k := k + 1;
      }
      assert matched[..k] == matched;
      RemoveAllMatchedIsPrune(old(nodes), sels);
    }
  }

  // ---------------------------------------------------------------------------
  // Lemmas

  lemma {:induction false} QuerySelectorAllMatch(s: seq<Node>, sels: seq<Selector>)
    ensures forall e :: e in QuerySelectorAll(s, sels) ==> e.Element? && MatchesAny(sels, e)
  {
    if s != [] {
      QuerySelectorAllMatch(s[1..], sels);
      if s[0].Element? {
        QuerySelectorAllMatch(s[0].children, sels);
      }
    }
  }

  /** `querySelector` finds a matching element exactly when `querySelectorAll` finds
      any, and then it is the first of them in tree order. */
  lemma QuerySelectorFirst(s: seq<Node>, sels: seq<Selector>)
    ensures QuerySelector(s, sels).Some? <==> exists e :: e in QuerySelectorAll(s, sels)
    ensures QuerySelector(s, sels).Some? ==>
      QuerySelector(s, sels).value == QuerySelectorAll(s, sels)[0] &&
      QuerySelector(s, sels).value.Element? && MatchesAny(sels, QuerySelector(s, sels).value)
  {
    QuerySelectorAllMatch(s, sels);
    if QuerySelectorAll(s, sels) != [] {
      var e := QuerySelectorAll(s, sels)[0];
      assert QuerySelector(s, sels) == Some(e);
      assert e in QuerySelectorAll(s, sels);
    }
  }

  /** The element `FirstChild` picks is one of the nodes and qualifies, and no
      earlier node qualifies; it picks none exactly when no node qualifies. */
  lemma {:induction false} FirstChildFound(s: seq<Node>, tags: Option<set<string>>)
    ensures FirstChild(s, tags).Some? ==>
      exists i :: 0 <= i < |s| && s[i] == FirstChild(s, tags).value && Qualifies(s[i], tags) &&
        forall j :: 0 <= j < i ==> !Qualifies(s[j], tags)
    ensures FirstChild(s, tags).None? <==> forall j :: 0 <= j < |s| ==> !Qualifies(s[j], tags)
  {
    if s != [] && !Qualifies(s[0], tags) {
      FirstChildFound(s[1..], tags);
      if FirstChild(s, tags).Some? {
        var i :| 0 <= i < |s[1..]| && s[1..][i] == FirstChild(s, tags).value && Qualifies(s[1..][i], tags) &&
          forall j :: 0 <= j < i ==> !Qualifies(s[1..][j], tags);
        assert s[i + 1] == s[1..][i];
        forall j | 0 <= j < i + 1
          ensures !Qualifies(s[j], tags)
        {
          if j > 0 { assert s[j] == s[1..][j - 1]; }
        }
      } else {
        forall j | 0 <= j < |s|
          ensures !Qualifies(s[j], tags)
        {
          if j > 0 { assert s[j] == s[1..][j - 1]; }
        }
      }
    }
  }

  /** `document.body` is a `body` or `frameset` element among the children of the
      document element, which is the first element of the document and an `html`
      element. */
  lemma BodyIsHtmlChild(s: seq<Node>)
    ensures Body(s).Some? ==>
      FirstChild(s, None).Some? && FirstChild(s, None).value.Element? &&
      FirstChild(s, None).value.tag == "html" &&
      Body(s).value in FirstChild(s, None).value.children &&
      Body(s).value.Element? && Body(s).value.tag in BodyTags
  {
    FirstChildFound(s, None);
    if FirstChild(s, None).Some? && FirstChild(s, None).value.Element? {
      FirstChildFound(FirstChild(s, None).value.children, Some(BodyTags));
    }
  }

  /** Conversely, when the document element is `html` and has a `body` or `frameset`
      child, `document.body` is the first such child. */
  lemma BodyFound(s: seq<Node>, h: Node)
    requires FirstChild(s, None) == Some(h) && h.Element? && h.tag == "html"
    requires exists i :: 0 <= i < |h.children| && Qualifies(h.children[i], Some(BodyTags))
    ensures Body(s).Some?
    ensures
      exists i :: 0 <= i < |h.children| && h.children[i] == Body(s).value &&
        Qualifies(h.children[i], Some(BodyTags)) &&
        forall j :: 0 <= j < i ==> !Qualifies(h.children[j], Some(BodyTags))
  {
    FirstChildFound(h.children, Some(BodyTags));
  }

  /** `Matching` keeps exactly the matching nodes. */
  lemma {:induction false} MatchingMembers(es: seq<Node>, sels: seq<Selector>)
    ensures forall e :: e in Matching(es, sels) <==> e in es && MatchesAny(sels, e)
  {
    if es != [] {
      MatchingMembers(es[1..], sels);
      assert es == [es[0]] + es[1..];
    }
  }

  /** `Matching` distributes over concatenation. */
  lemma {:induction false} MatchingConcat(a: seq<Node>, b: seq<Node>, sels: seq<Selector>)
    ensures Matching(a + b, sels) == Matching(a, sels) + Matching(b, sels)
  {
    if a == [] {
      assert a + b == b;
    } else {
      var h := if MatchesAny(sels, a[0]) then [a[0]] else [];
      assert (a + b)[0] == a[0];
      assert (a + b)[1..] == a[1..] + b;
      calc {
        Matching(a + b, sels);
        h + Matching(a[1..] + b, sels);
        { MatchingConcat(a[1..], b, sels); }
        h + (Matching(a[1..], sels) + Matching(b, sels));
        h + Matching(a[1..], sels) + Matching(b, sels);
      }
    }
  }

  /** The first node `Matching` keeps is the first node of `es` that matches. */
  lemma {:induction false} MatchingFirst(es: seq<Node>, sels: seq<Selector>)
    ensures Matching(es, sels) == [] <==> forall i :: 0 <= i < |es| ==> !MatchesAny(sels, es[i])
    ensures Matching(es, sels) != [] ==>
      exists i :: 0 <= i < |es| && es[i] == Matching(es, sels)[0] && MatchesAny(sels, es[i]) &&
        forall j :: 0 <= j < i ==> !MatchesAny(sels, es[j])
  {
    if es != [] && !MatchesAny(sels, es[0]) {
      MatchingFirst(es[1..], sels);
      if Matching(es, sels) != [] {
        var i :| 0 <= i < |es[1..]| && es[1..][i] == Matching(es, sels)[0] && MatchesAny(sels, es[1..][i]) &&
          forall j :: 0 <= j < i ==> !MatchesAny(sels, es[1..][j]);
        assert es[i + 1] == es[1..][i];
        forall j | 0 <= j < i + 1
          ensures !MatchesAny(sels, es[j])
        {
          if j > 0 { assert es[j] == es[1..][j - 1]; }
        }
      } else {
        forall j | 0 <= j < |es|
          ensures !MatchesAny(sels, es[j])
        {
          if j > 0 { assert es[j] == es[1..][j - 1]; }
        }
      }
    }
  }

  /** `querySelectorAll` returns exactly the elements of the forest that match, in
      tree order. */
  lemma {:induction false} QuerySelectorAllInOrder(s: seq<Node>, sels: seq<Selector>)
    ensures QuerySelectorAll(s, sels) == Matching(Elements(s), sels)
  {
    if s != [] {
      QuerySelectorAllInOrder(s[1..], sels);
      match s[0]
      case Text(_) =>
        assert QuerySelectorAll(s, sels) == [] + QuerySelectorAll(s[1..], sels) == QuerySelectorAll(s[1..], sels);
        assert Elements(s) == [] + Elements(s[1..]) == Elements(s[1..]);
      case Element(_, _, _, kids) =>
        QuerySelectorAllInOrder(kids, sels);
        MatchingConcat([s[0]] + Elements(kids), Elements(s[1..]), sels);
        MatchingConcat([s[0]], Elements(kids), sels);
        assert [s[0]][1..] == [];
    }
  }

  /** Every element anywhere in the forest that matches is returned by
      `querySelectorAll`, and nothing else is. */
  lemma QuerySelectorAllComplete(s: seq<Node>, sels: seq<Selector>)
    ensures forall e :: e in QuerySelectorAll(s, sels) <==> e in Elements(s) && MatchesAny(sels, e)
  {
    QuerySelectorAllInOrder(s, sels);
    MatchingMembers(Elements(s), sels);
  }

  /** `querySelector` returns the first element of the forest in tree order that
      matches, and `null` exactly when no element matches. */
  lemma QuerySelectorInTreeOrder(s: seq<Node>, sels: seq<Selector>)
    ensures QuerySelector(s, sels).None? <==>
      forall i :: 0 <= i < |Elements(s)| ==> !MatchesAny(sels, Elements(s)[i])
    ensures QuerySelector(s, sels).Some? ==>
      exists i :: 0 <= i < |Elements(s)| && Elements(s)[i] == QuerySelector(s, sels).value &&
        MatchesAny(sels, Elements(s)[i]) &&
        forall j :: 0 <= j < i ==> !MatchesAny(sels, Elements(s)[j])
  {
    QuerySelectorAllInOrder(s, sels);
    MatchingFirst(Elements(s), sels);
  }

  lemma {:induction false} IdsOfConcat(a: seq<Node>, b: seq<Node>)
    ensures IdsOf(a + b) == IdsOf(a) + IdsOf(b)
  {
    if a != [] {
      assert (a + b)[0] == a[0];
      assert (a + b)[1..] == a[1..] + b;
      IdsOfConcat(a[1..], b);
    } else {
      assert a + b == b;
    }
  }

  lemma {:induction false} IdSetConcat(a: seq<Node>, b: seq<Node>)
    ensures IdSet(a + b) == IdSet(a) + IdSet(b)
  {
    if a != [] {
      assert (a + b)[0] == a[0];
      assert (a + b)[1..] == a[1..] + b;
      IdSetConcat(a[1..], b);
    } else {
      assert a + b == b;
    }
  }

  lemma {:induction false} IdListConcat(a: seq<Node>, b: seq<Node>)
    ensures IdList(a + b) == IdList(a) + IdList(b)
  {
    if a != [] {
      assert (a + b)[0] == a[0];
      assert (a + b)[1..] == a[1..] + b;
      IdListConcat(a[1..], b);
    } else {
      assert a + b == b;
    }
  }

  lemma {:induction false} QsaConcat(a: seq<Node>, b: seq<Node>, sels: seq<Selector>)
    ensures QuerySelectorAll(a + b, sels) == QuerySelectorAll(a, sels) + QuerySelectorAll(b, sels)
  {
    if a != [] {
      assert (a + b)[0] == a[0];
      assert (a + b)[1..] == a[1..] + b;
      QsaConcat(a[1..], b, sels);
    } else {
      assert a + b == b;
    }
  }

  lemma {:induction false} PruneConcat(a: seq<Node>, b: seq<Node>, sels: seq<Selector>)
    ensures Prune(a + b, sels) == Prune(a, sels) + Prune(b, sels)
  {
    if a != [] {
      assert (a + b)[0] == a[0];
      assert (a + b)[1..] == a[1..] + b;
      PruneConcat(a[1..], b, sels);
    } else {
      assert a + b == b;
    }
  }

  lemma {:induction false} RemoveAllConcat(a: seq<Node>, b: seq<Node>, ids: set<nat>)
    ensures RemoveAll(a + b, ids) == RemoveAll(a, ids) + RemoveAll(b, ids)
  {
    if a != [] {
      assert (a + b)[0] == a[0];
      assert (a + b)[1..] == a[1..] + b;
      RemoveAllConcat(a[1..], b, ids);
    } else {
      assert a + b == b;
    }
  }

  /** What each forest function gives on a one-node forest. */
  lemma Single(h: Node, sels: seq<Selector>, ids: set<nat>)
    ensures IdsOf([h]) == if h.Element? then {h.id} else {}
    ensures IdSet([h]) == if h.Element? then {h.id} + IdSet(h.children) else {}
    ensures IdList([h]) == if h.Element? then [h.id] + IdList(h.children) else []
    ensures QuerySelectorAll([h], sels) ==
      if h.Text? then []
      else (if MatchesAny(sels, h) then [h] else []) + QuerySelectorAll(h.children, sels)
    ensures Prune([h], sels) ==
      if h.Text? then [h]
      else if MatchesAny(sels, h) then []
      else [h.(children := Prune(h.children, sels))]
    ensures RemoveAll([h], ids) ==
      if h.Text? then [h]
      else if h.id in ids then []
      else [h.(children := RemoveAll(h.children, ids))]
    ensures Unhidden([h], sels, false) ==
      if h.Text? then []
      else (if MatchesAny(sels, h) then [] else [h.id]) + Unhidden(h.children, sels, MatchesAny(sels, h))
  {
    assert [h][1..] == [];
    if h.Element? {
      var p := if MatchesAny(sels, h) then [] else [h.(children := Prune(h.children, sels))];
      assert p + [] == p;
      var q := if h.id in ids then [] else [h.(children := RemoveAll(h.children, ids))];
      assert q + [] == q;
    }
  }

  lemma {:induction false} RemoveNothing(s: seq<Node>)
    ensures RemoveAll(s, {}) == s
  {
    if s != [] {
      var h := s[0];
      assert s == [h] + s[1..];
      RemoveAllConcat([h], s[1..], {});
      Single(h, [], {});
      RemoveNothing(s[1..]);
      if h.Element? {
        RemoveNothing(h.children);
        assert h.(children := h.children) == h;
      }
    }
  }

  /** The matched identities all belong to the forest. */
  lemma {:induction false} MatchedIdsWithin(s: seq<Node>, sels: seq<Selector>)
    ensures IdsOf(QuerySelectorAll(s, sels)) <= IdSet(s)
  {
    if s != [] {
      var h := s[0];
      assert s == [h] + s[1..];
      QsaConcat([h], s[1..], sels);
      IdSetConcat([h], s[1..]);
      Single(h, sels, {});
      IdsOfConcat(QuerySelectorAll([h], sels), QuerySelectorAll(s[1..], sels));
      MatchedIdsWithin(s[1..], sels);
      if h.Element? {
        MatchedIdsWithin(h.children, sels);
        var own: seq<Node> := if MatchesAny(sels, h) then [h] else [];
        IdsOfConcat(own, QuerySelectorAll(h.children, sels));
      }
    }
  }

  /** Detaching one more element extends the set of detached identities. */
  lemma {:induction false} RemoveAfterRemoveAll(s: seq<Node>, ids: set<nat>, id: nat)
    ensures Remove(RemoveAll(s, ids), id) == RemoveAll(s, ids + {id})
  {
    if s != [] {
      var h := s[0];
      assert s == [h] + s[1..];
      RemoveAllConcat([h], s[1..], ids);
      RemoveAllConcat([h], s[1..], ids + {id});
      RemoveAllConcat(RemoveAll([h], ids), RemoveAll(s[1..], ids), {id});
      RemoveAfterRemoveAll(s[1..], ids, id);
      Single(h, [], ids);
      Single(h, [], ids + {id});
      if h.Element? && h.id !in ids {
        RemoveAfterRemoveAll(h.children, ids, id);
        Single(h.(children := RemoveAll(h.children, ids)), [], {id});
      } else if h.Text? {
        Single(h, [], {id});
      }
    }
  }

  /** The matched identities of a forest `[h] + rest` with distinct identities split
      into those of `h` itself, of its children and of `rest`. */
  lemma MatchedIdsSplit(h: Node, rest: seq<Node>, sels: seq<Selector>, ids: set<nat>)
    requires Distinct([h] + rest)
    requires ids * IdSet([h] + rest) == IdsOf(QuerySelectorAll([h] + rest, sels))
    ensures ids * IdSet(rest) == IdsOf(QuerySelectorAll(rest, sels))
    ensures h.Element? ==> ids * IdSet(h.children) == IdsOf(QuerySelectorAll(h.children, sels))
    ensures h.Element? ==> (h.id in ids <==> MatchesAny(sels, h))
  {
    assert ([h] + rest)[0] == h && ([h] + rest)[1..] == rest;
    MatchedIdsWithin(rest, sels);
    QsaConcat([h], rest, sels);
    IdSetConcat([h], rest);
    Single(h, sels, ids);
    IdsOfConcat(QuerySelectorAll([h], sels), QuerySelectorAll(rest, sels));
    if h.Element? {
      MatchedIdsWithin(h.children, sels);
      var own: seq<Node> := if MatchesAny(sels, h) then [h] else [];
      IdsOfConcat(own, QuerySelectorAll(h.children, sels));
    }
  }

  /** Detaching exactly the matched elements of a forest with distinct identities is
      the same as pruning the matched subtrees. */
  lemma {:induction false} RemoveMatchedIsPrune(s: seq<Node>, sels: seq<Selector>, ids: set<nat>)
    requires Distinct(s)
    requires ids * IdSet(s) == IdsOf(QuerySelectorAll(s, sels))
    ensures RemoveAll(s, ids) == Prune(s, sels)
  {
    if s != [] {
      var h, rest := s[0], s[1..];
      assert s == [h] + rest;
      MatchedIdsSplit(h, rest, sels, ids);
      PruneConcat([h], rest, sels);
      RemoveAllConcat([h], rest, ids);
      Single(h, sels, ids);
      if h.Element? {
        RemoveMatchedIsPrune(h.children, sels, ids);
      }
      RemoveMatchedIsPrune(rest, sels, ids);
    }
  }

  /** Detaching the next element of a list of elements extends what has been
      detached so far by that element's identity. */
  lemma RemoveStep(s: seq<Node>, es: seq<Node>, k: nat)
    requires k < |es| && es[k].Element?
    ensures Remove(RemoveAll(s, IdsOf(es[..k])), es[k].id) == RemoveAll(s, IdsOf(es[..k + 1]))
  {
    var e := es[k];
    assert [e][1..] == [];
    assert IdsOf([e]) == {e.id};
    assert es[..k + 1] == es[..k] + [e];
    IdsOfConcat(es[..k], [e]);
    RemoveAfterRemoveAll(s, IdsOf(es[..k]), e.id);
  }

  /** Detaching every matched element of a forest with distinct identities prunes
      it, and the result still has distinct identities. */
  lemma RemoveAllMatchedIsPrune(s: seq<Node>, sels: seq<Selector>)
    requires Distinct(s)
    ensures RemoveAll(s, IdsOf(QuerySelectorAll(s, sels))) == Prune(s, sels)
    ensures Distinct(Prune(s, sels))
  {
    MatchedIdsWithin(s, sels);
    RemoveMatchedIsPrune(s, sels, IdsOf(QuerySelectorAll(s, sels)));
    PruneKeepsDistinct(s, sels);
  }

  /** Pruning never introduces an identity. */
  lemma {:induction false} PruneIdsWithin(s: seq<Node>, sels: seq<Selector>)
    ensures IdSet(Prune(s, sels)) <= IdSet(s)
  {
    if s != [] {
      var h := s[0];
      assert s == [h] + s[1..];
      PruneConcat([h], s[1..], sels);
      IdSetConcat([h], s[1..]);
      IdSetConcat(Prune([h], sels), Prune(s[1..], sels));
      Single(h, sels, {});
      PruneIdsWithin(s[1..], sels);
      if h.Element? && !MatchesAny(sels, h) {
        PruneIdsWithin(h.children, sels);
        Single(h.(children := Prune(h.children, sels)), sels, {});
      } else if h.Text? {
        IdSetConcat([h], Prune(s[1..], sels));
      }
    }
  }

  lemma {:induction false} PruneKeepsDistinct(s: seq<Node>, sels: seq<Selector>)
    requires Distinct(s)
    ensures Distinct(Prune(s, sels))
  {
    if s != [] {
      var h, rest := s[0], Prune(s[1..], sels);
      assert s == [h] + s[1..];
      PruneConcat([h], s[1..], sels);
      Single(h, sels, {});
      PruneKeepsDistinct(s[1..], sels);
      PruneIdsWithin(s[1..], sels);
      if h.Text? || !MatchesAny(sels, h) {
        var h' := if h.Text? then h else h.(children := Prune(h.children, sels));
        if h.Element? {
          PruneKeepsDistinct(h.children, sels);
          PruneIdsWithin(h.children, sels);
        }
        assert Prune(s, sels) == [h'] + rest;
        assert ([h'] + rest)[1..] == rest;
      } else {
        assert Prune(s, sels) == rest;
      }
    }
  }

  /** After noise removal no remaining element matches the block-list. */
  lemma {:induction false} PruneLeavesNoMatch(s: seq<Node>, sels: seq<Selector>)
    ensures QuerySelectorAll(Prune(s, sels), sels) == []
  {
    if s != [] {
      var h := s[0];
      assert s == [h] + s[1..];
      PruneConcat([h], s[1..], sels);
      QsaConcat(Prune([h], sels), Prune(s[1..], sels), sels);
      Single(h, sels, {});
      PruneLeavesNoMatch(s[1..], sels);
      if h.Element? && !MatchesAny(sels, h) {
        PruneLeavesNoMatch(h.children, sels);
        Single(h.(children := Prune(h.children, sels)), sels, {});
      } else if h.Text? {
        Single(h, sels, {});
      }
    }
  }

  /** A forest in which nothing matches is left exactly as it was. */
  lemma {:induction false} PruneWithoutMatch(s: seq<Node>, sels: seq<Selector>)
    requires QuerySelectorAll(s, sels) == []
    ensures Prune(s, sels) == s
  {
    if s != [] {
      var h := s[0];
      assert s == [h] + s[1..];
      QsaConcat([h], s[1..], sels);
      PruneConcat([h], s[1..], sels);
      Single(h, sels, {});
      PruneWithoutMatch(s[1..], sels);
      if h.Element? {
        PruneWithoutMatch(h.children, sels);
        assert h.(children := h.children) == h;
      }
    }
  }

  /** Noise removal is idempotent. */
  lemma PruneIdempotent(s: seq<Node>, sels: seq<Selector>)
    ensures Prune(Prune(s, sels), sels) == Prune(s, sels)
  {
    PruneLeavesNoMatch(s, sels);
    PruneWithoutMatch(Prune(s, sels), sels);
  }

  /** Pruning a forest whose first element survives leaves that element, with its
      children pruned, as the first element. */
  lemma {:induction false} PruneKeepsFirstChild(s: seq<Node>, sels: seq<Selector>, h: Node)
    requires FirstChild(s, None) == Some(h) && !MatchesAny(sels, h)
    ensures h.Element? && FirstChild(Prune(s, sels), None) == Some(h.(children := Prune(h.children, sels)))
  {
    var p := Prune(s, sels);
    if Qualifies(s[0], None) {
      assert p == [h.(children := Prune(h.children, sels))] + Prune(s[1..], sels);
    } else {
      assert p == [s[0]] + Prune(s[1..], sels);
      assert p[0] == s[0] && p[1..] == Prune(s[1..], sels);
      PruneKeepsFirstChild(s[1..], sels, h);
    }
  }

  /** After pruning, the children of an element include no `body` or `frameset`
      exactly when every such child matched the selector list. */
  lemma {:induction false} PruneRemovesBody(kids: seq<Node>, sels: seq<Selector>)
    ensures FirstChild(Prune(kids, sels), Some(BodyTags)).None? <==>
      forall i :: 0 <= i < |kids| && Qualifies(kids[i], Some(BodyTags)) ==> MatchesAny(sels, kids[i])
  {
    if kids != [] {
      var k := kids[0];
      var rest := Prune(kids[1..], sels);
      var p := Prune(kids, sels);
      PruneRemovesBody(kids[1..], sels);
      assert forall i :: 0 < i < |kids| ==> kids[i] == kids[1..][i - 1];
      if k.Element? && MatchesAny(sels, k) {
        assert p == [] + rest == rest;
      } else {
        var k' := if k.Text? then k else k.(children := Prune(k.children, sels));
        assert p == [k'] + rest;
        assert p[0] == k' && p[1..] == rest;
        assert Qualifies(k', Some(BodyTags)) == Qualifies(k, Some(BodyTags));
      }
    }
  }

  lemma {:induction false} UnhiddenUnderMatch(s: seq<Node>, sels: seq<Selector>)
    ensures Unhidden(s, sels, true) == []
  {
    if s != [] {
      UnhiddenUnderMatch(s[1..], sels);
      if s[0].Element? {
        UnhiddenUnderMatch(s[0].children, sels);
      }
    }
  }

  lemma {:induction false} UnhiddenConcat(a: seq<Node>, b: seq<Node>, sels: seq<Selector>)
    ensures Unhidden(a + b, sels, false) == Unhidden(a, sels, false) + Unhidden(b, sels, false)
  {
    if a != [] {
      assert (a + b)[0] == a[0];
      assert (a + b)[1..] == a[1..] + b;
      UnhiddenConcat(a[1..], b, sels);
    } else {
      assert a + b == b;
    }
  }

  /** The elements left after noise removal are exactly those that do not match and
      have no matching ancestor, in their original order. */
  lemma {:induction false} PruneKeepsUnhidden(s: seq<Node>, sels: seq<Selector>)
    ensures IdList(Prune(s, sels)) == Unhidden(s, sels, false)
  {
    if s != [] {
      var h := s[0];
      assert s == [h] + s[1..];
      PruneConcat([h], s[1..], sels);
      UnhiddenConcat([h], s[1..], sels);
      IdListConcat(Prune([h], sels), Prune(s[1..], sels));
      Single(h, sels, {});
      PruneKeepsUnhidden(s[1..], sels);
      if h.Element? {
        if MatchesAny(sels, h) {
          UnhiddenUnderMatch(h.children, sels);
        } else {
          PruneKeepsUnhidden(h.children, sels);
          Single(h.(children := Prune(h.children, sels)), sels, {});
        }
      }
    }
  }

  /** Loading keeps the markup: forgetting the identities gives it back. */
  lemma {:induction false} LoadKeepsMarkup(m: seq<Markup>, next: nat)
    ensures Unload(Load(m, next).0) == m
  {
    if m != [] {
      match m[0]
      case MText(t) =>
        var (rest, n) := Load(m[1..], next);
        LoadKeepsMarkup(m[1..], next);
        assert ([Text(t)] + rest)[1..] == rest;
      case MElement(tag, classes, kids) =>
        var (children, n1) := Load(kids, next + 1);
        var (rest, n2) := Load(m[1..], n1);
        LoadKeepsMarkup(kids, next + 1);
        LoadKeepsMarkup(m[1..], n1);
        var h := Element(next, tag, classes, children);
        assert ([h] + rest)[1..] == rest;
    }
  }
}
