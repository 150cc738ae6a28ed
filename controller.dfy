/**
 * `generateSummary`: validates the request, drives a headless browser to the page,
 * extracts and cleans its text, asks the language model for a summary, stores the
 * result, and releases the browser on every path.
 */
module Controller {
  import opened Options
  import opened TextNorm
  import opened Dom
  import opened Extract
  import opened Prompt

  /** A stored summary: the identity the database gave it, and its three fields. */
  datatype Record = Record(id: nat, url: string, title: string, summary: string)

  /** The JSON bodies the handler sends. */
  datatype Payload =
    | UrlRequired               // `{ error: "URL is required" }`
    | Created(record: Record)   // `{ success: true, data: result }`
    | InternalError             // `{ success: false, message: "internal server error" }`

  datatype Response = Response(status: nat, payload: Payload)

  /** How the outside world behaves during one request: whether each awaited external
      step completes (`false` / `None` means it throws), the page the browser loads,
      the text the model replies with, and the identity the database assigns.
      `evaluate` is `false` when the browser itself rejects `page.evaluate` (a lost
      execution context, a protocol timeout), whatever the callback would do. */
  datatype World = World(
    launch: bool, newPage: bool, setUserAgent: bool, goto: bool, evaluate: bool,
    markup: seq<Markup>, docTitle: string,
    reply: Option<string>, create: Option<nat>)

  /** The externally visible effects of a request, in the order they happen. */
  datatype Event =
    | Launched                                  // `puppeteer.launch` returned a browser
    | Navigated(url: string)                    // `page.goto(url)` completed
    | Invoked(prompt: string, reply: string)    // `model.invoke(prompt)` returned `reply`
    | Stored(record: Record)                    // `Summary.create` stored `record`
    | Closed                                    // `browser.close()` was called

  /** What one request does: its response, its effects, and the record it stored. */
  datatype Outcome = Outcome(response: Response, events: seq<Event>, stored: Option<Record>)

  /** The outcome of a step inside `try` that threw: the effects so far, then 500. */
  function Thrown(events: seq<Event>): Outcome {
    Outcome(Response(500, InternalError), events, None)
  }

  /** What happens between a successful launch and the `finally` block, given what
      the page callback returns. */
  function AfterLaunch(url: string, w: World, page: Result<PageData>, tmpl: Template): Outcome
    requires tmpl.WellFormed()
  {
    if !w.newPage || !w.setUserAgent || !w.goto then Thrown([])
    else if !w.evaluate then Thrown([Navigated(url)])
    else
      var rest := AfterEvaluate(url, w, page, tmpl);
      Outcome(rest.response, [Navigated(url)] + rest.events, rest.stored)
  }

  /** What happens once the page callback has finished: on success, cleaning,
      filling the prompt template `tmpl`, the model call and the database write. */
  function AfterEvaluate(url: string, w: World, page: Result<PageData>, tmpl: Template): Outcome
    requires tmpl.WellFormed()
  {
    match page
    case Err(_) => Thrown([])
    case Ok(data) =>
      var prompt := tmpl.Fill(data.title, CleanText(data.mainContent));
      match w.reply
      case None => Thrown([])
      case Some(reply) =>
        match w.create
        case None => Thrown([Invoked(prompt, reply)])
        case Some(id) =>
          var rec := Record(id, url, data.title, reply);
          Outcome(Response(200, Created(rec)), [Invoked(prompt, reply), Stored(rec)], Some(rec))
  }

  /** The outcome of `generateSummary` for the request body's `url`, given what the
      page callback returns and the prompt template. */
  function Lifecycle(url: Option<string>, w: World, page: Result<PageData>, tmpl: Template): Outcome
    requires tmpl.WellFormed()
  {
    if !Truthy(url) then Outcome(Response(400, UrlRequired), [], None)
    else if !w.launch then Thrown([])
    else
      var inner := AfterLaunch(url.value, w, page, tmpl);
      Outcome(inner.response, [Launched] + inner.events + [Closed], inner.stored)
  }

  /** The reference outcome of `generateSummary` for the request body's `url`. */
  function Expected(url: Option<string>, w: World): Outcome {
    Lifecycle(url, w, Scrape(w.markup, w.docTitle), Summary)
  }

  /** The records a request appends to the collection. */
  function StoredSeq(stored: Option<Record>): seq<Record> {
    match stored
    case Some(r) => [r]
    case None => []
  }

  /** Regrouping a trace that grew in three parts. */
  lemma AppendAssoc3(a: seq<Event>, b: seq<Event>, c: seq<Event>)
    ensures a + b + c == a + (b + c)
  {
  }

  /** Regrouping a trace that grew in four parts. */
  lemma AppendAssoc(a: seq<Event>, b: seq<Event>, c: seq<Event>, d: seq<Event>)
    ensures a + b + c + d == a + (b + c + d)
  {
  }

  /** The number of times event `e` occurs. */
  function Count(events: seq<Event>, e: Event): nat {
    if events == [] then 0
    else (if events[0] == e then 1 else 0) + Count(events[1..], e)
  }

  /** `page.evaluate(callback)`: the browser's document for the loaded page, on which
      the callback removes the noise and reads the title and main content. */
  method LoadAndEvaluate(w: World) returns (r: Result<PageData>)
    ensures r == Scrape(w.markup, w.docTitle)
  {
    var doc := new Document(w.markup, w.docTitle);
    r := Evaluate(doc);
  }

  /** The server's state: the summaries collection, the effects observed so far, and
      the number of browsers launched and not yet closed. */
  class Server {
    var records: seq<Record>
    ghost var trace: seq<Event>
    ghost var openBrowsers: int

    constructor()
      ensures records == [] && trace == [] && openBrowsers == 0
    {
      records := [];
      trace := [];
      openBrowsers := 0;
    }

    /** The request handler. A throw inside `try` skips the rest of it and answers
        500; `finally` closes the browser if one was launched. */
    method GenerateSummary(url: Option<string>, w: World) returns (resp: Response)
      modifies this
      ensures resp == Expected(url, w).response
      ensures trace == old(trace) + Expected(url, w).events
      ensures records == old(records) + StoredSeq(Expected(url, w).stored)
      ensures openBrowsers == old(openBrowsers)
    {
      resp := Handle(url, w, Scrape(w.markup, w.docTitle), Summary);
    }

    /** `GenerateSummary` with what the page callback will return named `page`, and the
        prompt template as the parameter `tmpl`. */
    method Handle(url: Option<string>, w: World, ghost page: Result<PageData>, tmpl: Template) returns (resp: Response)
      requires page == Scrape(w.markup, w.docTitle)
      requires tmpl.WellFormed()
      modifies this
      ensures resp == Lifecycle(url, w, page, tmpl).response
      ensures trace == old(trace) + Lifecycle(url, w, page, tmpl).events
      ensures records == old(records) + StoredSeq(Lifecycle(url, w, page, tmpl).stored)
      ensures openBrowsers == old(openBrowsers)
    {
      if !Truthy(url) {
        return Response(400, UrlRequired);
      }
      var browser := false;
      // try
      if w.launch {
        browser := true;
        openBrowsers := openBrowsers + 1;
        trace := trace + [Launched];
        resp := AfterLaunchSteps(url.value, w, page, tmpl);
      } else {
        // catch
        resp := Response(500, InternalError);
      }
      // finally
      if browser {
        openBrowsers := openBrowsers - 1;
        trace := trace + [Closed];
        AppendAssoc(old(trace), [Launched], AfterLaunch(url.value, w, page, tmpl).events, [Closed]);
      }
    }

    /** The body of `try` once the browser is up: open a page, set its user agent,
        navigate, and run the callback in it. Returning 500 stands for a throw. */
    method AfterLaunchSteps(url: string, w: World, ghost page: Result<PageData>, tmpl: Template) returns (resp: Response)
      requires page == Scrape(w.markup, w.docTitle)
      requires tmpl.WellFormed()
      modifies this
      ensures resp == AfterLaunch(url, w, page, tmpl).response
      ensures trace == old(trace) + AfterLaunch(url, w, page, tmpl).events
      ensures records == old(records) + StoredSeq(AfterLaunch(url, w, page, tmpl).stored)
      ensures openBrowsers == old(openBrowsers)
    {
      if !w.newPage || !w.setUserAgent || !w.goto {
        return Response(500, InternalError);
      }
      trace := trace + [Navigated(url)];
      if !w.evaluate {
        return Response(500, InternalError);
      }
      var r := LoadAndEvaluate(w);
      resp := AfterEvaluateSteps(url, w, r, tmpl);
      AppendAssoc3(old(trace), [Navigated(url)], AfterEvaluate(url, w, page, tmpl).events);
    }

    /** The rest of `try`: a callback that threw, or cleaning the text, building the
        prompt, invoking the model, storing the summary and answering with it.
        Returning 500 stands for a throw. */
    method AfterEvaluateSteps(url: string, w: World, page: Result<PageData>, tmpl: Template) returns (resp: Response)
      requires tmpl.WellFormed()
      modifies this
      ensures resp == AfterEvaluate(url, w, page, tmpl).response
      ensures trace == old(trace) + AfterEvaluate(url, w, page, tmpl).events
      ensures records == old(records) + StoredSeq(AfterEvaluate(url, w, page, tmpl).stored)
      ensures openBrowsers == old(openBrowsers)
    {
      if page.Err? {
        return Response(500, InternalError);
      }
      var data := page.value;
      var cleanText := CleanText(data.mainContent);
      var prompt := tmpl.Fill(data.title, cleanText);
      if w.reply.None? {
        return Response(500, InternalError);
      }
      var reply := w.reply.value;
      trace := trace + [Invoked(prompt, reply)];
      if w.create.None? {
        return Response(500, InternalError);
      }
      var result := Record(w.create.value, url, data.title, reply);
      records := records + [result];
      trace := trace + [Stored(result)];
      resp := Response(200, Created(result));
    }
  }

  // ---------------------------------------------------------------------------
  // Properties of the lifecycle

  /** Every step the handler awaits completes, and the page callback returns. */
  predicate Succeeds(url: Option<string>, w: World, page: Result<PageData>) {
    Truthy(url) && w.launch && w.newPage && w.setUserAgent && w.goto && w.evaluate &&
    page.Ok? && w.reply.Some? && w.create.Some?
  }

  /** Neither a launch nor a close. */
  predicate BrowserFree(events: seq<Event>) {
    forall i :: 0 <= i < |events| ==> events[i] != Launched && events[i] != Closed
  }

  lemma {:induction false} CountConcat(a: seq<Event>, b: seq<Event>, e: Event)
    ensures Count(a + b, e) == Count(a, e) + Count(b, e)
  {
    if a == [] {
      assert a + b == b;
    } else {
      assert (a + b)[1..] == a[1..] + b;
      CountConcat(a[1..], b, e);
    }
  }

  lemma {:induction false} CountBrowserFree(events: seq<Event>)
    requires BrowserFree(events)
    ensures Count(events, Launched) == 0 && Count(events, Closed) == 0
  {
    if events != [] {
      assert BrowserFree(events[1..]) by {
        forall i | 0 <= i < |events[1..]|
          ensures events[1..][i] != Launched && events[1..][i] != Closed
        {
          assert events[1..][i] == events[i + 1];
        }
      }
      CountBrowserFree(events[1..]);
    }
  }

  /** Between the launch and the close nothing launches or closes a browser. */
  lemma AfterLaunchBrowserFree(url: string, w: World, page: Result<PageData>, tmpl: Template)
    requires tmpl.WellFormed()
    ensures BrowserFree(AfterLaunch(url, w, page, tmpl).events)
  {
  }

  /** A missing or empty `url` is answered with 400 before anything else happens, and
      no other path answers 400. */
  lemma UrlRequiredFirst(url: Option<string>, w: World, page: Result<PageData>, tmpl: Template)
    requires tmpl.WellFormed()
    ensures Lifecycle(url, w, page, tmpl).response.status == 400 <==> !Truthy(url)
    ensures !Truthy(url) ==>
      Lifecycle(url, w, page, tmpl).response.payload == UrlRequired &&
      Lifecycle(url, w, page, tmpl).events == [] && Lifecycle(url, w, page, tmpl).stored == None
  {
  }

  /** The browser is closed exactly once when it was launched and never otherwise;
      when launched, launching is the first effect and closing the last. */
  lemma BrowserClosedOnce(url: Option<string>, w: World, page: Result<PageData>, tmpl: Template)
    requires tmpl.WellFormed()
    ensures var o := Lifecycle(url, w, page, tmpl);
      Count(o.events, Launched) == Count(o.events, Closed) &&
      Count(o.events, Closed) == (if Truthy(url) && w.launch then 1 else 0)
    ensures var o := Lifecycle(url, w, page, tmpl);
      Truthy(url) && w.launch ==> o.events[0] == Launched && o.events[|o.events| - 1] == Closed
  {
    if Truthy(url) && w.launch {
      var inner := AfterLaunch(url.value, w, page, tmpl);
      AfterLaunchBrowserFree(url.value, w, page, tmpl);
      CountBrowserFree(inner.events);
      CountConcat([Launched], inner.events, Launched);
      CountConcat([Launched], inner.events, Closed);
      CountConcat([Launched] + inner.events, [Closed], Launched);
      CountConcat([Launched] + inner.events, [Closed], Closed);
    }
  }

  /** The request succeeds exactly when every step does; it then answers 200 with the
      record it stored, built from this request's URL, the page title and the model's
      reply, after exactly these effects: launch, navigation, the model call with the
      filled-in prompt, the write, and the close. */
  lemma SuccessPath(url: Option<string>, w: World, page: Result<PageData>, tmpl: Template)
    requires tmpl.WellFormed()
    ensures Lifecycle(url, w, page, tmpl).response.status == 200 <==> Succeeds(url, w, page)
    ensures Succeeds(url, w, page) ==>
      var rec := Record(w.create.value, url.value, page.value.title, w.reply.value);
      var prompt := tmpl.Fill(page.value.title, CleanText(page.value.mainContent));
      Lifecycle(url, w, page, tmpl) ==
        Outcome(Response(200, Created(rec)),
                [Launched, Navigated(url.value), Invoked(prompt, w.reply.value), Stored(rec), Closed],
                Some(rec))
  {
  }

  /** Any step that throws after the URL check answers 500 with `success: false`, and
      nothing is stored. */
  lemma FailurePath(url: Option<string>, w: World, page: Result<PageData>, tmpl: Template)
    requires tmpl.WellFormed()
    requires Truthy(url) && !Succeeds(url, w, page)
    ensures Lifecycle(url, w, page, tmpl).response == Response(500, InternalError)
    ensures Lifecycle(url, w, page, tmpl).stored == None
    ensures forall i :: 0 <= i < |Lifecycle(url, w, page, tmpl).events| ==>
      !Lifecycle(url, w, page, tmpl).events[i].Stored?
  {
  }

  /** A record is stored at most once, right after the model call that returned its
      summary, and it is the record the request reports. */
  lemma StoreAfterInvoke(url: Option<string>, w: World, page: Result<PageData>, tmpl: Template)
    requires tmpl.WellFormed()
    ensures var o := Lifecycle(url, w, page, tmpl);
      forall i :: 0 <= i < |o.events| && o.events[i].Stored? ==>
        0 < i && o.events[i - 1].Invoked? && o.events[i - 1].reply == o.events[i].record.summary &&
        o.stored == Some(o.events[i].record)
    ensures var o := Lifecycle(url, w, page, tmpl);
      forall i, j :: 0 <= i < |o.events| && 0 <= j < |o.events| && o.events[i].Stored? && o.events[j].Stored? ==> i == j
    ensures var o := Lifecycle(url, w, page, tmpl);
      o.stored.Some? ==> exists i :: 0 <= i < |o.events| && o.events[i] == Stored(o.stored.value)
  {
    if !Truthy(url) {
      UrlRequiredFirst(url, w, page, tmpl);
    } else if Succeeds(url, w, page) {
      SuccessPath(url, w, page, tmpl);
      var o := Lifecycle(url, w, page, tmpl);
      assert o.events[3] == Stored(o.stored.value);
    } else {
      FailurePath(url, w, page, tmpl);
    }
  }
}
