/**
  The page tools. Each one resolves its (session, page) pair through the
  registry before any driver call, replies with the fixed unknown-page error
  when the pair does not resolve, and otherwise issues its driver calls on the
  resolved page. None of them is given the right to change the registry.
*/
module PlaywrightTools {
  import opened Wrappers
  import opened Driver
  import opened Store
  import opened ToolSchema
  import opened ElementQuery

  const DEFAULT_FULL_PAGE := true
  const DEFAULT_MAX_WIDTH := 1024.0
  const DEFAULT_QUALITY := 80.0
  /** The recompressor only ever shrinks an image to `max_width`, never enlarges it. */
  const WITHOUT_ENLARGEMENT := true
  /** The recompressed image is a JPEG. */
  const RECOMPRESSED_FORMAT := "jpeg"

  /**
    The dispatch contract shared by the tools that make one page call and
    reply "ok": no driver call and the unknown-page error when the lookup
    fails, else exactly `command` on the resolved page and "ok" once it
    returns.
  */
  ghost predicate GuardedCall(store: Registry, sessionId: string, pageId: string, command: PageCommand,
                              outcome: Outcome, reply: Reply, issued: seq<Action>)
    reads store, store.sessions.Values
  {
    match store.GetPage(sessionId, pageId)
    case None => reply == Text(UnknownPage(pageId)) && issued == []
    case Some(page) => issued == [OnPage(page, command)] && reply == Completed(outcome, OK)
  }

  /** Resolves the page, then runs `command` on it. */
  method RunOnPage(store: Registry, sessionId: string, pageId: string, command: PageCommand, outcome: Outcome)
    returns (reply: Reply, issued: seq<Action>)
    ensures GuardedCall(store, sessionId, pageId, command, outcome, reply, issued)
  {
    var page := store.GetPage(sessionId, pageId);
    if page.None? {
      return Text(UnknownPage(pageId)), [];
    }
    issued := [OnPage(page.value, command)];
    reply := Completed(outcome, OK);
  }

  /** The reply of a driver call that yields a value: `onValue` of it, or the exception. */
  function ReplyOf<T>(result: Fallible<T>, onValue: T -> Reply): (r: Reply)
    ensures result.Throws? ==> r == Raised(result.error)
    ensures result.Returns? ==> r == onValue(result.value)
  {
    if result.Returns? then onValue(result.value) else Raised(result.error)
  }

  /**
    Take Screenshot: a PNG of the page (the full page unless told otherwise),
    handed to the recompressor, which shrinks it to at most width 1024 (never
    enlarging it) and converts it to JPEG at quality 80 unless told otherwise; the reply is the recompressed image's base64 text.
  */
  method TakeScreenshot(store: Registry, sessionId: string, pageId: string,
                        fullPage: Option<bool>, maxWidth: Option<real>, quality: Option<real>,
                        captured: Fallible<seq<bv8>>, encoded: Fallible<string>)
    returns (reply: Reply, issued: seq<Action>)
    ensures match store.GetPage(sessionId, pageId)
      case None => reply == Text(UnknownPage(pageId)) && issued == []
      case Some(page) =>
        && |issued| >= 1 && issued[0] == OnPage(page, Screenshot(fullPage.GetOr(DEFAULT_FULL_PAGE), "png"))
        && (captured.Throws? ==> reply == Raised(captured.error) && |issued| == 1)
        && (captured.Returns? ==>
              && issued == [issued[0], Recompress(captured.value, maxWidth.GetOr(DEFAULT_MAX_WIDTH), WITHOUT_ENLARGEMENT,
                                                  RECOMPRESSED_FORMAT, quality.GetOr(DEFAULT_QUALITY))]
              && reply == ReplyOf(encoded, (s: string) => Text(s)))
  {
    var page := store.GetPage(sessionId, pageId);
    if page.None? {
      return Text(UnknownPage(pageId)), [];
    }
    issued := [OnPage(page.value, Screenshot(fullPage.GetOr(DEFAULT_FULL_PAGE), "png"))];
    if captured.Throws? {
      return Raised(captured.error), issued;
    }
    issued := issued + [Recompress(captured.value, maxWidth.GetOr(DEFAULT_MAX_WIDTH), WITHOUT_ENLARGEMENT,
                                   RECOMPRESSED_FORMAT, quality.GetOr(DEFAULT_QUALITY))];
    reply := ReplyOf(encoded, (s: string) => Text(s));
  }

  /**
    Query Elements: a truthy selector is evaluated and every matched element is
    described; otherwise a truthy text evaluates all elements, and the page
    filters them by its own binding of `text`, never by the tool's argument;
    with neither, the fixed error and no driver call. `pageText` is that
    binding, None when the page has none.
  */
  method QueryElements(store: Registry, sessionId: string, pageId: string,
                       selector: Option<string>, text: Option<string>, pageText: Option<string>,
                       evaluated: Fallible<seq<DomElement>>)
    returns (reply: Reply, issued: seq<Action>)
    ensures match store.GetPage(sessionId, pageId)
      case None => reply == Text(UnknownPage(pageId)) && issued == []
      case Some(page) =>
        match PlanQuery(selector, text)
        case BySelector(css) =>
          issued == [OnPage(page, EvalAll(css))]
          && reply == ReplyOf(evaluated, (els: seq<DomElement>) => Elements(DescribeAll(els)))
        case ByText(_) =>
          issued == [OnPage(page, EvalAll("*"))]
          && reply == ReplyOf(evaluated, (els: seq<DomElement>) =>
               ReplyOf(FilterInPage(els, pageText), (kept: seq<DomElement>) => Elements(DescribeAll(kept))))
        case NoQuery =>
          issued == [] && reply == Text(NO_QUERY)
    ensures store.GetPage(sessionId, pageId).Some? && PlanQuery(selector, text).ByText? && pageText.None? ==>
      && !(reply.Elements? && reply.records != [])
      && (evaluated.Returns? && (exists i :: 0 <= i < |evaluated.value| && evaluated.value[i].innerText.Some?) ==>
            reply == Raised(UNBOUND_TEXT))
  {
    var page := store.GetPage(sessionId, pageId);
    if page.None? {
      return Text(UnknownPage(pageId)), [];
    }
    match PlanQuery(selector, text)
    case BySelector(css) =>
      issued := [OnPage(page.value, EvalAll(css))];
      reply := ReplyOf(evaluated, (els: seq<DomElement>) => Elements(DescribeAll(els)));
    case ByText(_) =>
      issued := [OnPage(page.value, EvalAll("*"))];
      reply := ReplyOf(evaluated, (els: seq<DomElement>) =>
        ReplyOf(FilterInPage(els, pageText), (kept: seq<DomElement>) => Elements(DescribeAll(kept))));
    case NoQuery =>
      issued, reply := [], Text(NO_QUERY);
  }

  /**
    Query Elements as its authors evidently meant it, with the query text
    passed to the page: a text query describes the elements whose visible
    text includes it, in document order (possibly none).
  */
  method QueryElementsIntended(store: Registry, sessionId: string, pageId: string,
                       selector: Option<string>, text: Option<string>,
                       evaluated: Fallible<seq<DomElement>>)
    returns (reply: Reply, issued: seq<Action>)
    ensures match store.GetPage(sessionId, pageId)
      case None => reply == Text(UnknownPage(pageId)) && issued == []
      case Some(page) =>
        match PlanQuery(selector, text)
        case BySelector(css) =>
          issued == [OnPage(page, EvalAll(css))]
          && reply == ReplyOf(evaluated, (els: seq<DomElement>) => Elements(DescribeAll(els)))
        case ByText(t) =>
          issued == [OnPage(page, EvalAll("*"))]
          && reply == ReplyOf(evaluated, (els: seq<DomElement>) => Elements(DescribeAll(SelectByText(els, t))))
        case NoQuery =>
          issued == [] && reply == Text(NO_QUERY)
  {
    var page := store.GetPage(sessionId, pageId);
    if page.None? {
      return Text(UnknownPage(pageId)), [];
    }
    match PlanQuery(selector, text)
    case BySelector(css) =>
      issued := [OnPage(page.value, EvalAll(css))];
      reply := ReplyOf(evaluated, (els: seq<DomElement>) => Elements(DescribeAll(els)));
    case ByText(t) =>
      issued := [OnPage(page.value, EvalAll("*"))];
      reply := ReplyOf(evaluated, (els: seq<DomElement>) => Elements(DescribeAll(SelectByText(els, t))));
    case NoQuery =>
      issued, reply := [], Text(NO_QUERY);
  }

  /** Fill Input: fills the element `selector` designates with `value`. */
  method FillInput(store: Registry, sessionId: string, pageId: string, selector: string, value: string,
                   filled: Outcome)
    returns (reply: Reply, issued: seq<Action>)
    ensures GuardedCall(store, sessionId, pageId, Fill(selector, value), filled, reply, issued)
  {
    reply, issued := RunOnPage(store, sessionId, pageId, Fill(selector, value), filled);
  }

  /** Change Page: navigates the page in place, waiting for `domcontentloaded` unless told otherwise. */
  method ChangePage(store: Registry, sessionId: string, pageId: string, url: string, waitUntil: Option<WaitUntil>,
                    navigated: Outcome)
    returns (reply: Reply, issued: seq<Action>)
    ensures GuardedCall(store, sessionId, pageId, Goto(url, waitUntil.GetOr(DEFAULT_WAIT_UNTIL)), navigated, reply, issued)
  {
    reply, issued := RunOnPage(store, sessionId, pageId, Goto(url, waitUntil.GetOr(DEFAULT_WAIT_UNTIL)), navigated);
  }

  /** Click Element: clicks the element `selector` designates. */
  method ClickElement(store: Registry, sessionId: string, pageId: string, selector: string, clicked: Outcome)
    returns (reply: Reply, issued: seq<Action>)
    ensures GuardedCall(store, sessionId, pageId, Click(selector), clicked, reply, issued)
  {
    reply, issued := RunOnPage(store, sessionId, pageId, Click(selector), clicked);
  }

  /** Double Click: one mouse click with a click count of 2 at (x, y). */
  method DoubleClick(store: Registry, sessionId: string, pageId: string, x: real, y: real, clicked: Outcome)
    returns (reply: Reply, issued: seq<Action>)
    ensures GuardedCall(store, sessionId, pageId, MouseClick(x, y, 2), clicked, reply, issued)
  {
    reply, issued := RunOnPage(store, sessionId, pageId, MouseClick(x, y, 2), clicked);
  }

  /** Scroll To: scrolls the window to the absolute position (0, y), not by a relative delta. */
  method ScrollTo(store: Registry, sessionId: string, pageId: string, y: real, scrolled: Outcome)
    returns (reply: Reply, issued: seq<Action>)
    ensures GuardedCall(store, sessionId, pageId, ScrollWindowTo(0.0, y), scrolled, reply, issued)
  {
    reply, issued := RunOnPage(store, sessionId, pageId, ScrollWindowTo(0.0, y), scrolled);
  }

  /** Send Keys: types `keys` literally, control characters included. */
  method SendKeys(store: Registry, sessionId: string, pageId: string, keys: string, typed: Outcome)
    returns (reply: Reply, issued: seq<Action>)
    ensures GuardedCall(store, sessionId, pageId, TypeKeys(keys), typed, reply, issued)
  {
    reply, issued := RunOnPage(store, sessionId, pageId, TypeKeys(keys), typed);
  }
}
