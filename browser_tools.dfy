/**
  The two tools that change the registry: launching a browser session and
  opening a page in one.
*/
module BrowserTools {
  import opened Wrappers
  import opened Driver
  import opened Store
  import opened ToolSchema

  /** The `headless` parameter's default; launch does not consult it. */
  const DEFAULT_HEADLESS := true

  /** The reply of a launch: `session:` followed by the new session's id. */
  function SessionReply(sessionId: string): (s: string)
    ensures |s| > |sessionId| && s[|s| - |sessionId|..] == sessionId && s[..|s| - |sessionId|] == "session:"
  {
    "session:" + sessionId
  }

  /** The reply of an opened page: `opened:` followed by the new page's id. */
  function OpenedReply(pageId: string): (s: string)
    ensures |s| > |pageId| && s[|s| - |pageId|..] == pageId && s[..|s| - |pageId|] == "opened:"
  {
    "opened:" + pageId
  }

  /**
    Launch Browser: creates a session and replies with its id. Whatever
    `headless` says, the launch options are the fixed headed ones. A failed
    launch propagates and registers nothing.
  */
  method LaunchBrowser(store: Registry, headless: Option<bool>, launched: Outcome, contextMade: Outcome,
                       freshId: string, now: int)
    returns (reply: Reply, issued: seq<Action>)
    requires store.Valid()
    requires freshId !in store.sessions
    modifies store
    ensures store.Valid()
    ensures old(store.PagesOwned()) ==> store.PagesOwned()
    ensures |issued| >= 1 && issued[0] == LaunchChromium(CHROMIUM_LAUNCH)
    ensures launched.Throws? ==> reply == Raised(launched.error) && |issued| == 1 && store.sessions == old(store.sessions)
    ensures launched.Returns? ==> |issued| == 2 && issued[1].NewContext? && issued[1].contextOptions == DESKTOP_CONTEXT
    ensures launched.Returns? && contextMade.Throws? ==>
      reply == Raised(contextMade.error) && store.sessions == old(store.sessions)
    ensures launched.Returns? && contextMade.Returns? ==>
      && reply == Text(SessionReply(freshId))
      && store.sessions.Keys == old(store.sessions).Keys + {freshId}
      && (forall id :: id in old(store.sessions) ==> store.sessions[id] == old(store.sessions)[id])
      && fresh(store.sessions[freshId])
      && store.sessions[freshId].pages == map[]
      && store.sessions[freshId].createdAt == now
      && issued[1] == NewContext(store.sessions[freshId].browser, DESKTOP_CONTEXT)
  {
    var created;
    created, issued := store.CreateSession(headless.GetOr(DEFAULT_HEADLESS), launched, contextMade, freshId, now);
    reply := if created.Returns? then Text(SessionReply(created.value)) else Raised(created.error);
  }

  /**
    Open Page: an unknown session gets the fixed error and no driver call.
    Otherwise a page is opened in the session's context and navigated to `url`
    (waiting for `domcontentloaded` unless told otherwise); only once the
    navigation has completed is the page registered in that session. A
    failure of either call propagates and registers nothing.
  */
  method OpenPage(store: Registry, sessionId: string, url: string, waitUntil: Option<WaitUntil>,
                  pageMade: Outcome, navigated: Outcome, freshPageId: string)
    returns (reply: Reply, issued: seq<Action>)
    requires store.Valid()
    requires sessionId in store.sessions ==> freshPageId !in store.sessions[sessionId].pages
    modifies if sessionId in store.sessions then {store.sessions[sessionId]} else {}
    ensures store.sessions == old(store.sessions) && store.Valid()
    ensures old(store.PagesOwned()) ==> store.PagesOwned()
    ensures forall id :: id in store.sessions && id != sessionId ==>
      store.sessions[id].pages == old(store.sessions[id].pages)
    ensures sessionId !in store.sessions ==> reply == Text(UnknownSession(sessionId)) && issued == []
    ensures sessionId in store.sessions ==>
      var session := store.sessions[sessionId];
      && |issued| >= 1 && issued[0] == NewPage(session.context)
      && (pageMade.Throws? ==>
            reply == Raised(pageMade.error) && |issued| == 1 && session.pages == old(session.pages))
      && (pageMade.Returns? ==>
            && |issued| == 2 && issued[1].OnPage? && fresh(issued[1].page)
            && issued[1].page.context == session.context
            && issued[1].command == Goto(url, waitUntil.GetOr(DEFAULT_WAIT_UNTIL)))
      && (pageMade.Returns? && navigated.Throws? ==>
            reply == Raised(navigated.error) && session.pages == old(session.pages))
      && (pageMade.Returns? && navigated.Returns? ==>
            reply == Text(OpenedReply(freshPageId))
            && session.pages == old(session.pages)[freshPageId := issued[1].page])
  {
    var session := store.GetSession(sessionId);
    if session.None? {
      return Text(UnknownSession(sessionId)), [];
    }
    var context := session.value.context;
    issued := [NewPage(context)];
    if pageMade.Throws? {
      return Raised(pageMade.error), issued;
    }
    var page := new Page.NewPage(context);
    issued := issued + [OnPage(page, Goto(url, waitUntil.GetOr(DEFAULT_WAIT_UNTIL)))];
    if navigated.Throws? {
      return Raised(navigated.error), issued;
    }
    var pageId := store.AddPage(sessionId, page, freshPageId);
    reply := Text(OpenedReply(pageId.value));
  }
}
