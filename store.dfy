/**
  The process-wide session registry: session id -> session, and in each session
  its own map page id -> page. Sessions are created by launching a browser,
  pages are added to exactly one session, lookups resolve the session first and
  then the page inside that session only, and sessions are removed only once
  their browser has closed.
*/
module Store {
  import opened Wrappers
  import opened Driver

  /** Milliseconds in a minute, the unit of the sweep's age threshold. */
  const MILLIS_PER_MINUTE := 1000 * 60

  /** The sweep's threshold when its caller gives none. */
  const DEFAULT_MAX_AGE_MINUTES := 30

  /** Launch always shows the browser window, whatever `headless` was asked for. */
  const CHROMIUM_LAUNCH := LaunchOptions(false, ["--no-sandbox", "--disable-setuid-sandbox"])

  /** Every context uses the desktop Chrome preset with a 1280x720 viewport. */
  const DESKTOP_CONTEXT := ContextOptions("Desktop Chrome", 1280, 720)

  /** One browser, its isolated context, its pages, and its creation time in milliseconds. */
  class Session {
    const browser: Browser
    const context: BrowserContext
    var pages: map<string, Page>
    const createdAt: int

    constructor (browser: Browser, context: BrowserContext, createdAt: int)
      ensures this.browser == browser && this.context == context && this.createdAt == createdAt
      ensures pages == map[]
    {
      this.browser := browser;
      this.context := context;
      this.createdAt := createdAt;
      pages := map[];
    }
  }

  /** A session created at `createdAt` is older than `maxAgeMinutes` at time `now`. */
  predicate IsStale(createdAt: int, now: int, maxAgeMinutes: int)
  {
    now - createdAt > maxAgeMinutes * MILLIS_PER_MINUTE
  }

  /**
    The integer comparison agrees with the age in (fractional) minutes that the
    sweep computes by dividing the elapsed milliseconds by 1000 * 60.
  */
  lemma StaleMatchesMinuteAge(createdAt: int, now: int, maxAgeMinutes: int)
    ensures IsStale(createdAt, now, maxAgeMinutes)
        <==> (now - createdAt) as real / (1000.0 * 60.0) > maxAgeMinutes as real
  {
    var age := (now - createdAt) as real;
    assert age / 60000.0 * 60000.0 == age;
    assert (maxAgeMinutes * MILLIS_PER_MINUTE) as real == maxAgeMinutes as real * 60000.0;
  }

  /** The sweep closes the session under `id` exactly when it is stale and its browser closes. */
  predicate SweptAway(sessions: map<string, Session>, id: string, now: int, maxAgeMinutes: int, close: string -> Outcome)
    requires id in sessions
  {
    IsStale(sessions[id].createdAt, now, maxAgeMinutes) && close(id).Returns?
  }

  /** The registry map a sweep leaves behind: every entry it did not close, untouched. */
  function Survivors(sessions: map<string, Session>, now: int, maxAgeMinutes: int, close: string -> Outcome): map<string, Session>
  {
    map id | id in sessions && !SweptAway(sessions, id, now, maxAgeMinutes, close) :: sessions[id]
  }

  /** The registry map part way through a sweep of `sessions`, with the ids in `todo` not yet visited. */
  function SweepSoFar(sessions: map<string, Session>, todo: set<string>, now: int, maxAgeMinutes: int, close: string -> Outcome)
    : map<string, Session>
  {
    map id | id in sessions && (id in todo || !SweptAway(sessions, id, now, maxAgeMinutes, close)) :: sessions[id]
  }

  /** The stale ids among the visited ones whose close had the given result. */
  function StaleVisited(sessions: map<string, Session>, todo: set<string>, now: int, maxAgeMinutes: int,
                        close: string -> Outcome, succeeded: bool): set<string>
  {
    set id | id in sessions && id !in todo
      && IsStale(sessions[id].createdAt, now, maxAgeMinutes) && close(id).Returns? == succeeded
  }

  /** Visiting one more id takes one step of the sweep. */
  lemma SweepStep(sessions: map<string, Session>, todo: set<string>, id: string, now: int, maxAgeMinutes: int,
                  close: string -> Outcome)
    requires id in todo && todo <= sessions.Keys
    ensures SweptAway(sessions, id, now, maxAgeMinutes, close) ==>
      SweepSoFar(sessions, todo - {id}, now, maxAgeMinutes, close) == SweepSoFar(sessions, todo, now, maxAgeMinutes, close) - {id}
    ensures !SweptAway(sessions, id, now, maxAgeMinutes, close) ==>
      SweepSoFar(sessions, todo - {id}, now, maxAgeMinutes, close) == SweepSoFar(sessions, todo, now, maxAgeMinutes, close)
    ensures forall succeeded: bool ::
      StaleVisited(sessions, todo - {id}, now, maxAgeMinutes, close, succeeded)
      == StaleVisited(sessions, todo, now, maxAgeMinutes, close, succeeded)
         + (if IsStale(sessions[id].createdAt, now, maxAgeMinutes) && close(id).Returns? == succeeded then {id} else {})
  {
  }

  /** No two entries of `sessions` share a browser process. */
  ghost predicate DistinctBrowsers(sessions: map<string, Session>)
  {
    forall a, b :: a in sessions && b in sessions && sessions[a].browser == sessions[b].browser ==> a == b
  }

  /** The browser closes a sweep issues for the entries under `ids`. */
  function ClosesOf(sessions: map<string, Session>, ids: set<string>): set<Action>
  {
    set id | id in ids && id in sessions :: CloseBrowser(sessions[id].browser)
  }

  /** The actions of `issued` are exactly the closes of the entries under `ids`. */
  ghost predicate TraceCloses(issued: seq<Action>, sessions: map<string, Session>, ids: set<string>)
  {
    (set a | a in issued) == ClosesOf(sessions, ids)
  }

  /** With no browser shared, an entry's close is among the closes of `ids` exactly when the entry is. */
  lemma ClosesOfNamesOnlyItsEntries(sessions: map<string, Session>, ids: set<string>, id: string)
    requires DistinctBrowsers(sessions) && ids <= sessions.Keys && id in sessions
    ensures CloseBrowser(sessions[id].browser) in ClosesOf(sessions, ids) <==> id in ids
  {
    if CloseBrowser(sessions[id].browser) in ClosesOf(sessions, ids) {
      var other :| other in ids && CloseBrowser(sessions[other].browser) == CloseBrowser(sessions[id].browser);
      assert sessions[other].browser == sessions[id].browser;
    }
  }

  /** Closing one more entry, with either result, adds its browser close to the trace. */
  lemma CloseTraceStep(sessions: map<string, Session>, issued: seq<Action>, removed: set<string>,
                       failed: set<string>, id: string)
    requires id in sessions && TraceCloses(issued, sessions, removed + failed)
    ensures TraceCloses(issued + [CloseBrowser(sessions[id].browser)], sessions, (removed + {id}) + failed)
    ensures TraceCloses(issued + [CloseBrowser(sessions[id].browser)], sessions, removed + (failed + {id}))
  {
    var close := CloseBrowser(sessions[id].browser);
    assert (set a | a in issued + [close]) == (set a | a in issued) + {close};
    assert ClosesOf(sessions, removed + failed + {id}) == ClosesOf(sessions, removed + failed) + {close};
    assert (removed + {id}) + failed == removed + failed + {id} == removed + (failed + {id});
  }

  /**
    Where a sweep of `snapshot` stands with the ids in `todo` still to visit:
    the registry map, the removed and failed ids, and the closes issued so far.
  */
  ghost predicate SweepProgress(snapshot: map<string, Session>, todo: set<string>, now: int, maxAgeMinutes: int,
                                close: string -> Outcome, current: map<string, Session>,
                                removed: set<string>, failed: set<string>, issued: seq<Action>)
  {
    && todo <= snapshot.Keys
    && current == SweepSoFar(snapshot, todo, now, maxAgeMinutes, close)
    && removed == StaleVisited(snapshot, todo, now, maxAgeMinutes, close, true)
    && failed == StaleVisited(snapshot, todo, now, maxAgeMinutes, close, false)
    && |issued| == |removed| + |failed|
    && TraceCloses(issued, snapshot, removed + failed)
  }

  /**
    A finished sweep over distinct browsers has removed exactly the stale
    entries whose close returned, and has closed an entry's browser exactly
    when the entry was stale.
  */
  lemma SweepFinished(snapshot: map<string, Session>, now: int, maxAgeMinutes: int, close: string -> Outcome,
                      current: map<string, Session>, removed: set<string>, failed: set<string>, issued: seq<Action>)
    requires DistinctBrowsers(snapshot)
    requires SweepProgress(snapshot, {}, now, maxAgeMinutes, close, current, removed, failed, issued)
    ensures current == Survivors(snapshot, now, maxAgeMinutes, close)
    ensures removed == set id | id in snapshot && IsStale(snapshot[id].createdAt, now, maxAgeMinutes) && close(id).Returns?
    ensures failed == set id | id in snapshot && IsStale(snapshot[id].createdAt, now, maxAgeMinutes) && close(id).Throws?
    ensures forall id :: id in snapshot ==>
      (CloseBrowser(snapshot[id].browser) in issued <==> IsStale(snapshot[id].createdAt, now, maxAgeMinutes))
  {
    assert SweepSoFar(snapshot, {}, now, maxAgeMinutes, close) == Survivors(snapshot, now, maxAgeMinutes, close);
    forall id | id in snapshot
      ensures CloseBrowser(snapshot[id].browser) in issued <==> IsStale(snapshot[id].createdAt, now, maxAgeMinutes)
    {
      assert CloseBrowser(snapshot[id].browser) in issued <==> CloseBrowser(snapshot[id].browser) in (set a | a in issued);
      ClosesOfNamesOnlyItsEntries(snapshot, removed + failed, id);
    }
  }

  class Registry {
    var sessions: map<string, Session>

    /** The registry starts empty. */
    constructor ()
      ensures sessions == map[]
    {
      sessions := map[];
    }

    /**
      No browser is shared between two registry entries (so neither is a
      session object), and each context belongs to its session's browser.
    */
    ghost predicate Valid()
      reads this
    {
      && DistinctBrowsers(sessions)
      && (forall a :: a in sessions ==> sessions[a].context.browser == sessions[a].browser)
    }

    /** Pages never cross sessions: each page was opened in its own session's context. */
    ghost predicate PagesOwned()
      reads this, sessions.Values
    {
      forall id, pageId :: id in sessions && pageId in sessions[id].pages ==>
        sessions[id].pages[pageId].context == sessions[id].context
    }

    /** Pure lookup of a session. */
    function GetSession(id: string): (r: Option<Session>)
      reads this
      ensures r.Some? <==> id in sessions
      ensures r.Some? ==> r.value == sessions[id]
    {
      if id in sessions then Some(sessions[id]) else None
    }

    /**
      Two-step lookup: the session, then the page in that session's own map.
      A page id registered only under another session is not found.
    */
    function GetPage(sessionId: string, pageId: string): (r: Option<Page>)
      reads this, sessions.Values
      ensures r.Some? <==> sessionId in sessions && pageId in sessions[sessionId].pages
      ensures r.Some? ==> r.value == sessions[sessionId].pages[pageId]
    {
      match GetSession(sessionId)
      case None => None
      case Some(session) => if pageId in session.pages then Some(session.pages[pageId]) else None
    }

    /**
      Pages never cross sessions: a handle registered under one session is not
      what a lookup in any other session resolves to.
    */
    lemma PageResolvesOnlyInItsSession(owner: string, ownerPageId: string, sessionId: string, pageId: string)
      requires Valid() && PagesOwned()
      requires owner in sessions && ownerPageId in sessions[owner].pages
      requires GetPage(sessionId, pageId) == Some(sessions[owner].pages[ownerPageId])
      ensures sessionId == owner
    {
      var page := sessions[owner].pages[ownerPageId];
      assert page.context == sessions[owner].context;
      assert page.context == sessions[sessionId].context;
      assert sessions[owner].browser == sessions[sessionId].browser;
    }

    /**
      Launches a browser (always with a window, `headless` is not consulted),
      opens a desktop context in it, and registers a fresh session under
      `freshId` with no pages, created at `now`. A launch or context failure
      propagates and registers nothing.
    */
    method CreateSession(headless: bool, launched: Outcome, contextMade: Outcome, freshId: string, now: int)
      returns (r: Fallible<string>, issued: seq<Action>)
      requires Valid()
      requires freshId !in sessions
      modifies this
      ensures Valid()
      ensures |issued| >= 1 && issued[0] == LaunchChromium(CHROMIUM_LAUNCH)
      ensures launched.Throws? ==> r == Throws(launched.error) && |issued| == 1 && sessions == old(sessions)
      ensures launched.Returns? ==> |issued| == 2 && issued[1].NewContext? && issued[1].contextOptions == DESKTOP_CONTEXT
      ensures launched.Returns? && contextMade.Throws? ==>
        r == Throws(contextMade.error) && sessions == old(sessions)
      ensures launched.Returns? && contextMade.Returns? ==>
        && r == Returns(freshId)
        && sessions.Keys == old(sessions).Keys + {freshId}
        && (forall id :: id in old(sessions) ==> sessions[id] == old(sessions)[id])
        && fresh(sessions[freshId]) && fresh(sessions[freshId].browser)
        && sessions[freshId].pages == map[]
        && sessions[freshId].createdAt == now
        && issued[1] == NewContext(sessions[freshId].browser, DESKTOP_CONTEXT)
      ensures old(PagesOwned()) ==> PagesOwned()
    {
      issued := [LaunchChromium(CHROMIUM_LAUNCH)];
      if launched.Throws? {
        return Throws(launched.error), issued;
      }
      var browser := new Browser.Launch();
      issued := issued + [NewContext(browser, DESKTOP_CONTEXT)];
      if contextMade.Throws? {
        return Throws(contextMade.error), issued;
      }
      var context := new BrowserContext.NewContext(browser);
      var session := new Session(browser, context, now);
      sessions := sessions[freshId := session];
      r := Returns(freshId);
    }

    /**
      Registers `page` under `freshPageId` in the session `sessionId` only; an
      unknown session gives None and changes nothing.
    */
    method AddPage(sessionId: string, page: Page, freshPageId: string) returns (r: Option<string>)
      requires Valid()
      requires sessionId in sessions ==> freshPageId !in sessions[sessionId].pages
      modifies if sessionId in sessions then {sessions[sessionId]} else {}
      ensures sessions == old(sessions) && Valid()
      ensures sessionId !in sessions ==> r == None
      ensures sessionId in sessions ==>
        r == Some(freshPageId) && sessions[sessionId].pages == old(sessions[sessionId].pages)[freshPageId := page]
      ensures forall id :: id in sessions && id != sessionId ==> sessions[id].pages == old(sessions[id].pages)
      ensures old(PagesOwned()) && (sessionId in sessions ==> page.context == sessions[sessionId].context)
        ==> PagesOwned()
    {
      var session := GetSession(sessionId);
      if session.None? {
        return None;
      }
      session.value.pages := session.value.pages[freshPageId := page];
      r := Some(freshPageId);
    }

    /**
      Closes the browser of a known session and only then removes its entry; a
      close that throws propagates and leaves the entry in place. An unknown id
      issues nothing and changes nothing, so a second close is harmless.
    */
    method CloseSession(id: string, closed: Outcome) returns (r: Outcome, issued: seq<Action>)
      requires Valid()
      modifies this
      ensures Valid()
      ensures id !in old(sessions) ==> r == Returns(()) && issued == [] && sessions == old(sessions)
      ensures id in old(sessions) ==>
        && issued == [CloseBrowser(old(sessions)[id].browser)]
        && r == closed
        && sessions == (if closed.Returns? then old(sessions) - {id} else old(sessions))
      ensures r.Returns? ==> id !in sessions && forall pageId :: GetPage(id, pageId).None?
      ensures old(PagesOwned()) ==> PagesOwned()
    {
      var session := GetSession(id);
      if session.None? {
        return Returns(()), [];
      }
      issued := [CloseBrowser(session.value.browser)];
      if closed.Throws? {
        return closed, issued;
      }
      sessions := sessions - {id};
      r := closed;
    }

    /**
      One pass of the sweep loop: when the entry is stale its session is closed,
      and the outcome is recorded instead of propagated.
    */
    method SweepEntry(snapshot: map<string, Session>, todo: set<string>, id: string, now: int, maxAgeMinutes: int,
                      close: string -> Outcome, removedBefore: set<string>, failedBefore: set<string>,
                      issuedBefore: seq<Action>)
      returns (removed: set<string>, failed: set<string>, issued: seq<Action>)
      requires Valid() && id in todo
      requires SweepProgress(snapshot, todo, now, maxAgeMinutes, close, sessions, removedBefore, failedBefore, issuedBefore)
      modifies this
      ensures Valid()
      ensures old(PagesOwned()) ==> PagesOwned()
      ensures SweepProgress(snapshot, todo - {id}, now, maxAgeMinutes, close, sessions, removed, failed, issued)
    {
      SweepStep(snapshot, todo, id, now, maxAgeMinutes, close);
      removed, failed, issued := removedBefore, failedBefore, issuedBefore;
      if IsStale(snapshot[id].createdAt, now, maxAgeMinutes) {
        CloseTraceStep(snapshot, issued, removed, failed, id);
        assert sessions[id] == snapshot[id];
        var r, closes := CloseSession(id, close(id));
        issued := issued + closes;
        if r.Returns? {
          removed := removed + {id};
        } else {
          failed := failed + {id};
        }
      }
    }

    /**
      The age sweep: walks the entries as they stand when it starts, closes each
      one older than `maxAgeMinutes` (30 when not given), and catches a failed
      close so the walk goes on. Returns the ids it removed, the ids whose
      close failed, and the browser closes it issued: one per stale entry.
    */
    method CleanupOldSessions(now: int, maxAgeMinutes: Option<int>, close: string -> Outcome)
      returns (removed: set<string>, failed: set<string>, issued: seq<Action>)
      requires Valid()
      modifies this
      ensures Valid()
      ensures sessions == Survivors(old(sessions), now, maxAgeMinutes.GetOr(DEFAULT_MAX_AGE_MINUTES), close)
      ensures removed == set id | id in old(sessions)
        && IsStale(old(sessions)[id].createdAt, now, maxAgeMinutes.GetOr(DEFAULT_MAX_AGE_MINUTES))
        && close(id).Returns?
      ensures failed == set id | id in old(sessions)
        && IsStale(old(sessions)[id].createdAt, now, maxAgeMinutes.GetOr(DEFAULT_MAX_AGE_MINUTES))
        && close(id).Throws?
      ensures |issued| == |removed| + |failed|
      ensures TraceCloses(issued, old(sessions), removed + failed)
      ensures forall id :: id in old(sessions) ==>
        (CloseBrowser(old(sessions)[id].browser) in issued
         <==> IsStale(old(sessions)[id].createdAt, now, maxAgeMinutes.GetOr(DEFAULT_MAX_AGE_MINUTES)))
      ensures old(PagesOwned()) ==> PagesOwned()
    {
      var maxAge := maxAgeMinutes.GetOr(DEFAULT_MAX_AGE_MINUTES);
      var snapshot := sessions;
      var todo := snapshot.Keys;
      removed, failed, issued := {}, {}, [];
      assert SweepSoFar(snapshot, todo, now, maxAge, close) == snapshot;
      while todo != {}
        invariant Valid()
        invariant old(PagesOwned()) ==> PagesOwned()
        invariant SweepProgress(snapshot, todo, now, maxAge, close, sessions, removed, failed, issued)
        decreases todo
      {
        var id :| id in todo;
        removed, failed, issued := SweepEntry(snapshot, todo, id, now, maxAge, close, removed, failed, issued);
        todo := todo - {id};
      }
      SweepFinished(snapshot, now, maxAge, close, sessions, removed, failed, issued);
    }
  }

  /**
    Closing is idempotent: once a close has succeeded (its browser closed, or
    the id was unknown to begin with), closing the same id
    again issues no driver call, reports success and leaves the registry as it is.
  */
  method CloseSessionTwice(store: Registry, id: string, first: Outcome, second: Outcome)
    returns (r: Outcome, issued: seq<Action>)
    requires store.Valid()
    modifies store
    ensures store.Valid()
    ensures first.Returns? || id !in old(store.sessions) ==>
      r == Returns(()) && issued == [] && id !in store.sessions && store.sessions == old(store.sessions) - {id}
  {
    var _, _ := store.CloseSession(id, first);
    r, issued := store.CloseSession(id, second);
  }
}
