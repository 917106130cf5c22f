# Browser session registry and tool dispatch, modelled in Dafny

This project models the core of a browser-automation agent. The core has two parts:

- a process-wide **registry** of browser sessions, where each session keeps its own map from page ids to pages;
- the **tools** the agent calls: launch a browser, open a page, take a screenshot, query elements, fill, navigate, click, double-click, scroll and type.

## What the model covers

**The registry** (`store.dfy`, module `Store`):

- `Registry` is a class with a `sessions` map from session id to `Session`.
- `Session` is a class. Its `pages` map is updated in place, as `session.pages.set` does in the source.
- `Valid()` says no two entries share a browser process, and each context belongs to its session's browser.
- `PagesOwned()` says every page was opened in its own session's context, so pages never cross sessions. Every operation except `AddPage` preserves it unconditionally. `AddPage` preserves it when the page was opened in that session's context, which `OpenPage`, its only caller, guarantees.
- Lookups fail closed: a page id is resolved only inside the named session's own map.
- A session's entry is removed only after its browser has closed. Closing an unknown id does nothing.
- The age sweep issues exactly one browser close per stale session and none for a fresh one. It removes exactly the stale sessions whose close succeeds. A failed close is caught, and the sweep goes on with the other sessions.

**The tools** (modules `BrowserTools` and `PlaywrightTools`):

- Every page tool resolves its (session, page) pair before any driver call.
- Every tool returns the list of driver calls it made (`issued`). "No driver call" is stated as `issued == []`.
- The page tools have no `modifies` clause, so they cannot change the registry.
- `LaunchBrowser` and `OpenPage` change the registry only through `CreateSession` and `AddPage`.

**The element query** (module `ElementQuery`):

- A truthy selector beats the text.
- As written, the text filter runs inside the page and reads the page's own global `text`, not the tool's `text` argument. With no such global, it raises as soon as it reaches an element with visible text, and `<html>` always has one. `QueryElements` models that code.
- `QueryElementsIntended` models the evident intent: the filter keeps, in document order, exactly the elements whose visible text includes the query text (see "## Findings").

**How outside effects are modelled** (module `Driver`):

- Playwright's browser, context and page handles are opaque classes. The model uses only their identity and the object each one was created from.
- A Playwright or sharp call is not modelled. Its outcome (it returns a value, or it throws) is a parameter of the operation that makes the call.
- `crypto.randomUUID()` is a fresh id passed in, with a precondition that it is not already a key.
- `new Date()` is an integer count of milliseconds passed in as `now`.

**Behaviour the model makes explicit:**

- `headless` is accepted, defaults to true, and is ignored: every launch uses the fixed headed options (`CHROMIUM_LAUNCH`).
- If navigation throws in `OpenPage`, the page has already been opened in the browser but is never registered. `issued` then shows a `NewPage` call with no registration.
- If `newContext` throws after a successful launch, the launched browser is neither registered nor closed.

**Choices the code makes that a reader might not expect:**

- A driver exception is not turned into an `error: ...` text inside the tools. It leaves `execute` (`Reply.Raised`), and the agent library converts it.
- Scrolling is an absolute `window.scrollTo(0, y)`.
- `changePage` navigates an existing page and never creates one.
- Pages are never removed from a session except when the whole session is removed.

## Model

| member | source | states |
|---|---|---|
| `Store.Registry.constructor` | src/store.ts:16 | The registry starts with no sessions. |
| `Store.Registry.GetSession` | src/store.ts:42-44 | A pure lookup: some session exactly when the id is a key, and that key's session. |
| `Store.Registry.GetPage` | src/store.ts:55-58 | Some page exactly when the session is registered and the page id is a key of that session's own map. An id known only to another session is not found. |
| `Store.Registry.PageResolvesOnlyInItsSession` | src/store.ts:46-58 | Under the registry invariants, a page handle registered in one session is returned by a lookup in no other session. |
| `Store.Registry.CreateSession` | src/store.ts:18-40 | Launches with the fixed headed options, whatever `headless` is. Then opens the desktop 1280x720 context. Then adds exactly one new key, mapped to a fresh session with no pages created at `now`, and leaves every other entry alone. A failed launch or context call propagates and adds nothing. The registry invariants are preserved. |
| `Store.Registry.AddPage` | src/store.ts:46-53 | An unknown session gives None and changes nothing. A known session gets the fresh page id in its own page map only. Its other pages and every other session's pages are unchanged. |
| `Store.Registry.CloseSession` | src/store.ts:60-66 | An unknown id issues no call, succeeds and changes nothing. A known id first closes its browser, and the entry is removed only if that close returned. A thrown close propagates and the entry stays. After a successful close, no page of that id resolves. |
| `Store.CloseSessionTwice` | src/store.ts:60-66 | Closing is idempotent: after one successful close (the browser closed, or the id was never registered), a second close issues nothing, succeeds and leaves only that one entry removed. The registry invariants still hold. |
| `Store.Registry.CleanupOldSessions` | src/store.ts:68-79 | The threshold defaults to 30 minutes. The driver calls issued are exactly one browser close per session older than the threshold, and no close for any other session. The remaining registry is the old one without exactly the stale sessions whose close returned. Sessions not past the threshold, and those whose close threw, stay untouched. Returns the closed ids, the failed ids and the closes issued. |
| `Store.Registry.SweepEntry` | src/store.ts:74-76 | One pass of the sweep loop: a stale entry is closed through `closeSession`, its close is added to the trace, and a returned close removes it while a thrown one is recorded as failed. A fresh entry is left alone. |
| `Store.SweepFinished` | src/store.ts:68-79 | When every entry has been visited, the registry is the survivors, the removed and failed ids are the stale ids split by their close's result, and a browser was closed exactly when its entry was stale. |
| `Store.ClosesOfNamesOnlyItsEntries` | src/store.ts:63 | Since no two entries share a browser, the close of an entry's browser is among the closes of a set of ids exactly when that entry's id is in the set. |
| `Store.StaleMatchesMinuteAge` | src/store.ts:74-75 | Comparing elapsed milliseconds with `max * 60000` agrees with the source's test on the elapsed time in minutes, `ms / (1000 * 60) > max`. |
| `BrowserTools.LaunchBrowser` | src/tools/browserTools.ts:5-15 | On success, replies `session:` plus the key that session creation just inserted. The launch options never depend on `headless`. After the launch comes exactly one desktop-context call, on the new session's browser. A failed launch propagates, makes no further call and registers nothing. |
| `BrowserTools.SessionReply` | src/tools/browserTools.ts:13 | The launch reply is `session:` followed by the id. |
| `BrowserTools.OpenPage` | src/tools/browserTools.ts:17-33 | An unknown session gives exactly `error: unknown session <id>`, with no driver call and no change. A known session gets a page opened in its own context and navigated with the default `domcontentloaded`. Only after navigation returns is exactly one page registered, in that session only, and the reply is `opened:<page id>`. If either call throws, nothing is registered. |
| `BrowserTools.OpenedReply` | src/tools/browserTools.ts:31 | The reply is `opened:` followed by the page id. |
| `ToolSchema.ParseWaitUntil` | src/tools/browserTools.ts:23 | An absent `wait_until` means `domcontentloaded`. An accepted value is one of the four policy names, and it names the policy it parses to. |
| `ToolSchema.ParseWaitUntilAcceptsEveryName` | src/tools/playwrightTools.ts:104 | Each of load, domcontentloaded, networkidle and commit is accepted and parses back to its own policy. |
| `ToolSchema.UnknownPage` | src/tools/playwrightTools.ts:19 | The unknown-page reply starts with `error: ` and ends with the page id. |
| `ToolSchema.UnknownSession` | src/tools/browserTools.ts:27 | The unknown-session reply starts with `error: ` and ends with the session id. |
| `ToolSchema.Completed` | src/tools/playwrightTools.ts:92-93 | A returned driver call gives the fixed success text. A thrown one propagates its error. |
| `PlaywrightTools.RunOnPage` | src/tools/playwrightTools.ts:90-93 | The shared dispatch contract. A failed lookup, including an unknown session, gives exactly `error: unknown page <page_id>` and no driver call. A successful lookup issues exactly the tool's command on the resolved page and replies `ok` once it returns. |
| `PlaywrightTools.TakeScreenshot` | src/tools/playwrightTools.ts:6-37 | Runs the lookup guard. Then one PNG capture, full page by default. The image goes to the recompressor, which shrinks it to at most `max_width` (1024 unless given) without enlarging it and converts it to JPEG at `quality` (80 unless given), and the reply is the recompressed image's base64 text. A throwing call propagates. |
| `PlaywrightTools.QueryElements` | src/tools/playwrightTools.ts:39-78 | Runs the lookup guard. A truthy selector is evaluated, and every matched element is described in order. Otherwise a truthy text evaluates `*`, and the page filters the elements by its own binding of `text`, whatever the tool's text is. With no such binding, a text query never replies with records, and it raises `ReferenceError: text is not defined` once any element has visible text. With neither, the reply is exactly `error: no selector or text provided`, with no driver call. |
| `PlaywrightTools.QueryElementsIntended` | src/tools/playwrightTools.ts:39-78 | The same tool with the query text handed to the page: a truthy text evaluates `*` and describes only the elements whose text includes it, in order, possibly none. Selector, lookup and no-query cases as in `QueryElements`. |
| `ElementQuery.FilterInPage` | src/tools/playwrightTools.ts:65-66 | The page-side filter as written. With a page binding of `text`, it is exactly the filter by that binding. With none, it raises `ReferenceError` exactly when some element has visible text, and otherwise keeps nothing. |
| `ElementQuery.LoginButtonQueryRaises` | src/tools/playwrightTools.ts:65-66 | For a page whose only element is a `Login` button and no page-side `text`, the filter by the query text keeps the button, but the code as written raises. |
| `ElementQuery.PlanQuery` | src/tools/playwrightTools.ts:52-76 | The selector decides exactly when it is truthy. The text is consulted only when the selector is absent, null or empty. With neither truthy there is no query. |
| `ElementQuery.SelectByText` | src/tools/playwrightTools.ts:65-66 | The text filter's result is an order-preserving subsequence of the elements. Every member has visible text including the query text. Each matching element appears as often as in the input, and no other element appears. |
| `ElementQuery.IncludesIffOccurs` | src/tools/playwrightTools.ts:66 | The model of `includes` holds exactly when the needle occurs at some index of the haystack. |
| `ElementQuery.DescribeAll` | src/tools/playwrightTools.ts:53-60 | One record per element, in the same order. Each record carries the element's tag, its text (or ""), its attributes and its box. |
| `ElementQuery.TextQueryRecordsMatch` | src/tools/playwrightTools.ts:65-73 | Every record of a text query has a text that includes the query text, and describes an element of the page. |
| `PlaywrightTools.FillInput` | src/tools/playwrightTools.ts:80-95 | Lookup guard, then exactly `fill(selector, value)` on the resolved page, then `ok`. |
| `PlaywrightTools.ChangePage` | src/tools/playwrightTools.ts:97-112 | Lookup guard, then exactly `goto(url)` with `wait_until` defaulting to `domcontentloaded`, then `ok`. |
| `PlaywrightTools.ClickElement` | src/tools/playwrightTools.ts:114-128 | Lookup guard, then exactly `click(selector)`, then `ok`. |
| `PlaywrightTools.DoubleClick` | src/tools/playwrightTools.ts:130-145 | Lookup guard, then exactly one mouse click at (x, y) with click count 2, then `ok`. |
| `PlaywrightTools.ScrollTo` | src/tools/playwrightTools.ts:147-161 | Lookup guard, then exactly one absolute scroll of the window to (0, y), then `ok`. |
| `PlaywrightTools.SendKeys` | src/tools/playwrightTools.ts:163-177 | Lookup guard, then exactly one `keyboard.type(keys)`, then `ok`. |

## Findings

| source | as written | input that shows it | evidently intended | confidence | as-written member | corrected member |
|---|---|---|---|---|---|---|
| src/tools/playwrightTools.ts:65-66 | The `$$eval` callback uses `text` as a free variable and is given no argument. The page runs the callback as source text, so `text` there is the page's global, not the tool's argument. | No `selector`, `text = "Login"`, a page with `<button>Login</button>` and no global `text`: the evaluation raises `ReferenceError: text is not defined`. | Pass the text to the page, as line 158 does for `y`, so the filter keeps the elements whose visible text includes the query text. | high, not executed | `PlaywrightTools.QueryElements`, `ElementQuery.FilterInPage`, `ElementQuery.LoginButtonQueryRaises` | `PlaywrightTools.QueryElementsIntended`, `ElementQuery.SelectByText` |

## Left out

- src/prompt.ts, src/index.ts, src/openai-provider.ts and src/agent.ts are not part of this model. They hold prompt text, command-line handling, stdout streaming, environment variables and client setup.
- The `clickAtCoordinates` tool that src/agent.ts imports is not defined in src/tools/playwrightTools.ts, so it is not modelled.
- Image resizing and JPEG compression by sharp are lossy and foreign. The recompressed base64 text is a parameter (`encoded`), and the recompression is recorded as a `Recompress` call.
- Playwright's own semantics are not modelled: selector matching, DOM evaluation, navigation, waits, and the floating-point geometry of `getBoundingClientRect`. Each call's outcome is a parameter. The elements an evaluation yields are a parameter too, in document order.
- Async scheduling and interleaving are not modelled. In the source the sweep's closes are fire-and-forget, and the sweep returns before any entry is removed. The model runs each close to completion in turn, over the entries as they stood when the sweep began.
- `BrowserTools.OpenPage`: does not model a session being closed while its navigation is pending. In that case the source's `addPage(...)!` yields null and the reply is `opened:null`. Sequentially the session is still present, so that cannot occur in the model.
- Exceptions that leave a tool's `execute` are turned into text by the agent library. That conversion is not part of the model, which stops at `Reply.Raised`.
- zod's schema checks are library behaviour: strict objects refusing unknown fields, and `string`/`number`/`boolean` type checks. Only the defaults and the `wait_until` domain are kept.
- The `wait_until` enum is modelled on its own, by `ToolSchema.ParseWaitUntil`. zod rejects a value outside the enum before `execute` runs. So `OpenPage` and `ChangePage` take the already-validated `Option<WaitUntil>` and apply only the default.
- JavaScript numbers are modelled as `real`, without floating-point rounding.
- `ElementQuery.FilterInPage`: a page-side binding of `text` is given by its string form, as `includes` converts it. A non-string value `includes` refuses outright (a RegExp raises `TypeError`) is not modelled. Playwright's wording around the page's exception is not modelled either: the model keeps only the JavaScript message.
- `Store.Registry.CleanupOldSessions`: takes `maxAgeMinutes` as an integer and time in integer milliseconds. A fractional threshold is not covered.
- `console.log` and `console.error` output is left out. The sweep's `failed` set stands for what it logs.
