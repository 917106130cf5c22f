/**
  What every tool hands back to the agent, the fixed reply texts, and the
  parameter domains and defaults the tools share.
*/
module ToolSchema {
  import opened Wrappers
  import opened Driver

  /** One record of an element query: tag name, visible text, attributes, box. */
  datatype ElementInfo = ElementInfo(tag: string, text: string, attrs: seq<Attribute>, bbox: Rect)

  /**
    The value a tool's `execute` produces: a text reply, the records of an
    element query, or the exception a driver call threw, which leaves
    `execute` unhandled.
  */
  datatype Reply = Text(text: string) | Elements(records: seq<ElementInfo>) | Raised(error: string)

  const OK := "ok"
  const ERROR_PREFIX := "error: "
  const NO_QUERY := "error: no selector or text provided"
  const DEFAULT_WAIT_UNTIL := DomContentLoaded

  /** The reply for a page id that does not resolve in the given session. */
  function UnknownPage(pageId: string): (s: string)
    ensures |s| > |pageId| && ERROR_PREFIX <= s && s[|s| - |pageId|..] == pageId
  {
    ERROR_PREFIX + "unknown page " + pageId
  }

  /** The reply for a session id that is not registered. */
  function UnknownSession(sessionId: string): (s: string)
    ensures |s| > |sessionId| && ERROR_PREFIX <= s && s[|s| - |sessionId|..] == sessionId
  {
    ERROR_PREFIX + "unknown session " + sessionId
  }

  /** A driver call that returned gives the fixed success text; one that threw propagates. */
  function Completed(outcome: Outcome, success: string): (r: Reply)
    ensures outcome.Returns? <==> r == Text(success)
    ensures outcome.Throws? ==> r == Raised(outcome.error)
  {
    if outcome.Returns? then Text(success) else Raised(outcome.error)
  }

  /** The name of a `waitUntil` policy as the tool schema spells it. */
  function WaitUntilName(w: WaitUntil): string
  {
    match w
    case Load => "load"
    case DomContentLoaded => "domcontentloaded"
    case NetworkIdle => "networkidle"
    case Commit => "commit"
  }

  /**
    The `wait_until` parameter: absent means `domcontentloaded`; a given value
    must be one of the four names, anything else is rejected (None).
  */
  function ParseWaitUntil(raw: Option<string>): (r: Option<WaitUntil>)
    ensures raw.None? ==> r == Some(DEFAULT_WAIT_UNTIL)
    ensures raw.Some? && r.Some? ==> WaitUntilName(r.value) == raw.value
  {
    match raw
    case None => Some(DEFAULT_WAIT_UNTIL)
    case Some(name) =>
      if name == "load" then Some(Load)
      else if name == "domcontentloaded" then Some(DomContentLoaded)
      else if name == "networkidle" then Some(NetworkIdle)
      else if name == "commit" then Some(Commit)
      else None
  }

  /** Every policy's own name is accepted and parses back to that policy. */
  lemma ParseWaitUntilAcceptsEveryName(w: WaitUntil)
    ensures ParseWaitUntil(Some(WaitUntilName(w))) == Some(w)
  {
    match w
    case Load =>
    case DomContentLoaded =>
    case NetworkIdle =>
    case Commit =>
  }
}
