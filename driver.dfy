/**
  The foreign surface the core talks to: Playwright's browser, context and page
  handles, the calls made on them, and the image recompression step.

  Handles are opaque: the model uses only their identity and the object each
  was created from. A call into the driver is not executed: its outcome (it
  returns, possibly with a value, or it throws) is a parameter of the operation
  that makes the call, and the operation reports the calls it issued, in order,
  as a sequence of `Action`s.
*/
module Driver {
  import opened Wrappers

  /** A launched Chromium process. */
  class Browser {
    constructor Launch()
    {
    }
  }

  /** An isolated browsing context (cookies, storage) of one browser. */
  class BrowserContext {
    const browser: Browser

    constructor NewContext(browser: Browser)
      ensures this.browser == browser
    {
      this.browser := browser;
    }
  }

  /** One tab, opened in a browsing context. */
  class Page {
    const context: BrowserContext

    constructor NewPage(context: BrowserContext)
      ensures this.context == context
    {
      this.context := context;
    }
  }

  /** What a driver call did: returned `value`, or threw `error`. */
  datatype Fallible<+T> = Returns(value: T) | Throws(error: string)

  /** A driver call whose only result is that it completed. */
  type Outcome = Fallible<()>

  /** Playwright's `waitUntil` navigation policy. */
  datatype WaitUntil = Load | DomContentLoaded | NetworkIdle | Commit

  /** Options handed to `chromium.launch`. */
  datatype LaunchOptions = LaunchOptions(headless: bool, args: seq<string>)

  /** Options handed to `browser.newContext`: a device preset and a viewport. */
  datatype ContextOptions = ContextOptions(device: string, viewportWidth: int, viewportHeight: int)

  /** The per-page calls the tools make. */
  datatype PageCommand =
    | Goto(url: string, waitUntil: WaitUntil)
    | Fill(selector: string, value: string)
    | Click(selector: string)
    | MouseClick(x: real, y: real, clickCount: nat)
    | ScrollWindowTo(left: real, top: real)
    | TypeKeys(keys: string)
    | Screenshot(fullPage: bool, format: string)
    | EvalAll(selector: string)

  /** One call into the driver or into the image library. */
  datatype Action =
    | LaunchChromium(launchOptions: LaunchOptions)
    | NewContext(browser: Browser, contextOptions: ContextOptions)
    | NewPage(context: BrowserContext)
    | CloseBrowser(browser: Browser)
    | OnPage(page: Page, command: PageCommand)
    | Recompress(image: seq<bv8>, maxWidth: real, withoutEnlargement: bool, format: string, quality: real)

  /** A DOM attribute as the page reports it. */
  datatype Attribute = Attribute(name: string, value: string)

  /** The viewport-relative box `getBoundingClientRect` reports. */
  datatype Rect = Rect(x: real, y: real, width: real, height: real)

  /**
    An element as the page's `$$eval` hands it to the callback, in document
    order. `innerText` is absent for elements that are not HTML elements.
  */
  datatype DomElement = DomElement(tagName: string, innerText: Option<string>, attributes: seq<Attribute>, rect: Rect)
}
