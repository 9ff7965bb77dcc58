/**
 * The gate around every page that shows phones and tablets a notice instead
 * of the practice, while letting known crawlers through.
 */
module DeviceCheck {
  import opened Options
  import opened Text
  import opened UserAgent

  /** The alternatives of the crawler pattern. */
  const BOT_PATTERNS: seq<string> := [
    "googlebot", "bingbot", "yandex", "baiduspider", "duckduckbot", "slurp", "facebot",
    "facebookexternalhit", "twitterbot", "linkedinbot", "embedly", "quora link preview",
    "pinterest", "slackbot", "whatsapp", "telegram"]

  /** The alternatives of the handheld pattern. */
  const HANDHELD_PATTERNS: seq<string> := [
    "android", "webos", "iphone", "ipad", "ipod", "blackberry", "iemobile", "opera mini"]

  /** Windows narrower than this are treated as handheld. */
  const MIN_DESKTOP_WIDTH: int := 768

  /** A known crawler, by its lower-cased user agent. */
  predicate IsBot(userAgent: string)
    ensures IsBot(userAgent) <==> exists k :: 0 <= k < |BOT_PATTERNS| && Contains(Lower(userAgent), BOT_PATTERNS[k])
  {
    ContainsAnyIff(Lower(userAgent), BOT_PATTERNS);
    ContainsAny(Lower(userAgent), BOT_PATTERNS)
  }

  /** The crawler test ignores case: lower-casing the user agent first changes nothing. */
  lemma BotIgnoresCase(userAgent: string)
    ensures IsBot(Lower(userAgent)) <==> IsBot(userAgent)
  {
    LowerIdempotent(userAgent);
  }

  /** The decision of `checkDevice`: never for a crawler; otherwise a handheld user agent or a narrow window. */
  function IsMobileDevice(userAgent: string, innerWidth: int): (mobile: bool)
    ensures IsBot(userAgent) ==> !mobile
    ensures !IsBot(userAgent) ==>
              (mobile <==> ContainsAny(Lower(userAgent), HANDHELD_PATTERNS) || innerWidth < MIN_DESKTOP_WIDTH)
  {
    !IsBot(userAgent) && (ContainsAny(Lower(userAgent), HANDHELD_PATTERNS) || innerWidth < MIN_DESKTOP_WIDTH)
  }

  /** What the gate renders. */
  datatype View = Children | Spinner | MobileNotice

  /** The browser facts `checkDevice` reads: the user agent and the window's inner width. */
  datatype Window = Window(userAgent: string, innerWidth: int)

  /** The gate's state. */
  class DeviceGate {
    var isMobile: bool
    var isLoading: bool
    var mounted: bool

    constructor ()
      ensures !isMobile && isLoading && !mounted
    {
      isMobile := false;
      isLoading := true;
      mounted := false;
    }

    /**
     * `checkDevice`, run on mounting and on every resize: without a window it
     * changes nothing; with one it decides whether the device is mobile and
     * ends the loading state.
     */
    method CheckDevice(window: Option<Window>)
      modifies this
      ensures mounted == old(mounted)
      ensures window.None? ==> isMobile == old(isMobile) && isLoading == old(isLoading)
      ensures window.Some? ==>
                !isLoading && isMobile == IsMobileDevice(window.value.userAgent, window.value.innerWidth)
    {
      if window.Some? {
        var userAgent := window.value.userAgent;
        if IsBot(userAgent) {
          isMobile := false;
          isLoading := false;
          return;
        }
        isMobile := ContainsAny(Lower(userAgent), HANDHELD_PATTERNS) || window.value.innerWidth < MIN_DESKTOP_WIDTH;
        isLoading := false;
      }
    }

    /** The mount effect: marks the gate mounted and checks the device once. */
    method Mount(window: Option<Window>)
      modifies this
      ensures mounted
      ensures window.None? ==> isMobile == old(isMobile) && isLoading == old(isLoading)
      ensures window.Some? ==>
                !isLoading && isMobile == IsMobileDevice(window.value.userAgent, window.value.innerWidth)
    {
      mounted := true;
      CheckDevice(window);
    }

    /** The page before mounting, a spinner while loading, the notice on mobile, the page otherwise. */
    function Render(): (v: View)
      reads this
      ensures v == MobileNotice <==> mounted && !isLoading && isMobile
      ensures v == Spinner <==> mounted && isLoading
    {
      if !mounted then Children
      else if isLoading then Spinner
      else if isMobile then MobileNotice
      else Children
    }
  }

  /** A crawler always gets the page once the gate has checked it, however narrow its window. */
  lemma BotsSeeThePage(gate: DeviceGate, userAgent: string, innerWidth: int)
    requires IsBot(userAgent)
    requires gate.mounted && !gate.isLoading && gate.isMobile == IsMobileDevice(userAgent, innerWidth)
    ensures gate.Render() == Children
  {
  }
}
