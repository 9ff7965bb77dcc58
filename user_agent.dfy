/**
 * The visit tracker's reading of the browser's user-agent string: the device
 * type, the browser and the operating system recorded with each visit.
 */
module UserAgent {
  import opened Text

  /** `s` contains at least one of the patterns. */
  predicate ContainsAny(s: string, patterns: seq<string>) {
    patterns != [] && (Contains(s, patterns[0]) || ContainsAny(s, patterns[1..]))
  }

  /** `ContainsAny` holds exactly when some pattern occurs. */
  lemma {:induction false} ContainsAnyIff(s: string, patterns: seq<string>)
    ensures ContainsAny(s, patterns) <==> exists k :: 0 <= k < |patterns| && Contains(s, patterns[k])
  {
    if patterns != [] {
      ContainsAnyIff(s, patterns[1..]);
      assert forall k :: 1 <= k < |patterns| ==> patterns[k] == patterns[1..][k - 1];
    }
  }

  /** The alternatives of `/mobile|android|iphone|ipad|phone/`. */
  const MOBILE_PATTERNS: seq<string> := ["mobile", "android", "iphone", "ipad", "phone"]

  /** The alternatives of `/tablet|ipad/`. */
  const TABLET_PATTERNS: seq<string> := ["tablet", "ipad"]

  datatype DeviceType = Mobile | Tablet | Desktop

  /**
   * `getDeviceType` on the lower-cased user agent: mobile when any mobile
   * pattern occurs, otherwise tablet when "tablet" occurs (the "ipad"
   * alternative of the tablet test can never decide, since "ipad" already made
   * the device mobile), otherwise desktop.
   */
  function DeviceTypeOf(userAgent: string): (d: DeviceType)
    ensures d == Mobile <==> ContainsAny(Lower(userAgent), MOBILE_PATTERNS)
    ensures d == Tablet <==> !ContainsAny(Lower(userAgent), MOBILE_PATTERNS) && Contains(Lower(userAgent), "tablet")
  {
    var ua := Lower(userAgent);
    ContainsAnyIff(ua, MOBILE_PATTERNS);
    ContainsAnyIff(ua, TABLET_PATTERNS);
    assert MOBILE_PATTERNS[3] == TABLET_PATTERNS[1] == "ipad" && TABLET_PATTERNS[0] == "tablet";
    assert ContainsAny(ua, TABLET_PATTERNS) ==> Contains(ua, "tablet") || Contains(ua, "ipad");
    if ContainsAny(ua, MOBILE_PATTERNS) then Mobile
    else if ContainsAny(ua, TABLET_PATTERNS) then Tablet
    else Desktop
  }

  /** An iPad, whatever the case of its user agent, is recorded as mobile. */
  lemma IpadIsMobile(userAgent: string)
    requires Contains(Lower(userAgent), "ipad")
    ensures DeviceTypeOf(userAgent) == Mobile
  {
    ContainsAnyIff(Lower(userAgent), MOBILE_PATTERNS);
    assert MOBILE_PATTERNS[3] == "ipad";
  }

  /** `getBrowser`: the first of Chrome, Firefox, Safari and Edge the user agent contains, in that case-sensitive order. */
  function BrowserOf(userAgent: string): (name: string)
    ensures name == "Chrome" <==> Contains(userAgent, "Chrome")
    ensures name == "Firefox" <==> !Contains(userAgent, "Chrome") && Contains(userAgent, "Firefox")
    ensures name == "Safari" <==>
              !Contains(userAgent, "Chrome") && !Contains(userAgent, "Firefox") && Contains(userAgent, "Safari")
    ensures name == "Edge" <==>
              !Contains(userAgent, "Chrome") && !Contains(userAgent, "Firefox") && !Contains(userAgent, "Safari")
              && Contains(userAgent, "Edge")
    ensures name == "Unknown" <==>
              !Contains(userAgent, "Chrome") && !Contains(userAgent, "Firefox") && !Contains(userAgent, "Safari")
              && !Contains(userAgent, "Edge")
  {
    if Contains(userAgent, "Chrome") then "Chrome"
    else if Contains(userAgent, "Firefox") then "Firefox"
    else if Contains(userAgent, "Safari") then "Safari"
    else if Contains(userAgent, "Edge") then "Edge"
    else "Unknown"
  }

  /** A Chrome user agent also names Safari; it is recorded as Chrome. */
  lemma ChromeBeforeSafari(userAgent: string)
    requires Contains(userAgent, "Chrome") && Contains(userAgent, "Safari")
    ensures BrowserOf(userAgent) == "Chrome"
  {
  }

  /** `getOS`: the first of Windows, Mac, Linux, Android and iOS the user agent contains. */
  function OsOf(userAgent: string): (name: string)
    ensures name == "Windows" <==> Contains(userAgent, "Windows")
    ensures name == "macOS" <==> !Contains(userAgent, "Windows") && Contains(userAgent, "Mac")
    ensures name == "Linux" <==>
              !Contains(userAgent, "Windows") && !Contains(userAgent, "Mac") && Contains(userAgent, "Linux")
    ensures name == "Android" <==>
              !Contains(userAgent, "Windows") && !Contains(userAgent, "Mac") && !Contains(userAgent, "Linux")
              && Contains(userAgent, "Android")
    ensures name == "iOS" <==>
              !Contains(userAgent, "Windows") && !Contains(userAgent, "Mac") && !Contains(userAgent, "Linux")
              && !Contains(userAgent, "Android") && Contains(userAgent, "iOS")
    ensures name == "Unknown" <==>
              !Contains(userAgent, "Windows") && !Contains(userAgent, "Mac") && !Contains(userAgent, "Linux")
              && !Contains(userAgent, "Android") && !Contains(userAgent, "iOS")
  {
    if Contains(userAgent, "Windows") then "Windows"
    else if Contains(userAgent, "Mac") then "macOS"
    else if Contains(userAgent, "Linux") then "Linux"
    else if Contains(userAgent, "Android") then "Android"
    else if Contains(userAgent, "iOS") then "iOS"
    else "Unknown"
  }

  /** Android user agents also name Linux, which is checked first: they are recorded as Linux. */
  lemma AndroidRecordedAsLinux(userAgent: string)
    requires Contains(userAgent, "Linux") && Contains(userAgent, "Android")
    requires !Contains(userAgent, "Windows") && !Contains(userAgent, "Mac")
    ensures OsOf(userAgent) == "Linux"
  {
  }
}
