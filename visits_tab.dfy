/**
 * The admin table of page visits: the duration and URL formatting, the device
 * and browser icons, the summary cards, and the pager over the server's pages.
 */
module VisitsTab {
  import opened Options
  import opened Text
  import opened Numbers
  import opened Api
  import opened Collections

  /** Seconds per unit of a duration part. */
  function UnitSeconds(unit: char): nat {
    if unit == 'h' then 3600 else if unit == 'm' then 60 else 1
  }

  /** The seconds a list of `(value, unit)` parts adds up to. */
  function Total(parts: seq<(nat, char)>): nat {
    if parts == [] then 0 else parts[0].0 * UnitSeconds(parts[0].1) + Total(parts[1..])
  }

  /**
   * The parts `formatTime` shows for a positive duration: hours, minutes and
   * seconds when there is at least an hour, minutes and seconds when there is
   * at least a minute, otherwise seconds alone. They add up to the duration,
   * and every part after the leading one is below 60.
   */
  function Parts(seconds: nat): (ps: seq<(nat, char)>)
    ensures Total(ps) == seconds
    ensures seconds >= 3600 ==> |ps| == 3 && ps[0].1 == 'h' && ps[1].1 == 'm' && ps[2].1 == 's'
    ensures 60 <= seconds < 3600 ==> |ps| == 2 && ps[0].1 == 'm' && ps[1].1 == 's'
    ensures seconds < 60 ==> |ps| == 1 && ps[0].1 == 's'
    ensures forall k :: 0 <= k < |ps| ==> ps[k].0 < 60 || (k == 0 && ps[0].1 == 'h')
    ensures |ps| > 1 ==> ps[0].0 > 0
  {
    var hours := seconds / 3600;
    var minutes := (seconds % 3600) / 60;
    var secs := seconds % 60;
    ClockParts(seconds);
    TotalOfClock(hours, minutes, secs);
    if hours > 0 then [(hours, 'h'), (minutes, 'm'), (secs, 's')]
    else if minutes > 0 then [(minutes, 'm'), (secs, 's')]
    else [(secs, 's')]
  }

  /** Whole hours, the minutes left below an hour and the seconds left below a minute add back up to the duration. */
  lemma ClockParts(seconds: nat)
    ensures seconds == seconds / 3600 * 3600 + seconds % 3600 / 60 * 60 + seconds % 60
    ensures seconds % 3600 / 60 < 60 && seconds % 60 < 60
  {
  }

  /** The seconds that one, two and three clock parts add up to. */
  lemma TotalOfClock(hours: nat, minutes: nat, secs: nat)
    ensures Total([(secs, 's')]) == secs
    ensures Total([(minutes, 'm'), (secs, 's')]) == minutes * 60 + secs
    ensures Total([(hours, 'h'), (minutes, 'm'), (secs, 's')]) == hours * 3600 + minutes * 60 + secs
  {
    assert [(minutes, 'm'), (secs, 's')][1..] == [(secs, 's')];
    assert [(hours, 'h'), (minutes, 'm'), (secs, 's')][1..] == [(minutes, 'm'), (secs, 's')];
  }

  /** Each part as its number followed by its unit letter, separated by single spaces. */
  function Render(parts: seq<(nat, char)>): (r: string)
    ensures r == [] <==> parts == []
    ensures parts != [] ==> IsDigit(r[0]) && r[|r| - 1] == parts[|parts| - 1].1
  {
    if parts == [] then ""
    else if |parts| == 1 then NatToString(parts[0].0) + [parts[0].1]
    else NatToString(parts[0].0) + [parts[0].1, ' '] + Render(parts[1..])
  }

  /** `formatTime`: "N/A" exactly for a missing or zero duration, otherwise its parts. */
  function FormatVisitTime(seconds: Option<nat>): (r: string)
    ensures r == "N/A" <==> !TruthyNumber(seconds)
    ensures TruthyNumber(seconds) ==> r == Render(Parts(seconds.value))
  {
    if !TruthyNumber(seconds) then "N/A"
    else
      var r := Render(Parts(seconds.value));
      assert r[0] != 'N';
      r
  }

  /** `truncateUrl`: "N/A" for a missing or empty URL, the URL itself up to `maxLength`, and otherwise its first `maxLength` characters and "...". */
  function TruncateUrl(url: Option<string>, maxLength: nat): (r: string)
    ensures !TruthyText(url) ==> r == "N/A"
    ensures TruthyText(url) && |url.value| <= maxLength ==> r == url.value
    ensures TruthyText(url) && |url.value| > maxLength ==>
              |r| == maxLength + 3 && IsPrefix(r[..maxLength], url.value) && r[maxLength..] == "..."
  {
    if !TruthyText(url) then "N/A"
    else if |url.value| <= maxLength then url.value
    else url.value[..maxLength] + "..."
  }

  /** A shown URL never exceeds the limit by more than the three dots. */
  lemma TruncatedLength(url: Option<string>, maxLength: nat)
    ensures |TruncateUrl(url, maxLength)| <= maxLength + 3
  {
  }

  datatype DeviceIcon = MobileIcon | TabletIcon | DesktopIcon

  /** `getDeviceIcon`: the lower-cased type picks the mobile or tablet icon; anything else, or no type, the desktop one. */
  function DeviceIconFor(deviceType: Option<string>): (icon: DeviceIcon)
    ensures icon == MobileIcon <==> deviceType.Some? && Lower(deviceType.value) == "mobile"
    ensures icon == TabletIcon <==> deviceType.Some? && Lower(deviceType.value) == "tablet"
  {
    if deviceType.None? then DesktopIcon
    else if Lower(deviceType.value) == "mobile" then MobileIcon
    else if Lower(deviceType.value) == "tablet" then TabletIcon
    else DesktopIcon
  }

  datatype BrowserIcon = ChromeIcon | FirefoxIcon | SafariIcon | EdgeIcon | GlobeIcon

  /** `getBrowserIcon`: the first of chrome, firefox, safari and edge the lower-cased name contains. */
  function BrowserIconFor(browser: Option<string>): (icon: BrowserIcon)
    ensures browser.None? ==> icon == GlobeIcon
    ensures browser.Some? ==>
              var b := Lower(browser.value);
              (icon == ChromeIcon <==> Contains(b, "chrome"))
              && (icon == FirefoxIcon <==> !Contains(b, "chrome") && Contains(b, "firefox"))
              && (icon == SafariIcon <==> !Contains(b, "chrome") && !Contains(b, "firefox") && Contains(b, "safari"))
              && (icon == EdgeIcon <==> !Contains(b, "chrome") && !Contains(b, "firefox") && !Contains(b, "safari") && Contains(b, "edge"))
  {
    if browser.None? then GlobeIcon
    else
      var b := Lower(browser.value);
      if Contains(b, "chrome") then ChromeIcon
      else if Contains(b, "firefox") then FirefoxIcon
      else if Contains(b, "safari") then SafariIcon
      else if Contains(b, "edge") then EdgeIcon
      else GlobeIcon
  }

  /** Both icon pickers ignore letter case. */
  lemma IconsIgnoreCase(name: string)
    ensures DeviceIconFor(Some(Lower(name))) == DeviceIconFor(Some(name))
    ensures BrowserIconFor(Some(Lower(name))) == BrowserIconFor(Some(name))
  {
    LowerIdempotent(name);
  }

  /** The durations that count for the average: the visits whose time is present and non-zero, in order. */
  function TimedSeconds(visits: seq<PageVisit>): (ts: seq<nat>)
    ensures |ts| <= |visits|
    ensures forall k :: 0 <= k < |ts| ==> ts[k] > 0
    ensures ts == [] <==> forall k :: 0 <= k < |visits| ==> !TruthyNumber(visits[k].timeOnPageSeconds)
    ensures |ts| == |visits| <==> forall k :: 0 <= k < |visits| ==> TruthyNumber(visits[k].timeOnPageSeconds)
  {
    if visits == [] then []
    else
      var rest := TimedSeconds(visits[1..]);
      assert forall k :: 1 <= k < |visits| ==> visits[k] == visits[1..][k - 1];
      OwnTime(visits[0]) + rest
  }

  /** The time of one visit when it counts for the average, and nothing otherwise. */
  function OwnTime(v: PageVisit): seq<nat> {
    if TruthyNumber(v.timeOnPageSeconds) then [v.timeOnPageSeconds.value] else []
  }

  /** One more visit adds its time at the end when it has one, and nothing otherwise. */
  lemma {:induction false} TimedSecondsAppend(visits: seq<PageVisit>, v: PageVisit)
    ensures TimedSeconds(visits + [v]) ==
              TimedSeconds(visits) + if TruthyNumber(v.timeOnPageSeconds) then [v.timeOnPageSeconds.value] else []
  {
    if visits != [] {
      TailOfPush(visits, v);
      TimedSecondsAppend(visits[1..], v);
      SeqAssoc(OwnTime(visits[0]), TimedSeconds(visits[1..]), OwnTime(v));
    } else {
      assert [v][1..] == [];
    }
  }

  function Sum(xs: seq<nat>): nat {
    if xs == [] then 0 else xs[0] + Sum(xs[1..])
  }

  /** Every element is at least `lo`: the sum is at least `lo` times the count. */
  lemma {:induction false} SumAtLeast(xs: seq<nat>, lo: nat)
    requires forall k :: 0 <= k < |xs| ==> lo <= xs[k]
    ensures lo * |xs| <= Sum(xs)
  {
    if xs != [] {
      SumAtLeast(xs[1..], lo);
      assert lo * |xs| == lo + lo * |xs[1..]|;
    }
  }

  /** Every element is at most `hi`: the sum is at most `hi` times the count. */
  lemma {:induction false} SumAtMost(xs: seq<nat>, hi: nat)
    requires forall k :: 0 <= k < |xs| ==> xs[k] <= hi
    ensures Sum(xs) <= hi * |xs|
  {
    if xs != [] {
      SumAtMost(xs[1..], hi);
      assert hi * |xs| == hi + hi * |xs[1..]|;
    }
  }

  /** A rounded mean is at least any lower bound of the mean. */
  lemma RoundAtLeast(sum: nat, n: nat, lo: nat)
    requires n > 0 && lo * n <= sum
    ensures lo <= Round(sum, n)
  {
    var r := Round(sum, n);
    RoundBounds(sum, n);
    if r < lo {
      MulMonotone(r + 1, lo, n);
    }
  }

  /** A rounded mean is at most any upper bound of the mean. */
  lemma RoundAtMost(sum: nat, n: nat, hi: nat)
    requires n > 0 && sum <= hi * n
    ensures Round(sum, n) <= hi
  {
    var r := Round(sum, n);
    RoundBounds(sum, n);
    if r > hi {
      MulMonotone(hi + 1, r, n);
    }
  }

  /** The rounded mean of the timed visits, `Math.round(totalTime / count)`, or `None` when there is none. */
  function AverageSeconds(visits: seq<PageVisit>): (avg: Option<nat>)
    ensures avg.None? <==> TimedSeconds(visits) == []
    ensures avg.Some? ==>
              var ts := TimedSeconds(visits);
              2 * avg.value * |ts| <= 2 * Sum(ts) + |ts| < 2 * (avg.value + 1) * |ts|
  {
    var ts := TimedSeconds(visits);
    if ts == [] then None
    else
      RoundBounds(Sum(ts), |ts|);
      Some(Round(Sum(ts), |ts|))
  }

  /** The average lies between the shortest and the longest timed visit. */
  lemma AverageWithinRange(visits: seq<PageVisit>, lo: nat, hi: nat)
    requires forall k :: 0 <= k < |TimedSeconds(visits)| ==> lo <= TimedSeconds(visits)[k] <= hi
    requires TimedSeconds(visits) != []
    ensures lo <= AverageSeconds(visits).value <= hi
  {
    var ts := TimedSeconds(visits);
    SumAtLeast(ts, lo);
    SumAtMost(ts, hi);
    RoundAtLeast(Sum(ts), |ts|, lo);
    RoundAtMost(Sum(ts), |ts|, hi);
  }

  lemma MulMonotone(x: nat, y: nat, n: nat)
    requires x <= y
    ensures x * n <= y * n
  {
  }

  /** The average card: "N/A" exactly when no visit has a time; never "N/A" otherwise, since the mean of positive times is positive. */
  function AverageTimeText(visits: seq<PageVisit>): (r: string)
    ensures r == "N/A" <==> TimedSeconds(visits) == []
    ensures r != "N/A" ==> AverageSeconds(visits).Some? && r == Render(Parts(AverageSeconds(visits).value))
  {
    var avg := AverageSeconds(visits);
    if avg.None? then "N/A"
    else
      SumAtLeast(TimedSeconds(visits), 1);
      RoundAtLeast(Sum(TimedSeconds(visits)), |TimedSeconds(visits)|, 1);
      FormatVisitTime(Some(avg.value))
  }

  /** The "unique users" card: the number of visits with a user, not the number of distinct users. */
  function UsersCard(visits: seq<PageVisit>): (n: nat)
    ensures n <= |visits|
    ensures n == 0 <==> forall k :: 0 <= k < |visits| ==> !TruthyText(visits[k].userId)
    ensures n == |visits| <==> forall k :: 0 <= k < |visits| ==> TruthyText(visits[k].userId)
  {
    if visits == [] then 0
    else
      var rest := UsersCard(visits[1..]);
      assert forall k :: 1 <= k < |visits| ==> visits[k] == visits[1..][k - 1];
      (if TruthyText(visits[0].userId) then 1 else 0) + rest
  }

  /** One more visit adds one exactly when it has a user. */
  lemma {:induction false} UsersCardAppend(visits: seq<PageVisit>, v: PageVisit)
    ensures UsersCard(visits + [v]) == UsersCard(visits) + if TruthyText(v.userId) then 1 else 0
  {
    if visits != [] {
      TailOfPush(visits, v);
      UsersCardAppend(visits[1..], v);
    } else {
      assert [v][1..] == [];
    }
  }

  /** Two visits by one user count twice. */
  lemma UsersCardCountsVisits(v: PageVisit)
    requires TruthyText(v.userId)
    ensures UsersCard([v, v]) == 2
  {
    assert [v, v][1..] == [v];
  }

  /** The page URL of every visit, in order. */
  function Urls(visits: seq<PageVisit>): (urls: seq<string>)
    ensures |urls| == |visits| && forall k :: 0 <= k < |visits| ==> urls[k] == visits[k].pageUrl
  {
    seq(|visits|, k requires 0 <= k < |visits| => visits[k].pageUrl)
  }

  /** The "unique pages" card: the number of distinct URLs, at most one per visit and at least one when there is a visit. */
  function PagesCard(visits: seq<PageVisit>): (n: nat)
    ensures n == |Elements(Urls(visits))|
    ensures n <= |visits|
    ensures |visits| > 0 ==> n > 0
  {
    ElementsBound(Urls(visits));
    |Elements(Urls(visits))|
  }

  /** Visits per server page. */
  const ITEMS_PER_PAGE: nat := 20

  /** "Mostrando first a last": the first shown ordinal and the last, capped by the total. */
  function ShownRange(currentPage: int, totalVisits: nat): (r: (int, int))
    ensures r.0 - 1 == (currentPage - 1) * ITEMS_PER_PAGE
    ensures r.1 <= totalVisits
    ensures currentPage >= 1 && r.0 <= totalVisits ==>
              r.0 <= r.1 && r.1 - r.0 < ITEMS_PER_PAGE && (r.1 - r.0 + 1 == ITEMS_PER_PAGE || r.1 == totalVisits)
  {
    var last := if currentPage * ITEMS_PER_PAGE <= totalVisits then currentPage * ITEMS_PER_PAGE else totalVisits;
    ((currentPage - 1) * ITEMS_PER_PAGE + 1, last)
  }

  /** The numbered page buttons: 1 up to `min(5, totalPages)`. */
  function PageButtons(totalPages: int): (pages: seq<int>)
    ensures |pages| == if totalPages <= 0 then 0 else if totalPages < 5 then totalPages else 5
    ensures forall k :: 0 <= k < |pages| ==> pages[k] == k + 1 && 1 <= pages[k] <= totalPages
  {
    var n := if totalPages <= 0 then 0 else if totalPages < 5 then totalPages else 5;
    seq(n, k => k + 1)
  }

  /**
   * How a request for a page of visits ends: a response with visits and its
   * pagination, a response without visits, or a request that throws (the
   * server cannot be reached).
   */
  datatype VisitsResponse =
    | Loaded(visits: seq<PageVisit>, pages: int, total: nat)
    | NoVisits
    | Unreachable

  const LOAD_ERROR: string := "Error al cargar las visitas"
  const CONNECTION_ERROR: string := "Error de conexión con el servidor"

  /** The table's state: the loaded page of visits, the pager and the error text. */
  class VisitsTable {
    var visits: seq<PageVisit>
    var loading: bool
    var error: Option<string>
    var currentPage: int
    var totalPages: int
    var totalVisits: nat

    /** The current page is a real page. */
    ghost predicate Valid()
      reads this
    {
      1 <= currentPage <= totalPages
    }

    constructor ()
      ensures visits == [] && loading && error == None
      ensures currentPage == 1 && totalPages == 1 && totalVisits == 0
      ensures Valid()
    {
      visits := [];
      loading := true;
      error := None;
      currentPage := 1;
      totalPages := 1;
      totalVisits := 0;
    }

    /** The pager is shown only when there is more than one page; a hidden pager is one whose both buttons would be disabled. */
    predicate ShowsPager()
      reads this
      ensures Valid() ==> (!ShowsPager() <==> PreviousDisabled() && NextDisabled())
    {
      totalPages > 1
    }

    /** "Anterior" is disabled on the page of the first numbered button. */
    predicate PreviousDisabled()
      reads this
      ensures Valid() ==> (PreviousDisabled() <==> currentPage == PageButtons(totalPages)[0])
    {
      currentPage == 1
    }

    /** "Siguiente" is disabled on the last page, which is the last numbered button while there are at most five pages. */
    predicate NextDisabled()
      reads this
      ensures Valid() && totalPages <= 5 ==>
                (NextDisabled() <==> currentPage == PageButtons(totalPages)[|PageButtons(totalPages)| - 1])
    {
      currentPage == totalPages
    }

    /**
     * The end of `fetchVisits`: a response with visits replaces the rows and the
     * page counts, one without sets the load error, a request that throws sets
     * the connection error; loading ends in every case.
     */
    method ReceivePage(response: VisitsResponse)
      modifies this
      ensures !loading
      ensures response.Loaded? ==>
                visits == response.visits && totalPages == response.pages && totalVisits == response.total
                && error == old(error)
      ensures !response.Loaded? ==>
                visits == old(visits) && totalPages == old(totalPages) && totalVisits == old(totalVisits)
      ensures response.NoVisits? ==> error == Some(LOAD_ERROR)
      ensures response.Unreachable? ==> error == Some(CONNECTION_ERROR)
      ensures currentPage == old(currentPage)
    {
      match response {
        case Loaded(rows, pages, total) =>
          visits := rows;
          totalPages := pages;
          totalVisits := total;
        case NoVisits =>
          error := Some(LOAD_ERROR);
        case Unreachable =>
          error := Some(CONNECTION_ERROR);
      }
      loading := false;
    }

    /** "Anterior": one page back, never below the first. */
    method Previous()
      modifies this
      ensures currentPage == if old(currentPage) - 1 >= 1 then old(currentPage) - 1 else 1
      ensures currentPage >= 1
      ensures old(Valid()) ==> Valid()
      ensures old(Valid()) ==> (old(PreviousDisabled()) <==> currentPage == old(currentPage))
      ensures totalPages == old(totalPages) && visits == old(visits) && totalVisits == old(totalVisits)
      ensures loading == old(loading) && error == old(error)
    {
      currentPage := if currentPage - 1 >= 1 then currentPage - 1 else 1;
    }

    /** "Siguiente": one page forward, never past the last. */
    method Next()
      modifies this
      ensures currentPage == if old(currentPage) + 1 <= totalPages then old(currentPage) + 1 else totalPages
      ensures currentPage <= totalPages
      ensures old(Valid()) ==> Valid()
      ensures old(Valid()) ==> (old(NextDisabled()) <==> currentPage == old(currentPage))
      ensures totalPages == old(totalPages) && visits == old(visits) && totalVisits == old(totalVisits)
      ensures loading == old(loading) && error == old(error)
    {
      currentPage := if currentPage + 1 <= totalPages then currentPage + 1 else totalPages;
    }

    /** A numbered button: jumps to its page, which is always a real page. */
    method GoToPage(page: int)
      requires page in PageButtons(totalPages)
      modifies this
      ensures currentPage == page
      ensures Valid()
      ensures totalPages == old(totalPages) && visits == old(visits) && totalVisits == old(totalVisits)
      ensures loading == old(loading) && error == old(error)
    {
      currentPage := page;
    }
  }
}
