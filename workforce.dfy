/** The workforce page, src/pages/Workforce.tsx: the search over the built
    worker records, the "No workers found" message, the status colour, the
    four stat cards and the weekly-hours bar. The records are those of
    `UseWorkforce.BuildWorkforce`; the search term is an input. */
module Workforce {
  import opened Common
  import opened Text
  import opened UseWorkforce

  // ------------------------------------------------------------ search

  /** The search predicate: the lower-cased term occurs in the lower-cased
      "first last", role label or current project. */
  predicate Matches(w: WorkerData, term: string)
  {
    Includes(Lower(w.firstName + " " + w.lastName), Lower(term))
    || Includes(Lower(w.role), Lower(term))
    || Includes(Lower(w.currentProject), Lower(term))
  }

  /** `filteredWorkers`. */
  function FilterWorkers(workers: seq<WorkerData>, term: string): (shown: seq<WorkerData>)
    ensures |shown| <= |workers|
    ensures forall w :: w in shown <==> w in workers && Matches(w, term)
    ensures IsSubsequence(shown, workers)
  {
    FilterMembers(workers, (w: WorkerData) => Matches(w, term));
    FilterIsSubsequence(workers, (w: WorkerData) => Matches(w, term));
    Filter(workers, (w: WorkerData) => Matches(w, term))
  }

  /** An empty search shows every worker, in order. */
  lemma EmptySearchShowsAll(workers: seq<WorkerData>)
    ensures FilterWorkers(workers, "") == workers
  {
    FilterAll(workers, (w: WorkerData) => Matches(w, ""));
  }

  lemma IncludesLonger(s: string, x: string, y: string)
    ensures Includes(s, x + y) ==> Includes(s, x)
  {
    if Includes(s, x + y) {
      var i :| OccursAt(s, x + y, i);
      assert s[i..i + |x|] == (x + y)[..|x|] == x;
      assert OccursAt(s, x, i);
    }
  }

  lemma MatchesLonger(w: WorkerData, term: string, more: string)
    ensures Matches(w, term + more) ==> Matches(w, term)
  {
    LowerAppend(term, more);
    IncludesLonger(Lower(w.firstName + " " + w.lastName), Lower(term), Lower(more));
    IncludesLonger(Lower(w.role), Lower(term), Lower(more));
    IncludesLonger(Lower(w.currentProject), Lower(term), Lower(more));
  }

  /** Typing more of the term only narrows the list: the longer search shows
      a subsequence of the shorter one's results, which is exactly the
      shorter results filtered again. */
  lemma TypingNarrows(workers: seq<WorkerData>, term: string, more: string)
    ensures FilterWorkers(workers, term + more) == Filter(FilterWorkers(workers, term), (w: WorkerData) => Matches(w, term + more))
    ensures IsSubsequence(FilterWorkers(workers, term + more), FilterWorkers(workers, term))
  {
    var p := (w: WorkerData) => Matches(w, term);
    var q := (w: WorkerData) => Matches(w, term + more);
    forall w
      ensures q(w) ==> p(w)
    {
      MatchesLonger(w, term, more);
    }
    FilterNarrower(workers, p, q);
    FilterIsSubsequence(Filter(workers, p), q);
  }

  lemma LowerIdempotent(s: string)
    ensures Lower(Lower(s)) == Lower(s)
  {
  }

  /** The search ignores the case of the term. */
  lemma SearchIgnoresCase(workers: seq<WorkerData>, term: string)
    ensures FilterWorkers(workers, Lower(term)) == FilterWorkers(workers, term)
  {
    LowerIdempotent(term);
    FilterCongruent(workers, (w: WorkerData) => Matches(w, Lower(term)), (w: WorkerData) => Matches(w, term));
  }

  /** The "No workers found matching your search." message. */
  predicate ShowsNoWorkersFound(workers: seq<WorkerData>, term: string)
  {
    |FilterWorkers(workers, term)| == 0
  }

  /** The message appears exactly when no worker matches; with an empty
      search, exactly when there are no workers. */
  lemma NoWorkersFoundRule(workers: seq<WorkerData>, term: string)
    ensures ShowsNoWorkersFound(workers, term) <==> forall i :: 0 <= i < |workers| ==> !Matches(workers[i], term)
    ensures ShowsNoWorkersFound(workers, "") <==> workers == []
  {
    assert CountWhere(workers, (w: WorkerData) => Matches(w, term)) == |FilterWorkers(workers, term)|;
    EmptySearchShowsAll(workers);
  }

  // ------------------------------------------------------------ status colour

  const GreenBadge := "bg-green-100 text-green-800"
  const YellowBadge := "bg-yellow-100 text-yellow-800"
  const GrayBadge := "bg-gray-100 text-gray-800"

  /** `getStatusColor`: green on site, yellow on break, grey otherwise. */
  function StatusColor(status: string): (c: string)
    ensures c == GreenBadge <==> status == "On Site"
    ensures c == YellowBadge <==> status == "Break"
    ensures c == GrayBadge <==> status != "On Site" && status != "Break"
  {
    match status
    case "On Site" => GreenBadge
    case "Break" => YellowBadge
    case "Off Duty" => GrayBadge
    case _ => GrayBadge
  }

  /** Each presence the hook produces has its own colour. */
  lemma PresenceColors(p: Presence)
    ensures StatusColor(PresenceName(p)) == match p
                                           case OnSite => GreenBadge
                                           case Break => YellowBadge
                                           case OffDuty => GrayBadge
  {
  }

  // ------------------------------------------------------------ stat cards

  predicate IsOnSite(w: WorkerData)
  {
    w.status == OnSite
  }

  /** The "On Site" card. */
  function OnSiteCount(workers: seq<WorkerData>): nat
  {
    CountWhere(workers, IsOnSite)
  }

  /** The "On Site" card never exceeds the "Total Workers" card, counts
      exactly the green cards, and equals it only when everyone is on site. */
  lemma OnSiteCountBounds(workers: seq<WorkerData>)
    ensures OnSiteCount(workers) <= |workers|
    ensures OnSiteCount(workers) == |Filter(workers, (w: WorkerData) => StatusColor(PresenceName(w.status)) == GreenBadge)|
    ensures OnSiteCount(workers) == |workers| <==> forall i :: 0 <= i < |workers| ==> workers[i].status == OnSite
  {
    FilterCongruent(workers, IsOnSite, (w: WorkerData) => StatusColor(PresenceName(w.status)) == GreenBadge);
  }

  function HoursToday(w: WorkerData): real
  {
    w.hoursToday
  }

  function WeeklyHoursOf(w: WorkerData): real
  {
    w.weeklyHours
  }

  /** The "Total Hours Today" card before `toFixed(1)`. */
  function TotalHoursToday(workers: seq<WorkerData>): real
  {
    SumBy(workers, HoursToday)
  }

  /** The "Weekly Hours" card before `toFixed(1)`. */
  function TotalWeeklyHours(workers: seq<WorkerData>): real
  {
    SumBy(workers, WeeklyHoursOf)
  }

  /** Both hour cards add up worker by worker, and are not negative when no
      worker's figure is. */
  lemma HourCardsAdd(a: seq<WorkerData>, b: seq<WorkerData>)
    ensures TotalHoursToday(a + b) == TotalHoursToday(a) + TotalHoursToday(b)
    ensures TotalWeeklyHours(a + b) == TotalWeeklyHours(a) + TotalWeeklyHours(b)
    ensures (forall i :: 0 <= i < |a| ==> a[i].weeklyHours >= 0.0) ==> TotalWeeklyHours(a) >= 0.0
  {
    SumByAppend(a, b, HoursToday);
    SumByAppend(a, b, WeeklyHoursOf);
    if forall i :: 0 <= i < |a| ==> a[i].weeklyHours >= 0.0 {
      SumByNonNegative(a, WeeklyHoursOf);
    }
  }

  // ------------------------------------------------------------ weekly bar

  /** The width in percent of the weekly bar: the share of a 40-hour week,
      capped at 100. */
  function WeeklyBarWidth(weeklyHours: real): (width: real)
    ensures width <= 100.0
    ensures weeklyHours >= 0.0 ==> width >= 0.0
    ensures width == 100.0 <==> weeklyHours >= 40.0
    ensures weeklyHours < 40.0 ==> width * 40.0 == weeklyHours * 100.0
  {
    var share := (weeklyHours / 40.0) * 100.0;
    if share < 100.0 then share else 100.0
  }
}
