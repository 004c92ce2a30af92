/** The route table of src/App.tsx and what a visit to a pathname shows.
    Path matching follows the router's defaults: a pattern is a list of
    segments, a literal segment matches case-insensitively (ASCII), `:id`
    matches one non-empty segment, trailing slashes are ignored, and a path
    that matches no declared route falls to the `*` (NotFound) route. */
module AppRoutes {
  import opened Common
  import opened Text
  import opened Roles
  import ProtectedRoute

  /** The literal segments the table uses; `WordText` spells each. */
  datatype Word =
    | LoginSeg | SignupSeg | AuthSeg | DashboardSeg | ProjectsSeg | SitesSeg
    | TasksSeg | MySeg | TodaySeg | TimesheetSeg | WorkforceSeg | EquipmentSeg
    | ReportsSeg | SettingsSeg | TrainingSeg | IncidentsSeg | NewSeg | MineSeg

  function WordText(w: Word): string
  {
    match w
    case LoginSeg => "login"
    case SignupSeg => "signup"
    case AuthSeg => "auth"
    case DashboardSeg => "dashboard"
    case ProjectsSeg => "projects"
    case SitesSeg => "sites"
    case TasksSeg => "tasks"
    case MySeg => "my"
    case TodaySeg => "today"
    case TimesheetSeg => "timesheet"
    case WorkforceSeg => "workforce"
    case EquipmentSeg => "equipment"
    case ReportsSeg => "reports"
    case SettingsSeg => "settings"
    case TrainingSeg => "training"
    case IncidentsSeg => "incidents"
    case NewSeg => "new"
    case MineSeg => "mine"
  }

  datatype Segment = Lit(word: Word) | Param

  datatype Page =
    | IndexPage | LoginPage | SignupPage | AuthPage
    | DashboardPage | ProjectsPage | ProjectDetailPage | SitesPage | SiteDetailPage
    | TasksPage | MyTasksPage | TodaysTasksPage | TimesheetPage | WorkforcePage
    | EquipmentPage | ReportsPage | SettingsPage | TrainingPage
    | NewIncidentPage | MyIncidentsPage | NotFoundPage

  /** `Public` routes render their page directly; `Guarded` ones are wrapped
      in `ProtectedRoute` with the given `requiredRole` prop. */
  datatype Access = Public | Guarded(requiredRole: Option<string>)

  datatype Route = Route(pattern: seq<Segment>, access: Access, page: Page)

  const Routes: seq<Route> := [
    Route([], Public, IndexPage),
    Route([Lit(LoginSeg)], Public, LoginPage),
    Route([Lit(SignupSeg)], Public, SignupPage),
    Route([Lit(AuthSeg)], Public, AuthPage),
    Route([Lit(DashboardSeg)], Guarded(None), DashboardPage),
    Route([Lit(ProjectsSeg)], Guarded(None), ProjectsPage),
    Route([Lit(ProjectsSeg), Param], Guarded(None), ProjectDetailPage),
    Route([Lit(SitesSeg)], Guarded(None), SitesPage),
    Route([Lit(SitesSeg), Param], Guarded(None), SiteDetailPage),
    Route([Lit(TasksSeg)], Guarded(None), TasksPage),
    Route([Lit(TasksSeg), Lit(MySeg)], Guarded(None), MyTasksPage),
    Route([Lit(TasksSeg), Lit(TodaySeg)], Guarded(None), TodaysTasksPage),
    Route([Lit(TimesheetSeg)], Guarded(None), TimesheetPage),
    Route([Lit(WorkforceSeg)], Guarded(None), WorkforcePage),
    Route([Lit(EquipmentSeg)], Guarded(None), EquipmentPage),
    Route([Lit(ReportsSeg)], Guarded(None), ReportsPage),
    Route([Lit(SettingsSeg)], Guarded(None), SettingsPage),
    Route([Lit(TrainingSeg)], Guarded(None), TrainingPage),
    Route([Lit(IncidentsSeg), Lit(NewSeg)], Guarded(None), NewIncidentPage),
    Route([Lit(IncidentsSeg), Lit(MineSeg)], Guarded(None), MyIncidentsPage)
  ]

  /** The `*` route. */
  const CatchAll := Route([], Public, NotFoundPage)

  function TrimTrailingSlashes(s: string): (r: string)
    ensures |r| <= |s| && r == s[..|r|] && (r == [] || r[|r| - 1] != '/')
    ensures forall i :: |r| <= i < |s| ==> s[i] == '/'
  {
    if s != [] && s[|s| - 1] == '/' then
      var r := TrimTrailingSlashes(s[..|s| - 1]);
      assert s[..|s| - 1][..|r|] == s[..|r|];
      r
    else s
  }

  /** The segments of a pathname; `None` when it does not start with a slash. */
  function PathSegments(path: string): Option<seq<string>>
  {
    if path == [] || path[0] != '/' then None
    else
      var body := TrimTrailingSlashes(path[1..]);
      if body == [] then Some([]) else Some(Split(body, '/'))
  }

  predicate SegmentMatches(seg: string, s: Segment)
  {
    match s
    case Param => seg != []
    case Lit(w) => Lower(seg) == WordText(w)
  }

  /** One segment per pattern segment, each matching. */
  predicate SegmentsMatch(segs: seq<string>, pattern: seq<Segment>)
  {
    if segs == [] || pattern == [] then segs == [] && pattern == []
    else SegmentMatches(segs[0], pattern[0]) && SegmentsMatch(segs[1..], pattern[1..])
  }

  /** The first route, in declaration order, whose pattern the segments match. */
  function FirstMatch(segs: seq<string>, routes: seq<Route>): Option<Route>
  {
    if routes == [] then None
    else if SegmentsMatch(segs, routes[0].pattern) then Some(routes[0])
    else FirstMatch(segs, routes[1..])
  }

  function ResolveSegments(segs: seq<string>): Route
  {
    var m := FirstMatch(segs, Routes);
    if m.Some? then m.value else CatchAll
  }

  /** The route the router renders for `path`. */
  function Resolve(path: string): Route
  {
    var segs := PathSegments(path);
    if segs.None? then CatchAll else ResolveSegments(segs.value)
  }

  predicate Matches(path: string, pattern: seq<Segment>)
  {
    var segs := PathSegments(path);
    segs.Some? && SegmentsMatch(segs.value, pattern)
  }

  /** The `*` route is not one of the declared routes. */
  lemma CatchAllIsUndeclared()
    ensures forall i :: 0 <= i < |Routes| ==> Routes[i] != CatchAll
  {
    forall i | 0 <= i < |Routes| ensures Routes[i].page != NotFoundPage {
    }
  }

  lemma {:induction false} FirstMatchSpec(segs: seq<string>, routes: seq<Route>)
    ensures FirstMatch(segs, routes).None?
            <==> forall i :: 0 <= i < |routes| ==> !SegmentsMatch(segs, routes[i].pattern)
    ensures FirstMatch(segs, routes).Some? ==>
              exists k :: 0 <= k < |routes| && FirstMatch(segs, routes).value == routes[k]
                          && SegmentsMatch(segs, routes[k].pattern)
                          && forall i :: 0 <= i < k ==> !SegmentsMatch(segs, routes[i].pattern)
  {
    if routes != [] && !SegmentsMatch(segs, routes[0].pattern) {
      FirstMatchSpec(segs, routes[1..]);
      assert forall i :: 1 <= i < |routes| ==> routes[i] == routes[1..][i - 1];
      if FirstMatch(segs, routes[1..]).Some? {
        var k :| 0 <= k < |routes[1..]| && FirstMatch(segs, routes[1..]).value == routes[1..][k]
                 && SegmentsMatch(segs, routes[1..][k].pattern)
                 && forall i :: 0 <= i < k ==> !SegmentsMatch(segs, routes[1..][i].pattern);
        assert routes[k + 1] == routes[1..][k];
      }
    }
  }

  lemma {:induction false} FirstMatchIs(segs: seq<string>, routes: seq<Route>, k: int)
    requires 0 <= k < |routes| && SegmentsMatch(segs, routes[k].pattern)
    requires forall i :: 0 <= i < k ==> !SegmentsMatch(segs, routes[i].pattern)
    ensures FirstMatch(segs, routes) == Some(routes[k])
  {
    if k > 0 {
      assert !SegmentsMatch(segs, routes[0].pattern);
      assert forall i :: 0 <= i < k - 1 ==> routes[1..][i] == routes[i + 1];
      FirstMatchIs(segs, routes[1..], k - 1);
    }
  }

  lemma {:induction false} SegmentsMatchLength(segs: seq<string>, pattern: seq<Segment>)
    requires SegmentsMatch(segs, pattern)
    ensures |segs| == |pattern|
  {
    if segs != [] && pattern != [] {
      SegmentsMatchLength(segs[1..], pattern[1..]);
    }
  }

  /** `Resolve` renders the first declared route matching the path, and the
      NotFound route exactly when none matches. */
  lemma ResolveIsFirstMatch(path: string)
    ensures Resolve(path) == CatchAll
            <==> forall i :: 0 <= i < |Routes| ==> !Matches(path, Routes[i].pattern)
    ensures Resolve(path) != CatchAll ==>
              exists k :: 0 <= k < |Routes| && Resolve(path) == Routes[k]
                          && Matches(path, Routes[k].pattern)
                          && forall i :: 0 <= i < k ==> !Matches(path, Routes[i].pattern)
  {
    var segs := PathSegments(path);
    if segs.Some? {
      FirstMatchSpec(segs.value, Routes);
      CatchAllIsUndeclared();
    }
  }

  // ------------------------------------------------------------ no two routes overlap

  /** Some segment list could match both patterns: they have the same
      length and never put two different words at the same place. */
  predicate Overlap(p: seq<Segment>, q: seq<Segment>)
  {
    if p == [] || q == [] then p == [] && q == []
    else !(p[0].Lit? && q[0].Lit? && p[0].word != q[0].word) && Overlap(p[1..], q[1..])
  }

  /** Reads a literal segment's word back from its spelling. */
  function WordOf(s: string): Option<Word>
  {
    if s == "login" then Some(LoginSeg) else if s == "signup" then Some(SignupSeg)
    else if s == "auth" then Some(AuthSeg) else if s == "dashboard" then Some(DashboardSeg)
    else if s == "projects" then Some(ProjectsSeg) else if s == "sites" then Some(SitesSeg)
    else if s == "tasks" then Some(TasksSeg) else if s == "my" then Some(MySeg)
    else if s == "today" then Some(TodaySeg) else if s == "timesheet" then Some(TimesheetSeg)
    else if s == "workforce" then Some(WorkforceSeg) else if s == "equipment" then Some(EquipmentSeg)
    else if s == "reports" then Some(ReportsSeg) else if s == "settings" then Some(SettingsSeg)
    else if s == "training" then Some(TrainingSeg) else if s == "incidents" then Some(IncidentsSeg)
    else if s == "new" then Some(NewSeg) else if s == "mine" then Some(MineSeg)
    else None
  }

  /** Different words are spelled differently. */
  lemma WordTextInjective(a: Word, b: Word)
    requires WordText(a) == WordText(b)
    ensures a == b
  {
    assert WordOf(WordText(a)) == Some(a);
    assert WordOf(WordText(b)) == Some(b);
  }

  /** Segments that match two patterns show that the patterns overlap. */
  lemma {:induction false} BothMatchOverlap(segs: seq<string>, p: seq<Segment>, q: seq<Segment>)
    requires SegmentsMatch(segs, p) && SegmentsMatch(segs, q)
    ensures Overlap(p, q)
  {
    if segs != [] {
      if p[0].Lit? && q[0].Lit? {
        WordTextInjective(p[0].word, q[0].word);
      }
      BothMatchOverlap(segs[1..], p[1..], q[1..]);
    }
  }

  /** Where in the table a route with pattern `p` sits, read from the parts
      of `p` that two overlapping declared patterns share: the length, the
      first word and, under `tasks` and `incidents`, the second word. */
  function TablePosition(p: seq<Segment>): int
  {
    if p == [] then 0
    else if !p[0].Lit? || |p| > 2 then -1
    else if |p| == 1 then
      match p[0].word
      case LoginSeg => 1
      case SignupSeg => 2
      case AuthSeg => 3
      case DashboardSeg => 4
      case ProjectsSeg => 5
      case SitesSeg => 7
      case TasksSeg => 9
      case TimesheetSeg => 12
      case WorkforceSeg => 13
      case EquipmentSeg => 14
      case ReportsSeg => 15
      case SettingsSeg => 16
      case TrainingSeg => 17
      case _ => -1
    else
      match p[0].word
      case ProjectsSeg => 6
      case SitesSeg => 8
      case TasksSeg => if p[1] == Lit(MySeg) then 10 else 11
      case IncidentsSeg => if p[1] == Lit(NewSeg) then 18 else 19
      case _ => -1
  }

  /** Each declared pattern has at most two segments, starts with a word
      unless it is `/`'s, has a word second under `tasks` and `incidents`,
      and sits at its own position. */
  lemma RouteShape(i: int)
    requires 0 <= i < |Routes|
    ensures |Routes[i].pattern| <= 2
    ensures i > 0 <==> Routes[i].pattern != []
    ensures i > 0 ==> Routes[i].pattern[0].Lit?
    ensures |Routes[i].pattern| == 2 && Routes[i].pattern[0].word in {TasksSeg, IncidentsSeg} ==>
              Routes[i].pattern[1].Lit?
    ensures TablePosition(Routes[i].pattern) == i
  {
    RoutePosition(i);
  }

  lemma RoutePosition(i: int)
    requires 0 <= i < |Routes|
    ensures TablePosition(Routes[i].pattern) == i
  {
    if i < 10 {
      RoutePositionBelow10(i);
    } else {
      RoutePositionFrom10(i);
    }
  }

  lemma RoutePositionBelow10(i: int)
    requires 0 <= i < 10
    ensures TablePosition(Routes[i].pattern) == i
  {
  }

  lemma RoutePositionFrom10(i: int)
    requires 10 <= i < |Routes|
    ensures TablePosition(Routes[i].pattern) == i
  {
  }

  /** Overlapping patterns agree on the length and on every place where both
      have a word. */
  lemma OverlapParts(p: seq<Segment>, q: seq<Segment>)
    requires Overlap(p, q) && |p| <= 2
    ensures |p| == |q|
    ensures |p| >= 1 && p[0].Lit? && q[0].Lit? ==> p[0].word == q[0].word
    ensures |p| == 2 && p[1].Lit? && q[1].Lit? ==> p[1].word == q[1].word
  {
    if p != [] && q != [] {
      assert Overlap(p[1..], q[1..]);
      if |p| == 2 {
        assert p[1..][0] == p[1] && q[1..][0] == q[1];
        assert Overlap(p[1..][1..], q[1..][1..]);
      }
    }
  }

  /** No two declared patterns overlap. */
  lemma DeclaredPatternsDisjoint(i: int, j: int)
    requires 0 <= i < j < |Routes|
    ensures !Overlap(Routes[i].pattern, Routes[j].pattern)
  {
    var p, q := Routes[i].pattern, Routes[j].pattern;
    RouteShape(i);
    RouteShape(j);
    if Overlap(p, q) {
      OverlapParts(p, q);
    }
  }

  /** At most one declared route matches any path, so the router's ranking
      of routes and the first match in declaration order render the same
      route. */
  lemma AtMostOneRouteMatches(path: string, i: int, j: int)
    requires 0 <= i < |Routes| && 0 <= j < |Routes|
    requires Matches(path, Routes[i].pattern) && Matches(path, Routes[j].pattern)
    ensures i == j
  {
    var segs := PathSegments(path).value;
    BothMatchOverlap(segs, Routes[i].pattern, Routes[j].pattern);
    if i < j {
      DeclaredPatternsDisjoint(i, j);
    } else if j < i {
      DeclaredPatternsDisjoint(j, i);
      OverlapSymmetric(Routes[i].pattern, Routes[j].pattern);
    }
  }

  /** So a path renders the one declared route it matches, whatever the
      declaration order. */
  lemma ResolveIsTheMatch(path: string, k: int)
    requires 0 <= k < |Routes| && Matches(path, Routes[k].pattern)
    ensures Resolve(path) == Routes[k]
  {
    ResolveIsFirstMatch(path);
    var m :| 0 <= m < |Routes| && Resolve(path) == Routes[m] && Matches(path, Routes[m].pattern);
    AtMostOneRouteMatches(path, m, k);
  }

  lemma {:induction false} OverlapSymmetric(p: seq<Segment>, q: seq<Segment>)
    requires Overlap(p, q)
    ensures Overlap(q, p)
  {
    if p != [] && q != [] {
      OverlapSymmetric(p[1..], q[1..]);
    }
  }

  // ------------------------------------------------------------ the table's shape

  /** The public routes are exactly `/`, `/login`, `/signup` and `/auth`; every
      other route is wrapped in `ProtectedRoute`, and none passes `requiredRole`. */
  lemma PublicAndGuardedRoutes(i: int)
    requires 0 <= i < |Routes|
    ensures Routes[i].access == Public <==> Routes[i].page in {IndexPage, LoginPage, SignupPage, AuthPage}
    ensures Routes[i].access == Public || Routes[i].access == Guarded(None)
  {
  }

  lemma {:induction false} SplitTwo(a: string, b: string)
    requires '/' !in a && '/' !in b
    ensures Split(a + "/" + b, '/') == [a, b]
  {
    var s := a + "/" + b;
    assert s[|a|] == '/';
    assert s[..|a|] == a;
    assert s[|a| + 1..] == b;
    assert IndexOf(s, '/') == |a|;
  }

  /** A trailing slash after text that does not end in one is dropped. */
  lemma TrimOneSlash(s: string)
    requires s == [] || s[|s| - 1] != '/'
    ensures TrimTrailingSlashes(s + "/") == s
  {
    assert (s + "/")[..|s|] == s;
  }

  /** `/a/b` has the segments `a` and `b`. */
  lemma TwoSegments(a: string, b: string)
    requires a != [] && b != [] && '/' !in a && '/' !in b
    ensures PathSegments("/" + a + "/" + b) == Some([a, b])
  {
    var body := a + "/" + b;
    assert ("/" + a + "/" + b)[1..] == body;
    assert body[|body| - 1] == b[|b| - 1] && b[|b| - 1] in b;
    SplitTwo(a, b);
  }

  /** So has `/a/b/`. */
  lemma TwoSegmentsWithSlash(a: string, b: string)
    requires a != [] && b != [] && '/' !in a && '/' !in b
    ensures PathSegments("/" + a + "/" + b + "/") == Some([a, b])
  {
    var body := a + "/" + b;
    assert ("/" + a + "/" + b + "/")[1..] == body + "/";
    assert body[|body| - 1] == b[|b| - 1] && b[|b| - 1] in b;
    TrimOneSlash(body);
    SplitTwo(a, b);
  }

  /** `/w/` has the one segment `w`. */
  lemma OneSegmentWithSlash(w: string)
    requires w != [] && '/' !in w
    ensures PathSegments("/" + w + "/") == Some([w])
  {
    assert ("/" + w + "/")[1..] == w + "/";
    assert w[|w| - 1] in w;
    TrimOneSlash(w);
    assert IndexOf(w, '/') < 0;
  }

  /** A segment that lower-cases to a slash-free word is itself a non-empty
      segment without slashes. */
  lemma SpelledSegment(seg: string, word: string)
    requires Lower(seg) == word && word != [] && '/' !in word
    ensures seg != [] && '/' !in seg
  {
    forall i | 0 <= i < |seg| ensures seg[i] != '/' {
      assert word[i] in word;
    }
  }

  /** Route `k` is rendered for `segs` when it matches and no earlier route does. */
  lemma ResolvesTo(segs: seq<string>, k: int)
    requires 0 <= k < |Routes| && SegmentsMatch(segs, Routes[k].pattern)
    requires forall i :: 0 <= i < k ==> !SegmentsMatch(segs, Routes[i].pattern)
    ensures ResolveSegments(segs) == Routes[k]
  {
    FirstMatchIs(segs, Routes, k);
  }

  /** Segments matching route `k` and no earlier route of the same length
      resolve to route `k`. */
  lemma SegmentsResolve(segs: seq<string>, k: int)
    requires 0 <= k < |Routes| && SegmentsMatch(segs, Routes[k].pattern)
    requires forall i :: 0 <= i < k && |Routes[i].pattern| == |segs| ==> !SegmentsMatch(segs, Routes[i].pattern)
    ensures ResolveSegments(segs) == Routes[k]
  {
    forall i | 0 <= i < k ensures !SegmentsMatch(segs, Routes[i].pattern) {
      if SegmentsMatch(segs, Routes[i].pattern) { SegmentsMatchLength(segs, Routes[i].pattern); }
    }
    ResolvesTo(segs, k);
  }

  /** A two-segment path matches a two-segment pattern segment by segment. */
  lemma MatchTwo(segs: seq<string>, pattern: seq<Segment>)
    requires |segs| == 2 && |pattern| == 2
    ensures SegmentsMatch(segs, pattern)
            <==> SegmentMatches(segs[0], pattern[0]) && SegmentMatches(segs[1], pattern[1])
  {
    assert segs[1..][1..] == [] && pattern[1..][1..] == [];
    assert SegmentsMatch(segs[1..][1..], pattern[1..][1..]);
    assert segs[1..][0] == segs[1] && pattern[1..][0] == pattern[1];
    assert SegmentsMatch(segs[1..], pattern[1..]) <==> SegmentMatches(segs[1], pattern[1]);
  }

  lemma MatchOne(segs: seq<string>, pattern: seq<Segment>)
    requires |segs| == 1 && |pattern| == 1
    ensures SegmentsMatch(segs, pattern) <==> SegmentMatches(segs[0], pattern[0])
  {
    assert segs[1..] == [] && pattern[1..] == [];
  }

  /** Only six routes have two-segment patterns; the others have fewer. */
  lemma TwoSegmentRoutes(i: int)
    requires 0 <= i < |Routes| && |Routes[i].pattern| == 2
    ensures i == 6 || i == 8 || i == 10 || i == 11 || i == 18 || i == 19
    ensures Routes[i].pattern[0].Lit?
    ensures i == 6 ==> Routes[i].pattern[0].word == ProjectsSeg
    ensures i == 8 ==> Routes[i].pattern[0].word == SitesSeg
    ensures i == 10 || i == 11 ==> Routes[i].pattern[0].word == TasksSeg
    ensures i == 10 ==> Routes[i].pattern[1] == Lit(MySeg)
    ensures i == 11 ==> Routes[i].pattern[1] == Lit(TodaySeg)
    ensures i == 18 || i == 19 ==> Routes[i].pattern[0].word == IncidentsSeg
  {
  }

  /** The one-segment routes before the Timesheet's have other words. */
  lemma OneSegmentRoutesBefore12(i: int)
    requires 0 <= i < 12 && |Routes[i].pattern| == 1
    ensures Routes[i].pattern[0].Lit? && WordText(Routes[i].pattern[0].word) != "timesheet"
  {
  }

  /** The pages of the routes the lemmas below resolve to. */
  lemma RoutePages()
    ensures Routes[6].page == ProjectDetailPage && Routes[8].page == SiteDetailPage
    ensures Routes[10].page == MyTasksPage && Routes[12].page == TimesheetPage
  {
  }

  /** No two-segment route comes before the project detail route. */
  lemma ProjectSegments(first: string, id: string)
    requires Lower(first) == "projects" && id != []
    ensures ResolveSegments([first, id]) == Routes[6]
  {
    var segs := [first, id];
    MatchTwo(segs, Routes[6].pattern);
    forall i | 0 <= i < 6 && |Routes[i].pattern| == 2 ensures false {
      TwoSegmentRoutes(i);
    }
    SegmentsResolve(segs, 6);
  }

  /** Before the site detail route only the project detail route has two
      segments, and its first word differs. */
  lemma SiteSegments(first: string, id: string)
    requires Lower(first) == "sites" && id != []
    ensures ResolveSegments([first, id]) == Routes[8]
  {
    var segs := [first, id];
    MatchTwo(segs, Routes[8].pattern);
    forall i | 0 <= i < 8 && |Routes[i].pattern| == 2 ensures !SegmentsMatch(segs, Routes[i].pattern) {
      TwoSegmentRoutes(i);
      MatchTwo(segs, Routes[i].pattern);
    }
    SegmentsResolve(segs, 8);
  }

  /** `/projects/:id` takes any single non-empty segment, and the router
      reads `projects` in any letter case. */
  lemma ProjectRouteTakesAnyId(first: string, id: string)
    requires Lower(first) == "projects" && id != [] && '/' !in id
    ensures Resolve("/" + first + "/" + id).page == ProjectDetailPage
  {
    SpelledSegment(first, "projects");
    TwoSegments(first, id);
    ProjectSegments(first, id);
    RoutePages();
  }

  /** `/sites/:id` takes any single non-empty segment, likewise. */
  lemma SiteRouteTakesAnyId(first: string, id: string)
    requires Lower(first) == "sites" && id != [] && '/' !in id
    ensures Resolve("/" + first + "/" + id).page == SiteDetailPage
  {
    SpelledSegment(first, "sites");
    TwoSegments(first, id);
    SiteSegments(first, id);
    RoutePages();
  }

  lemma TaskSegmentsNotFound(first: string, id: string)
    requires Lower(first) == "tasks"
    requires Lower(id) != "my" && Lower(id) != "today"
    ensures ResolveSegments([first, id]) == CatchAll
  {
    var segs := [first, id];
    forall i | 0 <= i < |Routes| ensures !SegmentsMatch(segs, Routes[i].pattern) {
      TaskRouteMismatch(first, id, i);
    }
    FirstMatchSpec(segs, Routes);
  }

  lemma TaskRouteMismatch(first: string, id: string, i: int)
    requires Lower(first) == "tasks"
    requires Lower(id) != "my" && Lower(id) != "today"
    requires 0 <= i < |Routes|
    ensures !SegmentsMatch([first, id], Routes[i].pattern)
  {
    var segs, p := [first, id], Routes[i].pattern;
    if |p| == 2 {
      TwoSegmentRoutes(i);
      MatchTwo(segs, p);
    } else if SegmentsMatch(segs, p) {
      SegmentsMatchLength(segs, p);
    }
  }

  /** `/tasks/my` and `/tasks/today` are literal: any other task segment, such
      as a task id, falls to the NotFound route. */
  lemma TaskIdsAreNotFound(first: string, id: string)
    requires Lower(first) == "tasks" && id != [] && '/' !in id
    requires Lower(id) != "my" && Lower(id) != "today"
    ensures Resolve("/" + first + "/" + id) == CatchAll
  {
    SpelledSegment(first, "tasks");
    TwoSegments(first, id);
    TaskSegmentsNotFound(first, id);
  }

  // ------------------------------------------------------------ what a visit shows

  datatype Screen = Spinner | Redirect(target: string) | Show(page: Page)

  function GuardScreen(g: ProtectedRoute.GuardResult, page: Page): Screen
  {
    match g
    case ShowLoading => Spinner
    case RedirectTo(t) => Redirect(t)
    case RenderChildren => Show(page)
  }

  /** The screen for `path`: the resolved route's page, behind the guard when
      the route is wrapped in `ProtectedRoute`, which sees the raw pathname. */
  function Visit(path: string, isLoading: bool, hasUser: bool, role: Option<Role>): (s: Screen)
    ensures Resolve(path).access == Public ==> s == Show(Resolve(path).page)
    ensures s.Show? ==> s.page == Resolve(path).page
    ensures Resolve(path).access != Public && !isLoading && !hasUser ==> s == Redirect(ProtectedRoute.LoginPath)
  {
    var route := Resolve(path);
    match route.access
    case Public => Show(route.page)
    case Guarded(req) =>
      GuardScreen(ProtectedRoute.Guard(isLoading, hasUser, role, path, req), route.page)
  }

  /** As written, a spelling of a worker-only page other than the exact
      `/tasks/my` or `/timesheet` renders it for every logged-in user: the
      guard compares the raw pathname, the router does not. */
  lemma OtherSpellingsBypassFieldCheck(path: string, role: Option<Role>)
    requires Resolve(path) == Routes[10] || Resolve(path) == Routes[12]
    requires path != ProtectedRoute.MyTasksPath && path != ProtectedRoute.TimesheetPath
    ensures Visit(path, false, true, role) == Show(Resolve(path).page)
  {
  }

  lemma TasksMySegments(a: string, b: string)
    requires Lower(a) == "tasks" && Lower(b) == "my"
    ensures ResolveSegments([a, b]) == Routes[10]
  {
    var segs := [a, b];
    MatchTwo(segs, Routes[10].pattern);
    forall i | 0 <= i < 10 && |Routes[i].pattern| == 2 ensures !SegmentsMatch(segs, Routes[i].pattern) {
      TwoSegmentRoutes(i);
      MatchTwo(segs, Routes[i].pattern);
    }
    SegmentsResolve(segs, 10);
  }

  lemma TimesheetSegments(w: string)
    requires Lower(w) == "timesheet"
    ensures ResolveSegments([w]) == Routes[12]
  {
    var segs := [w];
    MatchOne(segs, Routes[12].pattern);
    forall i | 0 <= i < 12 && |Routes[i].pattern| == 1 ensures !SegmentsMatch(segs, Routes[i].pattern) {
      OneSegmentRoutesBefore12(i);
      MatchOne(segs, Routes[i].pattern);
    }
    SegmentsResolve(segs, 12);
  }

  /** Such spellings exist: `/tasks/my/`, in any letter case, resolves to
      My Tasks. */
  lemma TasksMyWithSlashResolves(a: string, b: string)
    requires Lower(a) == "tasks" && Lower(b) == "my"
    ensures Resolve("/" + a + "/" + b + "/") == Routes[10]
  {
    SpelledSegment(a, "tasks");
    SpelledSegment(b, "my");
    TwoSegmentsWithSlash(a, b);
    TasksMySegments(a, b);
  }

  /** And `/timesheet/`, in any letter case, resolves to the Timesheet. */
  lemma TimesheetWithSlashResolves(w: string)
    requires Lower(w) == "timesheet"
    ensures Resolve("/" + w + "/") == Routes[12]
  {
    SpelledSegment(w, "timesheet");
    OneSegmentWithSlash(w);
    TimesheetSegments(w);
  }

  /** Every logged-in user, whatever the role (an admin, a client, or one
      without a profile), therefore sees My Tasks at `/tasks/my/`, in any
      letter case ... */
  lemma MyTasksReachableByAnyRole(a: string, b: string, role: Option<Role>)
    requires Lower(a) == "tasks" && Lower(b) == "my"
    ensures Visit("/" + a + "/" + b + "/", false, true, role) == Show(MyTasksPage)
  {
    var path := "/" + a + "/" + b + "/";
    assert |a| == 5 && |b| == 2;
    assert |path| != |ProtectedRoute.MyTasksPath|;
    assert path[6] == '/' && ProtectedRoute.TimesheetPath[6] != '/';
    TasksMyWithSlashResolves(a, b);
    RoutePages();
    OtherSpellingsBypassFieldCheck(path, role);
  }

  /** ... and the Timesheet at `/timesheet/`, in any letter case. */
  lemma TimesheetReachableByAnyRole(w: string, role: Option<Role>)
    requires Lower(w) == "timesheet"
    ensures Visit("/" + w + "/", false, true, role) == Show(TimesheetPage)
  {
    var path := "/" + w + "/";
    assert |w| == 9;
    assert |path| != |ProtectedRoute.MyTasksPath| && |path| != |ProtectedRoute.TimesheetPath|;
    TimesheetWithSlashResolves(w);
    RoutePages();
    OtherSpellingsBypassFieldCheck(path, role);
  }

  /** In particular an admin sees My Tasks at `/tasks/my/` and a client the
      Timesheet at `/timesheet/`. */
  lemma WorkerPagesReachableByOtherRoles(a: string, b: string, w: string)
    requires a == "tasks" && b == "my" && w == "timesheet"
    ensures Visit("/" + a + "/" + b + "/", false, true, Some(Admin)) == Show(MyTasksPage)
    ensures Visit("/" + w + "/", false, true, Some(Client)) == Show(TimesheetPage)
  {
    LowerOfLowercase(a);
    LowerOfLowercase(b);
    LowerOfLowercase(w);
    MyTasksReachableByAnyRole(a, b, Some(Admin));
    TimesheetReachableByAnyRole(w, Some(Client));
  }

  /** The worker-only check applied to the page the router resolved rather
      than to the raw pathname. */
  function GuardForPage(isLoading: bool, hasUser: bool, role: Option<Role>, page: Page,
                        requiredRole: Option<string>): (r: ProtectedRoute.GuardResult)
    ensures r == ProtectedRoute.RenderChildren && (page == MyTasksPage || page == TimesheetPage)
            ==> role == Some(Worker) || role == Some(Foreman)
  {
    var gatedPath := if page == MyTasksPage then ProtectedRoute.MyTasksPath
                     else if page == TimesheetPage then ProtectedRoute.TimesheetPath
                     else "";
    ProtectedRoute.Guard(isLoading, hasUser, role, gatedPath, requiredRole)
  }

  function VisitGuardedByPage(path: string, isLoading: bool, hasUser: bool, role: Option<Role>): (s: Screen)
    ensures s.Show? ==> s.page == Resolve(path).page
  {
    var route := Resolve(path);
    match route.access
    case Public => Show(route.page)
    case Guarded(req) => GuardScreen(GuardForPage(isLoading, hasUser, role, route.page, req), route.page)
  }

  lemma PublicRouteShowsPublicPage(path: string)
    requires Resolve(path).access == Public
    ensures Resolve(path).page in {IndexPage, LoginPage, SignupPage, AuthPage, NotFoundPage}
  {
    ResolveIsFirstMatch(path);
    if Resolve(path) != CatchAll {
      var k :| 0 <= k < |Routes| && Resolve(path) == Routes[k];
      PublicAndGuardedRoutes(k);
    }
  }

  /** With the page-based check, however the path is spelled, only workers and
      foremen see My Tasks and the Timesheet. */
  lemma WorkerPagesOnlyForFieldRoles(path: string, isLoading: bool, hasUser: bool, role: Option<Role>)
    requires VisitGuardedByPage(path, isLoading, hasUser, role) in {Show(MyTasksPage), Show(TimesheetPage)}
    ensures role == Some(Worker) || role == Some(Foreman)
  {
    if Resolve(path).access == Public {
      PublicRouteShowsPublicPage(path);
    }
  }

  /** Away from the two worker pages, and on their canonical spellings, the
      page-based check decides exactly as the pathname check does. */
  lemma PageGuardAgreesOnCanonicalPaths(path: string, isLoading: bool, hasUser: bool, role: Option<Role>)
    requires Resolve(path).page == MyTasksPage ==> path == ProtectedRoute.MyTasksPath
    requires Resolve(path).page == TimesheetPage ==> path == ProtectedRoute.TimesheetPath
    requires Resolve(path).page !in {MyTasksPage, TimesheetPage}
             ==> path != ProtectedRoute.MyTasksPath && path != ProtectedRoute.TimesheetPath
    ensures VisitGuardedByPage(path, isLoading, hasUser, role) == Visit(path, isLoading, hasUser, role)
  {
  }
}
