/**
 * The visit recorder (Middleware/AnalyticsMiddleware.cs). It runs after the
 * rest of the pipeline has produced a response. When the request is worth
 * counting, it appends one PageVisit row with the path, client address and
 * user agent cut to the column widths.
 */
module Analytics {
  import opened Optional
  import opened Text
  import opened Clock
  import opened Entities
  import opened Store

  /** The file extensions of static assets, compared ignoring case. */
  const IgnoredExtensions: seq<string> :=
    [".css", ".js", ".png", ".jpg", ".jpeg", ".gif", ".svg", ".ico", ".woff", ".woff2", ".ttf", ".map"]

  /** The words whose presence, in any case, marks a user agent as a robot. */
  const BotMarkers: seq<string> := ["bot", "crawler", "spider", "slurp", "curl", "wget"]

  /** What the recorder reads from the request once the response is done. */
  datatype Request = Request(
    path: Option<string>,
    httpMethod: string,
    remoteIp: Option<string>,
    userAgent: string)

  // ----------------------------------------------------------- extensions

  /** No '.' occurs before `i` unless a '/' follows it before `i`. */
  predicate NoDotInLastSegment(path: string, i: int)
    requires 0 <= i <= |path|
  {
    forall k :: 0 <= k < i && path[k] == '.' ==> exists m :: k < m < i && path[m] == '/'
  }

  /** The last '.' before `i` that no '/' follows. */
  function LastDot(path: string, i: int): (r: Option<nat>)
    requires 0 <= i <= |path|
    ensures r.Some? ==> (r.value < i && path[r.value] == '.'
      && forall k :: r.value < k < i ==> path[k] != '.' && path[k] != '/')
    ensures r.None? ==> NoDotInLastSegment(path, i)
  {
    if i == 0 then None
    else if path[i - 1] == '.' then Some(i - 1)
    else if path[i - 1] == '/' then None
    else LastDot(path, i - 1)
  }

  /** `Path.GetExtension` on Linux, where '/' is the only directory separator. */
  function GetExtension(path: string): (r: string)
    ensures r != [] ==> 2 <= |r| <= |path| && r[0] == '.' && r == path[|path| - |r|..]
    ensures r != [] ==> forall k :: 1 <= k < |r| ==> r[k] != '.' && r[k] != '/'
    ensures r == [] ==> (path != [] && path[|path| - 1] == '.') || NoDotInLastSegment(path, |path|)
  {
    match LastDot(path, |path|)
    case None => []
    case Some(d) => if d == |path| - 1 then [] else path[d..]
  }

  predicate IsIgnoredExtension(ext: string) {
    exists e :: e in IgnoredExtensions && EqualsIgnoreCase(ext, e)
  }

  /** A request for a static asset: the path's extension is one of the ignored ones. */
  predicate IsAsset(path: string) {
    var ext := GetExtension(path);
    ext != [] && IsIgnoredExtension(ext)
  }

  // ------------------------------------------------------------- the tests

  /** `ShouldTrack`: which requests count as page views. */
  predicate ShouldTrack(path: string, statusCode: int, httpMethod: string) {
    if statusCode >= 400 then false
    else if !EqualsIgnoreCase(httpMethod, "GET") then false
    else if StartsWithIgnoreCase(path, "/Admin") then false
    else if StartsWithIgnoreCase(path, "/api") then false
    else if path == "/sitemap.xml" then false
    else !IsAsset(path)
  }

  /** `IsBot`: the lower-cased user agent mentions one of the robot markers. */
  predicate IsBot(userAgent: string) {
    var ua := Lower(userAgent);
    Contains(ua, "bot") || Contains(ua, "crawler") || Contains(ua, "spider")
    || Contains(ua, "slurp") || Contains(ua, "curl") || Contains(ua, "wget")
  }

  /** `s.Length > n ? s[..n] : s`. */
  function Truncate(s: string, n: nat): (r: string)
    ensures |r| <= n && |r| <= |s| && StartsWith(s, r)
    ensures |s| <= n ==> r == s
    ensures |s| > n ==> |r| == n
  {
    if |s| > n then s[..n] else s
  }

  /**
   * The row a finished request adds, if it adds one; its id is assigned on
   * insert. A request is recorded exactly when it is trackable and comes from
   * a human user agent, and the row keeps the first 500, 50 and 500
   * characters of the path, the address and the user agent.
   */
  function RecordedVisit(req: Request, statusCode: int, now: Instant): (r: Option<PageVisit>)
    ensures r.Some? <==>
      ShouldTrack(req.path.GetOr("/"), statusCode, req.httpMethod) && req.userAgent != [] && !IsBot(req.userAgent)
    ensures r.Some? ==> statusCode < 400 && EqualsIgnoreCase(req.httpMethod, "GET")
    ensures r.Some? ==> r.value.visitedAt == now
    ensures r.Some? ==> r.value.path == Truncate(req.path.GetOr("/"), 500)
    ensures r.Some? ==> r.value.ipAddress.None? == req.remoteIp.None?
    ensures r.Some? && req.remoteIp.Some? ==> r.value.ipAddress == Some(Truncate(req.remoteIp.value, 50))
    ensures r.Some? ==> r.value.userAgent == Some(Truncate(req.userAgent, 500))
  {
    var path := req.path.GetOr("/");
    if ShouldTrack(path, statusCode, req.httpMethod) && req.userAgent != [] && !IsBot(req.userAgent) then
      var ip := match req.remoteIp
        case None => None
        case Some(a) => Some(Truncate(a, 50));
      Some(PageVisit(0, Truncate(path, 500), ip, Some(Truncate(req.userAgent, 500)), now))
    else None
  }

  /** The tables after inserting a visit with the next PageVisits id. */
  function AddVisit(t: Tables, v: PageVisit): Tables {
    t.(visits := Append(t.visits, v.(id := t.next.visit)), next := t.next.(visit := t.next.visit + 1))
  }

  lemma AddVisitConsistent(t: Tables, v: PageVisit)
    requires Consistent(t)
    ensures Consistent(AddVisit(t, v))
  {
    AppendKeys(t.visits, VisitId, t.next.visit, v.(id := t.next.visit));
  }

  /**
   * `InvokeAsync`, from the point where the downstream handler has finished
   * with `statusCode`: at most one visit is appended and nothing else changes.
   */
  method InvokeAsync(db: ApplicationDbContext, req: Request, statusCode: int, now: Instant)
    requires db.Valid()
    modifies db
    ensures db.Valid()
    ensures db.State() == match RecordedVisit(req, statusCode, now)
      case None => old(db.State())
      case Some(v) => AddVisit(old(db.State()), v)
  {
    var path := req.path.GetOr("/");
    if ShouldTrack(path, statusCode, req.httpMethod) {
      var ip := req.remoteIp;
      var ua := req.userAgent;
      if ua != [] && !IsBot(ua) {
        var visit := PageVisit(
          0,
          Truncate(path, 500),
          if ip.Some? then Some(Truncate(ip.value, 50)) else None,
          Some(Truncate(ua, 500)),
          now);
        AddVisitConsistent(db.State(), visit);
        var saved := db.SaveChanges(AddVisit(db.State(), visit));
      }
    }
  }

  // ---------------------------------------------------------------- lemmas

  /** A response with an error status is never recorded. */
  lemma ErrorResponsesNotTracked(path: string, statusCode: int, httpMethod: string)
    requires statusCode >= 400
    ensures !ShouldTrack(path, statusCode, httpMethod)
  {
  }

  /** The method test ignores case: "get" and "Get" are GET, "HEAD" is not. */
  lemma MethodIgnoresCase()
    ensures ShouldTrack("/", 200, "get") && ShouldTrack("/", 200, "Get")
    ensures !ShouldTrack("/", 200, "HEAD")
  {
    assert Lower("get") == "get" && Lower("Get") == "get" && Lower("GET") == "get";
    assert GetExtension("/") == [];
    assert Lower("HEAD") == "head";
  }

  /** Any path whose first six characters spell "/admin" in any case is skipped, "/Administrator" included. */
  lemma AdminPrefixNotTracked(path: string, statusCode: int, httpMethod: string)
    requires |path| >= 6 && Lower(path[..6]) == "/admin"
    ensures !ShouldTrack(path, statusCode, httpMethod)
  {
    assert Lower("/Admin") == "/admin";
    assert Lower(path)[..6] == Lower(path[..6]);
  }

  /** The same holds for "/api", so "/apix" and "/API/banks" are skipped too. */
  lemma ApiPrefixNotTracked(path: string, statusCode: int, httpMethod: string)
    requires |path| >= 4 && Lower(path[..4]) == "/api"
    ensures !ShouldTrack(path, statusCode, httpMethod)
  {
    assert Lower("/api") == "/api";
    assert Lower(path)[..4] == Lower(path[..4]);
  }

  /** The sitemap test is exact: "/Sitemap.xml" is recorded while "/sitemap.xml" is not. */
  lemma SitemapExclusionIsCaseSensitive()
    ensures !ShouldTrack("/sitemap.xml", 200, "GET")
    ensures ShouldTrack("/Sitemap.xml", 200, "GET")
  {
    var p := "/Sitemap.xml";
    assert EqualsIgnoreCase("GET", "GET");
    SitemapPrefixes();
    SitemapExtension();
  }

  lemma SitemapPrefixes()
    ensures !StartsWithIgnoreCase("/Sitemap.xml", "/Admin") && !StartsWithIgnoreCase("/Sitemap.xml", "/api")
  {
    PrefixMismatch("/Sitemap.xml", "/Admin", 1);
    PrefixMismatch("/Sitemap.xml", "/api", 1);
  }

  /** One position where the two differ even after folding case rules out a case-insensitive prefix. */
  lemma PrefixMismatch(s: string, prefix: string, k: int)
    requires 0 <= k < |prefix| && k < |s| && LowerChar(s[k]) != LowerChar(prefix[k])
    ensures !StartsWithIgnoreCase(s, prefix)
  {
    var ls, lp := Lower(s), Lower(prefix);
    if |lp| <= |ls| {
      assert ls[..|lp|][k] != lp[k];
    }
  }

  lemma SitemapExtension()
    ensures GetExtension("/Sitemap.xml") == ".xml" && !IsIgnoredExtension(".xml")
  {
    var p := "/Sitemap.xml";
    assert LastDot(p, 9) == Some(8);
    assert LastDot(p, 10) == LastDot(p, 9);
    assert LastDot(p, 11) == LastDot(p, 10);
    assert LastDot(p, 12) == LastDot(p, 11);
    forall e | e in IgnoredExtensions ensures !EqualsIgnoreCase(".xml", e) {
      assert |e| >= 2 && e[1] != 'x' && e[1] != 'X';
      assert Lower(".xml")[1] == 'x' && Lower(e)[1] == LowerChar(e[1]);
    }
  }

  /** A path whose last segment carries a listed extension, in any case, is skipped. */
  lemma IgnoredExtensionNotTracked(stem: string, ext: string, statusCode: int, httpMethod: string)
    requires ext != [] && ext[0] == '.' && |ext| >= 2
    requires forall k :: 1 <= k < |ext| ==> ext[k] != '.' && ext[k] != '/'
    requires exists e :: e in IgnoredExtensions && Lower(ext) == Lower(e)
    ensures !ShouldTrack(stem + ext, statusCode, httpMethod)
  {
    var p := stem + ext;
    LastDotOfSuffix(stem, ext);
    assert GetExtension(p) == ext;
  }

  lemma LastDotOfSuffix(stem: string, ext: string)
    requires ext != [] && ext[0] == '.' && |ext| >= 2
    requires forall k :: 1 <= k < |ext| ==> ext[k] != '.' && ext[k] != '/'
    ensures LastDot(stem + ext, |stem + ext|) == Some(|stem|)
  {
    var p := stem + ext;
    var i := |p|;
    while i > |stem| + 1
      invariant |stem| + 1 <= i <= |p|
      invariant LastDot(p, i) == LastDot(p, |p|)
    {
      assert p[i - 1] == ext[i - 1 - |stem|];
      i := i - 1;
    }
  }

  /** A path with no '.' in its last segment passes the extension test. */
  lemma NoExtensionPasses(path: string)
    requires NoDotInLastSegment(path, |path|)
    ensures GetExtension(path) == []
  {
  }

  /** IsBot holds exactly when some robot marker occurs in the lower-cased user agent. */
  lemma IsBotIff(userAgent: string)
    ensures IsBot(userAgent) <==>
      exists k, i :: 0 <= k < |BotMarkers| && OccursAt(Lower(userAgent), BotMarkers[k], i)
  {
    var ua := Lower(userAgent);
    forall k | 0 <= k < |BotMarkers| ensures Contains(ua, BotMarkers[k]) <==> exists i :: OccursAt(ua, BotMarkers[k], i) {
      ContainsIff(ua, BotMarkers[k]);
    }
    assert BotMarkers[0] == "bot" && BotMarkers[1] == "crawler" && BotMarkers[2] == "spider";
    assert BotMarkers[3] == "slurp" && BotMarkers[4] == "curl" && BotMarkers[5] == "wget";
    assert IsBot(userAgent) <==> exists k :: 0 <= k < |BotMarkers| && Contains(ua, BotMarkers[k]);
    if IsBot(userAgent) {
      var k :| 0 <= k < |BotMarkers| && Contains(ua, BotMarkers[k]);
      var i :| OccursAt(ua, BotMarkers[k], i);
      assert 0 <= k < |BotMarkers| && OccursAt(Lower(userAgent), BotMarkers[k], i);
      assert exists k', i' :: 0 <= k' < |BotMarkers| && OccursAt(Lower(userAgent), BotMarkers[k'], i');
    } else {
      forall k, i | 0 <= k < |BotMarkers| ensures !OccursAt(ua, BotMarkers[k], i) {
        assert !Contains(ua, BotMarkers[k]);
      }
    }
  }

  lemma LowerAppend(a: string, b: string)
    ensures Lower(a + b) == Lower(a) + Lower(b)
  {
  }

  /** "Googlebot/2.1", "curl/8.0", "Mozilla/5.0 (compatible; YandexBot)" … : a marker anywhere, in any case, marks a robot. */
  lemma MarkerMakesBot(pre: string, word: string, post: string, k: int)
    requires 0 <= k < |BotMarkers| && Lower(word) == BotMarkers[k]
    ensures IsBot(pre + word + post)
  {
    LowerAppend(pre + word, post);
    LowerAppend(pre, word);
    ContainsInfix(Lower(pre), BotMarkers[k], Lower(post));
  }

  /** An empty user agent or a robot never adds a row, whatever the path. */
  lemma NoUserAgentNoVisit(req: Request, statusCode: int, now: Instant)
    requires req.userAgent == [] || IsBot(req.userAgent)
    ensures RecordedVisit(req, statusCode, now) == None
  {
  }
}
