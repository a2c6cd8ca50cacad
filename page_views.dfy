/**
 * A request for a loan's page as the whole pipeline handles it. The detail
 * handler (Controllers/LoansController.cs) runs first and decides whether the
 * view counts; only then does the visit recorder
 * (Middleware/AnalyticsMiddleware.cs) store the request. The lemmas relate the
 * two: a repeat from the same address within a day is not counted, a view a
 * day later is, and a request never sees its own visit. They also show the
 * requests whose stored visit the repeat test can never match.
 */
module PageViews {
  import opened Optional
  import opened Text
  import opened Clock
  import opened Entities
  import opened Store
  import opened Analytics
  import opened Loans

  /** The status the detail handler answers with: the page, or NotFound. */
  function DetailStatus(t: Tables, slug: string): int {
    if FindActive(t.loans, slug).Some? then 200 else 404
  }

  /**
   * The tables after a request routed to `Detail(slug)`: the handler counts
   * the view at `now` against the visits stored so far, then the recorder
   * stores the request at `recordedAt` (its own `DateTime.UtcNow`).
   */
  function Served(t: Tables, req: Request, slug: string, now: Instant, recordedAt: Instant): (r: Tables)
    ensures r == t.(loans := r.loans, visits := r.visits, next := r.next)
    ensures r.loans == AfterDetail(t, slug, req.remoteIp, now).loans
    ensures |t.visits| <= |r.visits| <= |t.visits| + 1 && r.visits[..|t.visits|] == t.visits
    ensures |r.visits| == |t.visits| + 1 <==>
      FindActive(t.loans, slug).Some? && RecordedVisit(req, 200, recordedAt).Some?
    ensures |r.visits| == |t.visits| + 1 ==>
      r.visits[|t.visits|] == RecordedVisit(req, 200, recordedAt).value.(id := t.next.visit)
  {
    var handled := AfterDetail(t, slug, req.remoteIp, now);
    match RecordedVisit(req, DetailStatus(t, slug), recordedAt)
    case None => handled
    case Some(v) => AddVisit(handled, v)
  }

  /** The pipeline on the database context: the handler, then the recorder with the handler's status. */
  method ServeLoanPage(db: ApplicationDbContext, req: Request, slug: string, now: Instant, recordedAt: Instant)
    returns (page: Option<DetailPage>)
    requires db.Valid()
    modifies db
    ensures db.Valid()
    ensures db.State() == Served(old(db.State()), req, slug, now, recordedAt)
    ensures page.None? <==> FindActive(old(db.loans), slug).None?
  {
    page := Loans.Detail(db, slug, req.remoteIp, now);
    var status := if page.None? then 404 else 200;
    InvokeAsync(db, req, status, recordedAt);
  }

  // ------------------------------------------------------------ the tests

  /** Whether viewing the page changes the store, that is, whether the view is counted. */
  predicate Counted(t: Tables, slug: string, ip: Option<string>, now: Instant) {
    AfterDetail(t, slug, ip, now) != t
  }

  /** A view is counted exactly when an active loan has the slug and the visit is not a repeat. */
  lemma CountedIff(t: Tables, slug: string, ip: Option<string>, now: Instant)
    ensures Counted(t, slug, ip, now) <==> FindActive(t.loans, slug).Some? && !AlreadyVisited(t.visits, slug, ip, now)
  {
    var r := AfterDetail(t, slug, ip, now);
    if FindActive(t.loans, slug).Some? && !AlreadyVisited(t.visits, slug, ip, now) {
      var i := FindActive(t.loans, slug).value;
      assert r.loans[i].viewCount != t.loans[i].viewCount;
    }
  }

  /** Counting a view changes no slug and no active flag, so every lookup finds the same loan afterwards. */
  lemma FindActiveAfterDetail(t: Tables, slug: string, ip: Option<string>, now: Instant, other: string)
    ensures FindActive(AfterDetail(t, slug, ip, now).loans, other) == FindActive(t.loans, other)
  {
    FindActiveSameKeys(t.loans, AfterDetail(t, slug, ip, now).loans, other);
  }

  /** Lists that agree on every slug and active flag find the same loan. */
  lemma FindActiveSameKeys(a: seq<Loan>, b: seq<Loan>, slug: string)
    requires |a| == |b|
    requires forall i :: 0 <= i < |a| ==> a[i].slug == b[i].slug && a[i].isActive == b[i].isActive
    ensures FindActive(a, slug) == FindActive(b, slug)
  {
    var fa, fb := FindActive(a, slug), FindActive(b, slug);
    assert fa.None? == fb.None?;
    if fa.Some? {
      assert !(fa.value < fb.value) && !(fb.value < fa.value);
    }
  }

  /** A loan's page path is never an admin, API or sitemap path, so only the status, the method and an asset extension decide. */
  lemma DetailPathTracked(slug: string, statusCode: int, httpMethod: string)
    ensures ShouldTrack(DetailPath(slug), statusCode, httpMethod) <==>
      statusCode < 400 && EqualsIgnoreCase(httpMethod, "GET") && !IsAsset(DetailPath(slug))
  {
    var p := DetailPath(slug);
    NotAdminPath(p);
    NotApiPath(p);
    assert p != "/sitemap.xml" by {
      assert p[1] == 'v' && "/sitemap.xml"[1] == 's';
    }
    if statusCode < 400 && EqualsIgnoreCase(httpMethod, "GET") {
      assert ShouldTrack(p, statusCode, httpMethod) == !IsAsset(p);
    }
  }

  /** A path whose second character is 'v' is not under "/Admin", in any case. */
  lemma NotAdminPath(p: string)
    requires |p| > 1 && p[1] == 'v'
    ensures !StartsWithIgnoreCase(p, "/Admin")
  {
    assert LowerChar(p[1]) == 'v' && LowerChar("/Admin"[1]) == 'a';
    PrefixMismatch(p, "/Admin", 1);
  }

  /** A path whose second character is 'v' is not under "/api", in any case. */
  lemma NotApiPath(p: string)
    requires |p| > 1 && p[1] == 'v'
    ensures !StartsWithIgnoreCase(p, "/api")
  {
    assert LowerChar(p[1]) == 'v' && LowerChar("/api"[1]) == 'a';
    PrefixMismatch(p, "/api", 1);
  }

  /** The page request the lemmas below follow: a GET of `path` from `ip` with user agent `ua`. */
  function PageRequest(path: string, ip: string, ua: string): Request {
    Request(Some(path), "GET", Some(ip), ua)
  }

  /**
   * The recorded visit of a loan page request from a human client with an
   * address of at most fifty characters matches the repeat test exactly.
   */
  lemma RecordedPageVisit(slug: string, ip: string, ua: string, recordedAt: Instant)
    requires |DetailPath(slug)| <= 500 && |ip| <= 50 && ua != [] && !IsBot(ua) && !IsAsset(DetailPath(slug))
    ensures RecordedVisit(PageRequest(DetailPath(slug), ip, ua), 200, recordedAt).Some?
    ensures var v := RecordedVisit(PageRequest(DetailPath(slug), ip, ua), 200, recordedAt).value;
      v.path == DetailPath(slug) && v.ipAddress == Some(ip) && v.visitedAt == recordedAt
  {
    DetailPathTracked(slug, 200, "GET");
    assert EqualsIgnoreCase("GET", "GET");
  }

  /**
   * A repeat view within a day is not counted: after a counted or uncounted
   * view from a human client, another view from the same address up to a day
   * after the first was recorded leaves the tables unchanged.
   */
  lemma RepeatWithinADayNotCounted(t: Tables, slug: string, ip: string, ua: string,
    now: Instant, recordedAt: Instant, now2: Instant)
    requires 0 < |ip| <= 50 && |DetailPath(slug)| <= 500 && ua != [] && !IsBot(ua) && !IsAsset(DetailPath(slug))
    requires now2 <= recordedAt + OneDay
    ensures var t2 := Served(t, PageRequest(DetailPath(slug), ip, ua), slug, now, recordedAt);
      AfterDetail(t2, slug, Some(ip), now2) == t2
  {
    var req := PageRequest(DetailPath(slug), ip, ua);
    var t2 := Served(t, req, slug, now, recordedAt);
    FindActiveAfterDetail(t, slug, Some(ip), now, slug);
    if FindActive(t.loans, slug).Some? {
      RecordedPageVisit(slug, ip, ua, recordedAt);
      var k := |t.visits|;
      assert RecentVisit(t2.visits[k], slug, Some(ip), now2);
      assert AlreadyVisited(t2.visits, slug, Some(ip), now2);
    }
  }

  /** A visit appended to the log that does not pass the repeat test leaves the test's answer as it was. */
  lemma AppendUnmatched(visits: seq<PageVisit>, v: PageVisit, slug: string, ip: Option<string>, now: Instant)
    requires !RecentVisit(v, slug, ip, now)
    ensures AlreadyVisited(visits + [v], slug, ip, now) == AlreadyVisited(visits, slug, ip, now)
  {
    var w := visits + [v];
    assert forall j :: 0 <= j < |visits| ==> w[j] == visits[j];
    assert w[|visits|] == v;
  }

  /**
   * A stored visit that does not pass the repeat test leaves the next
   * decision as it was on the tables before the request: the view still
   * counts when nothing earlier matches.
   */
  lemma UnmatchedVisitInvisible(t: Tables, req: Request, slug: string, now: Instant, recordedAt: Instant,
    ip: string, now2: Instant)
    requires req.remoteIp == Some(ip)
    requires RecordedVisit(req, 200, recordedAt).None?
      || !RecentVisit(RecordedVisit(req, 200, recordedAt).value, slug, Some(ip), now2)
    ensures var t2 := Served(t, req, slug, now, recordedAt);
      AlreadyVisited(t2.visits, slug, Some(ip), now2) == AlreadyVisited(t.visits, slug, Some(ip), now2)
    ensures FindActive(t.loans, slug).Some? && !AlreadyVisited(t.visits, slug, Some(ip), now2) ==>
      Counted(Served(t, req, slug, now, recordedAt), slug, Some(ip), now2)
  {
    var t2 := Served(t, req, slug, now, recordedAt);
    FindActiveAfterDetail(t, slug, Some(ip), now, slug);
    var k := |t.visits|;
    if |t2.visits| == k {
      assert t2.visits == t.visits;
    } else {
      var v := RecordedVisit(req, 200, recordedAt).value.(id := t.next.visit);
      assert t2.visits == t.visits + [v];
      AppendUnmatched(t.visits, v, slug, Some(ip), now2);
    }
    CountedIff(t2, slug, Some(ip), now2);
  }

  /** A view more than a day after the last recorded one counts again when nothing else from the address is recent. */
  lemma CountedAgainAfterADay(t: Tables, slug: string, ip: string, ua: string,
    now: Instant, recordedAt: Instant, now2: Instant)
    requires 0 < |ip| <= 50 && |DetailPath(slug)| <= 500 && ua != [] && !IsBot(ua) && !IsAsset(DetailPath(slug))
    requires FindActive(t.loans, slug).Some? && !AlreadyVisited(t.visits, slug, Some(ip), now2)
    requires now2 > recordedAt + OneDay
    ensures Counted(Served(t, PageRequest(DetailPath(slug), ip, ua), slug, now, recordedAt), slug, Some(ip), now2)
  {
    RecordedPageVisit(slug, ip, ua, recordedAt);
    UnmatchedVisitInvisible(t, PageRequest(DetailPath(slug), ip, ua), slug, now, recordedAt, ip, now2);
  }

  /** An address longer than the fifty-character column is stored cut short and never matches, so every view from it counts. */
  lemma LongAddressNeverMatches(t: Tables, slug: string, ip: string, ua: string,
    now: Instant, recordedAt: Instant, now2: Instant)
    requires |ip| > 50
    ensures var t2 := Served(t, PageRequest(DetailPath(slug), ip, ua), slug, now, recordedAt);
      AlreadyVisited(t2.visits, slug, Some(ip), now2) == AlreadyVisited(t.visits, slug, Some(ip), now2)
    ensures FindActive(t.loans, slug).Some? && !AlreadyVisited(t.visits, slug, Some(ip), now2) ==>
      Counted(Served(t, PageRequest(DetailPath(slug), ip, ua), slug, now, recordedAt), slug, Some(ip), now2)
  {
    var req := PageRequest(DetailPath(slug), ip, ua);
    if RecordedVisit(req, 200, recordedAt).Some? {
      assert |RecordedVisit(req, 200, recordedAt).value.ipAddress.value| == 50;
    }
    UnmatchedVisitInvisible(t, req, slug, now, recordedAt, ip, now2);
  }

  /** A robot or an empty user agent leaves no visit behind, so every view it makes counts. */
  lemma UnrecordedAgentAlwaysCounts(t: Tables, path: string, slug: string, ip: string, ua: string,
    now: Instant, recordedAt: Instant, now2: Instant)
    requires ua == [] || IsBot(ua)
    ensures Served(t, PageRequest(path, ip, ua), slug, now, recordedAt).visits == t.visits
    ensures FindActive(t.loans, slug).Some? && !AlreadyVisited(t.visits, slug, Some(ip), now2) ==>
      Counted(Served(t, PageRequest(path, ip, ua), slug, now, recordedAt), slug, Some(ip), now2)
  {
    UnmatchedVisitInvisible(t, PageRequest(path, ip, ua), slug, now, recordedAt, ip, now2);
  }

  /**
   * Routing ignores case and a trailing '/', so "/VAM/{slug}" and
   * "/vam/{slug}/" reach the same page; the visit is stored under the path as
   * requested, which the ordinal test against "/vam/{slug}" never matches.
   */
  lemma OtherSpellingsNeverMatch(t: Tables, slug: string, upper: bool, ip: string, ua: string,
    now: Instant, recordedAt: Instant, now2: Instant)
    requires |DetailPath(slug)| < 500
    ensures var path := if upper then "/VAM/" + slug else DetailPath(slug) + "/";
      var t2 := Served(t, PageRequest(path, ip, ua), slug, now, recordedAt);
      AlreadyVisited(t2.visits, slug, Some(ip), now2) == AlreadyVisited(t.visits, slug, Some(ip), now2)
    ensures var path := if upper then "/VAM/" + slug else DetailPath(slug) + "/";
      FindActive(t.loans, slug).Some? && !AlreadyVisited(t.visits, slug, Some(ip), now2) ==>
      Counted(Served(t, PageRequest(path, ip, ua), slug, now, recordedAt), slug, Some(ip), now2)
  {
    var path := if upper then "/VAM/" + slug else DetailPath(slug) + "/";
    var req := PageRequest(path, ip, ua);
    if RecordedVisit(req, 200, recordedAt).Some? {
      var stored := RecordedVisit(req, 200, recordedAt).value.path;
      assert stored == path;
      if upper {
        assert stored[1] == 'V' && DetailPath(slug)[1] == 'v';
      } else {
        assert |stored| == |DetailPath(slug)| + 1;
      }
    }
    UnmatchedVisitInvisible(t, req, slug, now, recordedAt, ip, now2);
  }
}
