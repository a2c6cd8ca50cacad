/**
 * The public loan pages (Controllers/LoansController.cs): the filtered list
 * of active loans, the loans of one type, and a loan's detail page. The
 * detail page counts a view unless the same client address has already
 * been recorded on that page within the last day, and lists related loans
 * and related blog posts.
 */
module Loans {
  import opened Optional
  import opened Text
  import opened Clock
  import opened Entities
  import opened Store
  import opened Ordering
  import opened Listings

  // ------------------------------------------------------------------ Index

  /** `l.Bank.Slug == slug`, the bank being joined on BankId. */
  predicate BankHasSlug(banks: seq<Bank>, l: Loan, slug: string) {
    exists i :: 0 <= i < |banks| && banks[i].id == l.bankId && banks[i].slug == slug
  }

  /** `l.LoanType.Slug == slug`, the loan type being joined on LoanTypeId. */
  predicate TypeHasSlug(types: seq<LoanType>, l: Loan, slug: string) {
    exists i :: 0 <= i < |types| && types[i].id == l.loanTypeId && types[i].slug == slug
  }

  /** The search test: an ordinal substring of the title or of the short description. */
  predicate Mentions(l: Loan, q: string) {
    Contains(l.title, q) || (l.shortDescription.Some? && Contains(l.shortDescription.value, q))
  }

  /** Whether `Index` lists a loan: it is active and passes every filter that is not blank. */
  predicate Listed(t: Tables, bank: Option<string>, loanType: Option<string>, q: Option<string>, l: Loan) {
    l.isActive
    && (IsNullOrWhiteSpace(bank) || BankHasSlug(t.banks, l, bank.value))
    && (IsNullOrWhiteSpace(loanType) || TypeHasSlug(t.loanTypes, l, loanType.value))
    && (IsNullOrWhiteSpace(q) || Mentions(l, q.value))
  }

  /** The list page and the choices its filter form offers. */
  datatype IndexPage = IndexPage(loans: seq<Loan>, banks: seq<Bank>, loanTypes: seq<LoanType>)

  /** `Index(bank, type, q)`: the active loans passing the filters, featured first, and the filter choices. */
  method Index(db: ApplicationDbContext, bank: Option<string>, loanType: Option<string>, q: Option<string>)
    returns (page: IndexPage)
    ensures forall i :: 0 <= i < |page.loans| ==>
      page.loans[i] in db.loans && Listed(db.State(), bank, loanType, q, page.loans[i])
    ensures forall i :: 0 <= i < |db.loans| && Listed(db.State(), bank, loanType, q, db.loans[i]) ==>
      db.loans[i] in page.loans
    ensures forall l :: multiset(page.loans)[l] == if Listed(db.State(), bank, loanType, q, l) then multiset(db.loans)[l] else 0
    ensures SortedBy(page.loans, FeaturedFirst)
    ensures page.banks == ActiveBanks(db.banks) && page.loanTypes == ActiveLoanTypes(db.loanTypes)
  {
    var t := db.State();
    var query := Query(t, bank, loanType, q);
    var loans := SortBy(query, FeaturedFirst);
    SortByMembers(query, FeaturedFirst);
    page := IndexPage(loans, ActiveBanks(t.banks), ActiveLoanTypes(t.loanTypes));
  }

  /** The query of `Index`, narrowed one non-blank filter at a time. */
  method Query(t: Tables, bank: Option<string>, loanType: Option<string>, q: Option<string>) returns (query: seq<Loan>)
    ensures forall l :: l in query <==> l in t.loans && Listed(t, bank, loanType, q, l)
    ensures forall l :: multiset(query)[l] == if Listed(t, bank, loanType, q, l) then multiset(t.loans)[l] else 0
  {
    var active := (l: Loan) => l.isActive;
    query := Filter(t.loans, active);
    FilterCounts(t.loans, active);
    ghost var kept := active;
    if !IsNullOrWhiteSpace(bank) {
      var ofBank := (l: Loan) => BankHasSlug(t.banks, l, bank.value);
      query := Narrow(t.loans, query, kept, ofBank);
      kept := (l: Loan) => kept(l) && ofBank(l);
    }
    if !IsNullOrWhiteSpace(loanType) {
      var ofType := (l: Loan) => TypeHasSlug(t.loanTypes, l, loanType.value);
      query := Narrow(t.loans, query, kept, ofType);
      kept := (l: Loan) => kept(l) && ofType(l);
    }
    if !IsNullOrWhiteSpace(q) {
      var matching := (l: Loan) => Mentions(l, q.value);
      query := Narrow(t.loans, query, kept, matching);
      kept := (l: Loan) => kept(l) && matching(l);
    }
    assert forall l :: kept(l) == Listed(t, bank, loanType, q, l);
    CountsGiveMembers(t.loans, query, kept);
  }

  // ----------------------------------------------------------------- ByType

  /** `ByType(slug)`: the active loan type with the slug and its active loans, featured first; None is NotFound. */
  function ByType(t: Tables, slug: string): (r: Option<(LoanType, seq<Loan>)>)
    ensures r.None? <==> forall i :: 0 <= i < |t.loanTypes| ==> !(t.loanTypes[i].slug == slug && t.loanTypes[i].isActive)
    ensures r.Some? ==> r.value.0 in t.loanTypes && r.value.0.slug == slug && r.value.0.isActive
    ensures r.Some? ==> forall i :: 0 <= i < |r.value.1| ==>
      r.value.1[i] in t.loans && r.value.1[i].isActive && r.value.1[i].loanTypeId == r.value.0.id
    ensures r.Some? ==> forall i :: 0 <= i < |t.loans| && t.loans[i].isActive && t.loans[i].loanTypeId == r.value.0.id ==>
      t.loans[i] in r.value.1
    ensures r.Some? ==> forall l :: (multiset(r.value.1)[l] ==
      if l.isActive && l.loanTypeId == r.value.0.id then multiset(t.loans)[l] else 0)
    ensures r.Some? ==> SortedBy(r.value.1, FeaturedFirst)
  {
    match FirstIndex(t.loanTypes, (lt: LoanType) => lt.slug == slug && lt.isActive)
    case None => None
    case Some(k) =>
      var lt := t.loanTypes[k];
      FilterCounts(t.loans, (l: Loan) => l.isActive && l.loanTypeId == lt.id);
      Some((lt, OrderedWhere(t.loans, (l: Loan) => l.isActive && l.loanTypeId == lt.id, FeaturedFirst)))
  }

  // ----------------------------------------------------------------- Detail

  /** The route "vam/{slug}" of Program.cs: the path a loan's page is requested at. */
  function DetailPath(slug: string): string {
    "/vam/" + slug
  }

  /** `FirstOrDefault(l => l.Slug == slug && l.IsActive)`. */
  function FindActive(loans: seq<Loan>, slug: string): (r: Option<nat>)
    ensures r.Some? ==> r.value < |loans| && loans[r.value].slug == slug && loans[r.value].isActive
    ensures r.Some? ==> forall j :: 0 <= j < r.value ==> !(loans[j].slug == slug && loans[j].isActive)
    ensures r.None? <==> forall i :: 0 <= i < |loans| ==> !(loans[i].slug == slug && loans[i].isActive)
  {
    FirstIndex(loans, (l: Loan) => l.slug == slug && l.isActive)
  }

  /**
   * `alreadyVisited`: the client has an address, and a visit with the page's
   * path and that address was recorded no earlier than one day before now.
   */
  predicate AlreadyVisited(visits: seq<PageVisit>, slug: string, ip: Option<string>, now: Instant) {
    !IsNullOrEmpty(ip) && exists i :: 0 <= i < |visits| && RecentVisit(visits[i], slug, ip, now)
  }

  /** `v.Path == path && v.IpAddress == ip && v.VisitedAt >= oneDayAgo`. */
  predicate RecentVisit(v: PageVisit, slug: string, ip: Option<string>, now: Instant) {
    v.path == DetailPath(slug) && v.ipAddress == ip && v.visitedAt >= now - OneDay
  }

  /** A client without an address is never taken for a repeat visitor, whatever has been recorded. */
  lemma NoAddressAlwaysCounts(visits: seq<PageVisit>, slug: string, now: Instant)
    ensures !AlreadyVisited(visits, slug, None, now) && !AlreadyVisited(visits, slug, Some([]), now)
  {
  }

  /** The tables once the detail handler for `slug` has run: at most the found loan's view count changes. */
  function AfterDetail(t: Tables, slug: string, ip: Option<string>, now: Instant): (r: Tables)
    ensures r == t.(loans := r.loans) && |r.loans| == |t.loans|
    ensures FindActive(t.loans, slug).None? || AlreadyVisited(t.visits, slug, ip, now) ==> r == t
    ensures forall i :: 0 <= i < |t.loans| && FindActive(t.loans, slug) != Some(i) ==> r.loans[i] == t.loans[i]
    ensures forall i :: 0 <= i < |t.loans| ==> r.loans[i] == t.loans[i].(viewCount := r.loans[i].viewCount)
    ensures FindActive(t.loans, slug).Some? && !AlreadyVisited(t.visits, slug, ip, now) ==>
      var v := t.loans[FindActive(t.loans, slug).value].viewCount;
      var w := r.loans[FindActive(t.loans, slug).value].viewCount;
      (v < MaxInt32 ==> w == v + 1) && (v == MaxInt32 ==> w == MinInt32)
  {
    match FindActive(t.loans, slug)
    case None => t
    case Some(i) =>
      if AlreadyVisited(t.visits, slug, ip, now) then t
      else t.(loans := t.loans[i := t.loans[i].(viewCount := Wrap32(t.loans[i].viewCount + 1))])
  }

  /** A first view of the found loan saves exactly that loan with its count advanced. */
  lemma AfterDetailCounts(t: Tables, slug: string, ip: Option<string>, now: Instant, i: nat)
    requires FindActive(t.loans, slug) == Some(i) && !AlreadyVisited(t.visits, slug, ip, now)
    ensures AfterDetail(t, slug, ip, now) == t.(loans := t.loans[i := t.loans[i].(viewCount := Wrap32(t.loans[i].viewCount + 1))])
  {
  }

  /** `Take(4)` of the active loans other than `loan` that satisfy `p`, in store order. */
  function OtherActive(loans: seq<Loan>, loan: Loan, p: Loan -> bool): (r: seq<Loan>)
    ensures |r| <= 4
    ensures forall i :: 0 <= i < |r| ==> r[i] in loans && r[i].isActive && r[i].id != loan.id && p(r[i])
    ensures |r| < 4 ==> forall i :: 0 <= i < |loans| && loans[i].isActive && loans[i].id != loan.id && p(loans[i]) ==>
      loans[i] in r
  {
    Take(Filter(loans, (l: Loan) => l.isActive && l.id != loan.id && p(l)), 4)
  }

  /** `ViewBag.RelatedLoans`: up to four other active loans of the same type. */
  function RelatedLoans(loans: seq<Loan>, loan: Loan): (r: seq<Loan>)
    ensures |r| <= 4
    ensures forall i :: 0 <= i < |r| ==> r[i] in loans && r[i].isActive && r[i].id != loan.id && r[i].loanTypeId == loan.loanTypeId
  {
    OtherActive(loans, loan, (l: Loan) => l.loanTypeId == loan.loanTypeId)
  }

  /** `ViewBag.SameBankLoans`: up to four other active loans of the same bank. */
  function SameBankLoans(loans: seq<Loan>, loan: Loan): (r: seq<Loan>)
    ensures |r| <= 4
    ensures forall i :: 0 <= i < |r| ==> r[i] in loans && r[i].isActive && r[i].id != loan.id && r[i].bankId == loan.bankId
  {
    OtherActive(loans, loan, (l: Loan) => l.bankId == loan.bankId)
  }

  // ------------------------------------------------------ RelatedArticleIds

  /** One comma-separated piece: `int.TryParse(s.Trim(), out var id) ? id : 0`. */
  function PieceId(piece: string): (id: int)
    ensures MinInt32 <= id <= MaxInt32
    ensures TryParseInt32(Trim(piece)).Some? ==> id == TryParseInt32(Trim(piece)).value
    ensures TryParseInt32(Trim(piece)).None? ==> id == 0
  {
    match TryParseInt32(Trim(piece))
    case Some(n) => n
    case None => 0
  }

  function PieceIds(pieces: seq<string>): (ids: seq<int>)
    ensures |ids| == |pieces|
    ensures forall k :: 0 <= k < |pieces| ==> ids[k] == PieceId(pieces[k])
  {
    Select(pieces, PieceId)
  }

  /** The post ids listed in a loan's RelatedArticleIds text: the pieces that parse to a positive int. */
  function ArticleIds(text: string): (ids: seq<int>)
    ensures forall k :: 0 <= k < |ids| ==> 0 < ids[k] <= MaxInt32
    ensures forall n :: n in ids <==>
      n > 0 && exists k :: 0 <= k < |SplitNonEmpty(text, ',')| && TryParseInt32(Trim(SplitNonEmpty(text, ',')[k])) == Some(n)
  {
    var pieces := SplitNonEmpty(text, ',');
    FilterMembers(PieceIds(pieces), (id: int) => id > 0);
    PieceIdsMembers(pieces);
    Filter(PieceIds(pieces), (id: int) => id > 0)
  }

  /** A non-zero id is among the pieces' ids exactly when some piece parses to it. */
  lemma PieceIdsMembers(pieces: seq<string>)
    ensures forall n :: n != 0 ==>
      (n in PieceIds(pieces) <==> exists k :: 0 <= k < |pieces| && TryParseInt32(Trim(pieces[k])) == Some(n))
  {
    var ids := PieceIds(pieces);
    forall n | n != 0 && n in ids
      ensures exists k :: 0 <= k < |pieces| && TryParseInt32(Trim(pieces[k])) == Some(n)
    {
      var k :| 0 <= k < |ids| && ids[k] == n;
      assert TryParseInt32(Trim(pieces[k])) == Some(n);
    }
    forall n, k | n != 0 && 0 <= k < |pieces| && TryParseInt32(Trim(pieces[k])) == Some(n)
      ensures n in ids
    {
      assert ids[k] == n;
    }
  }

  /** The decimal text of each id. */
  function IdTexts(ids: seq<int>): (r: seq<string>)
    ensures |r| == |ids|
    ensures forall k :: 0 <= k < |ids| ==> r[k] == IntToString(ids[k])
  {
    if ids == [] then [] else [IntToString(ids[0])] + IdTexts(ids[1..])
  }

  /** A positive id's text is non-empty digits, so it survives the split, the trim and the parse. */
  lemma PieceIdOfText(id: int)
    requires 0 < id <= MaxInt32
    ensures PieceId(IntToString(id)) == id
    ensures IntToString(id) != [] && forall i :: 0 <= i < |IntToString(id)| ==> IsDigit(IntToString(id)[i])
  {
    var s := IntToString(id);
    assert !IsWhiteSpace(s[0]) && !IsWhiteSpace(s[|s| - 1]);
    assert Trim(s) == s;
    ParseIntToString(id, MinInt32, MaxInt32);
  }

  lemma {:induction false} PieceIdsOfTexts(ids: seq<int>)
    requires forall k :: 0 <= k < |ids| ==> 0 < ids[k] <= MaxInt32
    ensures DropEmpty(IdTexts(ids)) == IdTexts(ids)
    ensures PieceIds(IdTexts(ids)) == ids
  {
    if ids != [] {
      PieceIdsOfTexts(ids[1..]);
      PieceIdOfText(ids[0]);
      var texts := IdTexts(ids);
      assert texts[1..] == IdTexts(ids[1..]);
      assert ids == [ids[0]] + ids[1..];
    }
  }

  /** Writing positive ids comma-separated and reading them back gives the same ids, in order. */
  lemma ArticleIdsRoundTrip(ids: seq<int>)
    requires forall k :: 0 <= k < |ids| ==> 0 < ids[k] <= MaxInt32
    ensures ArticleIds(Join(",", IdTexts(ids))) == ids
  {
    var texts := IdTexts(ids);
    PieceIdsOfTexts(ids);
    FilterAll(ids, (id: int) => id > 0);
    if ids == [] {
      assert Split([], ',') == [[]];
    } else {
      forall k, i | 0 <= k < |texts| && 0 <= i < |texts[k]| ensures texts[k][i] != ',' {
        PieceIdOfText(ids[k]);
      }
      SplitJoin(texts, ',');
    }
  }

  // ------------------------------------------------------- related articles

  /** The explicit list: published posts whose id RelatedArticleIds names, in store order. */
  function ListedArticles(posts: seq<BlogPost>, loan: Loan): (r: seq<BlogPost>)
    ensures forall i :: 0 <= i < |r| ==> r[i] in posts && r[i].isPublished
    ensures !IsNullOrEmpty(loan.relatedArticleIds) ==>
      forall i :: 0 <= i < |posts| && posts[i].isPublished && posts[i].id in ArticleIds(loan.relatedArticleIds.value) ==> posts[i] in r
    ensures forall i :: 0 <= i < |r| ==> !IsNullOrEmpty(loan.relatedArticleIds) && r[i].id in ArticleIds(loan.relatedArticleIds.value)
  {
    if IsNullOrEmpty(loan.relatedArticleIds) then []
    else
      var ids := ArticleIds(loan.relatedArticleIds.value);
      if ids == [] then [] else Filter(posts, (p: BlogPost) => p.id in ids && p.isPublished)
  }

  /** The fallback test: a published post that names the loan, or whose RelatedLoanIds text contains the loan id's digits. */
  predicate MentionsLoan(p: BlogPost, id: int) {
    p.isPublished
    && ((p.relatedLoanId.Some? && p.relatedLoanId.value == id)
      || (p.relatedLoanIds.Some? && Contains(p.relatedLoanIds.value, IntToString(id))))
  }

  /** `ViewBag.RelatedArticles`: the explicit list when it finds anything, else up to five mentioning posts. */
  function RelatedArticles(posts: seq<BlogPost>, loan: Loan): (r: seq<BlogPost>)
    ensures forall i :: 0 <= i < |r| ==> r[i] in posts && r[i].isPublished
    ensures ListedArticles(posts, loan) != [] ==> r == ListedArticles(posts, loan)
    ensures ListedArticles(posts, loan) == [] ==> |r| <= 5 && forall i :: 0 <= i < |r| ==> MentionsLoan(r[i], loan.id)
    ensures ListedArticles(posts, loan) == [] && |r| < 5 ==>
      forall i :: 0 <= i < |posts| && MentionsLoan(posts[i], loan.id) ==> posts[i] in r
  {
    var listed := ListedArticles(posts, loan);
    if listed != [] then listed
    else Take(Filter(posts, (p: BlogPost) => MentionsLoan(p, loan.id)), 5)
  }

  /** The fallback matches digits anywhere in RelatedLoanIds, so a post listing loan 12 is taken as about loan 1. */
  lemma DigitsMatchAnywhere(p: BlogPost)
    requires p.isPublished && p.relatedLoanIds == Some("12")
    ensures MentionsLoan(p, 1)
  {
    assert IntToString(1) == "1";
    ContainsInfix("", "1", "2");
    assert "" + "1" + "2" == "12";
  }

  // ------------------------------------------------------------ the handler

  /** What the detail view shows. */
  datatype DetailPage = DetailPage(loan: Loan, relatedLoans: seq<Loan>, sameBankLoans: seq<Loan>, relatedArticles: seq<BlogPost>)

  /** The detail view of the loan at position `i`, read from the tables after the view was counted. */
  function PageOf(t: Tables, i: nat): DetailPage
    requires i < |t.loans|
  {
    var loan := t.loans[i];
    DetailPage(loan, RelatedLoans(t.loans, loan), SameBankLoans(t.loans, loan), RelatedArticles(t.posts, loan))
  }

  /**
   * `Detail(slug)` for a client at `ip` at time `now`: NotFound (None) when no
   * active loan has the slug; otherwise the view is counted unless it is a
   * repeat, saved, and the page is read back.
   */
  method Detail(db: ApplicationDbContext, slug: string, ip: Option<string>, now: Instant) returns (r: Option<DetailPage>)
    requires db.Valid()
    modifies db
    ensures db.Valid()
    ensures db.State() == AfterDetail(old(db.State()), slug, ip, now)
    ensures r.None? <==> FindActive(old(db.loans), slug).None?
    ensures r.Some? ==> r.value == PageOf(db.State(), FindActive(old(db.loans), slug).value)
  {
    var found := CountView(db, slug, ip, now);
    if found.None? {
      return None;
    }
    r := Some(PageOf(db.State(), found.value));
  }

  /** Finds the loan and, unless the view is a repeat, saves it with one more view. */
  method CountView(db: ApplicationDbContext, slug: string, ip: Option<string>, now: Instant) returns (found: Option<nat>)
    requires db.Valid()
    modifies db
    ensures db.Valid()
    ensures found == FindActive(old(db.loans), slug)
    ensures db.State() == AfterDetail(old(db.State()), slug, ip, now)
    ensures found.Some? ==> found.value < |db.loans|
  {
    var t := db.State();
    found := FindActive(t.loans, slug);
    if found.None? {
      return;
    }
    var i := found.value;
    var alreadyVisited := AlreadyVisited(t.visits, slug, ip, now);
    if !alreadyVisited {
      var loan := t.loans[i].(viewCount := Wrap32(t.loans[i].viewCount + 1));
      var proposed := t.(loans := t.loans[i := loan]);
      AfterDetailCounts(t, slug, ip, now, i);
      SameKeysLoanConsistent(t, i, loan);
      var saved := db.SaveChanges(proposed);
      assert saved;
    }
  }
}
