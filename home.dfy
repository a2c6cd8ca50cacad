/**
 * The public home controller (Controllers/HomeController.cs): the home page's
 * loan and bank listings with their totals, the newsletter sign-up, and the
 * sitemap. The welcome e-mail that a sign-up triggers is not part of this
 * model.
 */
module Home {
  import opened Optional
  import opened Text
  import opened Clock
  import opened Entities
  import opened Store
  import opened Ordering
  import opened Listings

  // ------------------------------------------------------------------ Index

  function UpdatedAt(l: Loan): int { l.updatedAt }

  function CreatedAt(l: Loan): int { l.createdAt }

  function ViewCount(l: Loan): int { l.viewCount }

  predicate ActiveLoan(l: Loan) { l.isActive }

  predicate FeaturedLoan(l: Loan) { l.isActive && l.isFeatured }

  /** `l.Bank.LogoUrl != null`, the bank being joined on BankId. */
  predicate BankHasLogo(banks: seq<Bank>, l: Loan) {
    exists i :: 0 <= i < |banks| && banks[i].id == l.bankId && banks[i].logoUrl.Some?
  }

  /** The featured loans: active and featured, the most recently updated first, at most six. */
  function FeaturedLoans(t: Tables): (r: seq<Loan>)
    ensures |r| <= 6
    ensures forall i :: 0 <= i < |r| ==> r[i] in t.loans && r[i].isActive && r[i].isFeatured
    ensures forall i, j :: 0 <= i < j < |r| ==> r[i].updatedAt >= r[j].updatedAt
  {
    TopNewest(t.loans, FeaturedLoan, UpdatedAt, 6)
  }

  /** A featured active loan is missing from the six only when six more recently updated ones fill the list. */
  lemma FeaturedAreNewest(t: Tables, l: Loan)
    requires l in t.loans && l.isActive && l.isFeatured && l !in FeaturedLoans(t)
    ensures |FeaturedLoans(t)| == 6
    ensures forall i :: 0 <= i < 6 ==> FeaturedLoans(t)[i].updatedAt >= l.updatedAt
  {
    TopNewestOmits(t.loans, FeaturedLoan, UpdatedAt, 6, l);
  }

  /** The most viewed active loans, ties broken by the latest update, at most six. */
  function HotLoans(t: Tables): (r: seq<Loan>)
    ensures |r| <= 6
    ensures forall i :: 0 <= i < |r| ==> r[i] in t.loans && r[i].isActive
    ensures forall i, j :: 0 <= i < j < |r| ==>
      r[i].viewCount > r[j].viewCount || (r[i].viewCount == r[j].viewCount && r[i].updatedAt >= r[j].updatedAt)
  {
    TopRanked(t.loans, ActiveLoan, ViewCount, UpdatedAt, 6)
  }

  /** An active loan is missing from the hot list only when six loans with more views, or as many and a later update, fill it. */
  lemma HotAreMostViewed(t: Tables, l: Loan)
    requires l in t.loans && l.isActive && l !in HotLoans(t)
    ensures |HotLoans(t)| == 6
    ensures forall i :: 0 <= i < 6 ==>
      HotLoans(t)[i].viewCount > l.viewCount || (HotLoans(t)[i].viewCount == l.viewCount && HotLoans(t)[i].updatedAt >= l.updatedAt)
  {
    TopRankedOmits(t.loans, ActiveLoan, ViewCount, UpdatedAt, 6, l);
  }

  /** The newest active loans by creation time, at most six. */
  function LatestLoans(t: Tables): (r: seq<Loan>)
    ensures |r| <= 6
    ensures forall i :: 0 <= i < |r| ==> r[i] in t.loans && r[i].isActive
    ensures forall i, j :: 0 <= i < j < |r| ==> r[i].createdAt >= r[j].createdAt
  {
    TopNewest(t.loans, ActiveLoan, CreatedAt, 6)
  }

  /** An active loan is missing from the latest list only when six loans created no earlier fill it. */
  lemma LatestAreNewest(t: Tables, l: Loan)
    requires l in t.loans && l.isActive && l !in LatestLoans(t)
    ensures |LatestLoans(t)| == 6
    ensures forall i :: 0 <= i < 6 ==> LatestLoans(t)[i].createdAt >= l.createdAt
  {
    TopNewestOmits(t.loans, ActiveLoan, CreatedAt, 6, l);
  }

  /** The bubble strip: the most viewed active loans whose bank has a logo, at most twelve. */
  function BubbleLoans(t: Tables): (r: seq<Loan>)
    ensures |r| <= 12
    ensures forall i :: 0 <= i < |r| ==> r[i] in t.loans && r[i].isActive && BankHasLogo(t.banks, r[i])
    ensures forall i, j :: 0 <= i < j < |r| ==> r[i].viewCount >= r[j].viewCount
  {
    TopNewest(t.loans, (l: Loan) => l.isActive && BankHasLogo(t.banks, l), ViewCount, 12)
  }

  /** A qualifying loan is missing from the strip only when twelve loans with at least as many views fill it. */
  lemma BubbleAreMostViewed(t: Tables, l: Loan)
    requires l in t.loans && l.isActive && BankHasLogo(t.banks, l) && l !in BubbleLoans(t)
    ensures |BubbleLoans(t)| == 12
    ensures forall i :: 0 <= i < 12 ==> BubbleLoans(t)[i].viewCount >= l.viewCount
  {
    TopNewestOmits(t.loans, (l: Loan) => l.isActive && BankHasLogo(t.banks, l), ViewCount, 12, l);
  }

  /** What the home page shows. */
  datatype HomePage = HomePage(
    featuredLoans: seq<Loan>,
    hotLoans: seq<Loan>,
    latestLoans: seq<Loan>,
    banks: seq<BankCard>,
    loanTypes: seq<LoanType>,
    totalLoans: nat,
    totalBanks: nat,
    totalLoanTypes: nat,
    bubbleLoans: seq<Loan>)

  /** `Index`: the listings, and the totals counted over the active rows. */
  function Index(t: Tables): HomePage {
    HomePage(
      FeaturedLoans(t), HotLoans(t), LatestLoans(t),
      BanksWithLoans(t.banks, t.loans), ActiveLoanTypes(t.loanTypes),
      CountWhere(t.loans, ActiveLoan), CountWhere(t.banks, ActiveBank), CountWhere(t.loanTypes, ActiveLoanType),
      BubbleLoans(t))
  }

  /** The totals agree with the listings: one bank card per active bank, one entry per active loan type, and no loans counted exactly when none is active. */
  lemma IndexTotals(t: Tables)
    ensures Index(t).totalBanks == |Index(t).banks|
    ensures Index(t).totalLoanTypes == |Index(t).loanTypes|
    ensures Index(t).totalLoans == 0 <==> forall i :: 0 <= i < |t.loans| ==> !t.loans[i].isActive
  {
    CountFilter(t.banks, ActiveBank);
    CountFilter(t.loanTypes, ActiveLoanType);
  }

  // -------------------------------------------------------------- Subscribe

  /** The JSON answer of `Subscribe`; all but `Rejected` report success. */
  datatype Reply =
    | Rejected           // success = false: not an e-mail address
    | AlreadySubscribed  // success = true, nothing added
    | Joined             // success = true, one subscriber added
    | ServerError        // an exception from SaveChanges escapes the handler (500)

  datatype SubscribeResult = SubscribeResult(reply: Reply, tables: Tables)

  /** The address test: not blank, and holding an '@'. */
  predicate ValidEmail(email: Option<string>) {
    !IsNullOrWhiteSpace(email) && '@' in email.value
  }

  /** `email.Trim().ToLowerInvariant()`. */
  function Normalize(email: string): (r: string)
    ensures |r| <= |email|
    ensures Lower(r) == r
    ensures r != [] ==> !IsWhiteSpace(r[0]) && !IsWhiteSpace(r[|r| - 1])
  {
    var trimmed := Trim(email);
    LowerIdempotent(trimmed);
    assert trimmed != [] ==> Lower(trimmed)[0] == LowerChar(trimmed[0]);
    Lower(trimmed)
  }

  /** The row `Subscribe` adds: the normalised address, the trimmed name, active, stamped now. */
  function NewSubscriber(email: string, name: Option<string>, ip: Option<string>, now: Instant): (r: NewsletterSubscriber)
    ensures r.email == Normalize(email) && r.isActive && r.subscribedAt == now && r.ipAddress == ip
    ensures r.name.Some? <==> name.Some?
    ensures r.name.Some? ==> r.name.value == Trim(name.value)
  {
    NewsletterSubscriber(0, Normalize(email), if name.Some? then Some(Trim(name.value)) else None, true, now, ip)
  }

  /** `Subscribe(email, name)` from a client at `ip` at time `now`. */
  function Subscribed(t: Tables, email: Option<string>, name: Option<string>, ip: Option<string>, now: Instant): (r: SubscribeResult)
    ensures r.reply == Rejected <==> !ValidEmail(email)
    ensures r.reply == AlreadySubscribed <==> ValidEmail(email) && KeyTaken(t.subscribers, SubscriberEmail, Normalize(email.value))
    ensures r.reply != Joined ==> r.tables == t
    ensures r.reply == Joined ==> r.tables == AddSubscriber(t, NewSubscriber(email.value, name, ip, now))
  {
    if !ValidEmail(email) then SubscribeResult(Rejected, t)
    else
      var e := Normalize(email.value);
      if KeyTaken(t.subscribers, SubscriberEmail, e) then SubscribeResult(AlreadySubscribed, t)
      else
        var proposed := AddSubscriber(t, NewSubscriber(email.value, name, ip, now));
        if Constraints(proposed) then SubscribeResult(Joined, proposed) else SubscribeResult(ServerError, t)
  }

  /** A character that is not white space survives Trim. */
  lemma TrimKeeps(s: string, k: int)
    requires 0 <= k < |s| && !IsWhiteSpace(s[k])
    ensures s[k] in Trim(s)
  {
    var a := TrimStart(s);
    var b := TrimEnd(a);
    assert Trim(s) == b;
    var k1 := k - (|s| - |a|);
    assert a[k1] == s[k];
    assert b[k1] == a[k1];
  }

  /** On a consistent store a valid address is always accepted: nothing escapes as a server error, and the store stays consistent. */
  lemma SubscribeAccepts(t: Tables, email: Option<string>, name: Option<string>, ip: Option<string>, now: Instant)
    requires Consistent(t)
    ensures Subscribed(t, email, name, ip, now).reply != ServerError
    ensures Consistent(Subscribed(t, email, name, ip, now).tables)
  {
    if ValidEmail(email) {
      AddSubscriberConsistent(t, NewSubscriber(email.value, name, ip, now));
    }
  }

  /** A normalised valid address still holds its '@'. */
  lemma NormalizeKeepsAt(email: string)
    requires '@' in email
    ensures '@' in Normalize(email)
  {
    var k :| 0 <= k < |email| && email[k] == '@';
    assert !IsWhiteSpace('@');
    TrimKeeps(email, k);
    var trimmed := Trim(email);
    var j :| 0 <= j < |trimmed| && trimmed[j] == '@';
    assert Normalize(email) == Lower(trimmed);
    assert Lower(trimmed)[j] == LowerChar('@') == '@';
  }

  /** After joining, the stored address is the normalised one, which still holds its '@'. */
  lemma SubscribeStoresNormalized(t: Tables, email: Option<string>, name: Option<string>, ip: Option<string>, now: Instant)
    requires Subscribed(t, email, name, ip, now).reply == Joined
    ensures '@' in Normalize(email.value)
    ensures KeyTaken(Subscribed(t, email, name, ip, now).tables.subscribers, SubscriberEmail, Normalize(email.value))
  {
    NormalizeKeepsAt(email.value);
    var after := Subscribed(t, email, name, ip, now).tables.subscribers;
    assert SubscriberEmail(after[|after| - 1]) == Normalize(email.value);
  }

  /** Subscribing again with the same address adds nothing and still reports success. */
  lemma SubscribeIdempotent(t: Tables, email: Option<string>, name: Option<string>, ip: Option<string>, now: Instant,
    name2: Option<string>, ip2: Option<string>, later: Instant)
    requires Consistent(t)
    ensures var first := Subscribed(t, email, name, ip, now);
      Subscribed(first.tables, email, name2, ip2, later) ==
        SubscribeResult(if ValidEmail(email) then AlreadySubscribed else Rejected, first.tables)
  {
    SubscribeAccepts(t, email, name, ip, now);
    if Subscribed(t, email, name, ip, now).reply == Joined {
      SubscribeStoresNormalized(t, email, name, ip, now);
    }
  }

  method Subscribe(db: ApplicationDbContext, email: Option<string>, name: Option<string>, ip: Option<string>, now: Instant)
    returns (reply: Reply)
    requires db.Valid()
    modifies db
    ensures SubscribeResult(reply, db.State()) == Subscribed(old(db.State()), email, name, ip, now)
  {
    if IsNullOrWhiteSpace(email) || '@' !in email.value {
      return Rejected;
    }
    var e := Normalize(email.value);
    var t := db.State();
    if KeyTaken(t.subscribers, SubscriberEmail, e) {
      return AlreadySubscribed;
    }
    var row := NewSubscriber(email.value, name, ip, now);
    AddSubscriberConsistent(t, row);
    var ok := db.SaveChanges(AddSubscriber(t, row));
    reply := if ok then Joined else ServerError;
  }

  // ---------------------------------------------------------------- Sitemap

  const SiteRoot: string := "https://vamgard.org"
  const XmlDeclaration: string := "<?xml version=\"1.0\" encoding=\"UTF-8\"?>"
  /** The namespace of version 0.9 of the Sitemaps protocol. */
  const SitemapNamespace: string := "http://www.sitemaps.org/schemas/sitemap/0.9"
  const UrlsetOpen: string := "<urlset xmlns=\"" + SitemapNamespace + "\">"
  const UrlsetClose: string := "</urlset>"
  const EntryStart: string := "<url><loc>" + SiteRoot

  /** One `<url>` element: the page under the site root, its last change if known, and the crawl hints. */
  datatype UrlEntry = UrlEntry(path: string, lastmod: Option<Instant>, changefreq: string, priority: string)

  /** The element on one line; `<lastmod>` is the date of the last change, written only when known. */
  function Render(e: UrlEntry): (r: string)
    ensures StartsWith(r, EntryStart + e.path + "</loc>")
  {
    var head := EntryStart + e.path + "</loc>";
    var rest := (if e.lastmod.Some? then "<lastmod>" + FormatDate(e.lastmod.value) + "</lastmod>" else "")
      + "<changefreq>" + e.changefreq + "</changefreq><priority>" + e.priority + "</priority></url>";
    assert (head + rest)[..|head|] == head;
    head + rest
  }

  /** The home page, the loan list, the bank list and the blog. */
  const FixedEntries: seq<UrlEntry> := [
    UrlEntry("/", None, "daily", "1.0"),
    UrlEntry("/Loans", None, "daily", "0.9"),
    UrlEntry("/Banks", None, "weekly", "0.8"),
    UrlEntry("/Blog", None, "weekly", "0.8")]

  function LoanEntry(l: Loan): UrlEntry {
    UrlEntry("/vam/" + l.slug, Some(l.updatedAt), "weekly", "0.8")
  }

  function BankEntry(b: Bank): UrlEntry {
    UrlEntry("/bank/" + b.slug, None, "weekly", "0.7")
  }

  function LoanTypeEntry(lt: LoanType): UrlEntry {
    UrlEntry("/type/" + lt.slug, None, "weekly", "0.7")
  }

  function PostEntry(p: BlogPost): UrlEntry {
    UrlEntry("/blog/" + p.slug, Some(p.updatedAt), "weekly", "0.6")
  }

  predicate PublishedPost(p: BlogPost) { p.isPublished }

  /** The `<url>` elements: the four fixed pages, then every active loan, bank and loan type and every published post, in table order. */
  function SitemapEntries(t: Tables): seq<UrlEntry> {
    FixedEntries
      + Select(Filter(t.loans, ActiveLoan), LoanEntry)
      + Select(Filter(t.banks, ActiveBank), BankEntry)
      + Select(Filter(t.loanTypes, ActiveLoanType), LoanTypeEntry)
      + Select(Filter(t.posts, PublishedPost), PostEntry)
  }

  /** The document's lines: the XML declaration, the `<urlset>` of the Sitemaps 0.9 namespace, one line per element, and the closing tag. */
  function SitemapLines(t: Tables): (r: seq<string>)
    ensures |r| == |SitemapEntries(t)| + 3
    ensures r[0] == XmlDeclaration && r[1] == UrlsetOpen && r[|r| - 1] == UrlsetClose
    ensures forall k :: 0 <= k < |SitemapEntries(t)| ==>
      StartsWith(r[k + 2], EntryStart + SitemapEntries(t)[k].path + "</loc>")
  {
    [XmlDeclaration, UrlsetOpen] + Select(SitemapEntries(t), Render) + [UrlsetClose]
  }

  /** StringBuilder.ToString after a run of AppendLine calls: every line followed by a newline. */
  function Lines(lines: seq<string>): string {
    if lines == [] then [] else lines[0] + "\n" + Lines(lines[1..])
  }

  /** `foreach (var row in rows) sb.AppendLine(...)`: one rendered element per row, the builder holding the lines so far. */
  method AppendEach<T>(sb: seq<string>, rows: seq<T>, entry: T -> UrlEntry) returns (r: seq<string>)
    ensures r == sb + Select(Select(rows, entry), Render)
  {
    r := sb;
    for i := 0 to |rows|
      invariant r == sb + Select(Select(rows[..i], entry), Render)
    {
      assert Select(Select(rows[..i + 1], entry), Render) == Select(Select(rows[..i], entry), Render) + [Render(entry(rows[i]))];
      r := r + [Render(entry(rows[i]))];
    }
    assert rows[..|rows|] == rows;
  }

  /** `Sitemap()`: the document built line by line. */
  method Sitemap(db: ApplicationDbContext) returns (xml: string)
    ensures xml == Lines(SitemapLines(db.State()))
  {
    var t := db.State();
    var loans := Filter(t.loans, ActiveLoan);
    var banks := Filter(t.banks, ActiveBank);
    var loanTypes := Filter(t.loanTypes, ActiveLoanType);
    var posts := Filter(t.posts, PublishedPost);

    var sb: seq<string> := [XmlDeclaration, UrlsetOpen];
    sb := sb + Select(FixedEntries, Render);
    sb := AppendEach(sb, loans, LoanEntry);
    sb := AppendEach(sb, banks, BankEntry);
    sb := AppendEach(sb, loanTypes, LoanTypeEntry);
    sb := AppendEach(sb, posts, PostEntry);
    sb := sb + [UrlsetClose];
    FramedSelect([XmlDeclaration, UrlsetOpen], FixedEntries, Select(loans, LoanEntry), Select(banks, BankEntry),
      Select(loanTypes, LoanTypeEntry), Select(posts, PostEntry), [UrlsetClose], Render);
    xml := Lines(sb);
  }

  lemma FramedSelect<A, B>(pre: seq<B>, a: seq<A>, b: seq<A>, c: seq<A>, d: seq<A>, e: seq<A>, post: seq<B>, f: A -> B)
    ensures pre + Select(a, f) + Select(b, f) + Select(c, f) + Select(d, f) + Select(e, f) + post
      == pre + Select(a + b + c + d + e, f) + post
  {
    SelectAppend(a, b, f);
    SelectAppend(a + b, c, f);
    SelectAppend(a + b + c, d, f);
    SelectAppend(a + b + c + d, e, f);
    Regroup(pre, Select(a, f), Select(b, f), Select(c, f), Select(d, f), Select(e, f));
  }

  lemma Regroup<T>(p: seq<T>, a: seq<T>, b: seq<T>, c: seq<T>, d: seq<T>, e: seq<T>)
    ensures p + a + b + c + d + e == p + (a + b + c + d + e)
  {
  }

  lemma InParts<T>(x: T, a: seq<T>, b: seq<T>, c: seq<T>, d: seq<T>, e: seq<T>)
    requires x in a || x in b || x in c || x in d || x in e
    ensures x in a + b + c + d + e
  {
  }

  /** There are 4 + (active loans) + (active banks) + (active loan types) + (published posts) `<url>` elements. */
  lemma SitemapCount(t: Tables)
    ensures |SitemapEntries(t)| == 4 + CountWhere(t.loans, ActiveLoan) + CountWhere(t.banks, ActiveBank)
      + CountWhere(t.loanTypes, ActiveLoanType) + CountWhere(t.posts, PublishedPost)
  {
    CountFilter(t.loans, ActiveLoan);
    CountFilter(t.banks, ActiveBank);
    CountFilter(t.loanTypes, ActiveLoanType);
    CountFilter(t.posts, PublishedPost);
  }

  /** Every active loan's page is listed. */
  lemma SitemapListsLoan(t: Tables, l: Loan)
    requires l in t.loans && l.isActive
    ensures LoanEntry(l) in SitemapEntries(t)
  {
    var loans := Filter(t.loans, ActiveLoan);
    FilterMembers(t.loans, ActiveLoan);
    var j :| 0 <= j < |loans| && loans[j] == l;
    assert Select(loans, LoanEntry)[j] == LoanEntry(l);
    InParts(LoanEntry(l), FixedEntries, Select(loans, LoanEntry), Select(Filter(t.banks, ActiveBank), BankEntry),
      Select(Filter(t.loanTypes, ActiveLoanType), LoanTypeEntry), Select(Filter(t.posts, PublishedPost), PostEntry));
  }

  /** Every published post is listed. */
  lemma SitemapListsPost(t: Tables, p: BlogPost)
    requires p in t.posts && p.isPublished
    ensures PostEntry(p) in SitemapEntries(t)
  {
    var posts := Filter(t.posts, PublishedPost);
    FilterMembers(t.posts, PublishedPost);
    var j :| 0 <= j < |posts| && posts[j] == p;
    assert Select(posts, PostEntry)[j] == PostEntry(p);
    InParts(PostEntry(p), FixedEntries, Select(Filter(t.loans, ActiveLoan), LoanEntry), Select(Filter(t.banks, ActiveBank), BankEntry),
      Select(Filter(t.loanTypes, ActiveLoanType), LoanTypeEntry), Select(posts, PostEntry));
  }

  /** Every active bank's page is listed. */
  lemma SitemapListsBank(t: Tables, b: Bank)
    requires b in t.banks && b.isActive
    ensures BankEntry(b) in SitemapEntries(t)
  {
    var banks := Filter(t.banks, ActiveBank);
    FilterMembers(t.banks, ActiveBank);
    var j :| 0 <= j < |banks| && banks[j] == b;
    assert Select(banks, BankEntry)[j] == BankEntry(b);
    InParts(BankEntry(b), FixedEntries, Select(Filter(t.loans, ActiveLoan), LoanEntry), Select(banks, BankEntry),
      Select(Filter(t.loanTypes, ActiveLoanType), LoanTypeEntry), Select(Filter(t.posts, PublishedPost), PostEntry));
  }

  /** Every active loan type's page is listed. */
  lemma SitemapListsLoanType(t: Tables, lt: LoanType)
    requires lt in t.loanTypes && lt.isActive
    ensures LoanTypeEntry(lt) in SitemapEntries(t)
  {
    var types := Filter(t.loanTypes, ActiveLoanType);
    FilterMembers(t.loanTypes, ActiveLoanType);
    var j :| 0 <= j < |types| && types[j] == lt;
    assert Select(types, LoanTypeEntry)[j] == LoanTypeEntry(lt);
    InParts(LoanTypeEntry(lt), FixedEntries, Select(Filter(t.loans, ActiveLoan), LoanEntry), Select(Filter(t.banks, ActiveBank), BankEntry),
      Select(types, LoanTypeEntry), Select(Filter(t.posts, PublishedPost), PostEntry));
  }

  /** An entry of the five parts that is in none of the others is in the one left. */
  lemma InPart<T>(x: T, a: seq<T>, b: seq<T>, c: seq<T>, d: seq<T>, e: seq<T>, k: nat)
    requires x in a + b + c + d + e && k < 5
    requires k != 0 ==> x !in a
    requires k != 1 ==> x !in b
    requires k != 2 ==> x !in c
    requires k != 3 ==> x !in d
    requires k != 4 ==> x !in e
    ensures k == 1 ==> x in b
    ensures k == 4 ==> x in e
  {
  }

  /** The fixed pages' paths are "/" and capitalised names, so a lower-case path of two or more characters is none of them. */
  lemma NotFixed(e: UrlEntry)
    requires |e.path| >= 2 && e.path[1] != 'L' && e.path[1] != 'B'
    ensures e !in FixedEntries
  {
    forall i | 0 <= i < |FixedEntries| ensures FixedEntries[i] != e {
      assert |FixedEntries[i].path| < 2 || FixedEntries[i].path[1] == 'L' || FixedEntries[i].path[1] == 'B';
    }
  }

  /** Loan paths begin "/v": an entry whose second character differs is no loan's. */
  lemma NotLoanEntry(loans: seq<Loan>, e: UrlEntry)
    requires |e.path| > 1 && e.path[1] != 'v'
    ensures e !in Select(loans, LoanEntry)
  {
    forall i | 0 <= i < |loans| ensures LoanEntry(loans[i]) != e {
      assert LoanEntry(loans[i]).path[1] == 'v';
    }
  }

  /** Bank paths begin "/ba": an entry whose second or third character differs is no bank's. */
  lemma NotBankEntry(banks: seq<Bank>, e: UrlEntry)
    requires |e.path| > 2 && (e.path[1] != 'b' || e.path[2] != 'a')
    ensures e !in Select(banks, BankEntry)
  {
    forall i | 0 <= i < |banks| ensures BankEntry(banks[i]) != e {
      assert BankEntry(banks[i]).path[1] == 'b' && BankEntry(banks[i]).path[2] == 'a';
    }
  }

  /** Loan type paths begin "/t". */
  lemma NotLoanTypeEntry(types: seq<LoanType>, e: UrlEntry)
    requires |e.path| > 1 && e.path[1] != 't'
    ensures e !in Select(types, LoanTypeEntry)
  {
    forall i | 0 <= i < |types| ensures LoanTypeEntry(types[i]) != e {
      assert LoanTypeEntry(types[i]).path[1] == 't';
    }
  }

  /** Post paths begin "/b". */
  lemma NotPostEntry(posts: seq<BlogPost>, e: UrlEntry)
    requires |e.path| > 1 && e.path[1] != 'b'
    ensures e !in Select(posts, PostEntry)
  {
    forall i | 0 <= i < |posts| ensures PostEntry(posts[i]) != e {
      assert PostEntry(posts[i]).path[1] == 'b';
    }
  }

  /** A loan's path begins "/va". */
  lemma LoanPathStart(l: Loan)
    ensures |LoanEntry(l).path| > 2 && LoanEntry(l).path[1] == 'v' && LoanEntry(l).path[2] == 'a'
  {
  }

  /** A post's path begins "/bl". */
  lemma PostPathStart(p: BlogPost)
    ensures |PostEntry(p).path| > 2 && PostEntry(p).path[1] == 'b' && PostEntry(p).path[2] == 'l'
  {
  }

  /** A loan URL among the rendered active loans is the URL of an active loan with that slug. */
  lemma ActiveLoanWithSlug(t: Tables, l: Loan)
    requires LoanEntry(l) in Select(Filter(t.loans, ActiveLoan), LoanEntry)
    ensures exists k :: 0 <= k < |t.loans| && t.loans[k].isActive && t.loans[k].slug == l.slug
  {
    var loans := Filter(t.loans, ActiveLoan);
    var j :| 0 <= j < |loans| && LoanEntry(loans[j]) == LoanEntry(l);
    assert loans[j].slug == ("/vam/" + l.slug)[5..];
    var k :| 0 <= k < |t.loans| && t.loans[k] == loans[j];
  }

  /** A post URL among the rendered published posts is the URL of a published post with that slug. */
  lemma PublishedPostWithSlug(t: Tables, p: BlogPost)
    requires PostEntry(p) in Select(Filter(t.posts, PublishedPost), PostEntry)
    ensures exists k :: 0 <= k < |t.posts| && t.posts[k].isPublished && t.posts[k].slug == p.slug
  {
    var posts := Filter(t.posts, PublishedPost);
    var j :| 0 <= j < |posts| && PostEntry(posts[j]) == PostEntry(p);
    assert posts[j].slug == ("/blog/" + p.slug)[6..];
    var k :| 0 <= k < |t.posts| && t.posts[k] == posts[j];
  }

  /**
   * A loan's page is listed only for an active loan: an inactive loan's URL
   * appears only when an active loan has the same slug.
   */
  lemma SitemapLoansAreActive(t: Tables, l: Loan)
    requires LoanEntry(l) in SitemapEntries(t)
    ensures exists k :: 0 <= k < |t.loans| && t.loans[k].isActive && t.loans[k].slug == l.slug
  {
    var e := LoanEntry(l);
    LoanPathStart(l);
    NotFixed(e);
    NotBankEntry(Filter(t.banks, ActiveBank), e);
    NotLoanTypeEntry(Filter(t.loanTypes, ActiveLoanType), e);
    NotPostEntry(Filter(t.posts, PublishedPost), e);
    InPart(e, FixedEntries, Select(Filter(t.loans, ActiveLoan), LoanEntry), Select(Filter(t.banks, ActiveBank), BankEntry),
      Select(Filter(t.loanTypes, ActiveLoanType), LoanTypeEntry), Select(Filter(t.posts, PublishedPost), PostEntry), 1);
    ActiveLoanWithSlug(t, l);
  }

  /**
   * A post's page is listed only for a published post: an unpublished
   * post's URL appears only when a published post has the same slug.
   */
  lemma SitemapPostsArePublished(t: Tables, p: BlogPost)
    requires PostEntry(p) in SitemapEntries(t)
    ensures exists k :: 0 <= k < |t.posts| && t.posts[k].isPublished && t.posts[k].slug == p.slug
  {
    var e := PostEntry(p);
    PostPathStart(p);
    NotFixed(e);
    NotLoanEntry(Filter(t.loans, ActiveLoan), e);
    NotBankEntry(Filter(t.banks, ActiveBank), e);
    NotLoanTypeEntry(Filter(t.loanTypes, ActiveLoanType), e);
    InPart(e, FixedEntries, Select(Filter(t.loans, ActiveLoan), LoanEntry), Select(Filter(t.banks, ActiveBank), BankEntry),
      Select(Filter(t.loanTypes, ActiveLoanType), LoanTypeEntry), Select(Filter(t.posts, PublishedPost), PostEntry), 4);
    PublishedPostWithSlug(t, p);
  }

  /** The sitemap has a line for every page the home page counts, plus the four fixed pages and the published posts. */
  lemma SitemapMatchesTotals(t: Tables)
    ensures |SitemapEntries(t)| == 4 + Index(t).totalLoans + Index(t).totalBanks + Index(t).totalLoanTypes
      + CountWhere(t.posts, PublishedPost)
  {
    SitemapCount(t);
  }
}
