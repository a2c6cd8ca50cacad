/**
 * The public blog (Controllers/BlogController.cs): the paged list of
 * published posts with its category filter and category menu, and the post
 * page, which counts a view on every visit and lists related posts.
 */
module Blog {
  import opened Optional
  import opened Text
  import opened Clock
  import opened Entities
  import opened Store
  import opened Ordering
  import opened Listings

  const PageSize: int := 12

  // ------------------------------------------------------------- ordering

  /** `OrderByDescending(p => p.PublishedAt)` on SQLite puts posts without a date last: first by having one. */
  function HasDate(p: BlogPost): int {
    if p.publishedAt.Some? then 1 else 0
  }

  /** ... then by the date itself. */
  function DateValue(p: BlogPost): int {
    if p.publishedAt.Some? then p.publishedAt.value as int else 0
  }

  /** `a` may be listed before `b`: `b` has no publication date, or `a` was published no earlier. */
  predicate LaterFirst(a: BlogPost, b: BlogPost) {
    b.publishedAt.None? || (a.publishedAt.Some? && a.publishedAt.value >= b.publishedAt.value)
  }

  lemma RankedLaterFirst(a: BlogPost, b: BlogPost)
    requires RanksBefore(HasDate, DateValue, a, b)
    ensures LaterFirst(a, b)
  {
  }

  // ---------------------------------------------------------------- Index

  /** The list's filter: published, and of the requested category unless that is blank. */
  predicate Listed(p: BlogPost, category: Option<string>) {
    p.isPublished && (IsNullOrWhiteSpace(category) || p.category == category)
  }

  /** The query of `Index`: the listed posts, the most recently published first and undated ones last. */
  function Query(t: Tables, category: Option<string>): (r: seq<BlogPost>)
    ensures forall p :: p in r <==> p in t.posts && Listed(p, category)
    ensures forall i, j :: 0 <= i < j < |r| ==> LaterFirst(r[i], r[j])
  {
    var keep := (p: BlogPost) => Listed(p, category);
    var f := Filter(t.posts, keep);
    var r := RankedBy(f, HasDate, DateValue);
    FilterMembers(t.posts, keep);
    assert forall p :: p in r <==> p in multiset(f);
    forall i, j | 0 <= i < j < |r| ensures LaterFirst(r[i], r[j]) {
      RankedLaterFirst(r[i], r[j]);
    }
    r
  }

  /** `(int)Math.Ceiling((double)count / pageSize)`: the fewest pages of twelve that hold `count` posts. */
  function TotalPages(count: nat): (r: nat)
    ensures r * PageSize >= count
    ensures r > 0 ==> (r - 1) * PageSize < count
  {
    (count + PageSize - 1) / PageSize
  }

  /** `(page - 1) * pageSize` in 32-bit arithmetic that wraps on overflow. */
  function Offset(page: Int32): int {
    Wrap32(Wrap32(page - 1) * PageSize)
  }

  /** `Skip((page - 1) * pageSize).Take(pageSize)`; SQLite treats a negative offset as none. */
  function Window(q: seq<BlogPost>, page: Int32): (r: seq<BlogPost>)
    ensures |r| <= PageSize
    ensures forall k :: 0 <= k < |r| ==> r[k] in q
  {
    var rest := Skip(q, Offset(page));
    var r := Take(rest, PageSize);
    forall k | 0 <= k < |r| ensures r[k] in q {
      assert r[k] == q[|q| - |rest| + k];
    }
    r
  }

  /** Page `page` (counting from one) holds the twelve posts from position (page - 1) * 12 on, or what is left of them. */
  lemma WindowContents(q: seq<BlogPost>, page: Int32)
    requires 1 <= page && (page - 1) * PageSize <= MaxInt32
    ensures var start := (page - 1) * PageSize;
      |Window(q, page)| == (if |q| <= start then 0 else if |q| - start < PageSize then |q| - start else PageSize)
      && forall k :: 0 <= k < |Window(q, page)| ==> Window(q, page)[k] == q[start + k]
  {
    var start := (page - 1) * PageSize;
    assert Offset(page) == start;
  }

  /** Every listed post is on one of the pages the list announces, at position i % 12 of page i / 12 + 1. */
  lemma PagesCover(q: seq<BlogPost>, i: int)
    requires 0 <= i < |q| <= MaxInt32
    ensures 1 <= i / PageSize + 1 <= TotalPages(|q|)
    ensures Window(q, i / PageSize + 1)[i % PageSize] == q[i]
  {
    var page := i / PageSize + 1;
    assert (page - 1) * PageSize == i - i % PageSize;
    WindowContents(q, page);
  }

  /** A page number of one or less, as long as (page - 1) * 12 does not wrap, shows the first page. */
  lemma LowPagesShowFirst(q: seq<BlogPost>, page: Int32)
    requires page <= 1 && (page - 1) * PageSize >= MinInt32
    ensures Window(q, page) == Take(q, PageSize)
  {
  }

  /** A page number so negative that (page - 1) * 12 wraps round to a large offset shows nothing. */
  lemma WrappedPageIsEmpty(q: seq<BlogPost>)
    requires |q| <= 2147483644
    ensures Offset(-178956970) == 2147483644
    ensures Window(q, -178956970) == []
  {
    assert Wrap32(-178956971 * PageSize) == 2147483644;
  }

  /** A published post with a non-empty category. */
  predicate Tagged(p: BlogPost) {
    p.isPublished && p.category.Some? && p.category.value != []
  }

  function CategoryOf(p: BlogPost): string {
    p.category.GetOr([])
  }

  /** `Categories`: every non-empty category of a published post once, in ordinal order. */
  function Categories(t: Tables): (r: seq<string>)
    ensures forall i, j :: 0 <= i < j < |r| ==> r[i] != r[j]
    ensures SortedBy(r, CodePoints)
  {
    var sorted := SortBy(Select(Filter(t.posts, Tagged), CategoryOf), CodePoints);
    DistinctSorted(sorted, CodePoints);
    Distinct(sorted)
  }

  /** The menu names exactly the non-empty categories of published posts. */
  lemma CategoriesComplete(t: Tables, c: string)
    ensures c in Categories(t) <==> c != [] && exists p :: p in t.posts && p.isPublished && p.category == Some(c)
  {
    var f := Filter(t.posts, Tagged);
    var names := Select(f, CategoryOf);
    var sorted := SortBy(names, CodePoints);
    assert Categories(t) == Distinct(sorted);
    if c in Categories(t) {
      assert c in multiset(names);
      var k :| 0 <= k < |names| && names[k] == c;
      assert f[k] in t.posts && Tagged(f[k]) && f[k].category == Some(c);
    }
    if p :| p in t.posts && p.isPublished && p.category == Some(c) && c != [] {
      FilterMembers(t.posts, Tagged);
      assert p in f;
      var k :| 0 <= k < |f| && f[k] == p;
      assert names[k] == c;
      assert c in multiset(sorted);
    }
  }

  /** What the list page shows. */
  datatype IndexPage = IndexPage(
    posts: seq<BlogPost>,
    totalCount: nat,
    currentPage: Int32,
    totalPages: nat,
    categories: seq<string>,
    currentCategory: Option<string>)

  /** `Index(page, category)`. */
  function Index(t: Tables, page: Int32, category: Option<string>): IndexPage {
    var q := Query(t, category);
    IndexPage(Window(q, page), |q|, page, TotalPages(|q|), Categories(t), category)
  }

  /** Every post on a page is published and of the chosen category, and the page holds at most twelve. */
  lemma IndexShowsListed(t: Tables, page: Int32, category: Option<string>)
    ensures var r := Index(t, page, category);
      |r.posts| <= PageSize && forall k :: 0 <= k < |r.posts| ==> r.posts[k] in t.posts && Listed(r.posts[k], category)
  {
  }

  // --------------------------------------------------------------- Detail

  /** `FirstOrDefault(p => p.Slug == slug && p.IsPublished)`. */
  function FindPublished(posts: seq<BlogPost>, slug: string): (r: Option<nat>)
    ensures r.Some? ==> r.value < |posts| && posts[r.value].slug == slug && posts[r.value].isPublished
    ensures r.None? <==> forall i :: 0 <= i < |posts| ==> !(posts[i].slug == slug && posts[i].isPublished)
  {
    FirstIndex(posts, (p: BlogPost) => p.slug == slug && p.isPublished)
  }

  /** The tables once the post page for `slug` has run: every visit adds one to the post's 32-bit view count. */
  function AfterDetail(t: Tables, slug: string): (r: Tables)
    ensures r == t.(posts := r.posts) && |r.posts| == |t.posts|
    ensures FindPublished(t.posts, slug).None? ==> r == t
    ensures forall i :: 0 <= i < |t.posts| && FindPublished(t.posts, slug) != Some(i) ==> r.posts[i] == t.posts[i]
    ensures forall i :: 0 <= i < |t.posts| ==> r.posts[i] == t.posts[i].(viewCount := r.posts[i].viewCount)
    ensures FindPublished(t.posts, slug).Some? ==>
      var v := t.posts[FindPublished(t.posts, slug).value].viewCount;
      var w := r.posts[FindPublished(t.posts, slug).value].viewCount;
      (v < MaxInt32 ==> w == v + 1) && (v == MaxInt32 ==> w == MinInt32)
  {
    match FindPublished(t.posts, slug)
    case None => t
    case Some(i) => t.(posts := t.posts[i := t.posts[i].(viewCount := Wrap32(t.posts[i].viewCount + 1))])
  }

  /** Counting a view keeps the store consistent. */
  lemma AfterDetailConsistent(t: Tables, slug: string)
    requires Consistent(t)
    ensures Consistent(AfterDetail(t, slug))
  {
    var found := FindPublished(t.posts, slug);
    if found.Some? {
      var i := found.value;
      SameKeysPostConsistent(t, i, t.posts[i].(viewCount := Wrap32(t.posts[i].viewCount + 1)));
    }
  }

  predicate OtherPublished(post: BlogPost, p: BlogPost) {
    p.isPublished && p.id != post.id
  }

  /** `ViewBag.RelatedPosts`: up to four other published posts, the most recently published first. */
  function RelatedPosts(posts: seq<BlogPost>, post: BlogPost): (r: seq<BlogPost>)
    ensures |r| <= 4
    ensures forall i :: 0 <= i < |r| ==> r[i] in posts && r[i].isPublished && r[i].id != post.id
    ensures forall i, j :: 0 <= i < j < |r| ==> LaterFirst(r[i], r[j])
  {
    var r := TopRanked(posts, (p: BlogPost) => OtherPublished(post, p), HasDate, DateValue, 4);
    forall i, j | 0 <= i < j < |r| ensures LaterFirst(r[i], r[j]) {
      RankedLaterFirst(r[i], r[j]);
    }
    r
  }

  /** Another published post is left out only when four posts published no earlier fill the list. */
  lemma RelatedPostsOmits(posts: seq<BlogPost>, post: BlogPost, x: BlogPost)
    requires x in posts && x.isPublished && x.id != post.id && x !in RelatedPosts(posts, post)
    ensures |RelatedPosts(posts, post)| == 4
    ensures forall i :: 0 <= i < 4 ==> LaterFirst(RelatedPosts(posts, post)[i], x)
  {
    var r := RelatedPosts(posts, post);
    TopRankedOmits(posts, (p: BlogPost) => OtherPublished(post, p), HasDate, DateValue, 4, x);
    forall i | 0 <= i < 4 ensures LaterFirst(r[i], x) {
      RankedLaterFirst(r[i], x);
    }
  }

  /** What the post page shows. */
  datatype DetailPage = DetailPage(post: BlogPost, relatedPosts: seq<BlogPost>)

  /**
   * `Detail(slug)`: NotFound (None) when no published post has the slug;
   * otherwise the view is counted and saved, and the page is read back.
   */
  method Detail(db: ApplicationDbContext, slug: string) returns (r: Option<DetailPage>)
    requires db.Valid()
    modifies db
    ensures db.Valid()
    ensures db.State() == AfterDetail(old(db.State()), slug)
    ensures r.None? <==> FindPublished(old(db.blogPosts), slug).None?
    ensures r.Some? ==> var i := FindPublished(old(db.blogPosts), slug).value;
      i < |db.blogPosts| && r.value == DetailPage(db.blogPosts[i], RelatedPosts(db.blogPosts, db.blogPosts[i]))
  {
    var t := db.State();
    var found := FindPublished(t.posts, slug);
    if found.None? {
      return None;
    }
    var i := found.value;
    var post := t.posts[i].(viewCount := Wrap32(t.posts[i].viewCount + 1));
    SameKeysPostConsistent(t, i, post);
    var proposed := t.(posts := t.posts[i := post]);
    assert proposed == AfterDetail(t, slug);
    var saved := db.SaveChanges(proposed);
    assert saved;
    r := Some(DetailPage(db.blogPosts[i], RelatedPosts(db.blogPosts, db.blogPosts[i])));
  }
}
