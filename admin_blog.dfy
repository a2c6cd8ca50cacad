/**
 * The admin area's blog pages (Areas/Admin/Controllers/BlogController.cs):
 * the list, the create and edit forms with an optional cover-image upload,
 * and delete. A post's publication date is set the first time it is saved
 * as published and is never cleared or moved afterwards.
 */
module AdminBlog {
  import opened Optional
  import opened Text
  import opened Clock
  import opened Entities
  import opened Store
  import opened Slugs
  import opened Listings
  import opened Admin
  import Analytics

  /** `Index`: every post, the most recently updated first. */
  function Index(t: Tables): (r: seq<BlogPost>)
    ensures multiset(r) == multiset(t.posts)
    ensures forall i, j :: 0 <= i < j < |r| ==> r[i].updatedAt >= r[j].updatedAt
  {
    NewestFirst(t.posts, (p: BlogPost) => p.updatedAt)
  }

  // ------------------------------------------------------------ cover images

  /** The cover image file as the form delivers it; `length` is its size in bytes. */
  datatype Upload = Upload(fileName: string, length: int)

  /** `coverImage != null && coverImage.Length > 0`. */
  predicate HasContent(cover: Option<Upload>) {
    cover.Some? && cover.value.length > 0
  }

  /** Where `SaveImage` stores uploads, as a URL path. */
  const UploadsPath: string := "/uploads/blog/"

  /** The stored file's extension: the upload's own in lower case, or ".jpg" when it has none. */
  function ImageExtension(fileName: string): (r: string)
    ensures |r| >= 2 && r[0] == '.'
    ensures forall k :: 1 <= k < |r| ==> r[k] != '.' && r[k] != '/'
    ensures Lower(r) == r
    ensures Analytics.GetExtension(fileName) == [] ==> r == ".jpg"
    ensures Analytics.GetExtension(fileName) != [] ==> EqualsIgnoreCase(r, Analytics.GetExtension(fileName))
  {
    var ext := Lower(Analytics.GetExtension(fileName));
    LowerIdempotent(Analytics.GetExtension(fileName));
    if ext == [] then ".jpg" else ext
  }

  /**
   * `SaveImage(file)`: the public URL of the stored copy. The file is named by
   * `token`, the text of a fresh GUID, which the model takes as a parameter.
   */
  function ImageUrl(fileName: string, token: string): (r: string)
    ensures StartsWith(r, UploadsPath + token)
  {
    UploadsPath + token + ImageExtension(fileName)
  }

  /** The extension a later reader sees on the stored URL is the one `SaveImage` chose, whatever the token. */
  lemma ImageUrlExtension(fileName: string, token: string)
    ensures Analytics.GetExtension(ImageUrl(fileName, token)) == ImageExtension(fileName)
  {
    var stem := UploadsPath + token;
    var ext := ImageExtension(fileName);
    assert ImageUrl(fileName, token) == stem + ext;
    Analytics.LastDotOfSuffix(stem, ext);
  }

  // ------------------------------------------------------------ publication

  /** The publication date after a save: set to `now` when the post is published and has none yet. */
  function PublicationDate(isPublished: bool, current: Option<Instant>, now: Instant): (r: Option<Instant>)
    ensures isPublished ==> r.Some?
    ensures current.Some? ==> r == current
    ensures !isPublished ==> r == current
    ensures r != current ==> r == Some(now)
  {
    if isPublished && current.None? then Some(now) else current
  }

  // ------------------------------------------------------------ create

  /** The row `Create` adds: the chosen slug, the uploaded cover if any, both timestamps now, and a publication date when published. */
  function NewPost(posted: BlogPost, slug: string, cover: Option<Upload>, token: string, now: Instant): (r: BlogPost)
    ensures r == posted.(slug := slug, coverImageUrl := r.coverImageUrl, createdAt := now, updatedAt := now,
      publishedAt := r.publishedAt)
    ensures HasContent(cover) ==> r.coverImageUrl == Some(ImageUrl(cover.value.fileName, token))
    ensures !HasContent(cover) ==> r.coverImageUrl == posted.coverImageUrl
    ensures r.publishedAt == PublicationDate(posted.isPublished, posted.publishedAt, now)
  {
    var url := if HasContent(cover) then Some(ImageUrl(cover.value.fileName, token)) else posted.coverImageUrl;
    posted.(slug := slug, coverImageUrl := url, createdAt := now, updatedAt := now,
      publishedAt := PublicationDate(posted.isPublished, posted.publishedAt, now))
  }

  /** `Create(post, coverImage)` [HttpPost]; the id comes from the table's counter. */
  function Created(t: Tables, posted: BlogPost, cover: Option<Upload>, token: string, invalid: bool, now: Instant): (r: Response)
    ensures r.outcome.FormShown? <==> invalid || KeyTaken(t.posts, PostSlug, ChosenSlug(posted.slug, posted.title))
    ensures r.outcome.FormShown? ==> r.outcome.slugTaken == KeyTaken(t.posts, PostSlug, ChosenSlug(posted.slug, posted.title))
    ensures r.outcome != Saved ==> r.tables == t
    ensures r.outcome == Saved ==> r.tables == AddPost(t, NewPost(posted, ChosenSlug(posted.slug, posted.title), cover, token, now))
    ensures r.outcome.FormShown? || r.outcome == Saved || r.outcome == ServerError
  {
    var slug := ChosenSlug(posted.slug, posted.title);
    var taken := KeyTaken(t.posts, PostSlug, slug);
    if taken || invalid then Response(FormShown(taken), t)
    else Commit(t, AddPost(t, NewPost(posted, slug, cover, token, now)))
  }

  /** On a consistent store, a post that passes validation with a free slug is always saved. */
  lemma CreatedSavesIff(t: Tables, posted: BlogPost, cover: Option<Upload>, token: string, invalid: bool, now: Instant)
    requires Consistent(t)
    ensures Created(t, posted, cover, token, invalid, now).outcome == Saved <==>
      !invalid && !KeyTaken(t.posts, PostSlug, ChosenSlug(posted.slug, posted.title))
    ensures Consistent(Created(t, posted, cover, token, invalid, now).tables)
  {
    AddPostConsistent(t, NewPost(posted, ChosenSlug(posted.slug, posted.title), cover, token, now));
  }

  method Create(db: ApplicationDbContext, posted: BlogPost, cover: Option<Upload>, token: string, invalid: bool, now: Instant)
    returns (outcome: Outcome)
    requires db.Valid()
    modifies db
    ensures Response(outcome, db.State()) == Created(old(db.State()), posted, cover, token, invalid, now)
  {
    var slug := posted.slug;
    if IsBlank(slug) {
      slug := GenerateSlug(posted.title);
    }
    var t := db.State();
    var taken := KeyTaken(t.posts, PostSlug, slug);
    if taken || invalid {
      return FormShown(taken);
    }
    var row := posted.(slug := slug);
    if HasContent(cover) {
      row := row.(coverImageUrl := Some(ImageUrl(cover.value.fileName, token)));
    }
    row := row.(createdAt := now, updatedAt := now);
    if row.isPublished && row.publishedAt.None? {
      row := row.(publishedAt := Some(now));
    }
    assert row == NewPost(posted, slug, cover, token, now);
    AddPostConsistent(t, row);
    var ok := db.SaveChanges(AddPost(t, row));
    outcome := if ok then Saved else ServerError;
  }

  // ------------------------------------------------------------ edit

  /** The cover after an edit: a new upload wins, then a non-empty URL from the form, else the stored one stays. */
  function EditedCover(existing: Option<string>, posted: Option<string>, cover: Option<Upload>, token: string): (r: Option<string>)
    ensures HasContent(cover) ==> r == Some(ImageUrl(cover.value.fileName, token))
    ensures !HasContent(cover) && posted.Some? && posted.value != [] ==> r == posted
    ensures !HasContent(cover) && (posted.None? || posted.value == []) ==> r == existing
    ensures existing.Some? ==> r.Some?
  {
    if HasContent(cover) then Some(ImageUrl(cover.value.fileName, token))
    else if posted.Some? && posted.value != [] then posted
    else existing
  }

  /**
   * The edit form's copy onto the stored post. The title, slug, summary,
   * content, SEO fields and the published flag come from the form; the
   * category, tags and related bank and loans are not on the list and keep
   * their stored values, as do the id, view count and creation time.
   */
  function CopyEditable(existing: BlogPost, posted: BlogPost, slug: string, cover: Option<Upload>, token: string, now: Instant): (r: BlogPost)
    ensures r.id == existing.id && r.viewCount == existing.viewCount && r.createdAt == existing.createdAt
    ensures r.category == existing.category && r.tags == existing.tags && r.relatedBankId == existing.relatedBankId
      && r.relatedLoanId == existing.relatedLoanId && r.relatedLoanIds == existing.relatedLoanIds
    ensures r.title == posted.title && r.slug == slug && r.summary == posted.summary && r.content == posted.content
      && r.metaTitle == posted.metaTitle && r.metaDescription == posted.metaDescription
      && r.metaKeywords == posted.metaKeywords && r.isPublished == posted.isPublished
    ensures r.updatedAt == now
    ensures r.coverImageUrl == EditedCover(existing.coverImageUrl, posted.coverImageUrl, cover, token)
    ensures existing.publishedAt.Some? ==> r.publishedAt == existing.publishedAt
    ensures r.isPublished ==> r.publishedAt.Some?
    ensures r.publishedAt != existing.publishedAt ==> r.publishedAt == Some(now)
    ensures r.publishedAt == PublicationDate(posted.isPublished, existing.publishedAt, now)
  {
    existing.(
      coverImageUrl := EditedCover(existing.coverImageUrl, posted.coverImageUrl, cover, token),
      title := posted.title,
      slug := slug,
      summary := posted.summary,
      content := posted.content,
      metaTitle := posted.metaTitle,
      metaDescription := posted.metaDescription,
      metaKeywords := posted.metaKeywords,
      isPublished := posted.isPublished,
      updatedAt := now,
      publishedAt := PublicationDate(posted.isPublished, existing.publishedAt, now))
  }

  /** `Edit(id, post, coverImage)` [HttpPost]. */
  function Edited(t: Tables, id: int, posted: BlogPost, cover: Option<Upload>, token: string, invalid: bool, now: Instant): (r: Response)
    ensures id != posted.id ==> r == Response(NotFound, t)
    ensures r.outcome.FormShown? <==> (id == posted.id &&
      (invalid || KeyTakenByOther(t.posts, PostSlug, PostId, ChosenSlug(posted.slug, posted.title), id)))
    ensures r.outcome == NotFound <==> id != posted.id || (!r.outcome.FormShown? && !HasId(t.posts, PostId, id))
    ensures r.outcome != Saved ==> r.tables == t
    ensures r.outcome == Saved ==> exists i :: (0 <= i < |t.posts| && t.posts[i].id == id &&
      r.tables == t.(posts := t.posts[i := CopyEditable(t.posts[i], posted, ChosenSlug(posted.slug, posted.title), cover, token, now)]))
  {
    if id != posted.id then Response(NotFound, t)
    else
      var slug := ChosenSlug(posted.slug, posted.title);
      var taken := KeyTakenByOther(t.posts, PostSlug, PostId, slug, id);
      if taken || invalid then Response(FormShown(taken), t)
      else match Find(t.posts, PostId, id)
        case None => Response(NotFound, t)
        case Some(i) => Commit(t, t.(posts := t.posts[i := CopyEditable(t.posts[i], posted, slug, cover, token, now)]))
  }

  /** One submission of the edit form: the posted fields, the upload, and the request's token, validity and clock. */
  datatype EditForm = EditForm(posted: BlogPost, cover: Option<Upload>, token: string, invalid: bool, now: Instant)

  /** The tables after a run of edit submissions for the post `id`, in order. */
  function EditRun(t: Tables, id: int, forms: seq<EditForm>): Tables
    decreases |forms|
  {
    if forms == [] then t
    else
      var f := forms[0];
      EditRun(Edited(t, id, f.posted, f.cover, f.token, f.invalid, f.now).tables, id, forms[1..])
  }

  /** One edit keeps every post's place and id, and never changes a publication date already set. */
  lemma EditedKeepsDates(t: Tables, id: int, f: EditForm)
    ensures var r := Edited(t, id, f.posted, f.cover, f.token, f.invalid, f.now).tables;
      |r.posts| == |t.posts|
      && forall j :: 0 <= j < |t.posts| ==>
           (r.posts[j].id == t.posts[j].id
            && (t.posts[j].publishedAt.Some? ==> r.posts[j].publishedAt == t.posts[j].publishedAt))
  {
  }

  /**
   * Once a save has given a post a publication date, no later edit changes
   * it, whether the post stays published, is unpublished or published again.
   */
  lemma {:induction false} PublicationDateSetOnce(t: Tables, id: int, forms: seq<EditForm>, j: int)
    requires 0 <= j < |t.posts| && t.posts[j].publishedAt.Some?
    ensures |EditRun(t, id, forms).posts| == |t.posts|
    ensures EditRun(t, id, forms).posts[j].id == t.posts[j].id
    ensures EditRun(t, id, forms).posts[j].publishedAt == t.posts[j].publishedAt
    decreases |forms|
  {
    if forms != [] {
      var f := forms[0];
      EditedKeepsDates(t, id, f);
      PublicationDateSetOnce(Edited(t, id, f.posted, f.cover, f.token, f.invalid, f.now).tables, id, forms[1..], j);
    }
  }

  /** On a consistent store, an edit is saved exactly when the ids agree, validation passes, no other post has the slug and the post exists. */
  lemma EditedSavesIff(t: Tables, id: int, posted: BlogPost, cover: Option<Upload>, token: string, invalid: bool, now: Instant)
    requires Consistent(t)
    ensures Edited(t, id, posted, cover, token, invalid, now).outcome == Saved <==>
      id == posted.id && !invalid && HasId(t.posts, PostId, id)
      && !KeyTakenByOther(t.posts, PostSlug, PostId, ChosenSlug(posted.slug, posted.title), id)
    ensures Consistent(Edited(t, id, posted, cover, token, invalid, now).tables)
  {
    var slug := ChosenSlug(posted.slug, posted.title);
    var found := Find(t.posts, PostId, id);
    if id == posted.id && found.Some? {
      var i := found.value;
      ReplacePostConsistent(t, i, CopyEditable(t.posts[i], posted, slug, cover, token, now));
    }
  }

  method Edit(db: ApplicationDbContext, id: int, posted: BlogPost, cover: Option<Upload>, token: string, invalid: bool, now: Instant)
    returns (outcome: Outcome)
    requires db.Valid()
    modifies db
    ensures Response(outcome, db.State()) == Edited(old(db.State()), id, posted, cover, token, invalid, now)
  {
    if id != posted.id {
      return NotFound;
    }
    var slug := posted.slug;
    if IsBlank(slug) {
      slug := GenerateSlug(posted.title);
    }
    assert slug == ChosenSlug(posted.slug, posted.title);
    var t := db.State();
    var taken := KeyTakenByOther(t.posts, PostSlug, PostId, slug, id);
    if taken || invalid {
      return FormShown(taken);
    }
    var found := Find(t.posts, PostId, id);
    if found.None? {
      return NotFound;
    }
    var i := found.value;
    var row := CopyEditable(t.posts[i], posted, slug, cover, token, now);
    var proposed := t.(posts := t.posts[i := row]);
    assert Edited(t, id, posted, cover, token, invalid, now) == Commit(t, proposed);
    ReplacePostConsistent(t, i, row);
    var ok := db.SaveChanges(proposed);
    outcome := if ok then Saved else ServerError;
  }

  // ------------------------------------------------------------ delete

  /** `Delete(id)`. */
  function Deleted(t: Tables, id: int): (r: Response)
    ensures r.outcome == NotFound <==> !HasId(t.posts, PostId, id)
    ensures r.outcome != Saved ==> r.tables == t
    ensures r.outcome == Saved ==> r.tables == RemovePost(t, id)
  {
    if !HasId(t.posts, PostId, id) then Response(NotFound, t)
    else Commit(t, RemovePost(t, id))
  }

  /** Deleting a post that exists always succeeds on a consistent store, and only that post goes. */
  lemma DeletedAlwaysSaves(t: Tables, id: int)
    requires Consistent(t) && HasId(t.posts, PostId, id)
    ensures Deleted(t, id) == Response(Saved, RemovePost(t, id))
    ensures Consistent(Deleted(t, id).tables)
    ensures forall p :: p in Deleted(t, id).tables.posts <==> p in t.posts && p.id != id
  {
    RemovePostConsistent(t, id);
    var r := RemovePost(t, id);
    forall p | p in t.posts && p.id != id ensures p in r.posts {
      var k :| 0 <= k < |t.posts| && t.posts[k] == p;
    }
    forall p | p in r.posts ensures p in t.posts && p.id != id {
      var k :| 0 <= k < |r.posts| && r.posts[k] == p;
    }
  }

  method Delete(db: ApplicationDbContext, id: int) returns (outcome: Outcome)
    requires db.Valid()
    modifies db
    ensures Response(outcome, db.State()) == Deleted(old(db.State()), id)
  {
    var t := db.State();
    if Find(t.posts, PostId, id).None? {
      return NotFound;
    }
    RemovePostConsistent(t, id);
    var ok := db.SaveChanges(RemovePost(t, id));
    outcome := if ok then Saved else ServerError;
  }
}
