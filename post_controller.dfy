/** Creating and editing posts (app/Http/Controllers/PostController.php,
    `store` and `update`). The live posts are a map from id to `Post`; the
    public disk is the set of stored image paths. The path `uploadImage`
    picks (time and `uniqid`), `Str::slug`, `Str::random(8)`, the clock and
    whether a query fails are parameters. Each `DB::transaction` is one
    atomic step. */
module PostController {
  import opened Wrappers
  import opened SlugService
  import opened PostModel

  type Posts = map<int, Post>

  /** The validated fields both actions write. */
  datatype PostForm = PostForm(title: string, content: string, categoryId: Option<int>,
                               excerpt: Option<string>, status: string)

  datatype StoreOutcome =
    | Forbidden         // the form request's `authorize()` refused: 403
    | Created(id: int)  // "Post created successfully !"
    | DatabaseError     // QueryException: "Database error occurred. Please try again."

  datatype UpdateOutcome =
    | Updated           // "Post updated successfully !"
    | NotFound          // route model binding found no live post
    | Forbidden         // the form request's `authorize()` refused: 403

  /** The slug column of the live posts, as the slug queries see it. */
  function SlugsOf(posts: Posts): (t: SlugTable)
    ensures t.Keys == posts.Keys
    ensures forall id :: id in posts ==> t[id] == posts[id].slug
  {
    map id | id in posts :: posts[id].slug
  }

  /** The row `store` creates: `published_at` is set exactly for a post
      created as `published`, and the tags are those submitted, if any. */
  function StoredPost(userId: int, form: PostForm, upload: Option<string>, tags: Option<set<int>>,
                      slug: string, now: int): Post
  {
    Post(userId, form.categoryId, form.title, slug, form.excerpt, form.content, upload, form.status,
         if form.status == "published" then Some(now) else None,
         tags.GetOr({}))
  }

  /** The image column after `update`: removal takes precedence over an
      upload, an upload replaces the old image, otherwise it stays. */
  function UpdatedImage(current: Option<string>, removeImage: bool, upload: Option<string>): Option<string> {
    if removeImage then None else if upload.Some? then upload else current
  }

  /** The public disk after `update`'s image handling. */
  function UpdatedFiles(files: set<string>, current: Option<string>, removeImage: bool,
                        upload: Option<string>): set<string>
  {
    var withoutOld := if current.Some? then files - {current.value} else files;
    if removeImage then withoutOld
    else if upload.Some? then withoutOld + {upload.value}
    else files
  }

  /** The row after `update`: the date is set only when the status becomes
      `published` from another status; the tags are replaced by those
      submitted, or all detached when none are. */
  function UpdatedPost(current: Post, form: PostForm, removeImage: bool, upload: Option<string>,
                       tags: Option<set<int>>, slug: string, now: int): Post
  {
    current.(
      categoryId := form.categoryId, title := form.title, slug := slug, excerpt := form.excerpt,
      content := form.content, featuredImage := UpdatedImage(current.featuredImage, removeImage, upload),
      status := form.status,
      publishedAt := if form.status == "published" && current.status != "published" then Some(now)
                     else current.publishedAt,
      tags := tags.GetOr({}))
  }

  class PostTable {
    var posts: Posts
    var files: set<string>
    var nextId: int

    /** Ids are positive and handed out in increasing order. */
    ghost predicate Valid()
      reads this
    {
      1 <= nextId && forall id :: id in posts ==> 1 <= id < nextId
    }

    constructor ()
      ensures Valid() && posts == map[] && files == {}
    {
      posts := map[];
      files := {};
      nextId := 1;
    }

    /** `store`. `authorized` is the answer of `StorePostRequest::authorize`,
        the user's `PostPolicy.Create`; a refusal comes before the body, so
        nothing is uploaded or written. */
    method Store(userId: int, authorized: bool, form: PostForm, upload: Option<string>, tags: Option<set<int>>,
                 slugify: string -> string, random8: string, now: int, dbError: bool)
      returns (outcome: StoreOutcome)
      requires Valid()
      modifies this
      ensures Valid()
      ensures !authorized ==>
                outcome == StoreOutcome.Forbidden && posts == old(posts) && files == old(files) && nextId == old(nextId)
      ensures authorized ==> files == old(files) + (if upload.Some? then {upload.value} else {})
      ensures authorized && dbError ==> outcome == DatabaseError && posts == old(posts)
      ensures authorized && !dbError ==>
                outcome == Created(old(nextId))
                && posts == old(posts)[old(nextId) := StoredPost(userId, form, upload, tags,
                     UniqueSlug(SlugsOf(old(posts)), None, slugify(form.title), DefaultMaxAttempts, random8), now)]
    {
      if !authorized {
        return StoreOutcome.Forbidden;
      }
      var image: Option<string> := None;
      if upload.Some? {
        files := files + {upload.value};
        image := upload;
      }
      var publishedAt: Option<int> := None;
      if form.status == "published" {
        publishedAt := Some(now);
      }
      var slug, _ := GenerateUniqueSlug(SlugsOf(posts), form.title, None, DefaultMaxAttempts, slugify, random8);
      if dbError {
        return DatabaseError;
      }
      var attached: set<int> := {};
      if tags.Some? {
        attached := tags.value;
      }
      var id := nextId;
      posts := posts[id := Post(userId, form.categoryId, form.title, slug, form.excerpt, form.content,
                                image, form.status, publishedAt, attached)];
      nextId := nextId + 1;
      return Created(id);
    }

    /** `update`. Route binding looks the post up first; `authorized` is
        then the answer of `UpdatePostRequest::authorize`, the user's
        `PostPolicy.Update` on that post, and a refusal changes nothing. */
    method Update(id: int, authorized: bool, form: PostForm, removeImage: bool, upload: Option<string>,
                  tags: Option<set<int>>, slugify: string -> string, random8: string, now: int)
      returns (outcome: UpdateOutcome)
      requires Valid()
      modifies this
      ensures Valid() && nextId == old(nextId)
      ensures id !in old(posts) ==> outcome == NotFound && posts == old(posts) && files == old(files)
      ensures id in old(posts) && !authorized ==> outcome == UpdateOutcome.Forbidden && posts == old(posts) && files == old(files)
      ensures id in old(posts) && authorized ==>
                outcome == Updated
                && files == UpdatedFiles(old(files), old(posts)[id].featuredImage, removeImage, upload)
                && posts == old(posts)[id := UpdatedPost(old(posts)[id], form, removeImage, upload, tags,
                     UniqueSlug(SlugsOf(old(posts)), Some(id), slugify(form.title), DefaultMaxAttempts, random8), now)]
    {
      if id !in posts {
        return NotFound;
      }
      if !authorized {
        return UpdateOutcome.Forbidden;
      }
      var post := posts[id];
      var image := ReplaceImage(post.featuredImage, removeImage, upload);
      var r := UpdateSlug(SlugsOf(posts), id, form.title, slugify, random8);
      var slug := r.slug;
      var publishedAt := post.publishedAt;
      if form.status == "published" && post.status != "published" {
        publishedAt := Some(now);
      }
      var synced: set<int> := {};
      if tags.Some? {
        synced := tags.value;
      }
      var updated := post.(categoryId := form.categoryId, title := form.title, slug := slug,
                           excerpt := form.excerpt, content := form.content, featuredImage := image,
                           status := form.status, publishedAt := publishedAt, tags := synced);
      assert updated == UpdatedPost(post, form, removeImage, upload, tags, slug, now);
      posts := posts[id := updated];
      return Updated;
    }

    /** `update`'s image handling: removal deletes the stored file and
        clears the column; otherwise an upload replaces the stored file. */
    method ReplaceImage(current: Option<string>, removeImage: bool, upload: Option<string>)
      returns (image: Option<string>)
      modifies this
      ensures image == UpdatedImage(current, removeImage, upload)
      ensures files == UpdatedFiles(old(files), current, removeImage, upload)
      ensures posts == old(posts) && nextId == old(nextId)
    {
      image := current;
      if removeImage {
        if image.Some? {
          files := files - {image.value};
        }
        image := None;
      } else if upload.Some? {
        if image.Some? {
          files := files - {image.value};
        }
        files := files + {upload.value};
        image := upload;
      }
    }
  }

  // ---------------------------------------------------------------------
  // Properties

  /** A post created as `published` is dated at creation: it is in the
      published scope from that second and `isPublished` from the next one;
      any other status leaves it undated, neither published nor scheduled. */
  lemma StoreDateRule(userId: int, form: PostForm, upload: Option<string>, tags: Option<set<int>>,
                      slug: string, now: int, later: int)
    requires later >= now
    ensures var p := StoredPost(userId, form, upload, tags, slug, now);
            (p.publishedAt.Some? <==> form.status == "published")
            && (form.status == "published" ==> p in ScopePublished([p], later)
                                               && (IsPublished(p, later) <==> later > now))
            && (form.status != "published" ==> !IsPublished(p, later) && !IsScheduled(p, later))
  {
  }

  /** Re-saving a published post keeps its date; publishing a post that was
      not published dates it now; unpublishing keeps the old date. */
  lemma UpdateDateRule(current: Post, form: PostForm, removeImage: bool, upload: Option<string>,
                       tags: Option<set<int>>, slug: string, now: int)
    ensures var p := UpdatedPost(current, form, removeImage, upload, tags, slug, now);
            (current.status == "published" ==> p.publishedAt == current.publishedAt)
            && (current.status != "published" && form.status == "published" ==> p.publishedAt == Some(now))
            && (form.status != "published" ==> p.publishedAt == current.publishedAt)
  {
  }

  /** Asking to remove the image wins over an upload sent with it: the image
      becomes null, the old file is deleted and the upload is not stored. */
  lemma RemovalTakesPrecedence(files: set<string>, current: Option<string>, upload: Option<string>)
    requires upload.Some? ==> upload.value !in files && (current.Some? ==> upload.value != current.value)
    ensures UpdatedImage(current, true, upload) == None
    ensures current.Some? ==> current.value !in UpdatedFiles(files, current, true, upload)
    ensures upload.Some? ==> upload.value !in UpdatedFiles(files, current, true, upload)
  {
  }

  /** An upload without removal replaces the image and its file. */
  lemma UploadReplacesImage(files: set<string>, current: Option<string>, path: string)
    requires current.Some? ==> current.value != path
    ensures UpdatedImage(current, false, Some(path)) == Some(path)
    ensures path in UpdatedFiles(files, current, false, Some(path))
    ensures current.Some? ==> current.value !in UpdatedFiles(files, current, false, Some(path))
  {
  }

  /** After `update` the post carries exactly the submitted tags, or none. */
  lemma UpdateSyncsTags(current: Post, form: PostForm, removeImage: bool, upload: Option<string>,
                        tags: Option<set<int>>, slug: string, now: int)
    ensures var p := UpdatedPost(current, form, removeImage, upload, tags, slug, now);
            (tags.Some? ==> p.tags == tags.value) && (tags.None? ==> p.tags == {})
  {
  }

  lemma SlugsOfUpdate(posts: Posts, id: int, p: Post)
    ensures SlugsOf(posts[id := p]) == SlugsOf(posts)[id := p.slug]
  {
  }

  /** Whenever one of the ten candidates for the title is free, `store`
      keeps slugs unique: the unchecked random fallback is never used.
      `SlugService.SmallTableNeverFallsBack` supplies that free candidate
      while fewer than ten posts exist. */
  lemma StoreKeepsSlugsUnique(posts: Posts, newId: int, userId: int, form: PostForm, upload: Option<string>,
                              tags: Option<set<int>>, slugify: string -> string, random8: string, now: int)
    requires SlugsUnique(SlugsOf(posts)) && newId !in posts
    requires exists n :: 0 <= n < DefaultMaxAttempts && !SlugTaken(SlugsOf(posts), None, Candidate(slugify(form.title), n))
    ensures var slug := UniqueSlug(SlugsOf(posts), None, slugify(form.title), DefaultMaxAttempts, random8);
            SlugsUnique(SlugsOf(posts[newId := StoredPost(userId, form, upload, tags, slug, now)]))
  {
    var table := SlugsOf(posts);
    var slug := UniqueSlug(table, None, slugify(form.title), DefaultMaxAttempts, random8);
    AllocatedSlugIsFree(table, None, slugify(form.title), DefaultMaxAttempts, random8);
    InsertKeepsSlugsUnique(table, newId, slug);
    SlugsOfUpdate(posts, newId, StoredPost(userId, form, upload, tags, slug, now));
  }

  /** Likewise for `update`, which excludes the post itself from the search. */
  lemma UpdateKeepsSlugsUnique(posts: Posts, id: int, form: PostForm, removeImage: bool, upload: Option<string>,
                               tags: Option<set<int>>, slugify: string -> string, random8: string, now: int)
    requires SlugsUnique(SlugsOf(posts)) && id in posts && id != 0
    requires exists n :: 0 <= n < DefaultMaxAttempts && !SlugTaken(SlugsOf(posts), Some(id), Candidate(slugify(form.title), n))
    ensures var slug := UniqueSlug(SlugsOf(posts), Some(id), slugify(form.title), DefaultMaxAttempts, random8);
            SlugsUnique(SlugsOf(posts[id := UpdatedPost(posts[id], form, removeImage, upload, tags, slug, now)]))
  {
    var table := SlugsOf(posts);
    var slug := UniqueSlug(table, Some(id), slugify(form.title), DefaultMaxAttempts, random8);
    AllocatedSlugIsFree(table, Some(id), slugify(form.title), DefaultMaxAttempts, random8);
    RenameKeepsSlugsUnique(table, id, slug);
    SlugsOfUpdate(posts, id, UpdatedPost(posts[id], form, removeImage, upload, tags, slug, now));
  }

  /** Saving a post keeps its slug whenever that slug is the first candidate
      for the new title that no other post holds: the post never collides
      with itself. */
  lemma UpdateKeepsOwnSlug(posts: Posts, id: int, form: PostForm, n: nat, slugify: string -> string,
                           random8: string)
    requires SlugsUnique(SlugsOf(posts)) && id in posts && id != 0
    requires n < DefaultMaxAttempts && posts[id].slug == Candidate(slugify(form.title), n)
    requires forall j :: 0 <= j < n ==> SlugTaken(SlugsOf(posts), Some(id), Candidate(slugify(form.title), j))
    ensures UniqueSlug(SlugsOf(posts), Some(id), slugify(form.title), DefaultMaxAttempts, random8) == posts[id].slug
  {
    RenameToOwnSlugIsIdempotent(SlugsOf(posts), id, slugify(form.title), n, DefaultMaxAttempts, random8);
  }
}
