/** The `Post` record and its publication predicates and query scopes
    (app/Models/Post.php). Timestamps are integer seconds; a query scope is a
    filter over the rows in table order. */
module PostModel {
  import opened Wrappers

  datatype Post = Post(
    userId: int,
    categoryId: Option<int>,
    title: string,
    slug: string,
    excerpt: Option<string>,
    content: string,
    featuredImage: Option<string>,
    status: string,
    publishedAt: Option<int>,
    tags: set<int>)

  /** `isPublished`: status `published`, a date, and the date in the past. */
  predicate IsPublished(p: Post, now: int) {
    p.status == "published" && p.publishedAt.Some? && p.publishedAt.value < now
  }

  /** `isDraft`. */
  predicate IsDraft(p: Post) {
    p.status == "draft"
  }

  /** `isScheduled`: status `published`, a date, and the date in the future. */
  predicate IsScheduled(p: Post, now: int) {
    p.status == "published" && p.publishedAt.Some? && p.publishedAt.value > now
  }

  /** Status `published` with a non-null date: what both date scopes start from. */
  predicate HasPublicationDate(p: Post) {
    p.status == "published" && p.publishedAt.Some?
  }

  /** The rows of `posts` that `keep` selects, in order. */
  function Where(posts: seq<Post>, keep: Post -> bool): (r: seq<Post>)
    ensures forall p :: p in r <==> p in posts && keep(p)
  {
    if posts == [] then []
    else (if keep(posts[0]) then [posts[0]] else []) + Where(posts[1..], keep)
  }

  /** A filter keeps every selected row as often as it occurs and drops the
      rest. */
  lemma {:induction false} WhereCounts(posts: seq<Post>, keep: Post -> bool)
    ensures forall p :: multiset(Where(posts, keep))[p] == if keep(p) then multiset(posts)[p] else 0
  {
    if posts != [] {
      WhereCounts(posts[1..], keep);
      assert posts == [posts[0]] + posts[1..];
    }
  }

  /** `scopePublished`: `published_at <= now`. */
  function ScopePublished(posts: seq<Post>, now: int): seq<Post> {
    Where(posts, (p: Post) => HasPublicationDate(p) && p.publishedAt.value <= now)
  }

  /** `scopeScheduled`: `published_at > now`. */
  function ScopeScheduled(posts: seq<Post>, now: int): seq<Post> {
    Where(posts, (p: Post) => HasPublicationDate(p) && p.publishedAt.value > now)
  }

  /** `scopeDraft`. */
  function ScopeDraft(posts: seq<Post>): seq<Post> {
    Where(posts, (p: Post) => p.status == "draft")
  }

  /** `scopeByCategory`. */
  function ScopeByCategory(posts: seq<Post>, categoryId: int): seq<Post> {
    Where(posts, (p: Post) => p.categoryId == Some(categoryId))
  }

  /** `scopeByTag`: posts with the tag attached. */
  function ScopeByTag(posts: seq<Post>, tagId: int): seq<Post> {
    Where(posts, (p: Post) => tagId in p.tags)
  }

  /** `scopeByAuthor`. */
  function ScopeByAuthor(posts: seq<Post>, userId: int): seq<Post> {
    Where(posts, (p: Post) => p.userId == userId)
  }

  /** No post is two of published, scheduled and draft at once. */
  lemma StatesExclusive(p: Post, now: int)
    ensures !(IsPublished(p, now) && IsScheduled(p, now))
    ensures !(IsPublished(p, now) && IsDraft(p))
    ensures !(IsScheduled(p, now) && IsDraft(p))
  {
  }

  /** A post with status `published` and a date is exactly one of published,
      scheduled, or dated this very second. */
  lemma DatedPostClassified(p: Post, now: int)
    requires HasPublicationDate(p)
    ensures IsPublished(p, now) || IsScheduled(p, now) || p.publishedAt.value == now
  {
  }

  /** The published scope and the scheduled scope split the dated posts:
      every dated row lands in exactly one of them, as often as it occurs. */
  lemma DateScopesPartition(posts: seq<Post>, now: int)
    ensures multiset(ScopePublished(posts, now)) + multiset(ScopeScheduled(posts, now))
            == multiset(Where(posts, HasPublicationDate))
    ensures forall p :: !(p in ScopePublished(posts, now) && p in ScopeScheduled(posts, now))
  {
    var pub := ScopePublished(posts, now);
    var sch := ScopeScheduled(posts, now);
    var dated := Where(posts, HasPublicationDate);
    WhereCounts(posts, (p: Post) => HasPublicationDate(p) && p.publishedAt.value <= now);
    WhereCounts(posts, (p: Post) => HasPublicationDate(p) && p.publishedAt.value > now);
    WhereCounts(posts, HasPublicationDate);
    forall p ensures (multiset(pub) + multiset(sch))[p] == multiset(dated)[p] {
    }
  }

  /** The scope and the helper disagree only at the instant of publication:
      a post dated `now` is in the published scope but `isPublished` is false
      and so is `isScheduled`. */
  lemma PublishedScopeIncludesBoundary(p: Post, now: int)
    ensures (HasPublicationDate(p) && p.publishedAt.value <= now) <==> IsPublished(p, now) || (HasPublicationDate(p) && p.publishedAt.value == now)
    ensures HasPublicationDate(p) && p.publishedAt.value == now ==> !IsPublished(p, now) && !IsScheduled(p, now)
  {
  }

  /** A draft is never in either date scope. */
  lemma DraftsInNoDateScope(posts: seq<Post>, now: int)
    ensures forall p :: p in ScopeDraft(posts) ==> p !in ScopePublished(posts, now) && p !in ScopeScheduled(posts, now)
  {
  }

  /** Filtering a concatenation filters each part. */
  lemma {:induction false} WhereAppend(a: seq<Post>, b: seq<Post>, keep: Post -> bool)
    ensures Where(a + b, keep) == Where(a, keep) + Where(b, keep)
  {
    if a == [] {
      assert a + b == b;
    } else {
      var hd: seq<Post> := if keep(a[0]) then [a[0]] else [];
      assert (a + b)[0] == a[0] && (a + b)[1..] == a[1..] + b;
      assert Where(a + b, keep) == hd + Where(a[1..] + b, keep);
      assert Where(a, keep) == hd + Where(a[1..], keep);
      WhereAppend(a[1..], b, keep);
    }
  }

  /** Two filters give the same rows in either order. */
  lemma {:induction false} WhereCommutes(posts: seq<Post>, f: Post -> bool, g: Post -> bool)
    ensures Where(Where(posts, f), g) == Where(Where(posts, g), f)
  {
    if posts != [] {
      var h, t := posts[0], posts[1..];
      var hf: seq<Post> := if f(h) then [h] else [];
      var hg: seq<Post> := if g(h) then [h] else [];
      WhereAppend(hf, Where(t, f), g);
      WhereAppend(hg, Where(t, g), f);
      WhereCommutes(t, f, g);
      assert Where(hf, g) == Where(hg, f) by {
        if f(h) && g(h) {
          assert Where([h], g) == [h] + Where([h][1..], g);
          assert Where([h], f) == [h] + Where([h][1..], f);
        } else if f(h) {
          assert Where([h], g) == [] + Where([h][1..], g);
        } else if g(h) {
          assert Where([h], f) == [] + Where([h][1..], f);
        }
      }
    }
  }

  /** Restricting by author after the published scope gives the same rows as
      the other way round. */
  lemma ScopesCommute(posts: seq<Post>, now: int, userId: int)
    ensures ScopeByAuthor(ScopePublished(posts, now), userId) == ScopePublished(ScopeByAuthor(posts, userId), now)
  {
    WhereCommutes(posts, (p: Post) => HasPublicationDate(p) && p.publishedAt.value <= now, (p: Post) => p.userId == userId);
  }
}
