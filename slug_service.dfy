/** Slug allocation (app/Services/SlugService.php).

    The table of one model class is a finite map from record id to slug; it
    holds the live records only, since Eloquent's default scope hides
    soft-deleted rows from the existence query. Each `DB::transaction` with
    its `lockForUpdate` is one atomic step: the table does not change during a
    call. `Str::slug` is the `slugify` parameter and `Str::random` values are
    passed in. */
module SlugService {
  import opened Wrappers
  import opened Text
  import opened QueryErrors

  /** Live records of one model class: id -> slug. */
  type SlugTable = map<int, string>

  /** `generateUniqueSlug`'s default `$maxAttempts`. */
  const DefaultMaxAttempts: int := 10

  /** `generateWithRetry`'s `$maxRetries`. */
  const MaxRetries: nat := 5

  /** `if ($excludeId) { $query->where('id', '!=', $excludeId); }`: PHP's
      truthiness makes a null or a zero id exclude nothing. */
  predicate Excluded(excludeId: Option<int>, id: int) {
    excludeId.Some? && excludeId.value != 0 && id == excludeId.value
  }

  /** The locked `exists()` query: some record other than the excluded one
      holds `slug`. */
  predicate SlugTaken(table: SlugTable, excludeId: Option<int>, slug: string) {
    exists id :: id in table && table[id] == slug && !Excluded(excludeId, id)
  }

  /** The k-th candidate: `base`, then `base-1`, `base-2`, ... */
  function Candidate(base: string, k: nat): string {
    if k == 0 then base else base + "-" + DecimalString(k)
  }

  /** The last resort once every candidate collided; it is not re-checked. */
  function Fallback(base: string, random8: string): string {
    base + "-" + random8
  }

  /** What the loop of `generateUniqueSlug` returns when it reaches the
      candidate with index `k` (its `$attempt` is k + 1). */
  function FirstFreeFrom(table: SlugTable, excludeId: Option<int>, base: string,
                         k: nat, maxAttempts: int, random8: string): string
    decreases maxAttempts - k
  {
    if k >= maxAttempts then Fallback(base, random8)
    else if !SlugTaken(table, excludeId, Candidate(base, k)) then Candidate(base, k)
    else FirstFreeFrom(table, excludeId, base, k + 1, maxAttempts, random8)
  }

  /** The slug `generateUniqueSlug` allocates for base slug `base`. */
  function UniqueSlug(table: SlugTable, excludeId: Option<int>, base: string,
                      maxAttempts: int, random8: string): string
  {
    FirstFreeFrom(table, excludeId, base, 0, maxAttempts, random8)
  }

  /** No two live records share a slug. */
  ghost predicate SlugsUnique(table: SlugTable) {
    forall i, j :: i in table && j in table && i != j ==> table[i] != table[j]
  }

  // ---------------------------------------------------------------------
  // generateUniqueSlug

  /** Tries `base`, `base-1`, ..., `base-(maxAttempts-1)` in that order and
      returns the first one no other record holds; after `maxAttempts`
      collisions returns `base-<random8>` unchecked. `checks` counts the
      existence queries. */
  method GenerateUniqueSlug(table: SlugTable, title: string, excludeId: Option<int>,
                            maxAttempts: int, slugify: string -> string, random8: string)
    returns (slug: string, ghost checks: nat)
    ensures slug == UniqueSlug(table, excludeId, slugify(title), maxAttempts, random8)
    ensures checks <= if maxAttempts < 0 then 0 else maxAttempts
  {
    var baseSlug := slugify(title);
    slug := baseSlug;
    var attempt := 1;
    checks := 0;
    while attempt <= maxAttempts
      invariant 1 <= attempt && checks == attempt - 1
      invariant attempt <= if maxAttempts < 0 then 1 else maxAttempts + 1
      invariant slug == Candidate(baseSlug, attempt - 1)
      invariant FirstFreeFrom(table, excludeId, baseSlug, attempt - 1, maxAttempts, random8)
                == UniqueSlug(table, excludeId, baseSlug, maxAttempts, random8)
      decreases maxAttempts - attempt
    {
      var taken := SlugTaken(table, excludeId, slug);
      checks := checks + 1;
      if !taken {
        return;
      }
      slug := baseSlug + "-" + DecimalString(attempt);
      attempt := attempt + 1;
    }
    slug := baseSlug + "-" + random8;
  }

  /** The allocated slug is either the first free candidate, every earlier
      one being taken, or (only when all `maxAttempts` candidates are taken)
      the random fallback. */
  lemma {:induction false} FirstFreeFromIsFirst(table: SlugTable, excludeId: Option<int>, base: string,
                                                k: nat, maxAttempts: int, random8: string)
    ensures var r := FirstFreeFrom(table, excludeId, base, k, maxAttempts, random8);
            || (exists n :: k <= n < maxAttempts && r == Candidate(base, n)
                  && !SlugTaken(table, excludeId, Candidate(base, n))
                  && forall j :: k <= j < n ==> SlugTaken(table, excludeId, Candidate(base, j)))
            || (r == Fallback(base, random8)
                  && forall j :: k <= j < maxAttempts ==> SlugTaken(table, excludeId, Candidate(base, j)))
    decreases maxAttempts - k
  {
    var r := FirstFreeFrom(table, excludeId, base, k, maxAttempts, random8);
    if k >= maxAttempts {
      assert r == Fallback(base, random8);
    } else if !SlugTaken(table, excludeId, Candidate(base, k)) {
      assert r == Candidate(base, k);
    } else {
      FirstFreeFromIsFirst(table, excludeId, base, k + 1, maxAttempts, random8);
      assert r == FirstFreeFrom(table, excludeId, base, k + 1, maxAttempts, random8);
      if r == Fallback(base, random8) && forall j :: k + 1 <= j < maxAttempts ==> SlugTaken(table, excludeId, Candidate(base, j)) {
      } else {
        var n :| k + 1 <= n < maxAttempts && r == Candidate(base, n)
                 && !SlugTaken(table, excludeId, Candidate(base, n))
                 && forall j :: k + 1 <= j < n ==> SlugTaken(table, excludeId, Candidate(base, j));
        assert forall j :: k <= j < n ==> SlugTaken(table, excludeId, Candidate(base, j));
      }
    }
  }

  /** The first-free property for a whole call. */
  lemma UniqueSlugIsFirstFree(table: SlugTable, excludeId: Option<int>, base: string,
                              maxAttempts: int, random8: string)
    ensures var r := UniqueSlug(table, excludeId, base, maxAttempts, random8);
            || (exists n :: 0 <= n < maxAttempts && r == Candidate(base, n)
                  && !SlugTaken(table, excludeId, Candidate(base, n))
                  && forall j :: 0 <= j < n ==> SlugTaken(table, excludeId, Candidate(base, j)))
            || (r == Fallback(base, random8)
                  && forall j :: 0 <= j < maxAttempts ==> SlugTaken(table, excludeId, Candidate(base, j)))
  {
    FirstFreeFromIsFirst(table, excludeId, base, 0, maxAttempts, random8);
  }

  /** When no other record holds the base slug, the base slug itself is
      returned. */
  lemma BaseSlugWhenFree(table: SlugTable, excludeId: Option<int>, base: string,
                         maxAttempts: int, random8: string)
    requires maxAttempts >= 1
    requires !SlugTaken(table, excludeId, base)
    ensures UniqueSlug(table, excludeId, base, maxAttempts, random8) == base
  {
  }

  /** Unless every candidate collided, the allocated slug is held by no
      record other than the excluded one. */
  lemma {:induction false} AllocatedSlugIsFree(table: SlugTable, excludeId: Option<int>, base: string,
                                               maxAttempts: int, random8: string)
    requires exists n :: 0 <= n < maxAttempts && !SlugTaken(table, excludeId, Candidate(base, n))
    ensures !SlugTaken(table, excludeId, UniqueSlug(table, excludeId, base, maxAttempts, random8))
  {
    UniqueSlugIsFirstFree(table, excludeId, base, maxAttempts, random8);
  }

  /** Candidates with different indices are different strings, so the
      loop asks about `maxAttempts` distinct slugs. */
  lemma CandidatesDistinct(base: string, j: nat, k: nat)
    requires j != k
    ensures Candidate(base, j) != Candidate(base, k)
  {
    if j != 0 && k != 0 && Candidate(base, j) == Candidate(base, k) {
      var dj, dk := DecimalString(j), DecimalString(k);
      assert (base + "-" + dj)[|base| + 1..] == dj;
      assert (base + "-" + dk)[|base| + 1..] == dk;
      DecimalStringInjective(j, k);
    }
  }

  /** Every one of the first `n` candidates being taken needs `n` distinct
      records, since one record holds one slug. */
  lemma {:induction false} AllTakenNeedsRecords(table: SlugTable, excludeId: Option<int>, base: string, n: nat)
    requires forall j :: 0 <= j < n ==> SlugTaken(table, excludeId, Candidate(base, j))
    ensures |table| >= n
    decreases n
  {
    if n > 0 {
      assert SlugTaken(table, excludeId, Candidate(base, n - 1));
      var w :| w in table && table[w] == Candidate(base, n - 1) && !Excluded(excludeId, w);
      var rest := table - {w};
      forall j | 0 <= j < n - 1
        ensures SlugTaken(rest, excludeId, Candidate(base, j))
      {
        assert SlugTaken(table, excludeId, Candidate(base, j));
        var v :| v in table && table[v] == Candidate(base, j) && !Excluded(excludeId, v);
        CandidatesDistinct(base, j, n - 1);
        assert v in rest;
      }
      AllTakenNeedsRecords(rest, excludeId, base, n - 1);
    }
  }

  /** Pigeonhole: with fewer live records than `maxAttempts`, some candidate
      is free, so the unchecked random fallback is never reached and the
      result collides with no other record. */
  lemma SmallTableNeverFallsBack(table: SlugTable, excludeId: Option<int>, base: string,
                                 maxAttempts: int, random8: string)
    requires 0 <= |table| < maxAttempts
    ensures exists n :: 0 <= n < maxAttempts && !SlugTaken(table, excludeId, Candidate(base, n))
    ensures !SlugTaken(table, excludeId, UniqueSlug(table, excludeId, base, maxAttempts, random8))
  {
    if forall n :: 0 <= n < maxAttempts ==> SlugTaken(table, excludeId, Candidate(base, n)) {
      AllTakenNeedsRecords(table, excludeId, base, maxAttempts);
    }
    AllocatedSlugIsFree(table, excludeId, base, maxAttempts, random8);
  }

  /** The fallback is not re-checked: a table can already hold it. */
  lemma FallbackMayCollide(base: string, random8: string)
    ensures var table := map k | 0 <= k < 11 :: if k < 10 then Candidate(base, k) else Fallback(base, random8);
            UniqueSlug(table, None, base, DefaultMaxAttempts, random8) == Fallback(base, random8)
            && SlugTaken(table, None, Fallback(base, random8))
  {
    var table := map k | 0 <= k < 11 :: if k < 10 then Candidate(base, k) else Fallback(base, random8);
    forall j | 0 <= j < DefaultMaxAttempts
      ensures SlugTaken(table, None, Candidate(base, j))
    {
      assert j in table && table[j] == Candidate(base, j);
    }
    UniqueSlugIsFirstFree(table, None, base, DefaultMaxAttempts, random8);
    assert 10 in table;
  }

  // ---------------------------------------------------------------------
  // The excluded record

  /** The record named by a non-zero `excludeId` never counts as a
      collision: the query behaves as if that record were absent. */
  lemma ExcludedRecordIgnored(table: SlugTable, id: int, slug: string)
    requires id != 0
    ensures SlugTaken(table, Some(id), slug) == SlugTaken(table - {id}, None, slug)
  {
    if SlugTaken(table, Some(id), slug) {
      var w :| w in table && table[w] == slug && !Excluded(Some(id), w);
      assert w in table - {id};
    }
    if SlugTaken(table - {id}, None, slug) {
      var w :| w in table - {id} && (table - {id})[w] == slug;
      assert !Excluded(Some(id), w);
    }
  }

  /** With unique slugs, re-slugging a record returns its current slug
      whenever that slug is the first candidate (`base` or some `base-n`
      with `n < maxAttempts`) not held by another record. */
  lemma RenameToOwnSlugIsIdempotent(table: SlugTable, id: int, base: string, n: nat,
                                    maxAttempts: int, random8: string)
    requires id != 0 && id in table && table[id] == Candidate(base, n)
    requires SlugsUnique(table)
    requires n < maxAttempts
    requires forall j :: 0 <= j < n ==> SlugTaken(table, Some(id), Candidate(base, j))
    ensures UniqueSlug(table, Some(id), base, maxAttempts, random8) == table[id]
  {
    UniqueSlugIsFirstFree(table, Some(id), base, maxAttempts, random8);
    assert !SlugTaken(table, Some(id), Candidate(base, n));
  }

  /** Inserting a new record under a slug nobody holds keeps slugs unique. */
  lemma InsertKeepsSlugsUnique(table: SlugTable, newId: int, slug: string)
    requires SlugsUnique(table)
    requires newId !in table
    requires !SlugTaken(table, None, slug)
    ensures SlugsUnique(table[newId := slug])
  {
  }

  /** Renaming a record to a slug no other record holds keeps slugs unique. */
  lemma RenameKeepsSlugsUnique(table: SlugTable, id: int, slug: string)
    requires SlugsUnique(table)
    requires id != 0 && id in table
    requires !SlugTaken(table, Some(id), slug)
    ensures SlugsUnique(table[id := slug])
  {
    var t := table[id := slug];
    forall i, j | i in t && j in t && i != j
      ensures t[i] != t[j]
    {
      if i == id {
        assert !(j in table && table[j] == slug && !Excluded(Some(id), j));
      } else if j == id {
        assert !(i in table && table[i] == slug && !Excluded(Some(id), i));
      }
    }
  }

  // ---------------------------------------------------------------------
  // generateWithRetry

  /** Outcome of `generateWithRetry`: a slug, the rethrown query error, or
      the RuntimeException after `MaxRetries` duplicate-slug errors. */
  datatype RetryResult = Generated(slug: string) | Rethrown(error: QueryError) | GaveUp

  /** `$e->getCode() === 23000 && Str::contains($e->getMessage(), 'slug')`. */
  predicate RetriesOn(e: QueryError) {
    e.code == IntCode(23000) && Contains(e.message, "slug")
  }

  /** The title after `n` retries: each appends `-` and four random chars. */
  function RetryTitle(title: string, random4s: seq<string>, n: nat): string
    requires n <= |random4s|
  {
    if n == 0 then title else RetryTitle(title, random4s, n - 1) + "-" + random4s[n - 1]
  }

  /** What `generateWithRetry` returns when its loop starts with `$attempt`
      equal to `attempt`. `saves[i]` is what the save callback does with the
      i-th slug (`None`: saved); it is consulted only when a callback was
      given. */
  function RetryFrom(table: SlugTable, title: string, excludeId: Option<int>,
                     slugify: string -> string, random8s: seq<string>, random4s: seq<string>,
                     hasCallback: bool, saves: seq<Option<QueryError>>, attempt: nat): RetryResult
    requires attempt <= MaxRetries
    requires |random8s| >= MaxRetries && |random4s| >= MaxRetries && |saves| >= MaxRetries
    decreases MaxRetries - attempt
  {
    if attempt == MaxRetries then GaveUp
    else
      var t := RetryTitle(title, random4s, attempt);
      var slug := UniqueSlug(table, excludeId, slugify(t), DefaultMaxAttempts, random8s[attempt]);
      if !hasCallback || saves[attempt].None? then Generated(slug)
      else if !RetriesOn(saves[attempt].value) then Rethrown(saves[attempt].value)
      else if attempt + 1 >= MaxRetries then GaveUp
      else RetryFrom(table, title, excludeId, slugify, random8s, random4s, hasCallback, saves, attempt + 1)
  }

  /** Calls `generateUniqueSlug`, hands the slug to the save callback, and on a
      duplicate-slug error retries with `-<4 random chars>` appended to the
      title; gives up after the fifth such error and rethrows every other
      query error. `calls` counts the calls to `generateUniqueSlug`. */
  method GenerateWithRetry(table: SlugTable, title: string, excludeId: Option<int>,
                           slugify: string -> string, random8s: seq<string>, random4s: seq<string>,
                           hasCallback: bool, saves: seq<Option<QueryError>>)
    returns (r: RetryResult, ghost calls: nat)
    requires |random8s| >= MaxRetries && |random4s| >= MaxRetries && |saves| >= MaxRetries
    ensures r == RetryFrom(table, title, excludeId, slugify, random8s, random4s, hasCallback, saves, 0)
    ensures calls <= MaxRetries
  {
    var attempt: nat := 0;
    var t := title;
    calls := 0;
    while attempt < MaxRetries
      invariant attempt <= MaxRetries && calls == attempt
      invariant t == RetryTitle(title, random4s, attempt)
      invariant RetryFrom(table, title, excludeId, slugify, random8s, random4s, hasCallback, saves, attempt)
                == RetryFrom(table, title, excludeId, slugify, random8s, random4s, hasCallback, saves, 0)
      decreases MaxRetries - attempt
    {
      var slug, _ := GenerateUniqueSlug(table, t, excludeId, DefaultMaxAttempts, slugify, random8s[attempt]);
      calls := calls + 1;
      if hasCallback && saves[attempt].Some? {
        var e := saves[attempt].value;
        if e.code == IntCode(23000) && Contains(e.message, "slug") {
          attempt := attempt + 1;
          if attempt >= MaxRetries {
            return GaveUp, calls;
          }
          t := t + "-" + random4s[attempt - 1];
          continue;
        }
        return Rethrown(e), calls;
      }
      return Generated(slug), calls;
    }
    r := GaveUp;
  }

  /** Without a save callback the first allocation is returned as is. */
  lemma WithoutCallbackFirstSlug(table: SlugTable, title: string, excludeId: Option<int>,
                                 slugify: string -> string, random8s: seq<string>, random4s: seq<string>,
                                 saves: seq<Option<QueryError>>)
    requires |random8s| >= MaxRetries && |random4s| >= MaxRetries && |saves| >= MaxRetries
    ensures RetryFrom(table, title, excludeId, slugify, random8s, random4s, false, saves, 0)
            == Generated(UniqueSlug(table, excludeId, slugify(title), DefaultMaxAttempts, random8s[0]))
  {
  }

  /** Giving up happens exactly when every one of the first `MaxRetries`
      saves from `attempt` on failed with a duplicate-slug error. */
  lemma {:induction false} GaveUpIffAllRetryable(table: SlugTable, title: string, excludeId: Option<int>,
                                                 slugify: string -> string, random8s: seq<string>, random4s: seq<string>,
                                                 hasCallback: bool, saves: seq<Option<QueryError>>, attempt: nat)
    requires attempt < MaxRetries
    requires |random8s| >= MaxRetries && |random4s| >= MaxRetries && |saves| >= MaxRetries
    ensures RetryFrom(table, title, excludeId, slugify, random8s, random4s, hasCallback, saves, attempt) == GaveUp
            <==> hasCallback && forall i :: attempt <= i < MaxRetries ==> saves[i].Some? && RetriesOn(saves[i].value)
    decreases MaxRetries - attempt
  {
    if attempt + 1 < MaxRetries {
      GaveUpIffAllRetryable(table, title, excludeId, slugify, random8s, random4s, hasCallback, saves, attempt + 1);
    }
  }

  /** A rethrown error is one the retry test does not accept, and it is the
      error of one of the first `MaxRetries` saves. */
  lemma {:induction false} RethrownIsNotRetryable(table: SlugTable, title: string, excludeId: Option<int>,
                                                  slugify: string -> string, random8s: seq<string>, random4s: seq<string>,
                                                  hasCallback: bool, saves: seq<Option<QueryError>>, attempt: nat)
    requires attempt <= MaxRetries
    requires |random8s| >= MaxRetries && |random4s| >= MaxRetries && |saves| >= MaxRetries
    ensures var r := RetryFrom(table, title, excludeId, slugify, random8s, random4s, hasCallback, saves, attempt);
            r.Rethrown? ==> !RetriesOn(r.error) && exists i :: attempt <= i < MaxRetries && saves[i] == Some(r.error)
    decreases MaxRetries - attempt
  {
    if attempt < MaxRetries {
      RethrownIsNotRetryable(table, title, excludeId, slugify, random8s, random4s, hasCallback, saves, attempt + 1);
    }
  }

  /** Once every save before the i-th failed with a duplicate-slug error,
      the i-th save decides: a successful save returns the i-th slug, and
      any other query error is rethrown unchanged. */
  lemma {:induction false} FirstOtherOutcomeDecides(table: SlugTable, title: string, excludeId: Option<int>,
                                                    slugify: string -> string, random8s: seq<string>,
                                                    random4s: seq<string>, saves: seq<Option<QueryError>>,
                                                    attempt: nat, i: nat)
    requires attempt <= i < MaxRetries
    requires |random8s| >= MaxRetries && |random4s| >= MaxRetries && |saves| >= MaxRetries
    requires forall j :: attempt <= j < i ==> saves[j].Some? && RetriesOn(saves[j].value)
    ensures saves[i].None? ==>
              RetryFrom(table, title, excludeId, slugify, random8s, random4s, true, saves, attempt)
              == Generated(UniqueSlug(table, excludeId, slugify(RetryTitle(title, random4s, i)),
                                      DefaultMaxAttempts, random8s[i]))
    ensures saves[i].Some? && !RetriesOn(saves[i].value) ==>
              RetryFrom(table, title, excludeId, slugify, random8s, random4s, true, saves, attempt)
              == Rethrown(saves[i].value)
    decreases i - attempt
  {
    if attempt < i {
      assert saves[attempt].Some? && RetriesOn(saves[attempt].value);
      FirstOtherOutcomeDecides(table, title, excludeId, slugify, random8s, random4s, saves, attempt + 1, i);
    }
  }

  /** A duplicate-key error whose code arrives as the SQLSTATE text "23000"
      fails the strict integer comparison and is rethrown at once. */
  lemma TextSqlStateIsRethrown(table: SlugTable, title: string, excludeId: Option<int>,
                               slugify: string -> string, random8s: seq<string>, random4s: seq<string>,
                               saves: seq<Option<QueryError>>)
    requires |random8s| >= MaxRetries && |random4s| >= MaxRetries && |saves| >= MaxRetries
    requires saves[0] == Some(QueryError(TextCode("23000"), "Duplicate entry for key 'posts_slug_unique'"))
    ensures RetryFrom(table, title, excludeId, slugify, random8s, random4s, true, saves, 0) == Rethrown(saves[0].value)
  {
  }

  // ---------------------------------------------------------------------
  // updateSlug and slugsExist

  datatype UpdateResult = NewSlug(slug: string) | ModelNotFound

  /** Locks the record and, if it exists, allocates a slug for its new title
      excluding the record itself; a missing record is the
      `Model not found` RuntimeException. */
  method UpdateSlug(table: SlugTable, id: int, newTitle: string,
                    slugify: string -> string, random8: string)
    returns (r: UpdateResult)
    ensures id !in table ==> r == ModelNotFound
    ensures id in table ==> r == NewSlug(UniqueSlug(table, Some(id), slugify(newTitle), DefaultMaxAttempts, random8))
  {
    if id !in table {
      return ModelNotFound;
    }
    var slug, _ := GenerateUniqueSlug(table, newTitle, Some(id), DefaultMaxAttempts, slugify, random8);
    return NewSlug(slug);
  }

  /** `whereIn('slug', $slugs)->pluck('slug')`: the requested slugs that some
      live record holds. */
  function SlugsExist(slugs: seq<string>, table: SlugTable): (found: set<string>)
    ensures forall s :: s in found <==> s in slugs && SlugTaken(table, None, s)
  {
    set id | id in table && table[id] in slugs :: table[id]
  }
}
