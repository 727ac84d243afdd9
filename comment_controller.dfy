/** Comment submission and moderation (app/Http/Controllers/CommentController.php).

    `store` screens the sanitised fields with an ordered list of checks and
    inserts only when all pass. The sanitisers (HTMLPurifier, `filter_var`)
    run before anything modelled here, so the `Submission` holds their
    output. `str_word_count` is the `countWords` parameter, the client
    address is `ip`, the clock is `now` in seconds, and the outcome of the
    insert statement is `insertError`. The comments table holds soft-deleted
    rows too; every query of `store` sees only the live ones. */
module CommentController {
  import opened Wrappers
  import opened Text
  import opened QueryErrors

  /** config/comments.php. */
  datatype CommentConfig = CommentConfig(
    maxAttempts: nat,         // rate_limit.max_attempts
    decayMinutes: nat,        // rate_limit.decay_minutes
    minWordCount: nat,        // spam_prevention.min_word_count
    maxRepeatedChars: nat,    // spam_prevention.max_repeated_chars
    duplicateCheckHours: nat, // spam_prevention.duplicate_check_hours
    allowUrls: bool,          // spam_prevention.allow_urls
    allowEmails: bool,        // spam_prevention.allow_emails
    autoApprove: bool,        // moderation.auto_approve
    trackIp: bool)            // moderation.track_ip

  /** The values used when no environment variable overrides them. */
  const DefaultConfig := CommentConfig(5, 5, 3, 5, 24, false, false, false, true)

  datatype Comment = Comment(postId: nat, name: string, email: string, content: string,
                             approved: bool, ipAddress: Option<string>, createdAt: int, trashed: bool)

  type CommentRows = map<nat, Comment>

  /** The validated and sanitised request fields. */
  datatype Submission = Submission(name: string, email: string, content: string)

  // ---------------------------------------------------------------------
  // The content checks

  predicate IsAsciiLetter(c: char) {
    'a' <= c <= 'z' || 'A' <= c <= 'Z'
  }

  predicate IsAsciiAlnum(c: char) {
    IsAsciiLetter(c) || '0' <= c <= '9'
  }

  /** A PCRE word character (`\w` without the `u` flag). */
  predicate IsWordChar(c: char) {
    IsAsciiAlnum(c) || c == '_'
  }

  /** `\b(?:https?:\/\/|www\.)` with the `i` flag matches at `i`: the match
      starts with a word character, so `\b` holds at the start of the text or
      after a non-word character. */
  predicate UrlAt(s: string, i: nat)
    requires i <= |s|
  {
    var rest := LowerString(s)[i..];
    (i == 0 || !IsWordChar(s[i - 1]))
    && (StartsWith(rest, "http://") || StartsWith(rest, "https://") || StartsWith(rest, "www."))
  }

  predicate UrlFound(s: string) {
    exists i: nat :: i <= |s| && UrlAt(s, i)
  }

  /** `[a-zA-Z0-9._%+-]`. */
  predicate IsLocalChar(c: char) {
    IsAsciiAlnum(c) || c == '.' || c == '_' || c == '%' || c == '+' || c == '-'
  }

  /** `[a-zA-Z0-9.-]`. */
  predicate IsDomainChar(c: char) {
    IsAsciiAlnum(c) || c == '.' || c == '-'
  }

  /** `[a-zA-Z0-9._%+-]+@[a-zA-Z0-9.-]+\.[a-zA-Z]{2,}` matches `s[a..e]`, with
      the `@` at `at` and the final dot at `dot`. */
  predicate EmailMatch(s: string, a: nat, at: nat, dot: nat, e: nat) {
    a < at && at + 1 < dot && dot + 2 < e && e <= |s|
    && (forall m :: a <= m < at ==> IsLocalChar(s[m]))
    && s[at] == '@'
    && (forall m :: at < m < dot ==> IsDomainChar(s[m]))
    && s[dot] == '.'
    && (forall m :: dot < m < e ==> IsAsciiLetter(s[m]))
  }

  predicate EmailFound(s: string) {
    exists a: nat, at: nat, dot: nat, e: nat :: a < |s| && at < |s| && dot < |s| && e <= |s|
                                              && EmailMatch(s, a, at, dot, e)
  }

  /** The shortest match around an `@` and a dot: one local character and
      two letters suffice. */
  predicate ShortEmailAt(s: string, at: nat, dot: nat) {
    0 < at && at + 1 < dot && dot + 3 <= |s| && EmailMatch(s, at - 1, at, dot, dot + 3)
  }

  /** `(.)\1{n,}` matches at `i`: a character other than a newline (`.`
      without the `s` flag) followed by `n` copies of itself. */
  predicate RepeatAt(s: string, i: nat, n: nat) {
    i + n < |s| && s[i] != '\n' && forall m :: i < m <= i + n ==> s[m] == s[i]
  }

  predicate RepeatFound(s: string, n: nat) {
    exists i: nat :: i < |s| && RepeatAt(s, i, n)
  }

  // ---------------------------------------------------------------------
  // The history checks

  /** A live comment by `email` created after `cutoff`. */
  predicate RecentBy(c: Comment, email: string, cutoff: int) {
    !c.trashed && c.email == email && c.createdAt > cutoff
  }

  /** The duplicate query: the same email, post and content within the last
      `hours` hours. */
  predicate IsDuplicate(rows: CommentRows, email: string, postId: nat, content: string, now: int, hours: nat) {
    exists id :: id in rows && RecentBy(rows[id], email, now - hours * 3600)
                 && rows[id].postId == postId && rows[id].content == content
  }

  function RecentIds(rows: CommentRows, email: string, cutoff: int): (ids: set<nat>)
    ensures forall id :: id in ids <==> id in rows && RecentBy(rows[id], email, cutoff)
  {
    set id | id in rows && RecentBy(rows[id], email, cutoff)
  }

  /** The rate query: live comments by `email` within the last `minutes`. */
  function RecentCount(rows: CommentRows, email: string, now: int, minutes: nat): nat {
    |RecentIds(rows, email, now - minutes * 60)|
  }

  // ---------------------------------------------------------------------
  // The screening pipeline

  datatype Rejection =
    | UrlsNotAllowed       // "URLs are not allowed in comments."
    | EmailsNotAllowed     // "Email addresses are not allowed in comment text."
    | TooFewWords          // "Please provide a meaningful comment ..."
    | RepeatedCharacters   // "Comment contains suspicious repeated characters."
    | AlreadySubmitted     // "This comment has already been submitted."
    | PostingTooQuickly    // "You are posting too quickly. ..."

  /** The first check the submission fails, in the order `store` runs them. */
  function Screen(rows: CommentRows, config: CommentConfig, postId: nat, sub: Submission,
                  words: nat, now: int): Option<Rejection>
  {
    if !config.allowUrls && UrlFound(sub.content) then Some(UrlsNotAllowed)
    else if !config.allowEmails && EmailFound(sub.content) then Some(EmailsNotAllowed)
    else if words < config.minWordCount then Some(TooFewWords)
    else if RepeatFound(sub.content, config.maxRepeatedChars) then Some(RepeatedCharacters)
    else if IsDuplicate(rows, sub.email, postId, sub.content, now, config.duplicateCheckHours) then Some(AlreadySubmitted)
    else if RecentCount(rows, sub.email, now, config.decayMinutes) >= config.maxAttempts then Some(PostingTooQuickly)
    else None
  }

  /** Every check the submission fails, in order: the reference the
      pipeline's first-failure rule is stated against. */
  function Failures(rows: CommentRows, config: CommentConfig, postId: nat, sub: Submission,
                    words: nat, now: int): seq<Rejection>
  {
    (if !config.allowUrls && UrlFound(sub.content) then [UrlsNotAllowed] else [])
    + (if !config.allowEmails && EmailFound(sub.content) then [EmailsNotAllowed] else [])
    + (if words < config.minWordCount then [TooFewWords] else [])
    + (if RepeatFound(sub.content, config.maxRepeatedChars) then [RepeatedCharacters] else [])
    + (if IsDuplicate(rows, sub.email, postId, sub.content, now, config.duplicateCheckHours)
       then [AlreadySubmitted] else [])
    + (if RecentCount(rows, sub.email, now, config.decayMinutes) >= config.maxAttempts
       then [PostingTooQuickly] else [])
  }

  datatype StoreOutcome =
    | Refused(reason: Rejection)
    | Saved(approved: bool)  // "Comment posted successfully!" or "... after approval."
    | DataConflict           // QueryException whose code is the text "23000"
    | DatabaseError          // any other QueryException

  /** The row `Comment::create` inserts. */
  function NewComment(config: CommentConfig, postId: nat, sub: Submission, ip: string, now: int): (c: Comment)
    ensures c.postId == postId && c.approved == config.autoApprove && !c.trashed && c.createdAt == now
    ensures c.ipAddress.Some? <==> config.trackIp
    ensures c.name == sub.name && c.email == sub.email && c.content == sub.content
  {
    Comment(postId, sub.name, sub.email, sub.content, config.autoApprove,
            if config.trackIp then Some(ip) else None, now, false)
  }

  function StoreResult(rows: CommentRows, config: CommentConfig, postId: nat, sub: Submission,
                       words: nat, now: int, insertError: Option<QueryError>): StoreOutcome
  {
    match Screen(rows, config, postId, sub, words, now)
    case Some(r) => Refused(r)
    case None =>
      match insertError
      case None => Saved(config.autoApprove)
      case Some(e) => if e.code == TextCode("23000") then DataConflict else DatabaseError
  }

  /** Moderation outcome: the record was missing (404), the policy refused
      (403), or the change was made. */
  datatype ModerationOutcome = NotFound | Forbidden | Done

  predicate Live(rows: CommentRows, id: nat) {
    id in rows && !rows[id].trashed
  }

  predicate Trashed(rows: CommentRows, id: nat) {
    id in rows && rows[id].trashed
  }

  class CommentTable {
    var rows: CommentRows
    var nextId: nat

    /** Ids are handed out in increasing order. */
    ghost predicate Valid()
      reads this
    {
      forall id :: id in rows ==> id < nextId
    }

    constructor ()
      ensures Valid() && rows == map[] && nextId == 1
    {
      rows := map[];
      nextId := 1;
    }

    method Store(config: CommentConfig, postId: nat, sub: Submission, countWords: string -> nat,
                 ip: string, now: int, insertError: Option<QueryError>)
      returns (outcome: StoreOutcome)
      requires Valid()
      modifies this
      ensures Valid()
      ensures outcome == StoreResult(old(rows), config, postId, sub, countWords(sub.content), now, insertError)
      ensures outcome.Saved? ==> rows == old(rows)[old(nextId) := NewComment(config, postId, sub, ip, now)]
      ensures !outcome.Saved? ==> rows == old(rows)
    {
      var content := sub.content;
      if !config.allowUrls && UrlFound(content) {
        return Refused(UrlsNotAllowed);
      }
      if !config.allowEmails && EmailFound(content) {
        return Refused(EmailsNotAllowed);
      }
      if countWords(content) < config.minWordCount {
        return Refused(TooFewWords);
      }
      if RepeatFound(content, config.maxRepeatedChars) {
        return Refused(RepeatedCharacters);
      }
      if IsDuplicate(rows, sub.email, postId, content, now, config.duplicateCheckHours) {
        return Refused(AlreadySubmitted);
      }
      var recent := RecentCount(rows, sub.email, now, config.decayMinutes);
      if recent >= config.maxAttempts {
        return Refused(PostingTooQuickly);
      }
      var ipAddress: Option<string> := None;
      if config.trackIp {
        ipAddress := Some(ip);
      }
      if insertError.Some? {
        if insertError.value.code == TextCode("23000") {
          return DataConflict;
        }
        return DatabaseError;
      }
      rows := rows[nextId := Comment(postId, sub.name, sub.email, content, config.autoApprove, ipAddress, now, false)];
      nextId := nextId + 1;
      return Saved(config.autoApprove);
    }

    /** `approve`: route binding finds live comments only, then the policy. */
    method Approve(id: nat, authorized: bool) returns (outcome: ModerationOutcome)
      requires Valid()
      modifies this
      ensures Valid()
      ensures outcome == (if !Live(old(rows), id) then NotFound else if !authorized then Forbidden else Done)
      ensures outcome == Done ==> rows == old(rows)[id := old(rows)[id].(approved := true)]
      ensures outcome != Done ==> rows == old(rows)
      ensures nextId == old(nextId)
    {
      if !(id in rows && !rows[id].trashed) {
        return NotFound;
      }
      if !authorized {
        return Forbidden;
      }
      rows := rows[id := rows[id].(approved := true)];
      return Done;
    }

    /** `destroy`: a soft delete. */
    method Destroy(id: nat, authorized: bool) returns (outcome: ModerationOutcome)
      requires Valid()
      modifies this
      ensures Valid()
      ensures outcome == (if !Live(old(rows), id) then NotFound else if !authorized then Forbidden else Done)
      ensures outcome == Done ==> rows == old(rows)[id := old(rows)[id].(trashed := true)]
      ensures outcome != Done ==> rows == old(rows)
      ensures nextId == old(nextId)
    {
      if !(id in rows && !rows[id].trashed) {
        return NotFound;
      }
      if !authorized {
        return Forbidden;
      }
      rows := rows[id := rows[id].(trashed := true)];
      return Done;
    }

    /** `restore`: `onlyTrashed()->findOrFail`, then the policy. */
    method Restore(id: nat, authorized: bool) returns (outcome: ModerationOutcome)
      requires Valid()
      modifies this
      ensures Valid()
      ensures outcome == (if !Trashed(old(rows), id) then NotFound else if !authorized then Forbidden else Done)
      ensures outcome == Done ==> rows == old(rows)[id := old(rows)[id].(trashed := false)]
      ensures outcome != Done ==> rows == old(rows)
      ensures nextId == old(nextId)
    {
      if !(id in rows && rows[id].trashed) {
        return NotFound;
      }
      if !authorized {
        return Forbidden;
      }
      rows := rows[id := rows[id].(trashed := false)];
      return Done;
    }

    /** `forceDelete`: only a trashed comment can be removed for good. */
    method ForceDelete(id: nat, authorized: bool) returns (outcome: ModerationOutcome)
      requires Valid()
      modifies this
      ensures Valid()
      ensures outcome == (if !Trashed(old(rows), id) then NotFound else if !authorized then Forbidden else Done)
      ensures outcome == Done ==> rows == old(rows) - {id}
      ensures outcome != Done ==> rows == old(rows)
      ensures nextId == old(nextId)
    {
      if !(id in rows && rows[id].trashed) {
        return NotFound;
      }
      if !authorized {
        return Forbidden;
      }
      rows := rows - {id};
      return Done;
    }
  }

  // ---------------------------------------------------------------------
  // Properties

  /** The first failing check decides the response; a submission is screened
      in exactly when it fails none of them. */
  lemma FirstFailureDecides(rows: CommentRows, config: CommentConfig, postId: nat, sub: Submission,
                            words: nat, now: int)
    ensures var fs := Failures(rows, config, postId, sub, words, now);
            Screen(rows, config, postId, sub, words, now) == if fs == [] then None else Some(fs[0])
  {
  }

  /** Under the default configuration a comment gets through the screening
      exactly when it has no URL, no address, at least 3 words, no run of 6
      equal characters, no twin from the last 24 hours, and fewer than 5
      comments from its email in the last 5 minutes. */
  lemma DefaultScreening(rows: CommentRows, postId: nat, sub: Submission, words: nat, now: int)
    ensures Screen(rows, DefaultConfig, postId, sub, words, now).None?
            <==> !UrlFound(sub.content) && !EmailFound(sub.content) && words >= 3
                 && !RepeatFound(sub.content, 5)
                 && !IsDuplicate(rows, sub.email, postId, sub.content, now, 24)
                 && RecentCount(rows, sub.email, now, 5) < 5
  {
  }

  /** The `+` and `{2,}` of the address pattern only matter at their least:
      an address-shaped substring exists exactly when some `@` has a local
      character before it, a non-empty domain run after it, then a dot and
      two letters. */
  lemma EmailFoundIffShort(s: string)
    ensures EmailFound(s) <==> exists at: nat, dot: nat :: at < |s| && dot < |s| && ShortEmailAt(s, at, dot)
  {
    if EmailFound(s) {
      var a: nat, at: nat, dot: nat, e: nat :| a < |s| && at < |s| && dot < |s| && e <= |s|
                                               && EmailMatch(s, a, at, dot, e);
      assert ShortEmailAt(s, at, dot);
    }
    if exists at: nat, dot: nat :: at < |s| && dot < |s| && ShortEmailAt(s, at, dot) {
      var at: nat, dot: nat :| at < |s| && dot < |s| && ShortEmailAt(s, at, dot);
      assert EmailMatch(s, at - 1, at, dot, dot + 3);
    }
  }

  /** A longer run contains a shorter one: a text rejected for a run limit of
      `n` is rejected for every smaller limit too. */
  lemma RepeatFoundMonotone(s: string, n: nat, k: nat)
    requires k <= n && RepeatFound(s, n)
    ensures RepeatFound(s, k)
  {
    var i: nat :| i < |s| && RepeatAt(s, i, n);
    assert RepeatAt(s, i, k);
  }

  /** Letters equal up to case are both word characters, and any other
      characters equal up to case are equal. */
  lemma SameLowerSameWordChar(a: char, b: char)
    requires Lower(a) == Lower(b)
    ensures IsWordChar(a) <==> IsWordChar(b)
  {
  }

  /** URL detection ignores case: a scheme in capitals is still found. */
  lemma UrlFoundIgnoresCase(s: string, t: string)
    requires |s| == |t| && forall i :: 0 <= i < |s| ==> Lower(s[i]) == Lower(t[i])
    ensures UrlFound(s) <==> UrlFound(t)
  {
    assert LowerString(s) == LowerString(t);
    forall i | 0 <= i < |s|
      ensures IsWordChar(s[i]) <==> IsWordChar(t[i])
    {
      SameLowerSameWordChar(s[i], t[i]);
    }
    if UrlFound(s) {
      var i: nat :| i <= |s| && UrlAt(s, i);
      assert UrlAt(t, i);
    }
    if UrlFound(t) {
      var i: nat :| i <= |t| && UrlAt(t, i);
      assert UrlAt(s, i);
    }
  }

  /** Saving a comment raises its email's recent count by exactly one. */
  lemma SaveCountsOnce(rows: CommentRows, n: nat, c: Comment, now: int, minutes: nat)
    requires n !in rows && !c.trashed && c.createdAt == now && minutes > 0
    ensures RecentCount(rows[n := c], c.email, now, minutes) == RecentCount(rows, c.email, now, minutes) + 1
  {
    var cutoff := now - minutes * 60;
    assert RecentIds(rows[n := c], c.email, cutoff) == RecentIds(rows, c.email, cutoff) + {n};
  }

  /** A saved comment never takes its email past the limit: the count before
      was below `maxAttempts`, so it is at most `maxAttempts` after. */
  lemma SavedStaysWithinLimit(rows: CommentRows, config: CommentConfig, postId: nat, sub: Submission,
                              words: nat, now: int, ip: string, n: nat)
    requires n !in rows && config.decayMinutes > 0
    requires StoreResult(rows, config, postId, sub, words, now, None).Saved?
    ensures RecentCount(rows[n := NewComment(config, postId, sub, ip, now)], sub.email, now, config.decayMinutes)
            <= config.maxAttempts
  {
    SaveCountsOnce(rows, n, NewComment(config, postId, sub, ip, now), now, config.decayMinutes);
  }

  /** Submitting the same comment again at any moment inside the
      `duplicate_check_hours` window is answered with "already submitted"
      and not stored twice. */
  lemma ResubmissionIsDuplicate(rows: CommentRows, config: CommentConfig, postId: nat, sub: Submission,
                                words: nat, now: int, later: int, ip: string, n: nat,
                                insertError: Option<QueryError>)
    requires n !in rows && now <= later < now + config.duplicateCheckHours * 3600
    requires StoreResult(rows, config, postId, sub, words, now, None).Saved?
    ensures var after := rows[n := NewComment(config, postId, sub, ip, now)];
            StoreResult(after, config, postId, sub, words, later, insertError) == Refused(AlreadySubmitted)
  {
    var after := rows[n := NewComment(config, postId, sub, ip, now)];
    assert n in after && RecentBy(after[n], sub.email, later - config.duplicateCheckHours * 3600);
    assert IsDuplicate(after, sub.email, postId, sub.content, later, config.duplicateCheckHours);
  }

  /** The content checks do not look at earlier comments: a content
      rejection is the same whatever the table holds. */
  lemma ContentChecksIgnoreHistory(rows1: CommentRows, rows2: CommentRows, config: CommentConfig,
                                   postId: nat, sub: Submission, words: nat, now: int)
    requires Screen(rows1, config, postId, sub, words, now) in
             {Some(UrlsNotAllowed), Some(EmailsNotAllowed), Some(TooFewWords), Some(RepeatedCharacters)}
    ensures Screen(rows2, config, postId, sub, words, now) == Screen(rows1, config, postId, sub, words, now)
  {
  }

  /** Soft-deleting a comment and restoring it gives the table back. */
  lemma RestoreUndoesDestroy(rows: CommentRows, id: nat)
    requires Live(rows, id)
    ensures var trashed := rows[id := rows[id].(trashed := true)];
            Trashed(trashed, id) && trashed[id := trashed[id].(trashed := false)] == rows
  {
  }

  /** A soft-deleted comment no longer counts towards its email's rate. */
  lemma DestroyedNotCounted(rows: CommentRows, id: nat, email: string, now: int, minutes: nat)
    requires Live(rows, id) && rows[id].email == email && rows[id].createdAt > now - minutes * 60
    ensures RecentCount(rows[id := rows[id].(trashed := true)], email, now, minutes)
            == RecentCount(rows, email, now, minutes) - 1
  {
    var cutoff := now - minutes * 60;
    var trashed := rows[id := rows[id].(trashed := true)];
    assert RecentIds(rows, email, cutoff) == RecentIds(trashed, email, cutoff) + {id};
  }
}
