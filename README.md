# Personal blog core, modelled in Dafny

This project models the parts of a Laravel blog that make decisions. It
covers five areas:

- **Slug allocation** (`SlugService`): the bounded search for a free slug,
  the retry wrapper, and the rename and batch-lookup helpers.
- **Two-factor login**: the login action issues a six-digit code valid for
  ten minutes. The verify and resend actions check or replace it under
  per-address rate limits. A middleware guards every protected request.
- **Comment screening**: the ordered URL, e-mail, word-count,
  repeated-character, duplicate and rate checks of `CommentController::store`,
  the stored row, moderation, and the `spam` middleware.
- **Post publication**: `Post`'s publication predicates and query scopes,
  and the date, image, tag and slug rules of `PostController::store` and
  `update`.
- **Access rules**: `PostPolicy` and the `admin` middleware over users given
  as an id plus role and permission names.

Code that changes state is modelled as classes with `modifies` clauses: the
user record, the session, the rate limiter, the comments table and the posts
table. Each such method is proved equal to a pure transition function. The
properties are proved as lemmas about those functions. Pure code (predicates,
scopes, policies, the spam filter) is modelled as functions and lemmas.

Time is integer seconds. `now()`, `rand`, `Str::random`, `Str::slug`,
`str_word_count`, the upload path, the outcome of mail queueing and whether
a query fails are all parameters. Each `DB::transaction` is one atomic step.

Where the code and its documentation disagree, the model follows the code.
Two such cases are listed under "## Findings".

## Model

| member | source | states |
|---|---|---|
| SlugService.GenerateUniqueSlug | app/Services/SlugService.php:14-53 | The loop returns `UniqueSlug`: the first of `base`, `base-1`, … not held by another live record, or `base-<random8>` once `maxAttempts` candidates collided. It makes at most `maxAttempts` existence checks. |
| SlugService.FirstFreeFromIsFirst | app/Services/SlugService.php:30-47 | Every candidate before the returned one is taken. The returned candidate is free, or the result is the fallback and all candidates were taken. |
| SlugService.UniqueSlugIsFirstFree | app/Services/SlugService.php:30-50 | The allocated slug is either the first free candidate, with all earlier candidates taken, or the unchecked fallback after all `maxAttempts` collided. |
| SlugService.BaseSlugWhenFree | app/Services/SlugService.php:21-42 | When no other record holds the base slug, the base slug itself is returned. |
| SlugService.AllocatedSlugIsFree | app/Services/SlugService.php:32-42 | If any candidate is free, the returned slug is held by no record other than the excluded one. |
| SlugService.CandidatesDistinct | app/Services/SlugService.php:45 | Distinct attempt numbers give distinct candidates. |
| SlugService.AllTakenNeedsRecords | app/Services/SlugService.php:30-47 | The first `n` candidates can all be taken only if the table holds at least `n` records. |
| SlugService.SmallTableNeverFallsBack | app/Services/SlugService.php:30-50 | With fewer than `maxAttempts` records, some candidate is free, so the result never collides. |
| SlugService.FallbackMayCollide | app/Services/SlugService.php:49-50 | The random fallback is not re-checked: a table holding all ten candidates and the fallback gets a colliding slug. |
| SlugService.ExcludedRecordIgnored | app/Services/SlugService.php:34-36 | A non-zero `excludeId` makes the search behave as if that record were absent. |
| SlugService.RenameToOwnSlugIsIdempotent | app/Services/SlugService.php:34-41 | With unique slugs, a record whose current slug is the first candidate for the new title not held by another record (`base` or any `base-n`) keeps that slug. |
| SlugService.InsertKeepsSlugsUnique | app/Services/SlugService.php:38-41 | Inserting a record under a free slug keeps slugs unique. |
| SlugService.RenameKeepsSlugsUnique | app/Services/SlugService.php:34-41 | Renaming a record to a slug free of other records keeps slugs unique. |
| SlugService.GenerateWithRetry | app/Services/SlugService.php:60-102 | The loop returns `RetryFrom`: a slug, the rethrown error, or the RuntimeException. It makes at most 5 calls. |
| SlugService.WithoutCallbackFirstSlug | app/Services/SlugService.php:72-79 | Without a save callback the first generated slug is returned. |
| SlugService.GaveUpIffAllRetryable | app/Services/SlugService.php:80-89 | The RuntimeException is thrown exactly when every remaining save failed with integer code 23000 and a message mentioning `slug`. |
| SlugService.RethrownIsNotRetryable | app/Services/SlugService.php:80-98 | A rethrown error is one of the saves' errors, unchanged, and never the retryable kind. |
| SlugService.FirstOtherOutcomeDecides | app/Services/SlugService.php:72-98 | When every save before the i-th failed with the retryable error, a successful i-th save returns the i-th slug, and any other i-th error is rethrown unchanged. |
| SlugService.TextSqlStateIsRethrown | app/Services/SlugService.php:82 | A duplicate-key error carrying the SQLSTATE as text `"23000"` fails the strict `=== 23000` test and is rethrown at once. |
| SlugService.UpdateSlug | app/Services/SlugService.php:107-125 | A missing record yields `Model not found`. Otherwise the result is the unique slug for the new title, excluding the record itself. |
| SlugService.SlugsExist | app/Services/SlugService.php:130-135 | Exactly the requested slugs held by some live record are returned. |
| RateLimiting.HitKey | app/Http/Controllers/Auth/TwoFactorController.php:92 | A hit adds one to the key's attempts when the decay is positive. Every other key's attempts are unchanged. |
| RateLimiting.ClearKey | app/Http/Controllers/Auth/TwoFactorController.php:76 | After a clear the key reads zero attempts at any time. Other keys are unchanged. |
| RateLimiting.HitWindowEnds | app/Http/Controllers/Auth/TwoFactorController.php:92 | A hit never extends an open window, and a window opened now is closed after `decaySeconds`. |
| RateLimiting.RateLimiter.Hit | app/Http/Controllers/Auth/TwoFactorController.php:140 | The counters become `HitKey` of the old counters. |
| RateLimiting.RateLimiter.Clear | app/Http/Controllers/Auth/TwoFactorController.php:76 | The counters become `ClearKey` of the old counters. |
| TwoFactorState.KeysNeverShared | app/Http/Controllers/Auth/TwoFactorController.php:46 | The verify and resend counters never share a key, whatever the two addresses. |
| TwoFactorState.Session.Logout | app/Http/Controllers/Auth/TwoFactorController.php:97 | Logging out clears the signed-in flag and keeps the session id and token. |
| TwoFactorController.Verify | app/Http/Controllers/Auth/TwoFactorController.php:35-103 | The new user, session and limiter state and the response are those of `VerifyStep`. The session id and token are kept. |
| TwoFactorController.Resend | app/Http/Controllers/Auth/TwoFactorController.php:108-144 | The new state and the response are those of `ResendStep`. |
| TwoFactorController.MalformedCodeChangesNothing | app/Http/Controllers/Auth/TwoFactorController.php:39-41 | A submission that is not exactly six digits is rejected first, and nothing changes. |
| TwoFactorController.NumericMatchIsTextMatch | app/Http/Controllers/Auth/TwoFactorController.php:72 | For an issued code, the loose numeric `==` holds exactly when the submission is the code's decimal text. |
| TwoFactorController.VerifiedIff | app/Http/Controllers/Auth/TwoFactorController.php:39-88 | Verification succeeds exactly when all of these hold: the input is six digits, the counter is below 5, a user is signed in, the code is pending and equals the submission, and now is before the expiry. |
| TwoFactorController.ThrottledChangesNothing | app/Http/Controllers/Auth/TwoFactorController.php:48-56 | At 5 attempts the request is refused, and the code, expiry, session and counters are unchanged. |
| TwoFactorController.SuccessIsOneTime | app/Http/Controllers/Auth/TwoFactorController.php:76-87 | Success clears the code and the counter and keeps the session. A replay of the same code is rejected. |
| TwoFactorController.FailureCountsOnce | app/Http/Controllers/Auth/TwoFactorController.php:92-102 | A failure keeps the stored code, logs out, and adds exactly one hit to this address's verify counter and none to other keys. |
| TwoFactorController.VerifyNeverIssues | app/Http/Controllers/Auth/TwoFactorController.php:70-102 | Verify never stores a new code: afterwards the code is the old one or none. |
| TwoFactorController.ResendThrottledChangesNothing | app/Http/Controllers/Auth/TwoFactorController.php:113-119 | At 3 resend attempts nothing changes. |
| TwoFactorController.ResendOverwrites | app/Http/Controllers/Auth/TwoFactorController.php:128-140 | Otherwise the new code, valid for 600 s, overwrites the old one. The resend counter gets one hit once the mail is queued. The verify counter is untouched. |
| TwoFactorController.ResendInvalidatesOldCode | app/Http/Controllers/Auth/TwoFactorController.php:129-134 | After a resend, an earlier code verifies only if the new random code is the same number. |
| EnsureTwoFactorVerified.Handle | app/Http/Middleware/EnsureTwoFactorVerified.php:12-39 | The new code, signed-in flag and response are those of `GuardStep`. The session id and token are kept. |
| EnsureTwoFactorVerified.ExemptRoutesPass | app/Http/Middleware/EnsureTwoFactorVerified.php:17-21 | Routes named `2fa.*`, `login` or `logout` pass with nothing changed. |
| EnsureTwoFactorVerified.GuardNeverSetsCode | app/Http/Middleware/EnsureTwoFactorVerified.php:24-35 | The guard never sets a code: afterwards the code is the old one or none, and the counters are unchanged. |
| EnsureTwoFactorVerified.PendingCodeDecides | app/Http/Middleware/EnsureTwoFactorVerified.php:24-35 | With a pending code, a protected request is redirected to the code form before the expiry. From the expiry on, the code is cleared and the user logged out. |
| EnsureTwoFactorVerified.NothingPendingPasses | app/Http/Middleware/EnsureTwoFactorVerified.php:24-38 | Without a signed-in user or without a code, every request passes unchanged. |
| AuthenticatedSessionController.Store | app/Http/Controllers/Auth/AuthenticatedSessionController.php:29-102 | After authentication the state and response are those of `LoginStep`, and the session gets the new id and token. A failed authentication changes nothing. |
| AuthenticatedSessionController.Destroy | app/Http/Controllers/Auth/AuthenticatedSessionController.php:104-111 | Logout clears the signed-in flag and replaces the session id and token. |
| AuthenticatedSessionController.LoginIssuesCode | app/Http/Controllers/Auth/AuthenticatedSessionController.php:44-101 | A successful login leaves the user signed in with the new code pending for 600 s, whether or not the mail was sent. The response is the mail error exactly when queueing failed. |
| AuthenticatedSessionController.LogoutKeepsCode | app/Http/Controllers/Auth/AuthenticatedSessionController.php:104-111 | Logout keeps the stored code and the counters. |
| TwoFactorProtocol.StepKeepsInvariant | app/Http/Controllers/Auth/TwoFactorController.php:48-102 | Each request keeps two facts true: stored codes are six-digit draws, and no verify counter exceeds 5. |
| TwoFactorProtocol.RunKeepsInvariant | app/Http/Controllers/Auth/TwoFactorController.php:48-140 | Over any sequence of logins, verifies, resends, protected requests and logouts, both facts stay true. |
| TwoFactorProtocol.AttemptsBounded | app/Http/Controllers/Auth/TwoFactorController.php:48-92 | Under that invariant, no address gets more than 5 failed guesses into one window. |
| TwoFactorProtocol.LoginThenProtectedRedirects | app/Http/Middleware/EnsureTwoFactorVerified.php:24-27 | After login, every protected request before the expiry is redirected to the code form. |
| TwoFactorProtocol.LoginThenExpired | app/Http/Middleware/EnsureTwoFactorVerified.php:28-34 | After login with no verification, a protected request from the expiry on clears the code and logs out. |
| TwoFactorProtocol.LoginThenCorrectCodeVerifies | app/Http/Controllers/Auth/TwoFactorController.php:70-87 | The mailed code, entered in time from an address below the limit, verifies. |
| TwoFactorProtocol.ScenarioVerifyThenReplay | app/Http/Controllers/Auth/TwoFactorController.php:70-102 | Code 482913 issued at t0 verifies at t0+540. The replay is rejected and logs out. |
| TwoFactorProtocol.ScenarioWrongCode | app/Http/Controllers/Auth/TwoFactorController.php:92-102 | `000000` against 482913 is rejected with one hit. The code is kept and the user logged out. |
| TwoFactorProtocol.SecondLoginInvalidatesFirstCode | app/Http/Controllers/Auth/AuthenticatedSessionController.php:51-53 | After a second login, the first code verifies only if the two random codes are the same number. |
| CommentController.NewComment | app/Http/Controllers/CommentController.php:94-99 | The stored row has the target `post_id` and `approved` equal to `auto_approve`. It has an `ip_address` exactly when `track_ip` is set. |
| CommentController.CommentTable.Store | app/Http/Controllers/CommentController.php:23-132 | The outcome is `StoreResult`. Only a save inserts a row, under a fresh id; every other outcome leaves the table unchanged. |
| CommentController.FirstFailureDecides | app/Http/Controllers/CommentController.php:36-91 | The response is the first failing check, in source order. A comment is screened in exactly when no check fails. |
| CommentController.DefaultScreening | app/Http/Controllers/CommentController.php:36-91 | With the default configuration, a comment passes exactly when all of these hold: no URL, no address, at least 3 words, no run of 6, no twin in 24 h, and fewer than 5 comments from its email in 5 min. |
| CommentController.EmailFoundIffShort | app/Http/Controllers/CommentController.php:44-45 | The address pattern matches exactly when some `@` has a local character before it and a domain run, a dot and two letters after it. |
| CommentController.RepeatFoundMonotone | app/Http/Controllers/CommentController.php:61-62 | A text refused for a run limit is refused for every smaller limit. |
| CommentController.UrlFoundIgnoresCase | app/Http/Controllers/CommentController.php:36-37 | URL detection gives the same answer for any two texts that differ only in letter case. |
| CommentController.SaveCountsOnce | app/Http/Controllers/CommentController.php:84-102 | A saved comment raises its email's recent count by exactly one. |
| CommentController.SavedStaysWithinLimit | app/Http/Controllers/CommentController.php:81-91 | A save never takes an email past `max_attempts` in the window. |
| CommentController.ResubmissionIsDuplicate | app/Http/Controllers/CommentController.php:69-78 | Sending the same comment again at any moment inside the `duplicate_check_hours` window after it was saved is answered "already submitted", and nothing is stored. |
| CommentController.ContentChecksIgnoreHistory | app/Http/Controllers/CommentController.php:36-66 | A content rejection does not depend on earlier comments. |
| CommentController.CommentTable.Approve | app/Http/Controllers/CommentController.php:165-176 | A live comment, once authorised, becomes approved. Otherwise the result is 404 or 403 and nothing changes. Ids stay below the next id. |
| CommentController.CommentTable.Destroy | app/Http/Controllers/CommentController.php:179-189 | A live comment, once authorised, is soft-deleted. Otherwise nothing changes. Ids stay below the next id. |
| CommentController.CommentTable.Restore | app/Http/Controllers/CommentController.php:218-229 | Only a trashed comment is found. Once authorised it is restored. Ids stay below the next id. |
| CommentController.CommentTable.ForceDelete | app/Http/Controllers/CommentController.php:234-243 | Only a trashed comment is found. Once authorised it is removed. Ids stay below the next id. |
| CommentController.RestoreUndoesDestroy | app/Http/Controllers/CommentController.php:179-229 | Soft-deleting and then restoring gives the table back. |
| CommentController.DestroyedNotCounted | app/Http/Controllers/CommentController.php:84-86 | A soft-deleted comment stops counting towards its email's rate. |
| ProtectAgainstSpam.FirstBanned | app/Http/Middleware/ProtectAgainstSpam.php:27-36 | The result is a listed word found in the content or the name, ignoring case. None is returned exactly when no listed word occurs in either. |
| ProtectAgainstSpam.HttpCountIsPositions | app/Http/Middleware/ProtectAgainstSpam.php:22 | `substr_count` of `http` equals the number of positions where it starts. |
| ProtectAgainstSpam.HandleDecides | app/Http/Middleware/ProtectAgainstSpam.php:14-39 | More than 2 occurrences of `http`, ignoring case, give the link error. Otherwise a banned word gives "Spam detected". Otherwise the request is forwarded. |
| ProtectAgainstSpam.EmptyRequestForwarded | app/Http/Middleware/ProtectAgainstSpam.php:18-38 | A request without either field is forwarded. |
| PostModel.Where | app/Models/Post.php:116-153 | A scope keeps exactly the rows its condition selects. |
| PostModel.WhereCounts | app/Models/Post.php:116-153 | A scope keeps each selected row as often as it occurs and drops the rest. |
| PostModel.StatesExclusive | app/Models/Post.php:156-173 | `isPublished`, `isScheduled` and `isDraft` are pairwise exclusive. |
| PostModel.DatedPostClassified | app/Models/Post.php:156-173 | A published, dated post is published, scheduled, or dated this very second. |
| PostModel.DateScopesPartition | app/Models/Post.php:116-136 | `scopePublished` and `scopeScheduled` partition the published, dated rows, counting repeats. |
| PostModel.PublishedScopeIncludesBoundary | app/Models/Post.php:116-161 | The published scope holds what `isPublished` holds, plus posts dated this very second, for which both helpers are false. |
| PostModel.DraftsInNoDateScope | app/Models/Post.php:116-136 | A draft is in neither date scope. |
| PostModel.WhereCommutes | app/Models/Post.php:116-153 | Two scopes give the same rows in either order. |
| PostModel.ScopesCommute | app/Models/Post.php:116-153 | Author and published scopes commute. |
| PostController.SlugsOf | app/Http/Controllers/PostController.php:101-104 | The slug table has the live posts' ids and their slugs. |
| PostController.PostTable.Store | app/Http/Controllers/PostController.php:78-137 | When `StorePostRequest::authorize` refuses, the answer is 403 and nothing is uploaded or written. Otherwise a stored upload stays on disk, a query error creates no post, and without an error the next id gets `StoredPost` with the slug `generateUniqueSlug` allocates. |
| PostController.PostTable.Update | app/Http/Controllers/PostController.php:168-218 | A missing post gives 404 and changes nothing. A found post that `UpdatePostRequest::authorize` refuses gives 403 and changes nothing. Otherwise the post becomes `UpdatedPost` with the slug `updateSlug` allocates, and the disk becomes `UpdatedFiles`. |
| PostController.PostTable.ReplaceImage | app/Http/Controllers/PostController.php:176-188 | The image column becomes `UpdatedImage` and the disk `UpdatedFiles`: removal deletes the old file and clears the column, otherwise an upload replaces the old file. The posts are unchanged. |
| PostController.StoreDateRule | app/Http/Controllers/PostController.php:93-95 | A post is dated at creation exactly when created `published`. It is in the published scope from that second and is published afterwards; otherwise it is neither published nor scheduled. |
| PostController.UpdateDateRule | app/Http/Controllers/PostController.php:198-200 | Re-saving a published post keeps its date. Publishing a post dates it now. Unpublishing keeps the old date. |
| PostController.RemovalTakesPrecedence | app/Http/Controllers/PostController.php:176-179 | Removal wins over an upload: the image becomes null, the old file is deleted and the upload is not stored. |
| PostController.UploadReplacesImage | app/Http/Controllers/PostController.php:182-188 | An upload replaces the image and deletes the old file. |
| PostController.UpdateSyncsTags | app/Http/Controllers/PostController.php:207-211 | After update the tags are exactly those submitted, or none. |
| PostController.SlugsOfUpdate | app/Http/Controllers/PostController.php:191-195 | Writing a post writes its slug into the slug table. |
| PostController.StoreKeepsSlugsUnique | app/Http/Controllers/PostController.php:101-107 | Whenever one of the ten candidates for the title is free, creating a post keeps slugs unique. This holds in particular with fewer than ten posts (`SlugService.SmallTableNeverFallsBack`). |
| PostController.UpdateKeepsSlugsUnique | app/Http/Controllers/PostController.php:191-204 | Whenever one of the ten candidates for the new title is free of other posts, updating a post keeps slugs unique. |
| PostController.UpdateKeepsOwnSlug | app/Http/Controllers/PostController.php:191-195 | A post keeps its slug when that slug is the first candidate for the new title that no other post holds. |
| Accounts.RolePermissions | database/seeders/RolePermissionSeeder.php:58-87 | Every seeded role's permissions are among the seeded permissions. |
| Accounts.Seeded | database/seeders/RolePermissionSeeder.php:58-87 | A seeded user holds every permission each of their roles grants. They hold nothing outside the seeded permissions, and nothing at all without a role the seeder creates. |
| PostPolicy.UpdateDeleteRestoreAgree | app/Policies/PostPolicy.php:40-80 | `update`, `delete` and `restore` are one rule: `delete posts`, or owning the post. |
| PostPolicy.ForceDeleteIsStrongest | app/Policies/PostPolicy.php:40-89 | Whoever may `forceDelete` may also `restore`, `update` and `delete`. |
| PostPolicy.OwnerNeedsPermissionToForceDelete | app/Policies/PostPolicy.php:85-89 | An owner without `delete posts` may update, delete and restore, but not force-delete. |
| PostPolicy.SuperAdminMayDoAll | app/Policies/PostPolicy.php:13-89 | A seeded super-admin may view, create, update, publish and force-delete any post. |
| PostPolicy.AdminMayDoAll | app/Policies/PostPolicy.php:13-89 | So may a seeded admin. |
| PostPolicy.ModeratorOnlyViews | app/Policies/PostPolicy.php:13-89 | A seeded moderator may view posts but not create, publish or force-delete, and may update only their own. |
| PostPolicy.EditorRefusedOthersPosts | app/Policies/PostPolicy.php:40-49 | As written, a seeded editor holding `edit posts` may not update another user's post. |
| PostPolicy.IntendedRuleAdmitsEditors | app/Policies/PostPolicy.php:34-39 | Under the documented `edit posts` rule, a seeded editor may update any post. |
| PostPolicy.IntendedRuleKeepsRights | app/Policies/PostPolicy.php:34-49 | The documented rule takes no right away from any seeded user. |
| IsAdmin.HandleAsWrittenDecides | app/Http/Middleware/IsAdmin.php:16-28 | As written: a signed-out request goes to `/login`. A signed-in user passes exactly with `admin` or a role named `s`, and otherwise gets a 403. |
| IsAdmin.SuperAdminRefusedAsWritten | app/Http/Middleware/IsAdmin.php:23-25 | As written, a user whose only role is `super-admin` gets a 403. |
| IsAdmin.HandleAdmitsAdministrators | app/Http/Middleware/IsAdmin.php:16-28 | The corrected `HandleIntended`: a signed-out request goes to `/login`. A signed-in user passes exactly with `admin` or `super-admin`, and otherwise gets a 403. |
| IsAdmin.CorrectionOnlyAdmitsSuperAdmins | app/Http/Middleware/IsAdmin.php:23 | The correction changes nothing for users without `super-admin` or `s`. |
| Text.ParseDecimalString | app/Http/Controllers/Auth/TwoFactorController.php:72 | Reading back a number's decimal text gives the number. |
| Text.ParseDigitsInjective | app/Http/Controllers/Auth/TwoFactorController.php:72 | Digit strings of equal length and equal value are equal. |
| Text.SixDigitRendering | app/Http/Controllers/Auth/TwoFactorController.php:129 | Every code in 100000..999999 renders as exactly six digits. |

## Left out

- Concurrency: each transaction and row lock is one atomic step, so races are not modelled. `PostController::store` commits the slug transaction before the insert transaction, so the lock does not cover the write; this model cannot show that.
- `Str::slug`, `Str::random`, `rand`, `str_word_count`, `uniqid` and `time` are parameters. Their algorithms are not reproduced.
- HTMLPurifier and `filter_var` are not part of this model. The screened fields are their output.
- Regular expressions and case folding are ASCII and character-wise. PCRE's byte-level handling of multi-byte UTF-8 text is not modelled.
- Mail delivery is only a flag saying whether queueing succeeded. Login catches only `TransportException`; other mail exceptions, and any exception in resend, give an error page. The model keeps the code saved before the mail in both cases.
- The throttled verify path calls the misspelt `RateLimiter::avaiableIn`, so it fails before its message is built. It is modelled as a refusal that changes nothing. The wait times reported to users are not modelled.
- The rate limiter's cache store is not modelled. It is a map from key to (hits, end of window). `hit` on an open window adds one; on a closed one it opens a new window.
- Each identity's two-factor state is one user record, one session and the shared counters. Several users and several sessions are not modelled.
- The ownership checks compare ids with PHP's `===`. The model assumes the database returns integer ids.
- The queries of `generateUniqueSlug` are modelled as never failing. In the source, a `QueryException` they raise inside `generateWithRetry` is caught by the same handler as a save error (app/Services/SlugService.php:72-98).
- SlugService.SlugsExist: returns a set. `pluck('slug')->toArray()` returns a list with one entry per matching row, in database order; that order and those repeats are not modelled.
- `PostController::store`'s `RuntimeException` branch is unreachable: `generateUniqueSlug` never throws one. The model has no such outcome.
- PostController.PostTable.Store: the authorisation decision of `StorePostRequest::authorize` (the policy's `create`) is a parameter; the form request's validation rules are not modelled.
- PostController.PostTable.Update: the authorisation decision of `UpdatePostRequest::authorize` (the policy's `update` on the bound post) is a parameter. A query error during update is not caught by the source and is not modelled. Image files already deleted stay deleted in the source.
- A tag id repeated in a store request would make `attach` violate the pivot key. Tag lists are modelled as sets, so this case is not modelled.
- Soft-deleted posts are not in the posts table. `PostController::destroy`, `restore` and `forceDelete` are not part of this model.
- The comment and post queries see only live rows. A database unique index on `slug` is not part of this model.
- CommentController.CommentTable.Approve: the authorisation decision of `CommentPolicy` is a parameter. `CommentPolicy` defines no `restore` or `forceDelete` ability, so Laravel's gate refuses those in practice; that fact is not modelled.
- `CommentController::index` and `trashed` are paginated listings. They are not modelled.
- Views, routes, cache invalidation, logging and Sentry reporting are not part of this model.

## Findings

| source | as written | input that shows it | evidently intended | confidence | as-written member | corrected member |
|---|---|---|---|---|---|---|
| app/Http/Middleware/IsAdmin.php:23 | `hasAnyRole(['admin', 's'])` | A user whose only role is the seeded `super-admin` (database/seeders/RolePermissionSeeder.php:58) gets a 403. | The comment on line 22 says admin or super-admin: `['admin', 'super-admin']`. | not executed; high | IsAdmin.HandleAsWrittenDecides, IsAdmin.SuperAdminRefusedAsWritten | IsAdmin.HandleAdmitsAdministrators |
| app/Policies/PostPolicy.php:43 | `update` checks `delete posts` | A seeded editor, who holds `edit posts` but not `delete posts` (database/seeders/RolePermissionSeeder.php:72-79), is refused on another user's post. | The doc comment on lines 34-39 grants `update` to holders of `edit posts`. | not executed; medium | PostPolicy.EditorRefusedOthersPosts | PostPolicy.IntendedRuleAdmitsEditors |
