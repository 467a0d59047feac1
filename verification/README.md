# PuppyTalk, modelled and verified

PuppyTalk is a community service: several application processes share one Redis and one PostgreSQL.
This project models the parts of it where state is shared or arithmetic is delicate, and proves what
they are for. Each concurrent protocol is a state machine whose events are the single Redis commands
and database transactions of the code; events of any number of requests, workers and processes
interleave freely, commands may fail, requests may die between any two events and keys may expire. The
results are about every run. Beside the machines stand the loops and methods of the code, proved
against the functions the machines use.

| file | what it models |
|---|---|
| `ViewCounter.dfy`, `ViewEffects.dfy`, `MapSums.dfy` | write-behind view counting: dedup, buffer, rename to a drain, commit, merge-back, lock |
| `RateLimit.dfy` | the fixed-window limiter, in Lua and in memory |
| `RefreshRotation.dfy` | refresh-token rotation by compare-and-swap |
| `Idempotency.dfy` | idempotent post creation |
| `CacheAside.dfy` | the cache with a single recomputing caller |
| `Envelope.dfy`, `Fanout.dfy`, `FanoutService.dfy` | cross-instance fan-out, its envelopes, and the local managers |
| `Ledgers.dfy`, `Counters.dfy`, `ContentService.dfy` | like, comment and report counters beside their tables, blinding, deletion, purge |
| `CommentPaging.dfy`, `Ordering.dfy` | keyset paging of comment threads and the assembly of a page |
| `KeysetCleanup.dfy` | the image sweep |
| `DogReplacement.dfy` | full replacement of a dog list under a partial unique index |
| `Trending.dfy` | the trending pool and its per-reader block overlay |
| `Text.dfy`, `Search.dfy` | the search filter and its ILIKE patterns |
| `Numerals.dfy`, `Uuid.dfy`, `Base62.dfy` | public ids |
| `PgNumeric.dfy`, `Ulid.dfy` | the ULID migration, on PostgreSQL's numeric division |

`dafny verify dfyconfig.toml` checks everything.

What the models take for granted: a Redis command is carried out and answered, fails without effect, or
is carried out while its answer gets lost; a Lua script and a `db.begin()` block are each one atomic
step, with the same three outcomes; lock tokens, drain keys, instance ids, primary keys and token digests
are fresh when drawn; a forked process does not get the pid recorded in the instance-id state it
inherits; a pub/sub copy reaches a listener at most once; a Redis key set with a lifetime of w seconds at
time t is there during [t, t + w); ids of new comments are larger than those of older ones. Nothing else
is assumed about the order, the number or the outcome of steps. The ULID migration runs inside
PostgreSQL; its numeric division is modelled after version 15, the version the repository deploys
(docker-compose.yml:9), where power(2::numeric, 128) shows sixteen decimal places and a quotient is
rounded to the scale that select_div_scale in numeric.c picks.

Some behaviours of the code that a reader may not expect are kept as they are. The ULID migration does
not write the ULID's own value in general, because the second loop truncates quotients that PostgreSQL
has already rounded; `Ulid.MigratedExactIff` says exactly when it does, and `Ulid.DistinctBelowIff` up to
where distinct keys stay distinct (up to timestamps whose bits are all ones). One idempotency key can
create two posts (`Idempotency.GapDuplicates`). A view is counted twice when the answer to its buffer
increment gets lost (`ViewCounter.LostAnswerCountsTwice`). The limiter's in-memory fallback admits the
request that opens a window even when the limit is below one, which the Lua script does not
(`RateLimit.SameDecisionIff` says exactly when they differ). Resetting the reports of deleted content
removes them although the caller is told that the content was not found.

## Model

| member | source | states |
|---|---|---|
| `ViewCounter.Conservation` | app/domain/posts/services/post_service.py:97-309 | In every interleaving of visitors, flush runs, post creations and deletions, with failing commands, lost answers, rollbacks, crashes, half-finished merges and lapsing locks: for every undeleted post, whenever it was created, table count + buffer + the drain fields neither committed nor merged back = initial count + accepted views + views put down once more because an answer got lost. |
| `ViewCounter.NothingRepeated` | app/domain/posts/services/post_service.py:97-105 | No view of a post is put down twice in a run in which every buffer increment and every flush transaction that is carried out is also answered. |
| `ViewCounter.LostAnswerCountsTwice` | app/domain/posts/services/post_service.py:97-127 | It is when an answer gets lost: wherever a visitor of an undeleted post is about to be counted, a buffer increment whose answer is lost and the fallback after it add two views for one accepted visit. |
| `ViewCounter.NeverOverReports` | app/domain/posts/services/post_service.py:207-229 | The count a page shows (row read first, own direct increment, buffer read last, an unreadable buffer counting 0) never exceeds the initial count, the views accepted and those repeated by lost answers up to the moment of the buffer read. |
| `ViewCounter.NothingStranded` | app/domain/posts/services/post_service.py:231-309 | When every flush run has ended and none left views in its drain, table and buffer alone hold every accepted and every repeated view. |
| `ViewCounter.StrandedIff` | app/domain/posts/services/post_service.py:231-309 | When every flush run has ended, views are stuck in some drain if and only if some run crashed or lost Redis while its drain held fields neither committed nor merged back. |
| `ViewCounter.ViewerCountedOnce` | app/domain/posts/services/post_service.py:67-83 | A viewer key is newly set at most once more often than it has expired, so a viewer passes the dedup once per key lifetime while Redis answers. |
| `ViewCounter.OneFlushAtATime` | app/domain/posts/services/post_service.py:231-299 | Of the flush runs whose own lock has not expired at most one is past the lock: a compare-and-delete release never frees another run's lock. |
| `ViewCounter.StepKeepsInv` | app/domain/posts/services/post_service.py:67-309 | Every single event keeps the books balanced post by post and every run, drain and visit in a consistent phase. |
| `ViewCounter.RenameKeepsInv` | app/domain/posts/services/post_service.py:29-36 | Renaming the buffer to the run's fresh drain key moves all its fields at once and leaves the balance of every post unchanged, also when the run does not learn of it. |
| `ViewCounter.CommitKeepsInv` | app/domain/posts/services/post_service.py:260-275 | The committed transaction turns exactly the drain's unsettled fields into table counts, once, whatever other runs do. |
| `ViewCounter.HiddenCommitKeepsInv` | app/domain/posts/services/post_service.py:260-279 | A flush transaction that commits without the run knowing credits every post and leaves the drain to be merged back: exactly its fields are then counted once more. |
| `ViewCounter.MergeKeepsInv` | app/domain/posts/services/post_service.py:301-309 | Merging back one field moves it from the drain to the buffer; a merge that stops half-way still balances, and it strands views exactly when fields are left to do. |
| `ViewCounter.DiscardKeepsInv` | app/domain/posts/services/post_service.py:281-287 | Deleting a drain key loses nothing that is still owed. |
| `ViewCounter.BufferKeepsInv` | app/domain/posts/services/post_service.py:97-105 | One view that reaches the buffer is one more in the buffer, as an accepted view or, without an answer, as a repeated one. |
| `ViewCounter.DirectKeepsInv` | app/domain/posts/services/post_service.py:108-127 | A view whose buffer increment seemed to fail is counted in the table, once, and the page adds it to what it shows. |
| `ViewCounter.CreatePostKeepsInv` | app/domain/posts/model.py:86-86 | A post created during a run starts with balanced books: nothing is buffered or drained for it yet. |
| `ViewCounter.CommitFields` | app/domain/posts/services/post_service.py:260-275 | The loop over the drain's fields credits every undeleted post with its positive delta and returns the sum of the positive deltas, in any field order. |
| `ViewCounter.MergeBack` | app/domain/posts/services/post_service.py:301-309 | The merge loop adds every drain field to the buffer hash exactly once, in any field order. |
| `ViewEffects.VisitCounts` | app/domain/posts/services/post_service.py:207-229 | Wherever a run stands, a whole visit while Redis answers adds exactly one view to the post if the viewer has no key and none otherwise, and the page shows the row it read plus everything waiting in the buffer, this view included. |
| `ViewEffects.ShownExactly` | app/domain/posts/services/post_service.py:228-229 | What a page with a readable buffer misses is exactly the views in flight between buffer and table and those that reached the table after its row was read, both never negative; with neither, the page shows every view. An unreadable buffer costs exactly what it holds. |
| `ViewEffects.BufferedCountsOnce` | app/domain/posts/services/post_service.py:97-105 | An answered buffer increment adds exactly one view, to the buffer, for exactly this visit; no other post changes. |
| `ViewEffects.FallbackCountsOnce` | app/domain/posts/services/post_service.py:120-127 | A failed increment and the fallback after it add exactly one view, to the table, for exactly this visit; no other post changes. |
| `ViewEffects.ViewerDecides` | app/domain/posts/services/post_service.py:77-80 | A viewer whose key is set is not counted, a new one gets a key and goes on to be counted; the check itself counts nothing. |
| `ViewEffects.ExpiredViewerCounts` | app/domain/posts/services/post_service.py:77-80 | Once a viewer's key has expired the next visit counts again, exactly once. |
| `ViewEffects.UncheckedVisits` | app/domain/posts/services/post_service.py:67-83 | Without deduplication every visit goes on to be counted and no key is set; without a writer none is counted. |
| `ViewEffects.HiddenFallbackCounts` | app/domain/posts/services/post_service.py:122-127 | A fallback whose answer is lost has counted the view although its page fails; one that fails has counted nothing. |
| `ViewEffects.FlushLands` | app/domain/posts/services/post_service.py:231-299 | Wherever a run stands, an undisturbed flush moves the whole buffer into the table: every undeleted row gains exactly what waited for it, its own drain is gone, the others are as before and the lock is free again. |
| `ViewEffects.FlushUndone` | app/domain/posts/services/post_service.py:260-309 | A flush whose transaction rolls back leaves table, buffer, drains and lock exactly as before it, in whatever order the fields are merged back. |
| `ViewEffects.HiddenCommitDoubles` | app/domain/posts/services/post_service.py:260-279 | A flush transaction that commits without its answer arriving adds exactly its drain's fields to the views of every undeleted post, and is then merged back. |
| `ViewEffects.FailureEnds` | app/domain/posts/services/post_service.py:238-309 | Any other command of a flush run that fails, or finds the lock held or the buffer empty, changes neither table, buffer, drains nor lock; it takes the run to the release of its lock, or to its end if it has none to release. |
| `ViewEffects.HiddenMergeCounts` | app/domain/posts/services/post_service.py:301-309 | A merge whose answer is lost is in the buffer all the same and ends the run with its drain kept. |
| `ViewEffects.HiddenLockStays` | app/domain/posts/services/post_service.py:238-248 | A lock that was set without its run knowing is not released by that run. |
| `ViewEffects.CrashLeavesAll` | app/domain/posts/services/post_service.py:231-299 | A flush run that dies leaves lock, table, buffer and drains as they are. |
| `ViewEffects.LapseFreesLock` | app/domain/posts/services/post_service.py:239-246 | The lock goes when it lapses, and nothing else changes. |
| `ViewEffects.PostAppears` | app/domain/posts/model.py:86-86 | A post created during a run starts with no view anywhere; other rows are as before. |
| `ViewEffects.PostDisappears` | app/domain/posts/repository.py:502-529 | A deleted post keeps its row and count, other rows are as before, and no visit of it can begin. |
| `RateLimit.BurstBound` | app/core/middleware/rate_limit.py:88-104 | With a monotone clock and no eviction of the key's own window while it is live, whatever other keys lose theirs, any half-open interval as long as the window contains at most 2 * max(1, limit) - 1 grants for the key. |
| `RateLimit.BurstAttained` | app/core/middleware/rate_limit.py:88-104 | That bound is the best possible: for every window and limit of at least one some run attains it. |
| `RateLimit.LuaBurstBound` | app/core/middleware/rate_limit.py:33-40 | The Lua counter grants at most 2 * limit - 1 requests in any half-open interval as long as the window, and none at all when the limit is below one. |
| `RateLimit.LuaGrantsAlike` | app/core/middleware/rate_limit.py:33-40 | For limits of at least one the Lua counter grants a key exactly what the fallback would grant it without evicting anything. |
| `RateLimit.FromFreshWindow` | app/core/middleware/rate_limit.py:88-104 | A window grants at most max(1, limit) requests, whatever other keys are evicted. |
| `RateLimit.WindowGrantsExactly` | app/core/middleware/rate_limit.py:88-104 | Of the requests asked while a window lasts, exactly the smaller of their number and max(1, limit) are granted. |
| `RateLimit.InsideExactly` | app/core/middleware/rate_limit.py:97-104 | A live window grants exactly the smaller of what is still asked and what is left of the limit. |
| `RateLimit.InsideWindow` | app/core/middleware/rate_limit.py:97-104 | Until it ends, a window with `count` requests behind it grants at most max(0, limit - count) more. |
| `RateLimit.AcrossWindows` | app/core/middleware/rate_limit.py:88-104 | A live window and the next one together grant at most max(0, limit - count) + max(1, limit). |
| `RateLimit.MemoryRefinesLua` | app/core/middleware/rate_limit.py:33-40 | With every limit at least one and no live window evicted, the in-memory fallback and the Lua counter give the same decisions on every request sequence. |
| `RateLimit.SameDecisionIff` | app/core/middleware/rate_limit.py:88-123 | On a single request the two decide alike if and only if the limit is at least one or the request falls into a live window. |
| `RateLimit.EvictionInvisible` | app/core/middleware/rate_limit.py:76-85 | Removing expired windows never changes a later decision: the run decides as if nothing had been evicted. |
| `RateLimit.Oldest` | app/core/middleware/rate_limit.py:84-85 | The key chosen for eviction is one whose window ends first. |
| `RateLimit.MemoryLimiter.DropOldest` | app/core/middleware/rate_limit.py:83-85 | The eviction loop drops windows in order of their end until fewer than 10,000 are left. |
| `RateLimit.MemoryLimiter.EvictIfNeeded` | app/core/middleware/rate_limit.py:76-85 | Below the cap nothing goes; at the cap all expired windows go first and live ones only if still too many are left, soonest-ending first; fewer than 10,000 keys remain. |
| `RateLimit.MemoryLimiter.Check` | app/core/middleware/rate_limit.py:88-104 | Grants exactly when the key has no live window or its count is below the limit; a live window's count grows by one and its end stays, otherwise a window of one request opens; no other kept key changes; at most 10,000 keys stay; a refusal reports the whole seconds left of the window. |
| `Search.EscapeIsPerCharacter` | app/domain/posts/repository.py:74-76 | The three replacements in sequence put exactly one backslash before every backslash, percent sign and underscore and change nothing else. |
| `Search.EscapedIsLiteral` | app/domain/posts/repository.py:74-76 | Under LIKE with backslash escape, an escaped token followed by a pattern matches exactly the strings that start with the token and continue with the pattern. |
| `Search.PatternMeansOccurrence` | app/domain/posts/repository.py:91-106 | `%` + escaped token + `%` matches a text under ILIKE exactly when the folded token occurs in the folded text, for every case folding that turns the pattern of a token into the pattern of the folded token. |
| `Search.PerCharacterKeepsPatterns` | app/domain/posts/repository.py:91-106 | Every folding that takes each character on its own, even to several, and leaves backslash, percent sign and underscore alone is such a folding. |
| `Search.PlainQueryMeaning` | app/domain/posts/repository.py:109-121 | A query that does not start with # selects a post exactly when every whitespace-separated word occurs in its title, its content or one of its hashtags. |
| `Search.TagQueryMeaning` | app/domain/posts/repository.py:109-117 | A query that starts with # selects exactly the posts that carry the rest of it, stripped and in lower case, as a whole tag; a query of # alone selects nothing. |
| `Search.AsciiLowerKeepsSpecials` | app/domain/posts/repository.py:91-106 | ASCII case folding leaves them alone. |
| `Base62.UuidToBase62` | app/core/ids.py:22-30 | The division loop yields the canonical Base62 spelling (value u, no leading zero) with at most 22 characters. |
| `Base62.SpellingUnique` | app/core/ids.py:22-30 | A number has one canonical spelling only. |
| `Base62.AlphabetInOrder` | app/core/ids.py:10-11 | The symbols are the ASCII digits and letters in ASCII order, each with its own index, and nothing else is one. |
| `Base62.Base62ToUuid` | app/core/ids.py:33-44 | Decoding succeeds exactly on non-empty valid text whose full value is below 2^128, with that value; otherwise the error names the first offending position. |
| `Base62.PrefixOverflows` | app/core/ids.py:38-43 | The overflow test after each character rejects nothing that the full value would not reject. |
| `Base62.ParsePublicId` | app/core/ids.py:59-72 | UUID text is read as a UUID, in every spelling Python's UUID accepts (prefixes, braces, hyphens, plus sign, 0x, underscores, inner space), anything else as Base62, blank text is refused. |
| `Base62.RoundTrip` | app/core/ids.py:22-72 | Encoding then decoding, and encoding then public parsing, give back every 128-bit value. |
| `Base62.Normalise` | app/core/ids.py:22-44 | Re-encoding a decoded string drops surrounding space and leading zeros and nothing else. |
| `Ulid.Accumulate` | migrations/versions/005_entity_ids_ulid_to_uuid_v7.py:114-121 | The first loop computes the Crockford Base32 value of the string, and fails exactly on a character outside the alphabet. |
| `PgNumeric.TruncDivWhole` | migrations/versions/005_entity_ids_ulid_to_uuid_v7.py:128-128 | trunc(work / 16) of a whole numeric without decimal places is (work + 8) / 16 from 17 * 10^16 on and work / 16 below, because PostgreSQL rounds the quotient to the scale it selects before trunc sees it. |
| `PgNumeric.TruncDivScaled` | migrations/versions/005_entity_ids_ulid_to_uuid_v7.py:122-128 | An operand showing four or more decimal places, as the result of % power(2::numeric, 128) does, is divided exactly. |
| `Ulid.ToHex` | migrations/versions/005_entity_ids_ulid_to_uuid_v7.py:122-129 | The second loop yields 32 lower-case hexadecimal digits: those of the number its rounding divisions write. |
| `Ulid.UlidToUuid` | migrations/versions/005_entity_ids_ulid_to_uuid_v7.py:97-139 | The migration function rejects everything that is not 26 symbols of the alphabet and maps a ULID to the number the second loop writes for its Base32 value modulo 2^128. |
| `Ulid.WrittenExactIff` | migrations/versions/005_entity_ids_ulid_to_uuid_v7.py:122-129 | The 32 digits written are those of the number if and only if no digit that decides a rounding (v / 16^j >= 17 * 10^16, 1 <= j < 32) is 8 or more. |
| `Ulid.MigratedExactIff` | migrations/versions/005_entity_ids_ulid_to_uuid_v7.py:97-139 | A ULID is migrated to its own value modulo 2^128 if and only if no rounding goes up. |
| `Ulid.RoundedUlid` | migrations/versions/005_entity_ids_ulid_to_uuid_v7.py:97-139 | A ULID of the year 2024, 01J2GV5GYMWQV0E619795NRVBY, is not migrated to its own value. |
| `Ulid.CarriedOutIff` | migrations/versions/005_entity_ids_ulid_to_uuid_v7.py:122-129 | A rounding carry leaves the top digit exactly for values from 0xffffffffffffff777777777777777780 on. |
| `Ulid.DistinctBelowIff` | migrations/versions/005_entity_ids_ulid_to_uuid_v7.py:122-129 | The second loop keeps all values below a bound distinct if and only if the bound is at most 0xffffffffffffff777777777777777780. |
| `Ulid.WrittenAlikeIff` | migrations/versions/005_entity_ids_ulid_to_uuid_v7.py:122-129 | Two values are written alike if and only if they are equal or one lies beyond the overflow and the other is its twin, the one value found by undoing the passes from nothing left. |
| `Ulid.CollideIff` | migrations/versions/005_entity_ids_ulid_to_uuid_v7.py:97-139 | Two ULIDs get the same UUID if and only if they agree after the first symbol and their first symbols agree modulo 8, or their values modulo 2^128 are such twins. |
| `Ulid.MigrationInjective` | migrations/versions/005_entity_ids_ulid_to_uuid_v7.py:97-139 | On ULIDs whose first symbol is at most 7 and whose value is below that bound the migration is injective up to letter case, so primary keys stay distinct. |
| `Ulid.CollidingUlids` | migrations/versions/005_entity_ids_ulid_to_uuid_v7.py:97-139 | Beyond it they need not: 7ZZZZZZZZZZZZZZZZZZZZZZZZG and 0000000000000000000000007G, both with a first symbol of at most 7, get the same UUID. |
| `Uuid.TextRoundTrip` | app/core/ids.py:59-72 | Reading the text of a 128-bit UUID gives the UUID back. |
| `Uuid.FromTextBelow` | app/core/ids.py:59-72 | Whatever text reads as a UUID, the number read is below 2^128. |
| `Uuid.TooShort` | app/core/ids.py:59-72 | Text of fewer than 32 characters never reads as a UUID. |
| `KeysetCleanup.Media.Fetch` | app/domain/media/model.py:124-180 | A batch is the first rows of the eligible ones past the cursor in id order. |
| `KeysetCleanup.Media.DeleteObjects` | app/domain/media/service.py:110-116 | Every image of the batch is attempted once, in order, and exactly those whose storage deletion succeeded are deletable. |
| `KeysetCleanup.Media.Process` | app/domain/media/service.py:110-120 | One round: all objects of the batch attempted, then exactly the rows whose object went away deleted and counted. |
| `KeysetCleanup.Media.Sweep` | app/domain/media/service.py:88-124 | The loop ends; exactly the eligible images are attempted, once each in id order, for every pattern of storage failures; exactly the rows whose object was deleted disappear; their number is returned. |
| `KeysetCleanup.LeftOver` | app/domain/media/service.py:103-108 | What is left past the cursor does not depend on the rows already deleted, so failures never hide later images. |
| `KeysetCleanup.BatchDone` | app/domain/media/service.py:118-120 | A batch adds its own successes to the earlier ones: rows and total after it are those of all images attempted so far. |
| `Ordering.HeadOfListing` | app/domain/media/model.py:124-180 | A non-empty page followed by the listing past its last id is the whole listing. |
| `Ordering.OrderBy` | app/domain/media/model.py:124-180 | Selecting the first of what is left until nothing is left lists every id once in order. |
| `CommentPaging.GetComments` | app/domain/comments/service.py:147-184 | A page is the next visible roots of the first statement's snapshot in order, `hasMore` says exactly whether more remain, and under each root stand exactly its visible replies of the second statement's snapshot in order; every entry shows its row's text, or the placeholder exactly if the row is deleted; a hidden post is an error. |
| `CommentPaging.ListedRootIff` | app/domain/comments/model.py:211-254 | A root is listed exactly if it belongs to the post, is not blinded, not by a blocked author, and is not deleted or has a reply that is neither deleted, blinded nor by a blocked author. |
| `CommentPaging.BuildTree` | app/domain/comments/service.py:66-82 | Root order is kept, each reply is attached to its root by parent id and each root's replies are sorted, whatever order the rows came in. |
| `CommentPaging.Attach` | app/domain/comments/service.py:73-78 | Looking parents up by id puts every fetched reply under its own root and drops those whose root is not on the page. |
| `CommentPaging.ShowAll` | app/domain/comments/service.py:43-63 | Each comment is shown with its own id, its own text or the placeholder exactly if it is deleted, and the like flag exactly if the reader likes it. |
| `CommentPaging.DeletedRootHasReplies` | app/domain/comments/model.py:211-254 | A deleted root on a page shows only the placeholder and had a visible reply when it was selected; it is shown without one exactly when none was left at the reply query, which cannot happen while comments are only added. |
| `CommentPaging.EveryCommentPlaced` | app/domain/comments/model.py:128-138 | With replies only under roots, every visible comment is a visible root or a reply of its root, and that root is shown unless it is blinded or its author blocked. |
| `CommentPaging.WalkUnderEdits` | app/domain/comments/model.py:211-254 | Following last-root cursors to the end over arbitrary snapshots: nothing twice, everything in order, nothing that was not visible when its page was read, and no root missed that was visible throughout. |
| `CommentPaging.LatestWalkExact` | app/domain/comments/model.py:240-254 | Newest first, with comments only being added between pages: the walk lists exactly the roots visible at its first page, each once, in order. |
| `CommentPaging.OldestWalkExact` | app/domain/comments/model.py:236-254 | Oldest first, with comments only being added between pages: the walk lists exactly the roots visible at its last page, each once, in order. |
| `CommentPaging.GrowthKeepsRoots` | app/domain/comments/model.py:222-235 | Adding comments with newer ids and no reply to a deleted comment neither shows nor hides an existing root. |
| `CommentPaging.CreationGrows` | app/domain/comments/service.py:96-113 | The creation transaction is such an addition: its guard refuses a reply to a deleted comment. |
| `Counters.CommentCountExact` | app/domain/comments/service.py:96-213 | In every run of likes, comments, deletions, reports, resets, blinding and purges, comment_count of an undeleted post is the number of its live comments. |
| `Counters.PostColumnsAgree` | app/domain/likes/service.py:41-98 | In every run, like_count and report_count of a post are at least its live rows, and equal to them on an undeleted post when no user was purged. |
| `Counters.CommentColumnsAgree` | app/domain/likes/service.py:113-173 | The same for the columns of comments. |
| `Counters.ClampNeverFires` | app/domain/posts/repository.py:642-671 | Wherever a run stands, decrementing for a like or a live comment that is there never reaches the clamp at zero. |
| `Counters.BlindedExactly` | app/domain/reports/service.py:17-37 | In every run and for every threshold (one below one acts like one), content is blinded exactly when its reports reach the threshold and no administrator unblinded it after the last report, or an administrator blinded it by hand. |
| `Counters.EffectiveThreshold` | app/domain/reports/service.py:26-37 | A threshold below one acts like a threshold of one, because the report has been counted before it is compared. |
| `Counters.PurgeGap` | app/domain/users/model.py:327-352 | A purge moves a post's columns ahead of its rows by exactly the number of purged likers and of their live reports. |
| `Counters.PurgeLeavesNoTrace` | app/domain/users/model.py:327-352 | A purge leaves no like, report or authorship of the purged users and takes nothing from anybody else. |
| `Counters.UnlikeUndoesLike` | app/domain/likes/service.py:41-98 | In every reachable state, taking a new like back restores the state before it. |
| `Counters.OtherPostsStay` | app/domain/likes/service.py:41-173 | Purges aside, a transaction changes nothing of any post it is not about: not its row, not its counters, likes or reports. |
| `Counters.OtherCommentsStay` | app/domain/comments/service.py:96-213 | Nor of any comment it is not about, except that deleting a live post marks exactly its comments deleted. |
| `Counters.StepKeepsLedgers` | app/domain/likes/service.py:41-173 | Every transaction keeps the like and report columns in agreement with their rows. |
| `Counters.StepKeepsCounts` | app/domain/comments/service.py:96-213 | Every transaction keeps comment_count equal to the live comments and replies one level deep under roots of the same post. |
| `Counters.StepKeepsBlinding` | app/domain/reports/service.py:17-37 | Every transaction keeps the blind flag exactly right. |
| `Counters.CreateCommentKeepsThreads` | app/domain/comments/service.py:96-109 | Creating a comment keeps the depth at two: a reply hangs under an undeleted root of the same post. |
| `Ledgers.AddLikeAgrees` | app/domain/likes/service.py:51-65 | A new like row and the increment after it keep column and rows in agreement. |
| `Ledgers.RemoveLikeAgrees` | app/domain/likes/service.py:86-98 | A removed like row and the clamped decrement after it keep column and rows in agreement. |
| `Ledgers.AddReportAgrees` | app/domain/reports/service.py:26-30 | A new report row and the increment after it keep column and rows in agreement. |
| `Ledgers.ResetReportsAgrees` | app/domain/admin/service.py:147-156 | A reset leaves no live report and a column that agrees, also when the content is already deleted and only the reports go. |
| `Ledgers.DropLikesAgrees` | app/domain/posts/repository.py:520-526 | Deleting a post removes all its like rows. |
| `Ledgers.PurgeAgrees` | app/domain/users/model.py:327-352 | The cascade of a user purge removes those users' likes and reports and accounts for each of them. |
| `ContentService.PostReported` | app/domain/reports/service.py:26-30 | After any run, filing a report adds exactly that row to the live reports and one to the column, which then counts them (up to a purge). |
| `ContentService.PostReportsReset` | app/domain/reports/model.py:183-200 | After any run, a reset empties the live reports of its post and leaves those of every other post alone. |
| `ContentService.CommentCreated` | app/domain/comments/service.py:96-113 | After any run, a permitted creation adds exactly the row asked for, with its parent, author and text, and changes no other comment; exactly that comment joins the live ones of its post, whose counter equals their number. |
| `ContentService.CreatedIsFound` | app/domain/comments/model.py:211-254 | A row that is neither deleted nor blinded is listed for every reader who has not blocked its author: under its parent if it has one, among the roots of its post otherwise. |
| `ContentService.Database.CreatePost` | app/domain/posts/repository.py:209-239 | One more event of the run: a new visible post has no likes, live reports or live comments, and its three counters say so. |
| `ContentService.Database.LikePost` | app/domain/likes/service.py:41-70 | Succeeds exactly on visible posts; exactly the user's row joins the post's likes (or was there, which the flag tells), and the returned count is at least the number of like rows, equal to it when no user was ever purged. |
| `ContentService.Database.UnlikePost` | app/domain/likes/service.py:86-98 | Succeeds exactly on visible posts; exactly the user's row leaves, the count falls by exactly one if it was there (the clamp never fires), and it relates to the rows left as above. |
| `ContentService.Database.LikeComment` | app/domain/likes/service.py:113-145 | Succeeds exactly on undeleted comments; otherwise as for posts. |
| `ContentService.Database.UnlikeComment` | app/domain/likes/service.py:158-173 | Succeeds exactly on undeleted comments; otherwise as for posts. |
| `ContentService.Database.CreateComment` | app/domain/comments/service.py:96-113 | Succeeds exactly when the post is there, neither deleted nor blinded nor by somebody the author has blocked, and the parent, if any, is an undeleted root of the same post; exactly the new row joins the table, a reply is found under its parent by every reader who has not blocked its author, and comment_count equals the number of live comments. |
| `ContentService.Database.DeleteComment` | app/domain/comments/service.py:199-213 | Idempotent: succeeds exactly when the comment belongs to the post; exactly it leaves the live comments, and comment_count of a live post equals their number. |
| `ContentService.Database.AdminDeleteComment` | app/domain/admin/service.py:227-239 | Not idempotent: succeeds exactly on a live comment of the post; the count is exact afterwards either way. |
| `ContentService.Database.DeletePost` | app/domain/posts/repository.py:502-529 | Succeeds exactly on a live post; afterwards exactly it and its comments are marked deleted, with every other field as before, it has no like, and the likes and live comments of every other post are as before. |
| `ContentService.Database.FilePostReport` | app/domain/reports/service.py:17-37 | Exactly the new report joins the live ones; the post is announced as blinded exactly when the column reaches the threshold, and the column counts the live reports (up to a purge). |
| `ContentService.Database.FileCommentReport` | app/domain/reports/service.py:17-37 | The same for comments. |
| `ContentService.Database.ReportPost` | app/domain/reports/service.py:39-63 | Refused exactly for deleted or authorless posts; otherwise the post ends up blinded if its live reports reach the threshold, and is announced as blinded, if no user was ever purged, only then. |
| `ContentService.Database.ReportComment` | app/domain/reports/service.py:39-63 | Refused exactly for deleted comments; otherwise as for posts. |
| `ContentService.Database.UnblindPost` | app/domain/admin/service.py:136-144 | Succeeds exactly on a live post, which is visible again although all its reports stay live. |
| `ContentService.Database.UnblindComment` | app/domain/admin/service.py:204-209 | The same for comments. |
| `ContentService.Database.BlindPost` | app/domain/admin/service.py:185-193 | Succeeds exactly on a live post, which is hidden whatever the number of its live reports, none of which changes. |
| `ContentService.Database.BlindComment` | app/domain/admin/service.py:211-216 | Succeeds exactly on an existing comment, deleted or not, which is hidden; its live reports do not change. |
| `ContentService.Database.ResetPostReports` | app/domain/admin/service.py:146-156 | Whatever the answer, no live report on the post is left; it succeeds exactly on a live post, which is then visible with a report count of zero. |
| `ContentService.Database.ResetCommentReports` | app/domain/admin/service.py:218-225 | The same for comments. |
| `ContentService.Database.PurgeUsers` | app/domain/users/model.py:327-352 | No like, report or authorship of the purged users is left, all other likes stay, and comment_count still equals the live comments of every live post. |
| `DogReplacement.DogTable.Upsert` | app/domain/dogs/service.py:22-102 | Refused without any change unless every listed id is the owner's; otherwise the owner's dogs are exactly the listed and the created ones with the requested contents, the last flagged item is the only representative (none if nothing is flagged), and nobody else's dogs change. |
| `DogReplacement.ReadRequest` | app/domain/dogs/service.py:43-82 | The loop sorts the items into creations and updates and ends with the last flagged item in its two variables. |
| `DogReplacement.LastFlaggedDecides` | app/domain/dogs/service.py:43-82 | The flagged item with no flagged item after it is the representative, by its id, or as the so-many-th created dog as items without an id precede it. |
| `DogReplacement.NobodyFlagged` | app/domain/dogs/service.py:43-82 | Nobody is chosen exactly when no item is flagged. |
| `DogReplacement.CreatesAt` | app/domain/dogs/service.py:43-82 | An item without an id is created in its turn: at the place given by the items without an id before it. |
| `DogReplacement.LastItemDecides` | app/domain/dogs/model.py:137-168 | A dog listed more than once gets the profile of the last item about it. |
| `DogReplacement.LastImageDecides` | app/domain/dogs/model.py:137-168 | And the image of the last item about it that sent an image field. |
| `DogReplacement.UnmentionedStays` | app/domain/dogs/model.py:137-168 | Without an item about the dog its profile stays, and without a sent image field its image. |
| `DogReplacement.DogTable.UpdateOne` | app/domain/dogs/model.py:137-168 | One row's update touches only the owner's dog with that id, clears its flag, and keeps the image unless one was sent. |
| `DogReplacement.DogTable.BulkUpdate` | app/domain/dogs/model.py:137-168 | The rows are updated one after the other; the index holds after each. |
| `DogReplacement.UpdatesLastWins` | app/domain/dogs/model.py:137-168 | When an id is listed several times its last item decides the profile, and its last item that sent an image decides the image. |
| `DogReplacement.DogTable.CreateMany` | app/domain/dogs/model.py:108-135 | The new dogs belong to the owner, are not representative, and no other row changes. |
| `DogReplacement.DogTable.DeleteMany` | app/domain/dogs/model.py:170-181 | Only the owner's dogs with the given ids go. |
| `DogReplacement.DogTable.SetRepresentative` | app/domain/dogs/model.py:183-197 | Clearing all of the owner's dogs and then marking one keeps the unique index satisfied after both statements. |
| `DogReplacement.DogTable.MarkRepresentative` | app/domain/dogs/model.py:191-197 | Marking a dog keeps the index when no dog of the owner is marked. |
| `DogReplacement.DogTable.SetRepresentativeDog` | app/domain/dogs/service.py:104-113 | Afterwards that dog is the owner's only representative; a dog that is not the owner's changes nothing. |
| `Trending.PoolAnswerIsPrefix` | app/domain/posts/services/trending_post_service.py:70-88 | Filtering and cutting the cached pool always gives a beginning of the direct answer. |
| `Trending.PoolAnswerExact` | app/domain/posts/services/trending_post_service.py:21-25 | The two are equal exactly when the pool can fill the limit or nothing allowed was left outside it. |
| `Trending.PoolAnswerEnough` | app/domain/posts/services/trending_post_service.py:21-25 | In particular when the pool holds the whole ranking or at most 30 - limit of its entries are blocked. |
| `Trending.AnswerLength` | app/domain/posts/services/trending_post_service.py:70-88 | The answer has limit entries, or as many as the blocks leave in the pool. |
| `Trending.FilterKeepsPlace` | app/domain/posts/services/trending_post_service.py:74-75 | An allowed post comes right after the allowed posts that precede it in the ranking. |
| `Trending.NobodyBlocked` | app/domain/posts/services/trending_post_service.py:70-75 | A reader who blocks nobody gets the ranking as it is. |
| `Trending.FilterAllows` | app/domain/posts/services/trending_post_service.py:74-75 | An item is shown exactly if it is in the ranking and has no author or one the reader has not blocked. |
| `Envelope.RoundTrip` | app/infra/pubsub.py:54-109 | Parsing a built envelope gives back its targets, payload and origin. |
| `Envelope.LegacyAccepted` | app/infra/pubsub.py:90-100 | The scalar format is still understood. |
| `Envelope.KeysAreTargets` | app/infra/pubsub.py:97-100 | The keys of an object in target_user_ids are read as targets in their order, and an empty string as none. |
| `Envelope.AllOrNone` | app/infra/pubsub.py:90-100 | A target list is read if and only if every element is readable, and then element by element: one bad id drops the envelope for everybody. |
| `Envelope.Republish` | app/infra/pubsub.py:54-109 | Whatever spelling of targets a listener understood, rebuilding the envelope from what it understood and parsing it again gives the same envelope. |
| `Fanout.AtMostOnce` | app/infra/pubsub.py:112-132 | In every run, for every message, process and user the local handler runs at most once, and never for a user who is no target. |
| `Fanout.SenderExactlyOnce` | app/domain/chat/service.py:163-168 | On the sending process it has run exactly once per target when the local loop is over, whatever Redis does. |
| `Fanout.ReceiverExactlyOnce` | app/infra/pubsub.py:112-132 | A process other than the sender that received the envelope always dispatches it and ends with exactly one run per target. |
| `Fanout.PublishedAfterLocal` | app/domain/chat/service.py:162-168 | What is on the channel was handled locally first. |
| `Fanout.IdsDistinct` | app/infra/pubsub.py:39-47 | Two processes that have identified themselves never share an instance id, however they were forked and even with equal pids in different containers. |
| `Fanout.SkipsOwnOnly` | app/infra/pubsub.py:112-128 | The listener's origin test skips the sender's own copy and nothing else. |
| `Fanout.UnsignedIsHandled` | app/infra/pubsub.py:107-128 | An envelope without an origin that is a string is nobody's own: every listener hands it to all its targets. |
| `Fanout.NewProcesses` | app/infra/pubsub.py:39-47 | A started process has no instance id yet; a forked one has its parent's and needs one of its own. |
| `Fanout.SendStepsDo` | app/domain/chat/service.py:149-168 | The uninterrupted steps of a direct message run the handler once for each target at the sender and put the built envelope on the channel exactly when there is a connection, a payload and an accepting Redis. |
| `Fanout.ReceiveStepsDo` | app/infra/pubsub.py:112-132 | The uninterrupted steps of a listener on a copy run the handler once for each target, and not at all at the sender. |
| `Fanout.StepKeepsIds` | app/infra/pubsub.py:39-47 | Starting, forking, publishing and receiving keep every id with the process that generated it. |
| `Fanout.StepKeepsHandled` | app/infra/pubsub.py:112-132 | Every event keeps the handler runs equal to the part of the target list that was due. |
| `FanoutService.Process.InstanceId` | app/infra/pubsub.py:42-47 | An inherited id is replaced, an own one kept. |
| `FanoutService.Process.PublishEnvelope` | app/infra/pubsub.py:54-87 | The envelope goes out under the process's own id exactly when there is a connection, a payload, a target and Redis carries the command out; the answer is true exactly when Redis also says so. |
| `FanoutService.Process.FanoutDm` | app/domain/chat/service.py:149-168 | For every state of the machine in which the process is as here and every new message, the method takes the machine's steps: same identity, same handler runs, same envelope; every target is served locally once, in order, before one envelope is published. |
| `FanoutService.Process.DispatchMessage` | app/infra/pubsub.py:112-132 | For every state of the machine in which the process is as here and every copy it has not taken, the method takes the machine's steps: same identity, same handler runs; messages without handler, malformed ones and own ones run nothing. |
| `FanoutService.DmTargetsValid` | app/domain/chat/service.py:163-163 | The targets of a direct message are its two ends without repetition. |
| `FanoutService.SseFanoutManager.Register` | app/domain/notifications/stream.py:23-27 | The user gets one more, empty queue; nobody else's change. |
| `FanoutService.SseFanoutManager.Unregister` | app/domain/notifications/stream.py:29-36 | The queue goes, and the user with the last of them. |
| `FanoutService.SseFanoutManager.Deliver` | app/domain/notifications/stream.py:38-47 | Every queue of the user with fewer than 100 entries gets the payload at its end, once; a full one and every other queue stay as they are. |
| `FanoutService.PushedMeans` | app/domain/notifications/stream.py:38-47 | A payload goes to the end of a queue of fewer than a hundred entries; a full queue stays as it is. |
| `RefreshRotation.RotatesAtMostOnce` | app/domain/auth/service.py:57-71 | In every run of logins, logouts, revocations, expiries and concurrent refreshes with a positive lifetime, a token rotates at most once by the script, and altogether at most once more than the script failed for it. |
| `RefreshRotation.FailuresPay` | app/domain/auth/service.py:79-100 | Every rotation by the non-atomic path, done or under way, is matched by a failure of the script of its own. |
| `RefreshRotation.MostUses` | app/domain/auth/service.py:57-153 | Wherever a run stands, a token that has been stored can rotate, without another failing script, at most and possibly exactly as often as: rotations so far + requests past the fallback's GET with it + (while it is stored) requests before that GET and one. |
| `RefreshRotation.SingleUseIff` | app/domain/auth/service.py:57-153 | So it stays a single-use token in every such continuation if and only if that number is at most one. |
| `RefreshRotation.TwoPresent` | app/domain/auth/service.py:79-100 | A run after which two refreshes present the stored token, as the next result supposes. |
| `RefreshRotation.StoredIsCurrent` | app/domain/auth/service.py:289-328 | What is stored was issued to that user, is what was stored last, and has never been rotated by any path. |
| `RefreshRotation.OnlyLatestWins` | app/domain/auth/service.py:103-153 | A refresh by the script succeeds exactly when it presents the token stored last for its user while the key lives; it then leaves its own token stored. |
| `RefreshRotation.UsedTokenRefused` | app/domain/auth/service.py:366-389 | A token that has been rotated is refused by the script from then on. |
| `RefreshRotation.DroppedStaysOut` | app/domain/auth/service.py:299-328 | After a logout, revocation or expiry no token of the user rotates, by the script or by the fallback, in any continuation until a new one is stored for that user. |
| `RefreshRotation.NoLifetimeNoRotation` | app/domain/auth/service.py:120-126 | With a lifetime of zero or less nothing is ever stored and no refresh succeeds. |
| `RefreshRotation.NoLifetimeOnlyCompares` | app/domain/auth/service.py:119-125 | Even with a token stored earlier, a refresh without a lifetime only compares: it stores nothing, and succeeds exactly on the stored token. |
| `RefreshRotation.LoginStarts` | app/domain/auth/service.py:289-295 | A login starts with a new token for its user and stores nothing yet. |
| `RefreshRotation.LoginStores` | app/domain/auth/service.py:289-295 | Wherever a run stands, a login with a positive lifetime replaces whatever its user had stored by the new token; everybody else's token stays. |
| `RefreshRotation.LoginDecides` | app/domain/auth/service.py:57-71 | From then on a refresh of that user rotates exactly if it presents the token of that login; no earlier one passes. |
| `RefreshRotation.RefreshStarts` | app/domain/auth/service.py:366-373 | A refresh goes on exactly with an issued token, for the user it was issued to, and has a new token made for that user. |
| `RefreshRotation.FallbackCompares` | app/domain/auth/service.py:92-95 | The GET of the non-atomic path lets exactly the stored token pass and changes nothing. |
| `RefreshRotation.FallbackStores` | app/domain/auth/service.py:96-97 | Past its GET that path replaces whatever is stored by then. |
| `RefreshRotation.LostAnswerRefuses` | app/domain/auth/service.py:127-148 | A script that rotated without its answer arriving has stored the new token, and its own request is refused on the fallback path. |
| `RefreshRotation.GivingUpChangesNothing` | app/domain/auth/service.py:92-100 | A request that gives up changes nothing but that it is gone. |
| `RefreshRotation.OneFailureSuffices` | app/domain/auth/service.py:79-100 | That bound is needed and met: wherever two refreshes present the stored token, one failing script lets it rotate twice. |
| `RefreshRotation.StepKeepsInv` | app/domain/auth/service.py:57-153 | Every step, the fallback's included, keeps stored tokens current and tokens in the making unstored and unshared. |
| `RefreshRotation.TokenStore.RotateScript` | app/domain/auth/service.py:57-71 | The script answers 1 exactly when the stored digest is the presented one and the lifetime positive, and replaces it then and only then. |
| `RefreshRotation.TokenStore.TryRotate` | app/domain/auth/service.py:79-153 | An uninterrupted refresh succeeds only for the stored token; with a working script it does to the key what the protocol step does. |
| `RefreshRotation.TokenStore.Login` | app/domain/auth/service.py:289-295 | Storing at login is the protocol step; with a positive lifetime the user's stored token is the new one whatever was there, and everybody else's stays; without one nothing is stored. |
| `Idempotency.MutualExclusion` | app/api/dependencies/client.py:96-140 | While no request was let through without the lock and no lock expired under its holder, two requests are never both between taking and giving back the lock. |
| `Idempotency.HitReplays` | app/api/dependencies/client.py:96-118 | A request that reads a stored result replays that post for good, creates nothing in any continuation, and the post was created by another request. |
| `Idempotency.CreationNeedsEarlyRead` | app/api/dependencies/client.py:96-140 | Without bypass and expiry, whoever creates a post had read before the first result was stored. |
| `Idempotency.ReadDecides` | app/api/dependencies/client.py:96-140 | A read decides for good: after it, a request creates nothing in any continuation if and only if a result was stored at that moment. |
| `Idempotency.EarlyReadIff` | app/api/dependencies/client.py:96-140 | While no result has expired: a request about to read can still come to create if and only if nothing has been stored yet. |
| `Idempotency.GapDuplicates` | app/api/dependencies/client.py:96-140 | So a key can create twice: a reachable state, with no bypass and no expiry, in which two requests with the same key have created one post each, because read and lock are separate steps. |
| `Idempotency.OpeningDecides` | app/api/dependencies/client.py:96-184 | Wherever a run stands, an uninterrupted request replays a stored result, is refused while the lock is held, and otherwise takes the lock and goes on to create. |
| `Idempotency.WorkIsStored` | app/api/dependencies/client.py:96-184 | It then creates exactly its post, leaves it as the stored result and the lock free. |
| `Idempotency.SecondIsReplayed` | app/api/dependencies/client.py:96-184 | Two requests of one key, one after the other: one post is created and the second gets it replayed. |
| `Idempotency.DeathLeavesLock` | app/api/dependencies/client.py:96-184 | A request that dies while it holds the lock changes nothing but itself; the lock goes when it expires. |
| `Idempotency.SafeStepIff` | app/api/dependencies/client.py:96-184 | From a state in which every holder owns the lock, an event leads out of such states if and only if it takes the lock from under its holder: an expiry, or the unlock of a request that does not own it. |
| `Idempotency.ExclusionIff` | app/api/dependencies/client.py:96-184 | Mutual exclusion lasts through every continuation without such an event if and only if every holder owns the lock at its start. |
| `Idempotency.BypassBreaksExclusion` | app/api/dependencies/client.py:143-184 | One request let through without the lock is enough: a reachable state in which two requests are between lock and unlock. |
| `Idempotency.StepKeepsHolder` | app/api/dependencies/client.py:96-184 | Every event keeps the lock with the request that is between lock and unlock, while nothing bypassed it. |
| `Idempotency.Hooks.PostCreateBefore` | app/api/dependencies/client.py:77-140 | For every protocol state with the same keys, the hook leaves the keys and gives the answer of the protocol's read and lock steps; it replays a stored result, answers busy exactly when the lock is held, and lets the request through on errors or without a key. |
| `Idempotency.Hooks.PostCreateAfterSuccess` | app/api/dependencies/client.py:143-167 | For every protocol state with the same keys, the keys left are those of the protocol's store and unlock steps, whichever of the two commands get through. |
| `Idempotency.Hooks.PostCreateAfterFailure` | app/api/dependencies/client.py:170-184 | For every protocol state with the same keys, the keys left are those of the protocol's unlock step after a failed creation. |
| `Idempotency.Hooks.CreatePost` | app/domain/posts/routers/post_router.py:33-51 | A whole request: a stored result is replayed without creating; a success leaves its post stored and the lock free. |
| `CacheAside.Provenance` | app/infra/cache.py:42-105 | In every interleaving of callers, expiries and Redis failures, given decode(encode(x)) = x, each returned value is the result of some loader run for the key. |
| `CacheAside.LoadsAtMostOnce` | app/infra/cache.py:42-105 | Each call runs its loader at most once. |
| `CacheAside.WaitBounded` | app/infra/cache.py:78-90 | A waiting call polls at most twenty times; after the twentieth only the loader is left to it. |
| `CacheAside.RecomputesAlone` | app/infra/cache.py:71-105 | Two calls are never both recomputing under locks that have not expired. |
| `CacheAside.ReleaseOwnOnly` | app/infra/cache.py:24-27 | A release frees the caller's own lock and never another's. |
| `CacheAside.WaitForEntry` | app/infra/cache.py:78-90 | The polling loop returns the first entry that decodes, stops at an error, and ends after at most twenty polls. |
| `CacheAside.HitReturns` | app/infra/cache.py:64-68 | Wherever a run stands, a call that finds an entry returns it without loading and leaves it there. |
| `CacheAside.LockDecides` | app/infra/cache.py:74-82 | A free lock is taken with the caller's own token, a held one makes the caller wait. |
| `CacheAside.WrittenIsRead` | app/infra/cache.py:94-100 | What a call writes is exactly what any other call then reads or finds by polling. |
| `CacheAside.MissFills` | app/infra/cache.py:61-105 | An undisturbed miss loads once, returns what it loaded, leaves exactly that in the cache and the lock free. |
| `CacheAside.FailureLoads` | app/infra/cache.py:70-92 | Whichever of reading, locking and polling fails, the call goes on to its loader without the lock. |
| `CacheAside.GoesOnAlone` | app/infra/cache.py:61-79 | So does a call without Redis, and one whose lock was set without its knowing; that lock stays. |
| `CacheAside.LoadsAlone` | app/infra/cache.py:61-92 | Without the lock a call returns what it loads, or raises, and touches neither entry nor lock. |
| `CacheAside.LateFailures` | app/infra/cache.py:94-105 | A failing write leaves the entry and a failing release the lock as they are; the call still returns what it loaded. |
| `CacheAside.RaisingReleases` | app/infra/cache.py:94-105 | A loader that raises under the lock writes nothing and gives the lock back. |
| `CacheAside.DeathChangesNothing` | app/infra/cache.py:42-105 | A call that dies leaves entry and lock as they are. |
| `CacheAside.ExpiredLockTaken` | app/infra/cache.py:74-76 | A lock that has expired is taken by the next call. |
| `CacheAside.ExpiredEntryMissed` | app/infra/cache.py:64-69 | An entry that has expired is a miss. |
| `CacheAside.GetOrCompute` | app/infra/cache.py:42-105 | One call: the loader runs exactly when neither the first read nor a poll finds an entry, and an entry is written exactly under a lock of one's own after a successful load. |
| `CacheAside.StepKeepsSource` | app/infra/cache.py:42-105 | Given decode(encode(x)) = x, every event keeps the entry an encoding of a loader result. |

## Left out

- FastAPI routing, request and response schemas, exception mapping, metrics, logging and health probes: no property beyond glue.
- Password hashing, JWT signing and digests: tokens are compared by digests taken as distinct.
- JSON text: envelopes and cache entries are documents and an abstract encode/decode pair, not characters.
- The trending score and the choice among its three queries: the ranking is given.
- Listener reconnection, back-off and send timeouts: the fan-out only needs that a copy arrives at most once.
- WebSocket connection bookkeeping: the same dictionary of sets as the SSE manager, which is modelled.
- The limiter's choice between Redis, memory and letting a request pass when Redis is down: a branch around the two counters that are modelled.
- Minimum lengths of search words and hashtag normalisation on writing: single-branch rules.
- Base62.ParsePublicId: decimal digits outside ASCII, which Python's integer parser also accepts inside UUID text, are not modelled.
- Ulid.UlidToUuid: upper-casing turns one character into one character, as it does in the C library's locales.
- CommentPaging.GetComments: the likes of the reader, fetched by a third statement, are given as a set.
- CommentPaging.BuildTree: reply rows come as a set of ids and are collected by root id, so the sharing of response objects between the list and the lookup table is not modelled.
- KeysetCleanup.Media.Sweep: the set of eligible images is fixed during the sweep; images that become eligible meanwhile are left to the next one.
- DogReplacement.DogTable.Upsert: validation of the fields of an item is not modelled.
- RefreshRotation.RotatesAtMostOnce: one rotation altogether is claimed only up to the number of failing scripts, because the fallback breaks it (`RefreshRotation.OneFailureSuffices`).
- Idempotency.CreationNeedsEarlyRead: one creation per key is not claimed, because read and lock are separate steps (`Idempotency.GapDuplicates`).
- Idempotency.EarlyReadIff: after a stored result has expired the key is free again; `Idempotency.ReadDecides` covers that case too.
- ContentService.Database.PurgeUsers: which users are due for the purge, and its chunking, are not modelled; any set of users may go.
- ContentService.Database.CreateComment: notifications sent along with comments and likes are not modelled.
- FanoutService.SseFanoutManager.Deliver: the streams reading from the queues are not modelled.
- Media uploads, the job locks around the sweeps, chat rooms and read markers: further instances of the same lock and keyset patterns.
