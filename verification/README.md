# Repair-diagnosis service: caches, sessions and request flow in Dafny

The service diagnoses broken household items from photos. It asks a vision
model for structured repair guidance and answers follow-up questions inside a
conversation. This project models the part that decides whether a model call
can be avoided and that keeps a conversation's state between turns:

- **`LruStore`** (`LRUCache` and `CacheEntry` in
  `app/services/cache_manager.py`). The ordered dictionary is a sequence of
  slots with pairwise distinct keys. Position in the sequence is recency:
  the front is the least recently used entry. The class `LruCache` keeps
  that sequence as its one mutable field. Each method is specified by a
  function on slots (`GetSlots`, `SetSlots`, `Live`), and lemmas prove what
  those functions mean: one entry per key, the size bound, LRU eviction,
  expiry, moving an entry to the back on a hit, and set-then-get.
- **`Caching`** (`CacheManager`). Two `LruCache`s, one exact and one
  perceptual, plus the hit and miss counters. The exact key is the digest
  alone, or `digest:question`. A record stored with a question never enters
  the perceptual store.
- **`Sessions`** (`Session` and `SessionManager` in
  `app/services/session_manager.py`). `Session` is a class holding the
  history, the context line and the access time. `SessionManager` files
  sessions in a map by id. A ghost `view` holds the store's contents as
  values. The value-level functions `AfterAccess`, `Recorded` and
  `Unexpired` state what `get_session`, `update_session` and
  `cleanup_expired` do to that view. The lemmas about them cover:
  - the sliding expiry window;
  - the history bound;
  - the context being derived from the newest entry;
  - deletion of exactly the expired sessions.
- **`Endpoints`** (`app/api/endpoints.py`):
  - the merge of a follow-up into the previous diagnosis;
  - the formatting of a record into the response;
  - the order in which `diagnose` and `_handle_followup` consult the two
    caches, the miss counter, the vision model and the session store;
  - the error handling;
  - the vision call on a full miss, which as written passes a keyword the
    vision service does not accept (see Findings). The model's request flow
    uses the call as evidently intended.
- **`Validators`** (`app/utils/validators.py`). The session-id pattern, the
  upload-name check and the upload-name cleaner, each tied to an independent
  characterisation, plus the expectations of `tests/test_image_processor.py`.

Several inputs are parameters of the model:

- the current time (`now`, an integer);
- the new session id;
- the result of image processing;
- the answers of the vision model;
- the material normaliser.

Points where the model follows the code rather than the design description,
or where the code and its tests disagree:

- **The follow-up's answer is discarded.** The design description says the
  merge overwrites the diagnosis text with the follow-up's answer.
  `_merge_followup_response` never reads `answer`. The model follows the
  code: `MergeCopiesTheRest` proves that the answer has no effect on the
  merged record.
- **`safety_warnings` shadows the added warnings.** The merge extends
  `warnings`, but the response prefers `safety_warnings`. Once a record has
  `safety_warnings`, a follow-up's additional warnings never reach the
  client (`SafetyWarningsShadowAdditions`).
- **The perceptual lookup ignores the question.** A record stored without a
  question can answer a later request that carries a question, because
  `get_perceptual` is consulted after an exact miss (`LookupPrecedence`).
- **A cached `{}` counts as a hit but is not used.** The lookup counts a hit
  whenever the entry is not `None`, but `diagnose` only uses a truthy record.
  So `{}` counts one hit and then falls through to the next step
  (`LookupPrecedence`, `Usable`).
- **A sanitiser test disagrees with the code.**
  `tests/test_image_processor.py:28` expects `"../../../etc/passwd"` to be
  cleaned to `"etcpasswd"`. The code keeps only the last path component and
  gives `"passwd"`. The model follows the code (`SanitizeKeepsLastComponent`).

## Model

| member | source | states |
|---|---|---|
| LruStore.CacheEntry.IsExpired | app/services/cache_manager.py:18-20 | definition: strictly more than `ttl` time units since the entry was stored; `ExpiryIsPermanent` states its consequence |
| LruStore.CacheEntry.Hit | app/services/cache_manager.py:22-25 | definition: the entry with one more hit and the same data; `GetSlotsValid` states what a `get` leaves |
| LruStore.ExpiryIsPermanent | app/services/cache_manager.py:18-20 | an entry expired at some time stays expired at every later time, so lazy purging never revives an entry |
| LruStore.Lookup | app/services/cache_manager.py:48 | the lookup finds nothing exactly when no slot carries the key; what it finds is a slot of the store |
| LruStore.Remove | app/services/cache_manager.py:74-75 | `del`: exactly the slots with other keys survive and no slot with the key; deleting an absent key changes nothing (the order is stated by `RemoveAt`) |
| LruStore.RemoveAt | app/services/cache_manager.py:55 | in a store with one entry per key, deleting the key held at position p leaves exactly the slots before p followed by the slots after p, in their order |
| LruStore.EffectiveTtl | app/services/cache_manager.py:78 | `ttl or default_ttl`: an absent ttl and a ttl of 0 both fall back to the default; any other ttl is used as given |
| LruStore.SetSlots | app/services/cache_manager.py:72-86 | definition of the slots after `set`: delete the key, append the new entry, keep the newest `max_size`; `SetSlotsValid`, `SetEvictsLeastRecent`, `SetThenGet` and `SetLeavesOtherKeys` state what it means |
| LruStore.GetValue | app/services/cache_manager.py:47-61 | definition of what `get` returns: nothing for an absent or expired key, the data otherwise; `GetSlotsValid` and `SetThenGet` state its properties |
| LruStore.GetSlots | app/services/cache_manager.py:47-61 | definition of the slots after `get`: an expired entry deleted, a live one moved to the back with one more hit; `GetSlotsValid` states its properties |
| LruStore.Live | app/services/cache_manager.py:98-112 | definition of the slots after `cleanup_expired`; `LiveIsFilter` and `WithoutMatchesLive` state its properties |
| LruStore.SetSlotsValid | app/services/cache_manager.py:72-86 | after `set`, keys stay distinct and the size bound holds; with a positive bound the new entry is the most recent and the only one for its key; every other slot was already there |
| LruStore.SetEvictsLeastRecent | app/services/cache_manager.py:84-86 | eviction pops the least recently used entries: an older entry survives exactly when fewer than `max_size` entries, the new one included, are more recent; remaining lifetime plays no part |
| LruStore.TrimKeepsNewest | app/services/cache_manager.py:85-86 | popping from the front while over the bound keeps exactly the newest `max_size` slots |
| LruStore.GetSlotsValid | app/services/cache_manager.py:47-61 | a `get` of an expired entry returns nothing and deletes it; a `get` of a live entry returns its data, moves it to the back with one more hit, and keeps the other entries in their order |
| LruStore.SetThenGet | app/services/cache_manager.py:63-86 | a value just stored is returned by the next `get` of its key while it lives |
| LruStore.SetLeavesOtherKeys | app/services/cache_manager.py:63-86 | `set` of one key does not change what another key yields, except that the other key may be evicted |
| LruStore.LiveIsFilter | app/services/cache_manager.py:98-112 | the cleanup keeps exactly the unexpired entries, keeps keys distinct, and the kept and deleted counts add up to the old size |
| LruStore.ExpiredKeysExact | app/services/cache_manager.py:103-106 | the collected key list holds the key of a slot exactly when that slot's entry has expired |
| LruStore.WithoutMatchesLive | app/services/cache_manager.py:108-110 | deleting the collected keys one by one leaves exactly the live slots |
| LruStore.LruCache.constructor | app/services/cache_manager.py:31-35 | an empty store with the given bound and default lifetime |
| LruStore.LruCache.Get | app/services/cache_manager.py:37-61 | returns what `GetValue` says and leaves the slots `GetSlots` describes; the store stays within its bound with one entry per key |
| LruStore.LruCache.Set | app/services/cache_manager.py:63-86 | the eviction loop leaves exactly the slots `SetSlots` describes, for an entry with no hits and the effective ttl |
| LruStore.LruCache.Clear | app/services/cache_manager.py:88-91 | the store is empty |
| LruStore.LruCache.Size | app/services/cache_manager.py:93-96 | the number of entries, never above the bound |
| LruStore.LruCache.CleanupExpired | app/services/cache_manager.py:98-112 | the deletion loop leaves exactly the live entries and returns how many were deleted |
| Caching.MakeExactKey | app/services/cache_manager.py:243-248 | definition: the digest alone without a question, else `digest:question`; `ExactKeySeparatesQuestions` and `ExactKeyInjective` state what it guarantees |
| Caching.ExactKeySeparatesQuestions | app/services/cache_manager.py:243-248 | the same digest with two different questions, or with and without a question, gives two different exact keys |
| Caching.ExactKeyInjective | app/services/cache_manager.py:243-248 | for digests without ':', the exact key determines both the digest and the question |
| Caching.HitRateBounds | app/services/cache_manager.py:209-214 | the hit rate is a percentage between 0 and 100; it is 0 exactly when there was no hit, and 100 when every request hit |
| Caching.CacheManager.constructor | app/services/cache_manager.py:118-136 | two empty stores with the shared bound and their own lifetimes; all counters zero |
| Caching.CacheManager.GetExact | app/services/cache_manager.py:138-156 | looks the composed key up in the exact store; a hit adds one exact hit; nothing else changes |
| Caching.CacheManager.GetPerceptual | app/services/cache_manager.py:158-181 | looks the perceptual hash up as a plain key, with no similarity search; a hit adds one perceptual hit |
| Caching.CacheManager.Set | app/services/cache_manager.py:183-199 | always writes the exact store under the composed key; writes the perceptual store only when there is no question |
| Caching.CacheManager.RecordMiss | app/services/cache_manager.py:201-204 | one more miss; the hit counters are unchanged |
| Caching.CacheManager.GetStats | app/services/cache_manager.py:206-222 | the counters, their total, a hit rate between 0 and 100 (0 before any request) and both store sizes, each within its bound |
| Caching.CacheManager.CleanupExpired | app/services/cache_manager.py:224-229 | each store keeps its live entries; each reports how many it lost |
| Caching.CacheManager.ClearAll | app/services/cache_manager.py:231-241 | both stores empty and every counter zero |
| Caching.StoreThenLookup | app/services/cache_manager.py:183-199 | a question-less diagnosis just stored is found by the exact lookup without a question and by the perceptual lookup, but not by an exact lookup with a question |
| Sessions.Summary | app/services/session_manager.py:39-51 | definition of the context line of one diagnosis: object, issue and step count with their defaults; `DecimalRoundTrip` and `ContextEmptyIffNoHistory` state its properties |
| Sessions.ContextOf | app/services/session_manager.py:33-51 | definition: empty for no history, else the summary of the newest entry; `ContextEmptyIffNoHistory` states its properties |
| Sessions.Truncate | app/services/session_manager.py:26-28 | definition of the corrected history bound (see Findings); `TruncateKeepsNewest` and `TruncateAgreesForPositiveBound` state its properties |
| Sessions.DecimalString | app/services/session_manager.py:50 | the step count is printed as a non-empty string of decimal digits |
| Sessions.DecimalRoundTrip | app/services/session_manager.py:45-50 | the step count printed in the context reads back as exactly that count |
| Sessions.ContextEmptyIffNoHistory | app/services/session_manager.py:33-51 | the context is empty exactly when the history is; otherwise it depends only on the newest entry and starts with "Object: " |
| Sessions.TruncateAsWrittenIgnoresZero | app/services/session_manager.py:27-28 | with a bound of 0, the slice as written keeps a history of length 1 |
| Sessions.TruncateAgreesForPositiveBound | app/services/session_manager.py:27-28 | for every positive bound, the slice as written and the corrected bound agree |
| Sessions.TruncateKeepsNewest | app/services/session_manager.py:26-28 | the history keeps exactly the newest `min(len, max)` entries, in order |
| Sessions.AppendThenTruncate | app/services/session_manager.py:18-31 | after adding a diagnosis with a positive bound, that diagnosis is the newest entry, the latest diagnosis and the one the context summarises |
| Sessions.RecordedIsLatest | app/services/session_manager.py:115-133 | after `update_session`, the session exists (created if it was missing), the new diagnosis is its latest, the access time is the entry's time, the history is bounded, and every other session is as it was |
| Sessions.AddOne | app/services/session_manager.py:85-86 | filing a session under a new id adds one session to the count |
| Sessions.UnexpiredIsRemoval | app/services/session_manager.py:170-181 | keeping the unexpired sessions is the same as deleting the expired ids, and the count drops by exactly the number deleted |
| Sessions.DeleteAll | app/services/session_manager.py:177-179 | the deletion loop removes exactly the given ids and counts one per id |
| Sessions.SlidingWindow | app/services/session_manager.py:59-66 | a session found at time t1 is found again at t2 exactly when no more than the time-to-live has passed since t1; its creation time does not matter |
| Sessions.AccessTwice | app/services/session_manager.py:100-113 | a second lookup at the same instant finds the session again and changes nothing more |
| Sessions.AccessLeavesOthers | app/services/session_manager.py:100-113 | a lookup leaves every other session as it was |
| Sessions.UnexpiredIsExact | app/services/session_manager.py:161-181 | the cleanup keeps a session exactly when it has not expired, keeps it unchanged, and adds no session |
| Sessions.Session.constructor | app/services/session_manager.py:11-16 | a session created and accessed now, with no history and an empty context |
| Sessions.Session.LatestDiagnosis | app/services/session_manager.py:53-57 | nothing for an empty history, else the diagnosis of the newest entry |
| Sessions.Session.IsExpired | app/services/session_manager.py:59-62 | definition: strictly more than the time-to-live in seconds since the last access; `SlidingWindow` states its consequence |
| Sessions.Session.AddDiagnosis | app/services/session_manager.py:18-31 | the history becomes the old history plus the new entry, bounded to the newest `max` entries; the context is refreshed; the access time is unchanged |
| Sessions.Session.UpdateContext | app/services/session_manager.py:33-51 | the context is the summary of the newest entry, or empty when there is no history |
| Sessions.Session.Touch | app/services/session_manager.py:64-66 | only the access time changes, to now |
| Sessions.SessionManager.constructor | app/services/session_manager.py:72-74 | an empty store |
| Sessions.SessionManager.CreateSession | app/services/session_manager.py:76-88 | a fresh session with no history or context, filed under the given id; every other session is kept |
| Sessions.SessionManager.GetSession | app/services/session_manager.py:90-113 | returns the session exactly when it exists and has not expired; an expired one is deleted; a found one has its access time set to now |
| Sessions.SessionManager.Discard | app/services/session_manager.py:108 | the id is deleted and nothing else changes |
| Sessions.SessionManager.Refresh | app/services/session_manager.py:112 | only the access time of that session changes |
| Sessions.SessionManager.UpdateSession | app/services/session_manager.py:115-133 | the store becomes `Recorded`: the session is created if missing (an expired one is reused as it is), the diagnosis is appended with the history bounded, and the session is touched |
| Sessions.SessionManager.EnsureSession | app/services/session_manager.py:124-130 | the session under the id is kept, or a new empty one is filed there |
| Sessions.SessionManager.Append | app/services/session_manager.py:132 | only the history and context of that session change, as `add_diagnosis` says |
| Sessions.SessionManager.GetContext | app/services/session_manager.py:135-146 | the context of the session `get_session` finds, else ""; it is non-empty exactly when a live session with some history is found |
| Sessions.SessionManager.GetLatestDiagnosis | app/services/session_manager.py:148-159 | the newest diagnosis of the session `get_session` finds, else none |
| Sessions.SessionManager.CleanupExpired | app/services/session_manager.py:161-181 | exactly the unexpired sessions are kept, and the return value is the number deleted |
| Sessions.SessionManager.ExpiredIds | app/services/session_manager.py:171-175 | collects an id exactly when its session has expired |
| Sessions.SessionManager.DeleteSessions | app/services/session_manager.py:177-179 | deletes exactly the given ids and returns how many |
| Sessions.SessionManager.GetSessionCount | app/services/session_manager.py:183-186 | the number of sessions held |
| Endpoints.Merge | app/api/endpoints.py:174-197 | definition of the merged record; `MergeAppends`, `MergeNumbersSteps`, `MergeCopiesTheRest` and `MergeNothingIsIdentity` state what it means |
| Endpoints.MergeFollowupResponse | app/api/endpoints.py:174-197 | the renumbering loop gives the additional steps the numbers after the existing ones, also in the follow-up's own records; the result is `Merge` |
| Endpoints.MergeNumbersSteps | app/api/endpoints.py:184-190 | with previous steps numbered 1..k and m additions, the merged steps are numbered 1..k+m: the old steps first and unchanged, then the additions with their other fields kept |
| Endpoints.MergeAppends | app/api/endpoints.py:179-195 | materials, steps and warnings are only appended to: the old list, an absent one counting as empty, is kept as the prefix, followed by exactly the additions, each additional step numbered to continue the old steps; a list the follow-up does not extend stays as it was |
| Endpoints.MergeCopiesTheRest | app/api/endpoints.py:176 | every other field is copied from the previous diagnosis, and the follow-up's answer has no effect on the merged record |
| Endpoints.MergeNothingIsIdentity | app/api/endpoints.py:174-197 | a follow-up without additions leaves the diagnosis as it was |
| Endpoints.FormatDiagnosisResponse | app/api/endpoints.py:200-272 | definition of the response built from a record; `FormatUnclear`, `FormatKeepsLists` and `FormatAfterMerge` state what it means |
| Endpoints.FormatUnclear | app/api/endpoints.py:220-235 | an unclear record gives confidence 0.1, no materials, tools, steps or follow-up questions, "Image unclear" without a reason, and the retake hint without suggestions |
| Endpoints.FormatKeepsLists | app/api/endpoints.py:237-272 | otherwise every material and step appears one for one and in order, with their given names and numbers; the search query defaults to the name; the text falls back from failure mode to diagnosis to "Unknown issue" |
| Endpoints.FormatAfterMerge | app/api/endpoints.py:164-171 | the response to a follow-up keeps the previous text and confidence; its materials are the previous ones followed by the additions; its steps are numbered 1..k+m |
| Endpoints.SafetyWarningsShadowAdditions | app/api/endpoints.py:268 | when the record has `safety_warnings`, the response's warnings are exactly those, whatever the follow-up added |
| Endpoints.SessionGoneBecomes500 | app/api/endpoints.py:120-121 | as written, the outer handler turns the 404 for a missing session into a 500; the corrected handler keeps the 404 |
| Endpoints.OuterHandlersAgreeOnOtherExceptions | app/api/endpoints.py:120-121 | the corrected handler keeps the status and detail of every `HTTPException` and agrees with the code on every other exception; as written, every status becomes 500 |
| Endpoints.FollowupRecordsMerge | app/api/endpoints.py:134-171 | without context, a follow-up fails with 404 and the store is only accessed; with context and a model answer, the merged diagnosis becomes the session's latest, so the next follow-up builds on it, and no session is added or lost |
| Endpoints.PreviousDiagnosis | app/api/endpoints.py:134-143 | the latest diagnosis is found exactly when the context is non-empty, so it is never missing on the follow-up path |
| Endpoints.HandleFollowup | app/api/endpoints.py:124-171 | the model is asked exactly when there is context; the outcome is 404, a vision 500, or the formatted merge; the store ends as `FollowupStore` says |
| Endpoints.DiagnoseImageAsWritten | app/api/endpoints.py:99 | the call as written raises `TypeError` for the unknown `model` keyword, whatever the model would have answered |
| Endpoints.LookupPath | app/api/endpoints.py:71-118 | definition of the lookup path of `diagnose` on values: exact store, perceptual store, miss; `LookupPrecedence`, `MissRecordsDiagnosis` and `SecondRequestHits` state what it means |
| Endpoints.LookupPrecedence | app/api/endpoints.py:71-92 | the exact store answers exactly when it holds a usable record; the perceptual store answers exactly when it does and the exact one does not; otherwise a miss; each lookup that finds a record, `{}` included, counts one hit, the perceptual one only after an exact miss; one miss is counted only on a miss; an answer from a store is that record formatted and leaves the sessions as they were |
| Endpoints.MissRecordsDiagnosis | app/api/endpoints.py:93-118 | with the vision call as intended, a full miss answers with the normalised diagnosis and the session id; the exact store then yields it for the same digest and question; the perceptual store yields it when there was no question and is otherwise as the lookup left it; it is the latest diagnosis of the given or new session; both stores stay valid |
| Endpoints.SecondRequestHits | app/api/endpoints.py:71-118 | after such a miss, the same request is answered from the exact store without another miss, unless the diagnosis was `{}` |
| Endpoints.FullMissFailsAsWritten | app/api/endpoints.py:93-121 | as written, every full miss ends in 500 "Internal error: …unexpected keyword argument 'model'" under either outer handler; beyond the two lookups only the miss counter changes: nothing is cached and no session is created or updated |
| Endpoints.CachesNeverFillAsWritten | app/api/endpoints.py:71-121 | as written, stores that start empty stay empty and the sessions stay as they were, whatever the request |
| Endpoints.RecordDiagnosis | app/api/endpoints.py:110-113 | the given session id is used or a new session created; the exact store, the perceptual store (only without a question) and the session history are written as `Recording` says |
| Endpoints.DiagnoseMiss | app/api/endpoints.py:93-118 | records the miss; a model failure is a 500 "Vision service error" and changes nothing else; otherwise the normalised diagnosis is recorded and formatted with the session id: the new state and the outcome are `MissStep` of the old state |
| Endpoints.DiagnoseAfterExactMiss | app/api/endpoints.py:82-118 | outcome, source and new state are `AfterExactMiss` of the old state: a usable perceptual record is returned without asking the model; otherwise the miss step; the model is called exactly on a miss |
| Endpoints.DiagnoseByLookup | app/api/endpoints.py:71-118 | outcome, source and new state are `LookupPath` of the old state (exact store, then perceptual store, then miss); the model is called exactly on a miss |
| Endpoints.DiagnoseAccepted | app/api/endpoints.py:67-118 | with both a question and a session id: the follow-up outcome, the caches and counters untouched, the sessions as `FollowupStore` says; otherwise `LookupPath` with an absent question taken as "" |
| Endpoints.Diagnose | app/api/endpoints.py:15-121 | a rejected image gets the "Image unclear" answer and changes nothing; a processing crash is a 500; an accepted image gets the follow-up outcome or `LookupPath`'s outcome, passed through the outer handler, with the new state those say |
| Validators.ValidateSessionId | app/utils/validators.py:5-16 | definition of the UUID pattern match, case ignored, with Python's `$` also allowing one final newline; `GroupsAreSessionId`, `SessionIdIsGroups` and `SessionIdIgnoresCase` state exactly which strings it accepts |
| Validators.GroupsAreSessionId | app/utils/validators.py:15-16 | groups of 8, 4, 4, 4 and 12 hex digits in either case, joined by '-', with nothing or one '\n' after them, are accepted |
| Validators.SessionIdIsGroups | app/utils/validators.py:15-16 | conversely, only such strings are accepted |
| Validators.AllHexIgnoresCase | app/utils/validators.py:16 | lower-casing does not change whether a group is hexadecimal |
| Validators.SessionIdIgnoresCase | app/utils/validators.py:16 | a session id is accepted exactly when its lower-cased form is |
| Validators.SessionIdsAccepted | app/utils/validators.py:15-16 | a canonical UUID is accepted in lower case, in upper case, and with one trailing newline |
| Validators.SessionIdsRejected | app/utils/validators.py:15-16 | two trailing newlines, the digits without hyphens, and "not-a-uuid" are rejected |
| Validators.ValidateFilename | app/utils/validators.py:19-38 | an accepted name is non-empty and holds no '..', '/' or '\\' |
| Validators.ExtensionIsAfterLastDot | app/utils/validators.py:37-38 | the suffix test holds exactly when there is a '.' and the lower-cased text after the last '.' is jpg, jpeg, png or webp |
| Validators.FilenameCheckIsExact | app/utils/validators.py:29-38 | a name is accepted exactly when it is non-empty, has no '..', '/' or '\\', and its last '.' is followed by an image extension in any case |
| Validators.LastIndex | app/utils/validators.py:52 | the position of the last occurrence of the separator, or -1; no occurrence follows it |
| Validators.KeepAllowed | app/utils/validators.py:55 | the filtered text holds only `[a-zA-Z0-9._-]` and is no longer than its input |
| Validators.KeepAllowedFixes | app/utils/validators.py:55 | the filter leaves a string unchanged exactly when all its characters are allowed |
| Validators.KeepAllowedDrops | app/utils/validators.py:55 | a string with no allowed character is removed entirely |
| Validators.KeepAllowedConcat | app/utils/validators.py:55 | the filter distributes over concatenation |
| Validators.SanitizeFilename | app/utils/validators.py:41-57 | the cleaned name is never empty, holds only allowed characters, and holds no path separator |
| Validators.SanitizeIdempotent | app/utils/validators.py:41-57 | cleaning a cleaned name changes nothing |
| Validators.CleanNameUnchanged | app/utils/validators.py:52-57 | a non-empty name of allowed characters is kept as it is, as "test.jpg" is |
| Validators.SanitizeKeepsLastComponent | app/utils/validators.py:52 | a clean last component after any directory part is exactly what is kept |
| Validators.SanitizeDropsUnsafeCharacters | app/utils/validators.py:55 | runs of allowed characters, separated by runs without allowed characters or separators, come out joined (as "test image!@#.jpg" gives "testimage.jpg") |
| Validators.NothingAllowedFallsBack | app/utils/validators.py:57 | a name with no allowed character becomes "image.jpg" |
| Validators.FilenamesAccepted | tests/test_image_processor.py:17-18 | "test.jpg", "test.png" and "PHOTO.JPEG" are accepted |
| Validators.FilenamesRejected | tests/test_image_processor.py:19-20 | "../etc/passwd", "test.exe" and "" are rejected |

## Left out

- Locks. Every public method is taken as one atomic step, and concurrency is not modelled.
- Wall-clock time is an integer `now` passed to each operation. Float seconds and sub-second rounding are not modelled.
- The random UUID of `create_session` is an argument (`freshId`). The model does not assume it is unused, and filing overwrites as a dictionary assignment would.
- Caching.HitRate: a real-valued percentage without `round(…, 2)`. The float division and the rounding are not modelled.
- Caching.CacheManager.GetPerceptual: the `threshold` parameter has no effect in the source (no similarity search is implemented), so it is not a parameter here.
- The `Stats` datatype replaces the dictionary `get_stats` returns; its keys are fields.
- Dictionary keys that are present with the value `None` are not distinguished from absent keys. `dict.get(key, default)` returns `None` for such a key, while the model returns the default.
- Diagnosis records are values. The sharing of one dictionary object between the cache, the session history and the response is not modelled: in-place changes made later through one alias are not seen through the others. The renumbering loop's write into the follow-up's step records is modelled by returning the updated follow-up.
- HTTP and FastAPI are not modelled: form parsing, reading the upload, the timing block of the response, the `model` form field, and the `/health` and cache-clearing endpoints that only call `get_stats`, `get_session_count` and `clear_all`.
- Image processing (`ImageProcessor.process_upload`), the vision service and `MaterialNormalizer` are not part of this model. Their outcomes are inputs: `ImageOutcome`, the model's `Result`, and a normalising function.
- Response validation by the pydantic model is reduced to the confidence range (`WellFormed`). Type coercion of other fields is not modelled, because records are typed here.
- Validators.Lower: only ASCII letters are lower-cased. Python's Unicode case mapping is not modelled. No other character lower-cases to a letter of the four extensions or to a hexadecimal digit, so both checks decide the same.
- Negative settings are excluded by the types: `max_session_history`, `session_ttl_minutes` and `max_cache_entries` are natural numbers (`LruCache.maxSize` is a `nat`). With a negative `max_size`, the source's eviction loop in `set` would pop every entry and then raise `KeyError` from `popitem` on an empty dictionary (app/services/cache_manager.py:85-86); that error path is not modelled.
- Sessions.SessionManager.CreateSession: does not state that the count grows by one, to keep the method's proof small. The lemma `Sessions.AddOne` states it for a new id.
- Sessions.Session.AddDiagnosis, Sessions.SessionManager.UpdateSession: use the corrected history bound `Truncate`. Under it, a bound of 0 keeps no history. See Findings for the bound as written.
- Endpoints.DiagnoseMiss, Endpoints.DiagnoseAfterExactMiss, Endpoints.DiagnoseByLookup, Endpoints.DiagnoseAccepted, Endpoints.Diagnose: model the vision call as evidently intended, without the `model` keyword the called function does not accept. See Findings for the call as written, which fails on every full miss.
- Endpoints.Diagnose: uses the corrected outer handler, so an `HTTPException` raised inside keeps its status. See Findings for the handler as written.

## Findings

| source | as written | input that shows it | evidently intended | confidence | as-written member | corrected member |
|---|---|---|---|---|---|---|
| app/services/session_manager.py:27-28 | `history[-max_session_history:]` with a bound of 0 is `history[0:]`, which keeps the whole history | `max_session_history = 0`, then one `add_diagnosis`: the history has length 1, above the bound of 0 | the history never exceeds the bound: a bound of 0 keeps nothing | not executed; medium (a bound of 0 is an unusual setting) | Sessions.TruncateAsWrittenIgnoresZero | Sessions.TruncateKeepsNewest |
| app/api/endpoints.py:120-121 | the outer `except Exception` also catches the `HTTPException`s raised inside, and re-raises them as 500 "Internal error: …" | a follow-up with an unknown or expired session id: `_handle_followup` raises 404, and the client receives 500 "Internal error: 404: Session not found…" | the 404 (and the 500 "Vision service error") pass through unchanged | not executed; high | Endpoints.SessionGoneBecomes500 | Endpoints.OuterHandlersAgreeOnOtherExceptions |
| app/api/endpoints.py:99 | `vision_service.diagnose_image(processed_bytes, model=model)` passes a `model` keyword that `VisionService.diagnose_image(self, image_bytes, context="")` (app/services/vision_service.py:25) does not accept, so the call raises `TypeError`; the inner handler only catches `VisionServiceError`, so the outer handler turns it into 500, after `record_miss` and before anything is cached or any session is created or updated | any request that misses both stores, for example the first upload of any image without a follow-up question: the client gets 500 "Internal error: VisionService.diagnose_image() got an unexpected keyword argument 'model'", and since nothing is ever cached or recorded, every later request misses again and no session id is handed out for a follow-up | call the model without the keyword (or give `diagnose_image` a `model` parameter), then normalise, cache, record in the session and answer | not executed; high | Endpoints.FullMissFailsAsWritten | Endpoints.MissRecordsDiagnosis |
