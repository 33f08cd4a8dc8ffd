# loove-api in Dafny

loove-api is the back end of a music-streaming web application. It serves audio files kept in an
S3-compatible object store, and it gates folders marked "premium" or "gold" behind the user's plan.
It also keeps per-user favorites, play history and playlists as JSON documents in the same bucket,
queues and sends push notifications, and takes plan changes from payment webhooks. A small React
client picks the next track and formats playing times.

This project models the business rules of that system and proves what they promise:

- **Storage.** The bucket is a class `Store.Bucket` holding a map from key to a typed document.
  A fault model states which keys cannot be read or written. A sequence of awaited puts
  (`Store.Apply`) stops at the first put that throws.
- **Documents** (`Db`). This covers the key layout, the case-insensitive e-mail index,
  read-with-default readers, whole-document writers and the ordered puts of account creation.
- **Catalog** (`Catalog`). This covers:
  - the folder-tier expressions, proved to be suffix tests;
  - the track record of a key;
  - the TTL-cached, paginated search index (a class with its page loop);
  - search capped at 500 results;
  - folder browsing;
  - the stream-URL access decision.
- **Per-user collections** (`Collections`, `UserRoutes`). Favorites form an insertion-ordered set.
  History is kept newest first and capped at 1000 entries. Playlists can be created, renamed,
  deleted, and have tracks added or removed. Every handler reads, changes and writes back one
  whole document.
- **Profile counters and plans** (`ProfileTags`, `Payments`, `Webhooks`).
- **Notifications** (`Push`, `Scheduler`, `Admin`). This covers one tick of the scheduler, with its
  nested delivery loops proved against a specification of the deliveries, plus the admin routes
  that queue or send notifications.
- **Accounts and guards** (`Accounts`, `Guards`). This covers the in-memory user map (a class),
  register, guest, login, `/me` and logout, the session guard and the admin guard.
- **Client rules** (`Client`). This covers next and previous track, what a play does with the
  stream-URL answer, and the `m:ss` format.

Clocks, generated ids, password hashing, JWT signing and the push service are parameters of the
operations that use them. The helper modules are `Wrappers` (Option and Result), `Text` (`toLowerCase`
for the Latin, Greek and Cyrillic capitals, the ASCII case folding of a case-insensitive regular
expression, trim, split and join, decimal numbers), `Uri` (`encodeURIComponent`) and `Documents` (the
stored entities).

## Model

| member | source | states |
|---|---|---|
| Catalog.TierIsSuffixTest | routes/content.js:27-32 | For a name without line breaks, the tier expression `(^\|/)\s*.*WORD/?$` (ignoring case) holds exactly when the name ends in the word, or in the word and one `/`. |
| Catalog.NeverBothTiers | routes/content.js:27-32 | No folder name is both gold and premium. |
| Catalog.EndsInWordLast | routes/content.js:27-32 | A name ending in the word ends, ignoring case, in the word's last letter, or in that letter and `/`. |
| Catalog.PremiumAfterGenre | routes/content.js:27-29 | "Pop Premium/" is a premium folder. |
| Catalog.PremiumParentOnly | routes/content.js:27-29 | "premium/sub" is not a premium folder: only the end of the name counts. |
| Catalog.GoldPrefixOnly | routes/content.js:30-32 | "GOLD HITS" is not a gold folder. |
| Catalog.FolderOfPrefix | routes/content.js:35-36 | A `/folders` entry keeps the prefix and loses one trailing `/` in its label. Its premium and gold flags are the two tier tests. |
| Catalog.FolderFlags | routes/content.js:33-38 | For a prefix without line breaks, its `/folders` entry is premium exactly when the prefix ends, ignoring case, in "premium" or "premium/", and gold likewise for "gold". It is never both, and the label plus the dropped `/` gives the prefix back. |
| Catalog.NameOf | routes/content.js:58 | A track's name is the last `/`-segment of its key and contains no `/`. |
| Catalog.FolderNameRoundTrip | routes/content.js:57-63 | For a key containing `/`, folder + "/" + name is the key. Otherwise the folder is "" and the name is the key. |
| Catalog.MapObj | routes/content.js:57-63 | The track record keeps the key, and its folder and name put back together give the key. |
| Catalog.AudioItems | routes/content.js:19-21 | The index keeps only audio objects, and no more entries than the page has. |
| Catalog.AudioItemsComplete | routes/content.js:19-21 | Every audio object of a page is kept, with its key, its size (a missing size read as 0) and its modification time. |
| Catalog.AudioItemsConcat | routes/content.js:19-21 | The entries of two runs of objects are those of the first followed by those of the second, so page order is kept. |
| Catalog.Walk | routes/content.js:16-23 | A complete walk over the listing pages yields only audio entries. |
| Catalog.WalkCollectsPages | routes/content.js:16-23 | When pages 0 to n-1 are truncated with a token and page n is not, the walk gives the audio entries of pages 0 to n, page after page. |
| Catalog.WalkFailsBeforeEnd | routes/content.js:16-23 | A listing call that throws, or no further answer, before the page that ends the walk fails the whole walk. |
| Catalog.WalkIgnoresLaterAnswers | routes/content.js:22-23 | The walk stops at the first page that is not truncated or has no continuation token. Later answers are never read. |
| Catalog.ListAll | routes/content.js:16-23 | The do/while page loop computes exactly the walk over the listing answers. |
| Catalog.KeepAudio | routes/content.js:19-21 | The inner loop appends exactly the audio entries of one page to the index. |
| Catalog.CatalogIndex.constructor | routes/content.js:9 | The cache starts empty, stamped 0. |
| Catalog.CatalogIndex.RefreshIfNeeded | routes/content.js:11-26 | A cache younger than 10 minutes and not empty is returned unchanged. Otherwise the walk's result replaces the cache, stamped with the time read on entry. A failed walk leaves the cache as it was. |
| Catalog.Matching | routes/content.js:46-47 | An index entry is kept exactly when its lower-cased key contains the term. No entry is added. |
| Catalog.MatchingConcat | routes/content.js:46-47 | Filtering keeps index order: the matches of a concatenation are the matches of each part, in order. |
| Catalog.Query | routes/content.js:43 | The search term has no upper-case letter and no white space at either end. |
| Catalog.Search | routes/content.js:43-48 | A search returns the first min(500, matches) matching entries, in index order, as track records. |
| Catalog.SearchSound | routes/content.js:43-48 | Every result contains the term. With fewer than 500 matches, every matching entry is returned. |
| Catalog.AccentedTermMatches | routes/content.js:43-47 | The term "FORRÓ" matches the key "Forró/x.mp3": accented capitals are lower-cased. |
| Catalog.BrowseAsWritten | routes/content.js:50-55 | As written, browsing fails exactly when the page holds an audio object. Otherwise it answers no items and the page's continuation token. |
| Catalog.BrowseAsWrittenFails | routes/content.js:50-52 | As written, a page holding "A.MP3" makes the browse path throw. |
| Catalog.AudioTracks | routes/content.js:51-52 | The corrected browse path keeps only audio objects, each mapped to its track record. |
| Catalog.Browse | routes/content.js:50-55 | Corrected browsing answers the page's audio objects as tracks. It carries the continuation token only when the page is truncated. |
| Catalog.BrowseListsEveryAudioObject | routes/content.js:50-55 | Every audio object of a page is listed by the corrected browse path, while the path as written fails on that page. |
| Catalog.AccessMatrix | routes/content.js:70-73 | A folder is open to a plan exactly when (not gold or plan gold) and (not premium or plan premium or gold). Gold opens everything. Any other plan string opens only unflagged folders. A premium refusal is never for a gold folder. |
| Catalog.StreamUrl | routes/content.js:64-79 | With no key the answer is 400 and nothing is written. A refusal (402 `gold_required` or `premium_required`) writes nothing. Otherwise the answer is a signed URL for the key. A play tag for the trimmed first folder segment is saved only when that segment is not empty and the user record can be read. |
| Catalog.SubfolderOfPremiumIsOpen | routes/content.js:67-73 | Tiers are judged on the immediate folder only, so a track under "premium/sub/" is open to every plan. |
| Catalog.GetTracks | routes/content.js:41-56 | A non-empty trimmed, lower-cased search term gives a search of the (refreshed) index with a null token. An empty term gives the folder page of the corrected browse (see Findings), or a failed request when the folder's listing call throws. |
| S3.IsAudioIgnoresCase | lib/s3.js:32-34 | The audio test ignores letter case. |
| S3.AudioHasExtension | lib/s3.js:32-34 | Every audio key has a dot just before a three- or four-character extension at its very end. |
| S3.EmptyKeyIsNotAudio | lib/s3.js:32 | The default key "" is not audio. |
| S3.UpperCaseExtensionIsAudio | lib/s3.js:33 | "A.MP3" is audio. |
| S3.PartialDownloadIsNotAudio | lib/s3.js:33 | "a.mp3.part" is not audio: the extension must come last. |
| S3.LastCharDecides | lib/s3.js:33 | A key whose last character, lower-cased, ends no audio extension is not audio. |
| S3.SignTtl | lib/s3.js:14-15 | An unset or empty lifetime setting gives 3600 seconds. |
| S3.SignTtlOfDecimal | lib/s3.js:14-15 | A decimal setting is read back as its value. |
| Db.SafeEmail | lib/db.js:14 | The encoded address never contains `/`, so the index key stays directly under `db/emails/`. |
| Db.EmailKeyIgnoresCase | lib/db.js:14 | Addresses that differ only in letter case share one index key. |
| Db.KeysDistinct | lib/db.js:4-13 | For any uid and address, the user record, e-mail index, favorites, history and entitlement keys are pairwise different. |
| Db.FavoritesReadBack | lib/db.js:55-58 | After a put of a favorites list, the next read of that user gives the list, whatever was stored before, while the key is readable. Every other user's favorites read as before. |
| Db.GetEntitlements | lib/db.js:67-69 | A stored entitlement that reads is returned as stored; one that cannot be read is `{plan: 'free', purchases: []}`. |
| Db.GetUser | lib/db.js:23-26 | A user is returned exactly when its record reads, and it is that record. |
| Db.FindUserByEmail | lib/db.js:15-22 | A user is found exactly when the index reads with a uid and the record it names reads with a uid. Any other case gives null. |
| Db.FoundThroughIndex | lib/db.js:15-22 | An index entry naming a non-empty uid whose record reads, and carries a uid, finds that record. |
| Db.FindUserIgnoresCase | lib/db.js:14-22 | A lookup by address ignores letter case. |
| Db.SaveUser | lib/db.js:27-31 | The record is written first, then the e-mail index. A failed put ends the sequence. |
| Db.UpsertFavorites | lib/db.js:55-56 | The favorites document is overwritten whole, or unchanged if the put fails. |
| Db.WriteHistory | lib/db.js:61-62 | The history document is overwritten whole. |
| Db.WritePlaylists | lib/db.js:65-66 | The playlists document is overwritten whole. |
| Db.SetEntitlements | lib/db.js:70-72 | The given entitlement is stored with `updatedAt` replaced by now. |
| Db.CreateUser | lib/db.js:32-48 | An address that already resolves to a user gives `email_in_use` and no write. Otherwise the record, index, empty favorites, empty history and free entitlement are written in that order, stopping at the first failed put. |
| Db.CreatedUserIsFound | lib/db.js:32-48 | After a complete creation the address resolves to the new user, favorites read as empty and the plan is "free". |
| Db.FiveWritesStored | lib/db.js:42-46 | Five puts to pairwise different keys each leave their own document, so no creation put overwrites another. |
| Collections.Dedup | routes/user.js:19 | The set built from a list has each element once, and holds exactly the list's elements. |
| Collections.DedupSnoc | routes/user.js:19-21 | Adding to a set built from a list is building it from the list with the element appended, so insertion order is kept. |
| Collections.FavoriteAdd | routes/user.js:16-22 | After `add` the key is present once, every earlier favorite stays, the earlier set is a prefix, and a new key goes last. |
| Collections.FavoriteAddIdempotent | routes/user.js:20 | Adding the same favorite twice is adding it once. |
| Collections.FavoriteRemove | routes/user.js:20 | After `remove` the key is gone and every other favorite stays, once. |
| Collections.FavoriteOtherOp | routes/user.js:19-21 | Any other op writes a duplicate-free list back unchanged. |
| Collections.AddPlay | routes/user.js:30-31 | The play goes first, earlier plays move down one place, and at most 1000 entries are kept. |
| Collections.AddPlaysNewestFirst | routes/user.js:30-31 | After several plays the history is those plays newest first, then the older history, cut to 1000. |
| Collections.FindPlaylist | routes/user.js:50 | The lookup finds the first playlist with the id, or none exactly when no playlist has it. |
| Collections.CreateThenFind | routes/user.js:38-46 | A created playlist goes last, empty, with the other playlists kept. It is the one found under its id unless an earlier one has that id. |
| Collections.UpdatePlaylist | routes/user.js:50-52 | An unknown id gives 404. Otherwise exactly the first matching playlist changes and the length is kept. |
| Collections.RenameOnlyFirst | routes/user.js:47-55 | Rename changes only the name and `updatedAt` of the first match. |
| Collections.DeletePlaylist | routes/user.js:56-62 | Delete keeps exactly the playlists with another id, and none with the id is left. |
| Collections.DeleteAbsent | routes/user.js:59 | Deleting an id no playlist has changes nothing. |
| Collections.DeletePlaylistConcat | routes/user.js:59 | Delete works piecewise over a concatenation, so the kept playlists stay in order, each as many times as before. |
| Collections.AddTrackOnce | routes/user.js:63-72 | After add-track the key is in the playlist once, the other tracks remain, a new key goes last, and `updatedAt` is set. |
| Collections.RemoveAll | routes/user.js:78 | Filtering removes exactly the key's occurrences. |
| Collections.RemoveAllConcat | routes/user.js:78 | Filtering keeps the other tracks in their order. |
| Collections.RemoveTrackAll | routes/user.js:73-82 | After remove-track the key is gone, the other tracks keep their order, and `updatedAt` is set. |
| UserRoutes.Me | routes/user.js:8-11 | `/me` answers the session's uid and e-mail with the stored plan, or "free" when it cannot be read. |
| UserRoutes.PostFavorite | routes/user.js:16-23 | The favorites read with a default are changed by the op and written back in one put. |
| UserRoutes.PostHistory | routes/user.js:27-34 | The history with the new play first, cut to 1000, is written back with its other fields. |
| UserRoutes.PostPlaylist | routes/user.js:38-46 | A new empty playlist is appended and the document written back. The answer carries its id. |
| UserRoutes.WriteChanged | routes/user.js:50-54 | An unknown playlist gives 404 and no write. Otherwise the changed list is written once. |
| UserRoutes.PutPlaylist | routes/user.js:47-55 | A rename writes the renamed list, or answers 404 with no write. |
| UserRoutes.DeletePlaylistRoute | routes/user.js:56-62 | The filtered list is written even when nothing matched. |
| UserRoutes.PostTrack | routes/user.js:63-72 | Add-track writes the changed list, or answers 404 with no write. |
| UserRoutes.DeleteTrack | routes/user.js:73-82 | Remove-track writes the changed list, or answers 404 with no write. |
| UserRoutes.SessionPing | routes/user.js:84-87 | The ping adds one minute of use to the user record. A missing user is not written. |
| UserRoutes.AddedFavoriteIsRead | routes/user.js:16-23 | A favorite added through the route is read back, once. |
| UserRoutes.SessionsShareFavoritesAsWritten | routes/user.js:18-21 | As written, `req.user.uid` is undefined for every session, so sessions of different users read and write the one document "db/users/undefined/favorites.json". |
| UserRoutes.SessionsKeepOwnFavorites | routes/user.js:18-21 | Read through the session's `id`, sessions of different users reach different favorites documents. |
| ProfileTags.PlayCountsOnce | lib/tags.js:4-5 | A play raises that genre's counter by one, from 0 if absent. Other counters and tags are unchanged. |
| ProfileTags.EmptyGenreCountsNothing | lib/tags.js:5 | An empty genre changes no counter. |
| ProfileTags.PlaysAccumulate | lib/tags.js:4-5 | n plays of one genre raise its counter by n. |
| ProfileTags.SessionAdds | lib/tags.js:11-12 | The minutes of use grow by the amount, or by one when the amount is missing or zero (`minutes \|\| 1`). Every other tag is unchanged. |
| ProfileTags.AddPlayTag | lib/tags.js:2-8 | An unreadable user writes nothing. Otherwise the user with only its tags changed is saved through `saveUser`. |
| ProfileTags.AddSessionTime | lib/tags.js:9-14 | The same as AddPlayTag, for the minutes of use. |
| Payments.WithPlan | lib/payments.js:8 | Only the plan changes: purchases and the other fields are kept, and the plan is not validated. |
| Payments.ApplyPlanByEmail | lib/payments.js:2-11 | An unknown or missing address gives false and no write. A known one gets exactly one entitlement write and true, or the put's exception. |
| Payments.AppliedPlanIsRead | lib/payments.js:7-9 | After a plan is applied, the entitlement reads back with the new plan and the old purchases. |
| Webhooks.PlanOf | routes/webhooks.js:10-11 | The plan is the metadata plan lower-cased, or "premium" when missing or empty. |
| Webhooks.PlanOfIgnoresCase | routes/webhooks.js:10-11 | Plans that differ only in case grant the same plan. |
| Webhooks.Stripe | routes/webhooks.js:5-15 | Only `checkout.session.completed` changes a plan. The reply is `{received: true}` unless the plan write throws. |
| Webhooks.Placeholder | routes/webhooks.js:17-20 | The other providers' endpoints always acknowledge. |
| Push.PushService.Send | lib/scheduler.js:15-16 | A send to a reachable user records the delivery. A send to a failing user throws and records nothing. |
| Push.CutAtFailure | lib/scheduler.js:13-17 | The deliveries made are the prefix before the first send that throws. |
| Push.CutAtFailureAll | lib/scheduler.js:13-17 | All deliveries are made exactly when no send throws. |
| Push.CutAtFailureAfter | lib/scheduler.js:13-17 | Successful deliveries are followed by those made of the rest. |
| Push.SendEach | routes/admin.js:9-10 | The sequential send loop records exactly the deliveries before the first throw, and reports whether all were made. |
| Push.FanoutSplit | routes/admin.js:9-10 | The deliveries for two target lists one after the other are those of each list, in order. |
| Push.SendStep | routes/admin.js:9-10 | After the targets before it were all delivered, a send either extends the log by its delivery, or throws and leaves the log at the deliveries before the first throw, whatever targets follow. |
| Scheduler.JobPayload | lib/scheduler.js:15-16 | The payload carries title and body, no empty icon, and the url or "/". |
| Scheduler.AfterTick | lib/scheduler.js:11-18 | The written queue keeps length and order. Due jobs are marked sent at one instant and the others are unchanged. |
| Scheduler.TickDeliveriesSplit | lib/scheduler.js:13-17 | Deliveries follow queue order: a split queue delivers its halves in order. |
| Scheduler.TickDeliveriesLast | lib/scheduler.js:13-17 | A job queued last adds its deliveries after those of the jobs before it. |
| Scheduler.NothingDue | lib/scheduler.js:11-12 | A queue with no due job delivers nothing. |
| Scheduler.DueUntilSent | lib/scheduler.js:11-12 | A job without a time is never due. A due job stays due at every later tick until it is marked sent, and after that it is never due. |
| Scheduler.RerunDeliversNothing | lib/scheduler.js:11-18 | After a complete tick, a tick at the same time delivers nothing. |
| Scheduler.TickDeliversToDueTargets | lib/scheduler.js:11-17 | Every delivery goes to a target of a due job with its payload, and every target of every due job gets one. |
| Scheduler.TickStopsAtFailure | lib/scheduler.js:13-17 | A throw in the i-th job's sends ends the deliveries there and makes the tick incomplete. |
| Scheduler.DeliverJob | lib/scheduler.js:14-17 | One job's target loop adds that job's deliveries to the log, up to the first send that throws. It reports whether all were made. A job that is not due sends nothing. |
| Scheduler.JobStep | lib/scheduler.js:13-18 | After the i-th job, the log holds the deliveries of the jobs up to and including it. If one of its sends throws, the log holds the tick's deliveries up to that send and the tick is incomplete. |
| Scheduler.DeliverDue | lib/scheduler.js:13-19 | The nested loops deliver exactly the tick's deliveries up to the first throw. On success they give the marked queue. |
| Scheduler.Tick | lib/scheduler.js:8-22 | An unreadable queue, or any delivery that throws, ends the tick with no write. Otherwise exactly `{queue}` with the due jobs marked is written, so other fields are dropped. |
| Admin.ReadQueue | routes/admin.js:15-16 | An unreadable notifications document counts as `{}`: an empty queue and no other fields. |
| Admin.Schedule | routes/admin.js:13-21 | The document with the job appended is written in one put. |
| Admin.ScheduleAppends | routes/admin.js:15-19 | Scheduling appends exactly one job at the end. Earlier jobs and other fields are kept. |
| Admin.ScheduledJobFires | routes/admin.js:14-19 | A scheduled job is due exactly from its `when` on, and never without one. When due, it sends its title and body once to each given target, in order, and to nobody when no targets were given. |
| Admin.UnreadableGivesOneJob | routes/admin.js:15-16 | A missing or unreadable document gives a queue of the new job alone. |
| Admin.ScheduledJobIsDelivered | lib/scheduler.js:11-17 | A scheduled job, once due, is delivered to each target after the jobs queued before it. |
| Admin.SendNow | routes/admin.js:7-12 | `/push/send` sends to each target in order. It answers ok only when no send throws. |
| Admin.SendNowReachesAll | routes/admin.js:9-10 | With no failing target, the k-th delivery goes to the k-th target. |
| Admin.Stats | routes/admin.js:22-30 | `/stats` always reports 0 users and 0 playlists. |
| Guards.Verify | lib/auth.js:10 | Verification succeeds exactly under the signing secret and before expiry, and gives the signed claims. |
| Guards.AuthGuard | lib/auth.js:6-16 | No cookie gives 401 `unauthorized`. A failed verification gives 401 `invalid`. Otherwise the claims become the user. |
| Guards.SessionLasts | lib/auth.js:2-16 | A session from `signSession` passes the guard for 30 days and is refused from then on. |
| Guards.AdminGuard | lib/auth.js:17-23 | No user gives 401. Otherwise the user is admitted exactly when they are an admin, and refused with 403 otherwise. |
| Guards.AdminMembership | lib/auth.js:19-21 | A user is an admin exactly when some trimmed, lower-cased entry equals their lower-cased e-mail. |
| Guards.AdminsUnset | lib/auth.js:19-21 | With `ADMIN_EMAILS` unset the list is [""], so only an empty or missing e-mail passes. |
| Guards.AdminListed | lib/auth.js:19-21 | For comma-free entries joined by commas, membership is a match with some entry. |
| Guards.AdminIgnoresCase | lib/auth.js:21 | The admin test ignores the case of the user's e-mail. |
| Accounts.GuestAccount | routes/auth.js:53-55 | A guest has role "guest", name "Convidado", e-mail `<id>@guest.local` and no password hash. |
| Accounts.InOrder | routes/auth.js:116 | The map's values are listed in insertion order. |
| Accounts.Directory.constructor | routes/auth.js:27 | The user map starts empty. |
| Accounts.Directory.Set | routes/auth.js:58 | `users.set` replaces a known key in place, or adds a new key last. |
| Accounts.Directory.Guest | routes/auth.js:51-63 | The guest is stored under its e-mail and a session is signed for it, with the corrected secret (see Findings). |
| Accounts.Directory.Register | routes/auth.js:68-87 | A missing field gives 400 and a present e-mail gives 409, both without change. Otherwise exactly one user with role "user" is added and signed in, with the corrected secret (see Findings), and the answer omits the hash. |
| Accounts.Login | routes/auth.js:90-108 | Missing fields give 400. Sign-in happens exactly when the e-mail is stored with a hash that the password matches, with the corrected secret (see Findings). Every other case gives 401. |
| Accounts.LoginSessionPassesGuard | routes/auth.js:90-108 | With the corrected secret, a session handed out by login passes every guarded route for 30 days, with the stored user's claims. |
| Accounts.GuestCannotLogIn | routes/auth.js:95-98 | A guest, having no password hash, can never log in. |
| Accounts.RegisteredCanLogIn | routes/auth.js:77-103 | After register, the password whose hash was stored logs in as that user. |
| Accounts.FindById | routes/auth.js:116 | The lookup finds the first account with the id, or none when no account has it. |
| Accounts.ReadSession | routes/auth.js:38-46 | With the corrected secret, `/me` reads a session exactly when the guard admits it, and reads the claims the guard hands on. |
| Accounts.Me | routes/auth.js:111-118 | No valid session gives 401, with the corrected secret (see Findings). Otherwise the answer is the first stored account with the session's id, or a fallback from the session named "Usuário". |
| Accounts.RegisteredIsMe | routes/auth.js:77-118 | A user who just registered is found by `/me` while the session lasts. |
| Accounts.Logout | routes/auth.js:121-124 | Logout always answers ok and clears the session cookie. |
| Accounts.LoggedOutHasNoSession | routes/auth.js:121-124 | After logout the browser carries no session, so the guard and `/me` refuse it. |
| Accounts.SessionAsWrittenRefused | routes/auth.js:9 | As written, with `JWT_SECRET` unset, a fresh session from login, register or guest is refused by every guarded route. |
| Accounts.SessionAsWrittenWithSecret | routes/auth.js:9 | As written, sessions pass the guard once `JWT_SECRET` is set. |
| Client.IndexOf | client/src/App.jsx:78 | `findIndex` gives the first position of the key, or -1 exactly when it is absent. |
| Client.Next | client/src/App.jsx:76-86 | Next does nothing exactly when there are no tracks or no current track. With repeat it replays the current track; otherwise it plays a track of the list. |
| Client.Prev | client/src/App.jsx:88-97 | Prev does nothing exactly when there are no tracks or no current track. Otherwise it plays a track of the list. |
| Client.NothingToMove | client/src/App.jsx:77 | With no tracks or no current track, next and prev do nothing. |
| Client.Stepping | client/src/App.jsx:76-97 | Plain next plays index min(len-1, idx+1) and plain prev plays max(0, idx-1). An absent current track counts as -1, so both play the first track. Repeat makes next replay the current track, prev ignores repeat, and shuffle plays the drawn index. |
| Client.PrevUndoesNext | client/src/App.jsx:84-96 | In a list without repeated keys, prev undoes a plain next from any track but the last. |
| Client.PremiumModalNeverShownAsWritten | client/src/App.jsx:71-72 | As written, a 402 `premium_required` or `gold_required` answer never opens the premium modal. |
| Client.PlayAsWritten | client/src/App.jsx:65-74 | As written, history is added exactly when a URL was obtained, after the current track is set. The premium modal can open only on a 402 answer. |
| Client.Play | client/src/App.jsx:65-74 | History is added exactly when a URL was obtained, after the current track is set. The premium modal opens exactly on a 402 answer. |
| Client.FmtZero | client/src/components/Player.jsx:3-7 | `fmt()` and `fmt(0)` give "0:00". |
| Client.TwoDigits | client/src/components/Player.jsx:6-7 | Seconds below 60 are shown as two digits that read back as their value. |
| Client.FmtRoundTrip | client/src/components/Player.jsx:3-8 | For whole n >= 0 the text is minutes, a colon and two-digit seconds below 60, with minutes = n div 60 and minutes * 60 + seconds = n. |
| Client.FmtHour | client/src/components/Player.jsx:5-7 | 3600 seconds show as "60:00": minutes neither wrap nor pad. |
| Store.Fetch | lib/s3.js:44-50 | A get succeeds exactly on a stored, readable key. |
| Store.Succeeded | lib/db.js:42-46 | Awaited puts succeed up to the first refused one. |
| Store.ApplyIsPrefix | lib/db.js:42-46 | A failing put leaves exactly the puts before it done. |
| Store.ApplyConcat | lib/db.js:42-46 | Two put sequences in a row: the second runs only if the first completed. |
| Store.OverwriteLast | lib/db.js:42-46 | The last put to a key decides its document. |
| Store.Bucket.Put | lib/s3.js:39-43 | A put replaces the whole document at the key, or throws and changes nothing. |
| Store.Bucket.PutEach | lib/db.js:42-46 | Awaited puts run one after another until the first refused one. |

## Left out

- Push delivery is a service that records deliveries and throws for a set of users. `sendPushTo`, which the scheduler and the admin routes import, is not defined in lib/push.js, and web-push itself is not part of this model.
- Stored documents are typed, one kind per collection. A document of the wrong shape at a collection key is read as that collection's default, not as an arbitrary JSON object, except an entitlement, which is read as a record with no plan (the plan ""). Fields of a JSON document that the code does not touch are carried as a string map.
- A missing request field is modelled as "", since both are falsy in JavaScript. A query parameter given twice (an array) is not modelled.
- The network, bucket access, the clock, random and time-based ids, bcrypt hashing and comparison, and JWT signing are parameters. A token is modelled by its claims, secret and expiry. Forgery and cookie signing are not modelled.
- Listing pages are given as a sequence of answers to successive listing calls. `listPrefixes` is given as the list of prefixes.
- A job's `when` is an optional integer instant; a time that does not parse is None. The `sentAt` of every job in one tick is one instant, where the code reads the clock once per job.
- Scheduler.Tick: the code aborts the whole tick on the first send that throws, without writing, and the model follows the code.
- The session payload signed by routes/auth.js has `id`, while routes/user.js and routes/content.js read `req.user.uid` (see Findings). The user and content routes take the uid as a parameter, meant as the session's `id` (UserRoutes.SessionUid).
- Catalog.StreamUrl: a failure of `signedGetUrl` (an unanswered request) is not modelled. The play tag runs detached, and only its writes are modelled.
- Client.Fmt: fractional and non-numeric seconds are not modelled. Its properties are stated for whole seconds; a negative time follows JavaScript's floor and remainder.
- Accounts.Directory.Register and Accounts.Login: the 500 answer for a hashing error is not modelled, since hashing is a parameter.
- Accounts.Logout: only the browser's cookie is cleared. A copied token stays valid until it expires, and the model does not track copies.
- Text.Lower: `toLowerCase` is modelled for the capitals of Basic Latin, Latin-1, Latin Extended-A, basic Greek and basic Cyrillic. Other capitals are left as they are: U+0130 (which lowers to two characters), the Kelvin, Ohm and Ångström signs, and the letters of other blocks. A final capital sigma lowers to σ, where JavaScript gives ς at the end of a word. The members listed next carry this gap.
- Catalog.Matching: the search term and the keys are lower-cased only as far as Text.Lower goes.
- Catalog.Search: the search term and the keys are lower-cased only as far as Text.Lower goes.
- Catalog.SearchSound: the search term and the keys are lower-cased only as far as Text.Lower goes.
- Catalog.Query: the search term is lower-cased only as far as Text.Lower goes.
- Catalog.GetTracks: the search term and the keys are lower-cased only as far as Text.Lower goes.
- Db.SafeEmail: the address is lower-cased only as far as Text.Lower goes.
- Db.EmailKeyIgnoresCase: the address is lower-cased only as far as Text.Lower goes.
- Db.FindUserByEmail: the address is lower-cased only as far as Text.Lower goes.
- Db.FindUserIgnoresCase: the address is lower-cased only as far as Text.Lower goes.
- Webhooks.PlanOf: the plan is lower-cased only as far as Text.Lower goes.
- Webhooks.PlanOfIgnoresCase: the plan is lower-cased only as far as Text.Lower goes.
- Guards.AdminGuard: the listed entries and the e-mail are lower-cased only as far as Text.Lower goes.
- Guards.AdminMembership: the listed entries and the e-mail are lower-cased only as far as Text.Lower goes.
- Guards.AdminListed: the listed entries and the e-mail are lower-cased only as far as Text.Lower goes.
- Guards.AdminIgnoresCase: the listed entries and the e-mail are lower-cased only as far as Text.Lower goes.
- Accounts.Directory.Guest: uses the corrected shared secret. As written, routes/auth.js falls back to its own secret (see Findings).
- Accounts.Directory.Register: uses the corrected shared secret. As written, routes/auth.js falls back to its own secret (see Findings).
- Accounts.Login: uses the corrected shared secret. As written, routes/auth.js falls back to its own secret (see Findings).
- Accounts.ReadSession: uses the corrected shared secret. As written, routes/auth.js falls back to its own secret (see Findings).
- Accounts.Me: uses the corrected shared secret. As written, routes/auth.js falls back to its own secret (see Findings).
- Client.Next and Client.Prev: shuffle's `Math.random` is a drawn index parameter in range.
- The user interface, service workers, server wiring, mail and the push subscription routes are not modelled.
- Copy damage in the source text (stray numerals, wrapped comments and template literals) is read as its evident intent: the key layout at lib/db.js:4-13.
- Concurrency: the unsynchronised read-modify-write of documents and the cron trigger. One request or one tick is modelled at a time.

## Findings

| source | as written | input that shows it | evidently intended | confidence | as-written member | corrected member |
|---|---|---|---|---|---|---|
| routes/content.js:50-52 | The browse path passes the storage service's raw objects (fields `Key`, `Size`, `LastModified`) to `mapObj`, which reads `o.key`, so `undefined.split` throws. | a folder page holding one object `A.MP3` | map `{key: o.Key, size: o.Size, lastModified: o.LastModified}` and list the page's audio tracks | not executed | Catalog.BrowseAsWritten, Catalog.BrowseAsWrittenFails | Catalog.Browse, Catalog.BrowseListsEveryAudioObject, Catalog.GetTracks |
| client/src/App.jsx:71-72 | The client's `api()` throws `new Error(await res.text())`, whose text is the JSON body (`{"error":"premium_required"}`); that never contains "402", so the premium modal never opens. | a 402 `premium_required` answer to a play | test the response status (402) instead of the message text | not executed | Client.PlayAsWritten, Client.PremiumModalNeverShownAsWritten | Client.Play |
| routes/auth.js:9 | routes/auth.js signs sessions with `JWT_SECRET \|\| 'dev_jwt_secret'`, while the guard in lib/auth.js verifies with `JWT_SECRET \|\| 'jwt_secret'`. | `JWT_SECRET` unset, a login followed by any guarded request | one shared default secret, as `signSession` of lib/auth.js uses | not executed | Accounts.SignSessionAsWritten, Accounts.SessionAsWrittenRefused | Accounts.Directory.Guest, Accounts.Directory.Register, Accounts.Login, Accounts.LoginSessionPassesGuard, Accounts.ReadSession, Accounts.Me |
| routes/user.js:18-21 | Sessions are signed with `{id, email, role}` (routes/auth.js:61), while every user route reads `req.user.uid`, which is undefined, so the keys read "db/users/undefined/...". | two users signed in, each adding a favorite | read the session's `id` (or sign the payload with `uid`) | not executed | UserRoutes.SessionUidAsWritten, UserRoutes.SessionsShareFavoritesAsWritten | UserRoutes.SessionUid, UserRoutes.SessionsKeepOwnFavorites |
