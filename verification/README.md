# A verified model of the Twitter clone

A Dafny model of the parts of the repository whose correctness is hardest to see from one
function at a time, with proofs of what they promise together. `dafny verify dfyconfig.toml`
checks everything.

- **The event pipeline** (`Pipeline`, `OutboxSafety`, `ConsumerSafety`, `PipelineResults`,
  `PipelineRuns`, `PipelineEffects`, `PipelineCode`, `Notifications`, `Dlq`). Business transactions fill the outboxes of
  tweet-service and user-service; flushers publish them to Kafka; the notification consumer
  group deduplicates, dispatches with at most three attempts, dead-letters and commits; the
  replay tool re-injects dead letters. It is a transition system in which every process may
  stop, be fenced or be interleaved between any two steps. The loops of `FlushOutbox` and of
  the consumer's `Run` are methods against it: each outside call is a step, and a step the
  rules do not allow is a failed precondition.
- **The home timeline** (`Codec`, `Timeline`, `CursorWalk`, `LiveWalk`, `Enrich`,
  `FollowingFeed`).
  Fan-out, backfill and unretweet removal on bounded Redis lists, the cursor scan, the merge
  with celebrity entries and its cache, and the batched enrichment.
- **Derived indexes in feed-service** (`Trending`, `Snapshots`).
- **The SSE hub** (`Hub`).
- **The optimistic toggle in the web client** (`Debounce`, `Toggle`), each part alone and then
  composed.
- **Backoff and bookkeeping** (`Grpcretry`, `Retweets`, `Follows`).

`Strconv`, `Sequences` and `Wrappers` hold what several modules share: decimal text and
splitting, repeats and subsequences, and `Option`.

Where the source changes state in place, the model has a class whose methods are proved
against a function of the old state; the laws are then lemmas about that function. What such a
function does is itself stated apart from it, in terms of fields, positions and the source's own
constants: which element stands where, which rows are left, which header has which value. Results of
outside calls (errors, clocks, random draws, the order goroutines finish in) are parameters.

## What is false, and when it holds

Some things the code or its documentation suggest do not hold in general. Each has a lemma
that gives the exact condition, or a run that shows the failure:

- The consumer's comment says that no message advances past unhandled state
  (`apps/notification-service/internal/consumer/consumer.go:55-58`). Two failures break this. A
  failed dedup lookup logs "will retry" and goes on to the next record, whose commit then covers
  the first: `SkippedRecordIsPassed` from any state, `FailedLookupLosesARecord` from the start.
  And `dlq.Write` swallows its own write error, so a record that was given up can be committed
  and kept nowhere: `FailedWriteIsPassed` from any state, `FailedDeadLetterIsLost` from the
  start. Records are left by these two failures and by nothing else (`LeftByFailures`), so
  without a failed lookup and a failed dead-letter write the comment is true:
  `CommittedIsKept`, and record by record `CommittedIsKeptUnlessFailed`.
- Both outboxes number their rows from 1 and share one dedup table. So an event can be taken
  for a duplicate of another service's: whichever two rows share an ID,
  `CollidingIdsLoseANotification`; with disjoint IDs, `ExactlyOneNotification`.
- The retention comment (`apps/notification-service/internal/notification/service.go:24-25`)
  speaks of redelivery only. A row that gets an ID after another service's row with that ID was
  pruned is a first delivery, and is notified under the same ID: `PrunedIdIsNotifiedAgain`. At
  most one notification per ID holds in a run exactly when no `create` commits on a pruned ID:
  `AtMostOneIff`. It does when pruned IDs are out of circulation and no row is given one:
  `AtMostOneNotification`.
- `docs/ARCHITECTURE.md:1491` says consumers handle duplicates by ON CONFLICT DO NOTHING. That
  clause alone does not keep two inserts apart; the lookup must still be valid at commit:
  `StaleLookupBreaksOnce`.
- `docs/ARCHITECTURE.md:1316` says the cached first page is assembled and enriched. The code
  caches the merged entry list before the cap, under a key without the limit. A page cached at
  a smaller limit can end the walk early or make it miss entries: `CachedWalkCompleteIff`.
- Trending buckets are chosen by the pods' clocks and expire by Redis's. The TTL makes the
  counts exact if and only if it covers the window and the clocks' skew: `TtlIsEnoughIff`.
- A cursor names an entry, so a list with repeats can be walked for ever: `WalkIsCompleteIff`,
  `RepeatedEntryLoops`. Following someone again backfills entries that may still be there:
  `BackfillKeepsDistinctIff`. When that happens between two pages, the rest of the walk is
  clean if and only if it comes to no page end that was pushed again: `PushedMidWalkIff`.
- The replay tool's "will retry" (`apps/dlq-replay/main.go:92-95`) goes on to the next letter.
  The letters its committed offset covers were all republished if and only if none of their
  writes failed: `CoveredAreRepublishedIff`, `FailedReplayIsPassed`, `TwoLettersOneLost`.
- An unretweet whose row changed between its read and its transaction, an unfollow of nobody, a
  user provisioned after following someone, a channel given back under another user, a first
  click that passes a stale state: `StaleUnretweetIff`, `UnfollowKeepsIff`,
  `UnfollowKeepsRowsIff`, `ProvisionKeepsIff`, `UnsubscribeKeepsInvIff`, `BurstConvergesIff`.
- `grpcretry` says an empty code list excludes a client from retries
  (`apps/shared/grpcretry/grpcretry.go:47-49`); `applyDefaults` fills it in:
  `Options.ApplyDefaults`.

## Model

| member | source | states |
|---|---|---|
| PipelineResults.AtMostOneNotification | apps/notification-service/internal/notification/service.go:116-152 | in every run, with crashes, aborts, redeliveries and replays, that prunes only IDs nothing carries any more and gives no row a pruned ID, at most one insert commits per positive event ID, and one has exactly when the ID was marked processed |
| PipelineResults.AtMostOneIff | apps/notification-service/internal/notification/service.go:116-152 | in every run whatsoever an event ID has a notification exactly when it was marked processed, and no second one if and only if no create committed for it after it was pruned |
| PipelineResults.CommittedIsHandled | apps/notification-service/internal/consumer/consumer.go:59-117 | with no failed dedup lookup, every record below a committed offset was found processed, dispatched within three attempts, dead-lettered unchanged, or handed to a dead-letter write that failed |
| PipelineResults.CommittedIsKept | apps/notification-service/internal/consumer/consumer.go:55-91 | with no failed dedup lookup and no failed dead-letter write, every record below a committed offset was found processed, was dispatched, or is in the dead-letter topic |
| PipelineResults.CommittedIsKeptUnlessFailed | apps/notification-service/internal/consumer/consumer.go:55-91 | in every run, the same of each record whose own lookup and own dead-letter write never failed, whatever failed on others |
| PipelineResults.LeftByFailures | apps/notification-service/internal/consumer/consumer.go:70-85 | in every run a record is skipped or lost if and only if its own lookup or its own dead-letter write failed |
| PipelineResults.ExactlyOneNotification | apps/notification-service/internal/notification/service.go:116-152 | with IDs disjoint between the services, and only IDs pruned that nothing carries any more, a committed record that asks for a notification and was not dead-lettered or skipped produced its own notification, once |
| PipelineEffects.EventIsTold | apps/notification-service/internal/consumer/consumer.go:140-180 | under the same conditions a committed record that carries an event of a topic leaves, under its ID, the one notification that topic calls for: recipient, actor, kind and tweet as written there; and it stands in the table unless its topic is tweet.retweeted |
| PipelineEffects.DispatchAdds | apps/notification-service/internal/consumer/consumer.go:140-180 | an attempt that commits adds, for a like, retweet, reply or follow by someone else, one row to the table and one insert under the event ID, or nothing if a positive ID was processed |
| PipelineEffects.DispatchIgnores | apps/notification-service/internal/notification/service.go:54-96 | one's own like, retweet or reply, and any other topic, leaves the database as it was |
| PipelineEffects.UnretweetRemoves | apps/notification-service/internal/consumer/consumer.go:156-161 | an unretweet leaves, in order, exactly the rows that are not that actor's retweet notification for that tweet |
| PipelineEffects.UnretweetedStaysUntold | apps/notification-service/internal/notification/service.go:68-77 | after a committed unretweet no retweet notification of that pair is in the table, at any later time before another retweet of the pair commits |
| PipelineEffects.EveryNoticeStands | apps/notification-service/internal/notification/service.go:68-77 | in every run each notification other than a retweet stands in the table as often as it was inserted: unretweets take nothing else |
| PipelineEffects.DeadLettersSay | apps/notification-service/internal/consumer/consumer.go:80-89 | in every run a dead-lettered record has its letter, with its key, value and headers and the topic and offset it came from |
| PipelineRuns.CollidingIdsLoseANotification | apps/notification-service/internal/consumer/consumer.go:119-138 | for any two rows that share an ID and ask for a notification, a run without failures in which the second is committed as a duplicate and only the first is notified |
| PipelineRuns.FirstFollowIsLost | apps/user-service/migrations/000003_create_outbox.up.sql:3-4 | the instance with which both services start: a like is row 1 of one, a follow row 1 of the other, and the follow is never notified |
| PipelineRuns.PrunedIdIsNotifiedAgain | apps/notification-service/internal/notification/service.go:24-49 | for any two rows that share an ID and ask for a notification, a run that prunes the ID when nothing carries it any more, and notifies twice under it |
| PipelineRuns.SkippedRecordIsPassed | apps/notification-service/internal/consumer/consumer.go:70-73 | wherever a worker may fetch a record with an ID, whatever the others do and whatever the next record of the partition is, the lookup can fail and the next commit pass the record, settled no more than before |
| PipelineRuns.FailedLookupLosesARecord | apps/notification-service/internal/consumer/consumer.go:70-73 | such a run from the start: committed, unsettled, never notified |
| PipelineRuns.FailedWriteIsPassed | apps/notification-service/internal/consumer/consumer.go:80-89 | wherever a consumer has given a record up, for whatever reason, the dead-letter write can fail and the commit pass it, with nothing else changed, so it is kept no more than before |
| PipelineRuns.FailedDeadLetterIsLost | apps/shared/dlq/dlq.go:31-37 | for any row the service does not ignore, a run without failed lookups in which its record is committed, lost, and neither duplicate, dispatched nor in the dead-letter topic |
| PipelineRuns.PublishOne | apps/tweet-service/internal/tweet/service.go:539-574 | from any idle state one undisturbed flush writes and publishes a new event, so the rules are not vacuous |
| PipelineRuns.ConsumeNew | apps/notification-service/internal/consumer/consumer.go:59-93 | a record new to the dedup table can always be dispatched, recorded and committed in one turn |
| ConsumerSafety.KeepsInv | apps/notification-service/internal/consumer/consumer.go:59-138 | the invariant over outbox, Kafka, offsets, workers, dedup table, fates and dead letters survives every step of every process |
| ConsumerSafety.KeepsOffsetInv | apps/notification-service/internal/consumer/consumer.go:59-93 | committed offsets never pass a record that is neither accounted for nor in flight, through rebalances, fencing and crashes |
| ConsumerSafety.KeepsQuiet | apps/notification-service/internal/notification/service.go:26-52 | once nothing with an event ID is on its way, nothing ever is again unless a new row gets the ID |
| ConsumerSafety.KeepsOnceInv | apps/notification-service/internal/notification/service.go:26-49 | every step that prunes only quiet IDs and gives no row a pruned one keeps: one notification per ID at most, and every pruned ID quiet |
| OutboxSafety.KeepsOutboxInv | apps/tweet-service/internal/tweet/service.go:538-587 | every step keeps: rows sent are in Kafka, records and dead letters stem from rows, open flushes hold disjoint pending rows |
| OutboxSafety.OutboxIsSafe | apps/tweet-service/internal/tweet/service.go:538-587 | in every reachable state a sent row is in Kafka, an unpublished row is pending, and every record, a replayed one too, has the topic, key and payload of a committed row, that row's ID as its event ID and its trace as traceparent |
| OutboxSafety.PublishedExactlyOnce | apps/user-service/internal/user/service.go:474-523 | when no step fails, a row is in Kafka at most once: exactly once if it is marked sent or an open flush has written it, not at all while pending and in no flush |
| PipelineCode.OutboxFlusher.FlushOutbox | apps/tweet-service/internal/tweet/service.go:539-574 | the flush locks at most 100 rows and is a run of the system beside any interleaved steps; it succeeds exactly if Kafka took the batch and the commit was acknowledged; its rows are still pending, or, also when only the acknowledgement was lost, those whose marks went through are sent |
| PipelineCode.OutboxFlusher.BuildMessages | apps/tweet-service/internal/tweet/service.go:539-574 | message i has the topic, key and payload of the i-th locked row, the row's ID as event ID and its trace as traceparent |
| PipelineCode.OutboxFlusher.WriteMessages | apps/tweet-service/internal/tweet/service.go:539-574 | the messages stand in Kafka after what was there, in the order of the rows: all of them without an error, those up to the failure with one |
| PipelineCode.NotificationConsumer.IsDuplicate | apps/notification-service/internal/consumer/consumer.go:119-128 | no lookup without an ID; the answer moves the record to done or dispatching, an error passes it over |
| PipelineCode.NotificationConsumer.DispatchWithRetry | apps/notification-service/internal/consumer/consumer.go:96-117 | says how the retries end: malformed at once, ignored at once, else done at the first attempt that commits, cancelled in the first cancelled wait before one does, or failed with the third failed attempt |
| PipelineCode.NotificationConsumer.HandleTurn | apps/notification-service/internal/consumer/consumer.go:59-93 | a fetched record ends settled, unless its lookup failed and it is marked skipped |
| PipelineCode.NotificationConsumer.Run | apps/notification-service/internal/consumer/consumer.go:59-93 | however other processes interleave, the loop stays a run of the system and no commit overlooks a record |
| PipelineCode.OffsetsOverlookNone | apps/notification-service/internal/consumer/consumer.go:55-58 | in every reachable state a record below the committed offset is settled or was skipped by a failed lookup |
| Notifications.Service.Create | apps/notification-service/internal/notification/service.go:116-152 | the new database is that of the transaction or the old one, and only what this call inserted is published |
| Notifications.TopicsAskFor | apps/notification-service/internal/consumer/consumer.go:140-180 | for every topic and payload: malformed exactly when one of the five topics does not decode; else owner or followee is told by the actor with the kind of that topic, none for one's own action; an unretweet asks to delete that actor's retweet row |
| Notifications.CreateAdds | apps/notification-service/internal/notification/service.go:116-152 | a create adds the notification at the end and marks a positive ID, or does nothing when the ID is marked |
| Notifications.DeleteLeaves | apps/notification-service/internal/notification/service.go:68-77 | the rows left are, in order, those that are not that actor's retweet of that tweet |
| Notifications.CreateTxKeepsOnce | apps/notification-service/internal/notification/service.go:116-152 | a serializable create keeps one insert per ID if and only if the ID was not pruned |
| Notifications.StaleLookupBreaksOnce | apps/notification-service/db/query.sql:37-41 | committing on an earlier lookup keeps one insert per ID if and only if its answer still holds |
| Dlq.ReplayUndoesDeadLetter | apps/shared/dlq/dlq.go:19-38 | dead-lettering then replaying returns topic, key, value and ordered headers if and only if the message had no DLQ header and has a topic |
| Dlq.CyclesAreIdentity | apps/dlq-replay/main.go:76-133 | any number of failure and replay cycles returns the message unchanged |
| Dlq.EventIdSurvives | apps/notification-service/internal/consumer/consumer.go:130-138 | the event ID read from the headers survives dead-lettering and replay, whatever other headers there are |
| Dlq.EventIdIs | apps/notification-service/internal/consumer/consumer.go:130-138 | the event ID is the number in the first X-Event-ID header |
| Dlq.HeaderValueIs | apps/dlq-replay/main.go:109-116 | a header's value is that of the first with its key, and empty when there is none |
| Dlq.DeadLetterIs | apps/shared/dlq/dlq.go:19-38 | the letter keeps key, value and headers and ends with source topic, partition, offset and error, each under its own name |
| Dlq.StrippedPicks | apps/dlq-replay/main.go:118-133 | stripping leaves, in order, exactly the headers with none of the four names |
| Dlq.FindHeader | apps/dlq-replay/main.go:109-116 | the loop returns the first header's value |
| Dlq.StripDlqHeaders | apps/dlq-replay/main.go:125-133 | the loop keeps the other headers, in order |
| Dlq.Writer.WriteDeadLetter | apps/shared/dlq/dlq.go:19-38 | appends the provenance headers; a write error leaves no trace |
| Dlq.ReplayTool.Run | apps/dlq-replay/main.go:66-104 | what the loop republishes, commits and counts is that of the letters in order, each handled by the turn that fetched it: republished if its write goes through, committed if republished or skipped and the commit goes through |
| Dlq.RepublishedInTurn | apps/dlq-replay/main.go:82-95 | each letter with a source topic is republished in its own turn if and only if its write does not fail |
| Dlq.CoveredAreRepublishedIff | apps/dlq-replay/main.go:66-104 | the letters below the committed offset were all republished if and only if none of their writes failed |
| Dlq.FailedReplayIsPassed | apps/dlq-replay/main.go:92-98 | wherever a write fails and a later letter is committed, the failed letter is below the committed offset and not all were republished |
| Dlq.TwoLettersOneLost | apps/dlq-replay/main.go:92-98 | two letters, the first write failing: both are covered, only the second is ever republished |
| Codec.TweetEntryRoundTrip | apps/feed-service/internal/consumer/consumer.go:78-122 | a tweet entry parses back if and only if its ID is non-empty and free of pipes |
| Codec.RetweetEntryRoundTrip | apps/feed-service/internal/consumer/consumer.go:82-122 | a retweet entry parses back, for every int64 time, if and only if its IDs are free of pipes |
| Codec.ParsedEntryIsEncoding | apps/feed-service/internal/consumer/consumer.go:94-122 | whatever parses is the encoding of what it parses to, up to the spelling of the time |
| Codec.EncodersInjective | apps/feed-service/internal/consumer/consumer.go:78-84 | two encodable entries share an encoding if and only if they are the same entry |
| Codec.EntryTexts | apps/feed-service/internal/consumer/consumer.go:78-84 | the text of either kind of entry and of the removal prefix |
| Codec.RetweetFieldsParse | apps/feed-service/internal/consumer/consumer.go:94-122 | five fields free of pipes parse to the retweet with those fields if and only if the last is an int64 |
| Codec.PrefixMatchesParsedRetweet | apps/feed-service/internal/consumer/consumer.go:374-405 | on encodable entries the text prefix matches if and only if the parsed retweet ID does |
| Codec.ProfileCursorRoundTrip | apps/tweet-service/internal/tweet/service.go:391-410 | decoding undoes encoding for every ID, even with pipes or empty |
| Codec.ProfileCursorRejects | apps/tweet-service/internal/tweet/service.go:395-410 | a cursor is rejected if and only if no int64 stands before its first pipe |
| Codec.ProfileCursorText | apps/tweet-service/internal/tweet/service.go:391-393 | a cursor is the decimal time, a pipe and the ID |
| Strconv.ParseIntIs | apps/notification-service/internal/consumer/consumer.go:130-138 | a sign and digits parse to the number they stand for by place value, cut off with an error outside the range |
| Strconv.ParseIntJunk | apps/feed-service/internal/consumer/consumer.go:94-122 | anything else after the sign and digits is a syntax error, unless the digits before it had already left the unsigned range |
| Strconv.FormatIntIs | apps/tweet-service/internal/tweet/service.go:538-574 | an integer is written as its decimal digits by place value, without a leading zero, behind a minus sign if negative |
| Timeline.RemovalsFilter | apps/feed-service/internal/consumer/consumer.go:374-405 | one LREM of count 1 per match of a snapshot removes every match, duplicates included, and keeps the rest in order |
| Timeline.PrefixFilterIsEntryFilter | apps/feed-service/internal/consumer/consumer.go:374-405 | on encoded lists, dropping by prefix is dropping by parsed retweet ID |
| Timeline.PushTrimStep | apps/feed-service/internal/consumer/consumer.go:341-347 | pushing and trimming one entry at a time is pushing all copies and trimming once |
| Timeline.CommandsDo | apps/feed-service/internal/consumer/consumer.go:341-405 | LPUSH puts the entry first and moves each other one place on, LTRIM keeps the first places, LREM of count 1 takes the first occurrence only |
| Timeline.FollowingLists.FanOut | apps/feed-service/internal/consumer/consumer.go:316-351 | from 1000 followers on nothing is pushed and the author is flagged; below, each follower's list begins with one copy of the entry per listing, the old list follows place by place up to 800, and no other list changes |
| Timeline.FollowingLists.Backfill | apps/feed-service/internal/consumer/consumer.go:415-443 | the follower's list begins with the entries of the followee's recent tweets, in their order, and goes on with the old list, cut to 800; other lists stay |
| Timeline.FollowingLists.RemoveRetweet | apps/feed-service/internal/consumer/consumer.go:374-411 | each readable follower's list keeps, in order, exactly the entries that do not begin with the retweet's prefix, and no other list changes |
| Timeline.FollowingLists.QueueRemovals | apps/feed-service/internal/consumer/consumer.go:374-405 | the scan queues one removal per matching element of each readable list |
| CursorWalk.GetFollowingFeed | apps/feed-service/internal/consumer/consumer.go:492-520 | the scan and slice return, of a list of up to 800 entries, up to limit from the first place or behind the cursor's first occurrence, and nothing for an unknown cursor; of a longer list, the same of its first 800 places |
| CursorWalk.PageIs | apps/feed-service/internal/consumer/consumer.go:492-520 | a read sees places 0 to 799 of the list; entry j of the page stands j places behind the cursor's first occurrence, up to the limit |
| LiveWalk.WritesDo | apps/feed-service/internal/consumer/consumer.go:341-405 | between two reads a push adds one entry in front, a trim keeps 800, a removal takes the first occurrence |
| LiveWalk.ReadDoes | apps/feed-service/internal/consumer/consumer.go:492-520 | a read appends its page to what was read, moves the cursor to the page's last entry, or ends the walk at a short page |
| LiveWalk.PagesNeverRepeat | apps/feed-service/internal/consumer/consumer.go:492-520 | whatever pushes, trims and single LREMs come between the reads, as long as no read looks for an entry pushed meanwhile, the pages repeat nothing, form a subsequence of the list at the first read, and are full until the last, so the walk ends |
| LiveWalk.FreshPushesAreHarmless | apps/feed-service/internal/consumer/consumer.go:341-347 | when only entries new to the list are pushed, no read ever looks for one of them |
| LiveWalk.PushedMidWalkIff | apps/feed-service/internal/consumer/consumer.go:415-443 | after any pushes between two reads, such as a backfill after following again, the undisturbed rest of the walk ends and repeats nothing if and only if neither the cursor nor a later page end is among the entries pushed |
| LiveWalk.RemoveParts | apps/feed-service/internal/consumer/consumer.go:395-405 | one LREM takes from the entries pushed since the first read, or leaves of those it saw a subsequence |
| LiveWalk.UnretweetIsRemoves | apps/feed-service/internal/consumer/consumer.go:374-405 | the LREMs of an undisturbed unretweet take from the list exactly those of its first 800 entries that begin with the prefix, and keep the rest in order |
| LiveWalk.PagesFormPrefix | apps/feed-service/internal/consumer/consumer.go:492-520 | without removals, and as long as no read looks for an entry pushed meanwhile, the pages form a prefix of the list at the first read |
| CursorWalk.WalkIsCompleteIff | apps/feed-service/internal/consumer/consumer.go:492-520 | on an unchanged list some number of pages returns it whole, once and in order, if and only if no page ends on an entry that also stands earlier |
| CursorWalk.DistinctPageEnds | apps/feed-service/internal/consumer/consumer.go:492-520 | a list without repeats meets that condition at every limit |
| CursorWalk.RepeatedEntryLoops | apps/feed-service/internal/consumer/consumer.go:492-520 | the list a, b, a read one at a time never ends |
| CursorWalk.BackfillKeepsDistinctIff | apps/feed-service/internal/consumer/consumer.go:415-443 | a backfill of distinct tweets keeps a list free of repeats if and only if none of them is among the entries that stay |
| CursorWalk.PushKeepsDistinctIff | apps/feed-service/internal/consumer/consumer.go:341-347 | fan-out keeps a list free of repeats if and only if its entry is not among those that stay |
| FollowingFeed.MergeDedupe | apps/feed-service/internal/feed/service.go:457-473 | the two loops give each entry of either list once, in the order of first occurrence |
| FollowingFeed.DedupeIsFirsts | apps/feed-service/internal/feed/service.go:457-473 | what stays are the elements at first occurrences, in order |
| FollowingFeed.DedupeAppends | apps/feed-service/internal/feed/service.go:457-473 | merging into a list without repeats leaves it in front and adds exactly what is new, once each |
| FollowingFeed.FeedService.GetFollowingFeed | apps/feed-service/internal/feed/service.go:76-131 | the page's entries, cursor, cache and items: the first 800 places of the list are read; the items show the entries' own snapshots, counts and flags, sorted newest first on a first page, with the cursor taken before |
| FollowingFeed.ReadFeed | apps/web/src/hooks/useFeed.ts:9-28 | a client that follows the cursors, asking again after failures, gets the pages of the walk from the page in the cache; from a cold cache, once ended, a list of up to 800 distinct entries whole, each once and in order, whatever celebrity entries were merged in |
| FollowingFeed.FeedWalkIsComplete | apps/feed-service/internal/feed/service.go:76-131 | with a cold first page, or one cached at an equal or larger limit, the walk ends and returns every list entry once, in order, whatever celebrity entries are merged in |
| FollowingFeed.CachedWalkCompleteIff | apps/feed-service/internal/consumer/consumer.go:522-538 | for any celebrity entries and any cached limit, the walk visits every list entry exactly once if and only if the first page holds just the list entries before the point where the next one resumes: always at an equal or larger cached limit; when all there is fits on the first page, if and only if the celebrity entries supply what the cached page lacks; with none of them in the list, if and only if the cached limit is at least this one or covers the list |
| FollowingFeed.VisitsEachOnceIff | apps/feed-service/internal/feed/service.go:76-131 | from any first page without repeats, the walk visits every list entry exactly once if and only if the page fits the point where the next one resumes |
| FollowingFeed.ForeignCelebsWalkIff | apps/feed-service/internal/consumer/consumer.go:522-538 | with celebrity entries foreign to the list, the walk returns the list in order if and only if the cached limit is at least this one or covers the list |
| Enrich.EnrichEntries | apps/feed-service/internal/feed/service.go:178-278 | the batched, deduplicated four-way fetch gives, in entry order, one item for each parseable entry with a live snapshot and no other; each item's texts, author, media, tags, time and ID are the snapshot's fields of the same name, its three counts the numbers in the like, retweet and reply fields or 0, its flags those of the viewer when that call answered, its retweeter the named user's fields |
| Enrich.ItemsAreOfEntries | apps/feed-service/internal/feed/service.go:178-278 | the same of the reference with one look-up per entry: which entries have an item, in which order, and what it shows |
| Enrich.TweetForShows | apps/feed-service/internal/feed/service.go:178-278 | a tweet is shown if and only if it has a live snapshot, and field by field as the hashes say |
| Enrich.ItemsComeFromEntries | apps/feed-service/internal/feed/service.go:178-278 | every item carries the tweet, retweet ID, retweeter and time of some parsed entry |
| Enrich.BuildTweetCache | apps/feed-service/internal/feed/service.go:178-278 | every live snapshot has its tweet in the cache and no other has, and the tweet shows the fields of its own snapshot, counts and flags |
| Enrich.PipelineHashes | apps/feed-service/internal/consumer/consumer.go:779-840 | a batch read returns each requested live hash and nothing else |
| Enrich.AssembledIsReference | apps/feed-service/internal/feed/service.go:178-278 | assembling from the caches equals the per-entry reference when the caches answer for the parsed IDs |
| Enrich.SortNewestFirst | apps/feed-service/internal/feed/service.go:118-124 | the first page is a permutation in non-increasing effective time |
| Trending.TrendingIsExact | apps/feed-service/internal/consumer/consumer.go:445-490 | with pods whose clocks stray by up to ten minutes as seen from Redis, at every time a tag's score is the number of its increments in the last 60 minutes, and it is listed if and only if there is one |
| Trending.WindowCountGrows | apps/feed-service/internal/consumer/consumer.go:445-457 | the true count grows, by each increment whose second lies in the window's minutes, by as often as the increment has the tag, and by nothing else |
| Trending.TtlIsEnoughIff | apps/feed-service/internal/consumer/consumer.go:445-457 | with clocks that stray by up to d seconds, a bucket TTL is exact in every run if and only if it is at least 3600 + d; with the TTL it has, if and only if d is at most 600 |
| Trending.BucketHolds | apps/feed-service/internal/consumer/consumer.go:445-457 | each minute's bucket holds that minute's own increments, and by Redis's clock outlives the minute's start by the TTL |
| Trending.TrendingStore.IncrementTrending | apps/feed-service/internal/consumer/consumer.go:445-457 | the pipeline's buckets are those of the longer history |
| Trending.TrendingStore.GetTrending | apps/feed-service/internal/consumer/consumer.go:464-490 | the result is the top N tags by their true window counts, each once, in non-increasing order |
| Trending.TopOf | apps/feed-service/internal/consumer/consumer.go:481-489 | as many tags as asked for or exist, none repeated, none left out that beats one returned |
| Snapshots.RunKeepsIndex | apps/feed-service/internal/consumer/consumer.go:702-759 | in every run of the three handlers with a fixed non-empty author per tweet, a tweet is in an author's set if and only if it has a snapshot by that author |
| Snapshots.CreatedWrites | apps/feed-service/internal/consumer/consumer.go:702-726 | a creation writes the author's ID, username, display name and avatar each under its own name, all of the content, and keeps what other fields the hash had |
| Snapshots.CreatedTouchesOne | apps/feed-service/internal/consumer/consumer.go:702-726 | and touches no other snapshot |
| Snapshots.DeletedTakes | apps/feed-service/internal/consumer/consumer.go:728-741 | a deletion takes that snapshot and no other |
| Snapshots.UserUpdatedWrites | apps/feed-service/internal/consumer/consumer.go:743-759 | a user update writes the three author fields, each under its own name, of every tweet in the user's set, keeps their other fields, and touches nothing else |
| Snapshots.CreatedKeepsIff | apps/feed-service/internal/consumer/consumer.go:702-726 | a creation keeps the index if and only if it does not change the tweet's author |
| Snapshots.DeletedKeepsIff | apps/feed-service/internal/consumer/consumer.go:728-741 | a deletion keeps the index if and only if the snapshot does not have an empty author |
| Snapshots.UserUpdatedRewritesOwn | apps/feed-service/internal/consumer/consumer.go:743-759 | user.updated rewrites the author fields of all and only that user's snapshots, and revives none |
| Snapshots.UserUpdatedResurrectsIff | apps/feed-service/internal/consumer/consumer.go:743-759 | no snapshot is revived if and only if the user's set names live snapshots only |
| Snapshots.SnapshotStore.SetTweetSnapshot | apps/feed-service/internal/consumer/consumer.go:702-726 | HSET and SADD together are the handler's effect |
| Snapshots.SnapshotStore.DeleteTweetSnapshot | apps/feed-service/internal/consumer/consumer.go:728-741 | reading the author first, DEL and SREM together are the handler's effect |
| Snapshots.SnapshotStore.UpdateAuthor | apps/feed-service/internal/consumer/consumer.go:743-759 | one HSET per member, in any order, is the handler's effect |
| Hub.HubDelivers | apps/notification-service/internal/notification/hub.go:36-110 | in every run nothing panics; each channel was offered every one of its own user's publications while subscribed, in order, and holds or has handed over, in order, exactly those that found fewer than eight kept ones not yet taken |
| Hub.KeptAre | apps/notification-service/internal/notification/hub.go:101-110 | of any offers, also after the first drop, one is kept if and only if of those kept before it fewer than eight had not yet been taken |
| Hub.PubsAre | apps/notification-service/internal/notification/hub.go:101-110 | a user's publications are the logged ones to that user, all of them, in order |
| Hub.OfferingDoes | apps/notification-service/internal/notification/hub.go:101-110 | the next channel gets the notification at its end if fewer than eight wait in it, and keeps what it has otherwise; nothing else changes |
| Hub.ReceiveDoes | apps/notification-service/internal/notification/hub.go:36-42 | a reader takes the oldest waiting notification of its channel |
| Hub.ComeAndGoDo | apps/notification-service/internal/notification/hub.go:36-55 | a subscription adds an empty open channel at the end of the user's list; leaving closes the channel, takes its first place in that list and keeps what waits in it |
| Hub.RegisteredStayOpen | apps/notification-service/internal/notification/hub.go:36-55 | a user's list holds exactly the user's open channels, without repeats, also in the middle of a publication |
| Hub.UnsubscribeKeepsInvIff | apps/notification-service/internal/notification/hub.go:44-55 | giving a channel back keeps the hub sound if and only if it is open and its own user's |
| Hub.NothingDroppedIff | apps/notification-service/internal/notification/hub.go:101-110 | a reader misses nothing if and only if at each offer fewer than eight of those before it were untaken |
| Hub.KeptIsSubseq | apps/notification-service/internal/notification/hub.go:101-110 | what is kept is an in-order subsequence of what was offered |
| Hub.StepKeepsInv | apps/notification-service/internal/notification/hub.go:36-110 | every step of publisher, subscribers and readers keeps the hub's invariant |
| Hub.SseHub.Subscribe | apps/notification-service/internal/notification/hub.go:36-42 | a new open channel joins the end of the user's list |
| Hub.SseHub.Unsubscribe | apps/notification-service/internal/notification/hub.go:44-55 | the first occurrence leaves the list, the channel is closed, nothing else changes |
| Hub.SseHub.FanOutLocal | apps/notification-service/internal/notification/hub.go:101-110 | whatever readers do meanwhile, the publisher offers once to each channel of the user's list, in order, and never waits or panics |
| Debounce.OneTimerPerScope | apps/web/src/lib/debounced-toggle.ts:56-77 | in every run a scope has one live timer while a burst is under way and none otherwise |
| Debounce.TimerIsDue | apps/web/src/lib/debounced-toggle.ts:56-77 | and that timer is due exactly the delay of the scope's last click after that click |
| Debounce.TimerSends | apps/web/src/lib/debounced-toggle.ts:33-43 | in every run a timer that goes off ends its burst and sends the intent of its last click with that click's sync, unless it is the state the first click of the burst began at |
| Debounce.LastIntentIs | apps/web/src/lib/debounced-toggle.ts:56-77 | the last intent is that of the last click on the scope |
| Debounce.OneRequestPerBurst | apps/web/src/lib/debounced-toggle.ts:33-43 | a scope's requests are one per finished burst with its last intent and last sync function, none for a burst that ends where it began, each after its delay |
| Debounce.ServerReachesLastIntent | apps/web/src/lib/debounced-toggle.ts:29-77 | when first clicks pass the state the server will reach, after all bursts and in-order syncs the server holds the last intent |
| Debounce.BurstConvergesIff | apps/web/src/lib/debounced-toggle.ts:33-43 | whatever was passed, an ending burst brings the server to its last intent if and only if it sends, or began at the state the server will reach |
| Debounce.StepKeepsInv | apps/web/src/lib/debounced-toggle.ts:29-77 | clicks, timers and time keep entries, timers, bursts and requests in step |
| Debounce.Toggles.DebouncedToggle | apps/web/src/lib/debounced-toggle.ts:56-77 | a first click stores the given server state; a later one replaces timer, intent and sync only |
| Debounce.Toggles.Fire | apps/web/src/lib/debounced-toggle.ts:33-43 | the entry is gone, and a request was made exactly if intent and synced state differ |
| Debounce.Toggles.RunTimer | apps/web/src/lib/debounced-toggle.ts:33-77 | a due timer leaves the set and fires its scope |
| Toggle.ButtonsConverge | apps/web/src/hooks/useTweet.ts:174-207 | in any run of clicks on any buttons, timers and waits without a refetch, a cached tweet ends with the flag it began with, flipped as often as its button was clicked, and the matching count on all copies; and the finished requests bring the server there |
| Toggle.ClickMakesAllAgree | apps/web/src/hooks/useTweet.ts:51-79 | after one click all cached copies agree on flag and count, however they differed |
| Toggle.NeverClampsIff | apps/web/src/hooks/useTweet.ts:186-189 | the clamp at zero never takes effect if and only if the count less the user's own mark starts at zero or more |
| Toggle.ClicksKeepBase | apps/web/src/hooks/useTweet.ts:174-207 | the count less the user's own mark never changes, and the flag follows the parity of clicks |
| Toggle.MatchersFitShapes | apps/web/src/lib/query-keys.ts:13-57 | for every key the factory makes, the matchers hold exactly for the caches of their shape |
| Toggle.UpdateKeepsOthers | apps/web/src/hooks/useTweet.ts:51-79 | an update leaves other tweets, and the other field of the same tweet, alone |
| Toggle.FindShows | apps/web/src/hooks/useTweet.ts:97-117 | when the copies agree, the lookup finds what they show |
| Toggle.ScopesAreDistinct | apps/web/src/hooks/useTweet.ts:190-191 | no two buttons share a debounce scope |
| Toggle.PressKeeps | apps/web/src/hooks/useTweet.ts:174-207 | a click passes the debouncer the state the server will reach, and is never clamped |
| Toggle.QueryClient.ApplyTweetUpdate | apps/web/src/hooks/useTweet.ts:51-79 | the three passes patch every copy of the tweet once and nothing else |
| Toggle.QueryClient.FindCachedTweet | apps/web/src/hooks/useTweet.ts:97-117 | a copy is found if and only if some query holds one, and it is the first in the detail query, else in the feeds, else in the searches, by query, page and place |
| Toggle.FindFinds | apps/web/src/hooks/useTweet.ts:97-117 | the same of the lookup on any caches that fit their keys: found if and only if cached, with the query, page and place where it is first |
| Toggle.Mutate | apps/web/src/hooks/useTweet.ts:181-207 | with a copy cached in any of the three kinds of query one click logs one click for the button's scope, with 400 ms to wait and the opposite of what was found; with none nothing changes; all other fields, tweets and queries stay; and it is the composed system's step |
| Toggle.ClickDoes | apps/web/src/hooks/useTweet.ts:181-207 | if the copies agree on flag and count, every copy then shows the opposite flag and the count one up or down, not below zero, and the click logged goes from the one to the other |
| Toggle.UpdateKeepsRest | apps/web/src/hooks/useTweet.ts:51-79 | an update changes in every copy of the tweet that flag and that count, and no other field, tweet or query |
| Toggle.Session | apps/web/src/hooks/useTweet.ts:174-207 | the event loop over any clicks, timers and waits, run on the caches and the debouncer, does what the composed system does |
| Toggle.SessionConverges | apps/web/src/hooks/useTweet.ts:174-207 | so after any session on a cached tweet all copies show the first flag flipped as often as the button was clicked, and its count, and with the bursts over the requests sent bring the server there |
| Grpcretry.Jitter | apps/shared/grpcretry/grpcretry.go:84-90 | under 64-bit wrap-around the generator gets a positive bound and the delay is in [0, min(max, base * 2^attempt)) |
| Grpcretry.CapIsSafe | apps/shared/grpcretry/grpcretry.go:84-90 | the computed bound is positive and never above the one meant |
| Grpcretry.CapIs | apps/shared/grpcretry/grpcretry.go:84-90 | the bound is the 64-bit value of base * 2^attempt where that lies from 1 to the maximum, and otherwise the maximum |
| Grpcretry.CapIsCeilingIff | apps/shared/grpcretry/grpcretry.go:84-90 | it is the one meant if and only if the shift does not overflow into a small positive number |
| Grpcretry.CapIsExact | apps/shared/grpcretry/grpcretry.go:84-90 | it is the one meant at every attempt when base times max fits in 63 bits, as the defaults do |
| Grpcretry.Options.ApplyDefaults | apps/shared/grpcretry/grpcretry.go:29-42 | usable fields stay, others get their default, and an empty code list retries the two transient codes |
| Grpcretry.Intercept | apps/shared/grpcretry/grpcretry.go:50-80 | at most MaxAttempts calls, every non-final one failed with a retryable code, the result is that of the try it stops at, and wait i is drawn below the bound of try i, which is min(max, base * 2^i) when base times max fits in 63 bits |
| Grpcretry.CeilingsBound | apps/shared/grpcretry/grpcretry.go:82-90 | the ceilings add up to at most one maximum per wait, and to 150 ms with the defaults |
| Retweets.EventsAlternate | apps/tweet-service/internal/tweet/service.go:163-229 | in every run with aborts the events of a pair alternate, each unretweeted names the retweet it undoes, and the row exists exactly while the last is a retweet of a live tweet |
| Retweets.CountsMatchRows | apps/tweet-service/internal/tweet/service.go:163-229 | the stored count of a live tweet is its number of rows, and the Redis count is that less the increments that never arrived |
| Retweets.RetweetDoes | apps/tweet-service/internal/tweet/service.go:163-199 | a retweet commits if and only if the tweet lives, the user has not retweeted it and the transaction goes through; it then adds that row, one to that count, and an event with the retweet, tweet, author and retweeter; otherwise nothing changes |
| Retweets.UnretweetDoes | apps/tweet-service/internal/tweet/service.go:201-229 | an unretweet that commits takes that row, one off the count, and adds an event that names the retweet; otherwise nothing changes |
| Retweets.CreateAndDeleteDo | apps/tweet-service/internal/tweet/service.go:50-112 | a new tweet starts without retweets; a deletion by the author takes the tweet and its retweet rows and no others |
| Retweets.CountsAgreeWithRedisUp | apps/tweet-service/internal/tweet/service.go:421-428 | with Redis up, row count, stored count and Redis count agree |
| Retweets.FloorIsNeverMet | apps/tweet-service/db/query.sql:61-62 | the decrement's floor at zero is never met |
| Retweets.StaleUnretweetIff | apps/tweet-service/internal/tweet/service.go:201-229 | the transaction of an unretweet keeps the events in order if and only if the pair's last event is the retweet read before it; on a live tweet, if and only if that is still the pair's row |
| Retweets.CallKeepsInv | apps/tweet-service/internal/tweet/service.go:94-229 | create, delete with its cascade, retweet and unretweet keep rows, counts and events in step |
| Retweets.TweetService.Retweet | apps/tweet-service/internal/tweet/service.go:163-199 | row, count and event are written together or not at all, then Redis |
| Retweets.TweetService.Unretweet | apps/tweet-service/internal/tweet/service.go:201-229 | the row goes, the count drops and the event names the row read, or nothing changes |
| Retweets.TweetService.Delete | apps/tweet-service/internal/tweet/service.go:94-112 | only the author deletes, and the retweet rows go along |
| Follows.CountsAreDegrees | apps/user-service/internal/user/service.go:214-273 | in every run of provisioned followers and unfollows of existing edges the rows count in-degree and out-degree, and so does Redis while it is up |
| Follows.RefreshHeals | apps/user-service/internal/user/service.go:64-81 | after any Redis outages one refresh makes Redis count the follow graph |
| Follows.FollowDoes | apps/user-service/internal/user/service.go:214-251 | a follow by anyone but oneself of a user with a row, when it commits, adds the edge if it is new and one to follower and followee count, in the rows and, if Redis is up, there; otherwise nothing changes |
| Follows.UnfollowDoes | apps/user-service/internal/user/service.go:253-273 | an unfollow that commits leaves all edges but this one and takes one off both counts, not below zero in the rows, whether or not the edge was there |
| Follows.ProvisionDoes | apps/user-service/internal/user/service.go:99-150 | a new user starts with zero counts; a taken ID or e-mail address changes nothing |
| Follows.RefreshDoes | apps/user-service/internal/user/service.go:64-81 | a refresh that goes through sets the Redis counts of every user with a row to the row's, and no others |
| Follows.UnfollowKeepsIff | apps/user-service/internal/user/service.go:253-273 | with right counts an unfollow leaves rows and Redis right if and only if it names an edge |
| Follows.UnfollowKeepsRowsIff | apps/user-service/db/query.sql:42-49 | the rows alone stay right if and only if the edge exists or both counts were already zero |
| Follows.ProvisionKeepsIff | apps/user-service/internal/user/service.go:99-150 | starting a user's counts at zero is right if and only if no edge names the user yet |
| Follows.CallKeeps | apps/user-service/internal/user/service.go:64-273 | every careful call keeps the counts |
| Follows.UserService.Follow | apps/user-service/internal/user/service.go:214-251 | a new edge is counted once on both rows and in Redis; a repeat, a self-follow and an abort change nothing |
| Follows.UserService.Unfollow | apps/user-service/internal/user/service.go:253-273 | both counts drop whether or not the edge was there |
| Follows.UserService.RefreshAllCounts | apps/user-service/internal/user/service.go:64-81 | every listed user's Redis counts become those of the row, whatever they were; nobody else's change |

## Left out

- SQL and isolation: each store call has the contract its query text suggests, and `ExecTx` runs closures one at a time; `StaleLookupBreaksOnce` and `StaleUnretweetIff` say what depends on it.
- JSON: a payload is known by what it decodes to under each topic, so malformed is a case, not text.
- Kafka: a topic-partition is a subsequence of one log and offsets are positions in that log; a commit from a consumer that has lost its partition is refused, which is the broker's part; batching, compression and consumer-group protocol messages are not modelled.
- Pruning: a prune may take any processed IDs at any time. That seven days outlast Kafka's retention, which would make every prune quiet, is a matter of clocks and is a hypothesis of the results that need it.
- Follows.RefreshHeals: is stated for a refresh with no follow in between its read and its writes; the pipeline of HSETs is taken as one step.
- Trending.TopOf: the order of tags with equal scores is left open, as are scores beyond the exact range of a double.
- Trending: Redis's clock and each pod's are arbitrary but for a bound on how far the pods stray from each other as seen from Redis, which may be any number.
- Enrich.SortNewestFirst: the order of items with equal times is left open, because `sort.Slice` is not stable.
- Enrich.EnrichEntries: does not model the concurrency of the four fetches, only that all have answered; times are Unix seconds without the range of Go's time type.
- Hub.SseHub.Unsubscribe: deletes from a sequence value, so the shift inside the shared backing array and its spare capacity are not visible; the locks are the steps' guards.
- Hub: `Publish` over Redis and the subscription channel are not part of this model, only `fanOutLocal` and the registry.
- Toggle: refetches after a sync, which replace cached data, and `removeTweetEverywhere`; the follow button, which uses the same debouncer without absolute counts.
- Debounce: a request that fails; its caller refetches.
- Cache lifetimes: the first-page cache, the celebrity flag and the list TTL are present or absent, without a clock.
- feed-service's own retry and poison handling, whose "will retry" path has the same shape as the one modelled in the notification consumer.
- Likes and replies: `like_count` is decremented unconditionally on unlike, so it does not count likes.
- Follow cursors: the same codec as profile cursors.
- The recommended feed, whose scores are floating point.
- HTTP and gRPC servers, middleware, metrics, tracing, configuration, search, media, identity and user interface: plumbing over libraries that are not part of this model.
