# Telegram CLI: a verified model

This project models the parts of the Telegram command-line client and its daemon where an error is hard to see
by reading one function, and proves what they promise. `dafny verify dfyconfig.toml` checks all of it.

## What is modelled

**Daemon fan-out** (`watch.dfy`, `subscription_manager.dfy`, `fanout*.dfy`). One publisher, any number of
subscriptions with a bounded buffer and a drop counter, one streamer for each subscription, and one ownership set
for each connection. `SubscriptionManagers` has the objects and their methods, one call at a time. `Fanout` is the
same code as a step system: every lock region, channel operation and frame write is a step of its own, so a run is
any interleaving. A streamer receives, then resets the counter, then writes the lag frame, then the update;
`Unsubscribe` deletes under the lock and closes outside it; a publication and a shutdown walk the map one
subscription at a time. "Send, or else count the drop" is one step. A write may fail, and a connection's encoder
fails for good after its first error. Published events, frames on the wire and the moments of birth and death of a
subscription are kept as records that no step reads. `FanoutInvariant` and `FanoutSteps` hold the inductive
invariant, `FanoutTheorems` what follows from it in every reachable state. `FanoutRuns` measures the same against
the steps of a run alone: what was published, who was subscribed, who asked for what. `FanoutProgress` gives, for
each operation, a run that carries it through, with its whole effect; so nothing here holds because a step does
nothing.

**Request and response matching** (`rpc.dfy`, `rpc_progress.dfy`). Any number of calls on one connection, one
first-in-first-out socket in each direction, handlers that finish in any order, and the client's reader, for runs
in which the client is not closed. `RpcProgress` shows that no response is lost, that every call can be carried to
its end whatever else is in flight, and ties results and events to the steps of the run.

**Random ids** (`words.dfy`, `random_ids.dfy`, `seeded_reader.dfy`). 64-bit words are naturals below 2^64, with
wrap-around, shifts and exclusive or written out. The output function is inverted step by step, the state sequence
is solved in closed form, and the byte reader is an object with the original's fields and an in-place buffer.

**Message history** (`list_messages.dfy`), **entity slices** (`utf16.dfy`) and **sent messages**
(`sent_messages.dfy`): each loop is proved against a declarative specification, which is then characterised.

**Durable files** (`bytes.dfy`, `session_frame.dfy`, `atomic_write*.dfy`). A directory with inodes, any number of
writers (lock, temp file, partial writes, rename, deferred removal, deferred unlock), readers that take no lock and
read piece by piece, deletions, failures of every system call, and a crash of any writer between any two steps.
All targets of one account share the directory, the temp names and the lock, as they do in the original.
`AtomicWriteRuns` says what each outcome tells about the steps taken, and that an undisturbed call succeeds.

**References and tokens** (`text.dfy`, `ref.dfy`, `ref_spelling.dfy`, `message_ref.dfy`, `base64url.dfy`,
`doc_token.dfy`). Parsers and printers as functions, including signs, leading zeros and the 64-bit range of
numbers, the order in which link prefixes are tried, and a base64url decoder that skips line breaks and ignores
unused bits. `RefSpelling` defines
the accepted texts a second time, without parsing. The round trips are what `internal/cli/watch/watch.go:127-129`
relies on, where a watch sends printed references for the daemon to parse again.

**Configuration** (`config_values.dfy`, `raw_map.dfy`, `config.dfy`, `layers.dfy`, `load_merged.dfy`). `RawMap` is
a tree of mutable tables on the heap, proved against functions on path maps. The precedence pipeline is modelled
twice, as the original computes it twice, and the two results are compared key by key.

**Update log** (`updates_sink.dfy`). The append file with rotation as an object, with every system call allowed to
fail, and the event pump that feeds it.

## Where the code and its comments differ

The model follows the code.

- `internal/daemon/worker.go:209-214` says that a failed rotation should not break the main loop. It does:
  `Write` returns the error, the encoder reports it, and the pump returns before the event is published.
  `UpdatesSinks.PublishedIff` gives the exact condition under which an event is published,
  `UpdatesSinks.RotationFailureEndsPump` says where the unpublished event is, and
  `UpdatesSinks.FailedRenameExample` is one input. The old backup is already gone by then.
- `internal/telegram/message_ops.go:31-43` speaks of one distinct id for each item. The generated ids are pairwise
  distinct over a whole period of 2^64 draws, but the first id is the seed itself, and one later draw of each
  period repeats it. `RandomIds.BatchDistinct` gives the exact batch length up to which all ids differ, computed
  from the seed. No seed is known whose repeat falls within a batch of realistic length.
- The counter of written bytes ignores what a failed write left in the file, and a failed size query at opening
  counts as zero. `UpdatesSinks.CounterIsSize` says for any calls when the counter is the file's size. In the
  program the pump stops at its first error, so only the size query matters there: `UpdatesSinks.PumpKeepsCount`
  is the promise, `UpdatesSinks.CountFromOpening` the exact condition, and `UpdatesSinks.UnknownSizeOverruns` and
  `UpdatesSinks.HalfWriteIsNotCounted` are inputs that fail.
- The raw configuration unites the alias tables of several layers, while the typed merge replaces them.
  `LoadMerged.AliasesAgreeIff` is the exact condition for no difference, `LoadMerged.PipelineAliases` the same for
  the four layers of the program, and `LoadMerged.AliasesMayDiffer` an input where they differ. An alias whose
  name has a dot has a source but cannot be read by its dotted name (`LoadMerged.AliasByName`).

## Model

| member | source | states |
|---|---|---|
| Watch.CheckMatches | internal/daemon/subscription.go:159-184 | the loop over a flag decides the filter predicate, whose meaning for a request is the next two rows |
| Watch.MatchesWanted | internal/daemon/subscription.go:159-184 | a filter with the request's kinds and peers matches an event exactly when the request asked for its kind, or for no kind, and for one of its senders, or for no peer; a batched delete has the senders of all its rows |
| Watch.BuildFilter | internal/daemon/server.go:386-413 | succeeds exactly when every reference resolves, and otherwise names the first that does not; the peer ids are the given ones together with the resolved ones; the filter matches exactly the events the request asks for |
| SubscriptionManagers.Subscription.Send | internal/daemon/subscription.go:123-127 | the event is buffered when there is room and otherwise counted as one drop, never both |
| SubscriptionManagers.Subscription.ResetDropped | internal/daemon/subscription.go:36-40 | returns the drops counted so far and leaves none |
| SubscriptionManagers.Subscription.Close | internal/daemon/subscription.go:25-28 | the channel is closed at most once and keeps its buffered events |
| SubscriptionManagers.SubscriptionManager.constructor | internal/daemon/subscription.go:60-68 | starts open and empty, with 64 for a buffer size that is not positive |
| SubscriptionManagers.SubscriptionManager.Subscribe | internal/daemon/subscription.go:75-90 | a fresh id; registered with an open channel, or handed out already closed when the manager is closed |
| SubscriptionManagers.SubscriptionManager.Unsubscribe | internal/daemon/subscription.go:96-107 | true exactly when the id was registered; it is then gone and closed, and every other subscription is unchanged |
| SubscriptionManagers.SubscriptionManager.Publish | internal/daemon/subscription.go:113-129 | exactly the registered, matching subscriptions are offered the event; nothing happens on a closed manager |
| SubscriptionManagers.SubscriptionManager.Close | internal/daemon/subscription.go:135-146 | every registered subscription is closed and the map is empty for good |
| SubscriptionManagers.ConnSubSet.CloseAll | internal/daemon/server.go:493-504 | every tracked id is unsubscribed, stale ones included, and no other subscription is touched |
| FanoutSteps.StepKeepsInv | internal/daemon/subscription.go:75-146 | the inductive invariant of the fan-out under every step of every thread |
| FanoutTheorems.Conservation | internal/daemon/server.go:350-381 | matching events published during a subscription's life are written, held, buffered, or counted once as a drop; those not dropped keep their order; the buffer keeps its bound |
| FanoutTheorems.KeptInOrder | internal/daemon/server.go:350-381 | the events that were not dropped stand at rising positions among all matching events |
| FanoutTheorems.DropsWakeTheStreamer | internal/daemon/server.go:355-371 | a streamer that waits with drops on the counter has a full buffer, so it can receive |
| FanoutTheorems.CleanEndReportsAll | internal/daemon/server.go:359-371 | a streamer that ended on a closed, drained channel has reported every drop and written every other event |
| FanoutTheorems.NoSendOnClosed | internal/daemon/subscription.go:119-128 | no send meets a closed channel although Unsubscribe closes outside the lock |
| FanoutTheorems.ShutdownClosesOnce | internal/daemon/subscription.go:141-145 | the shutdown closes no channel that is closed already |
| FanoutTheorems.HandlerClosesOnce | internal/daemon/subscription.go:96-107 | a close outside the lock meets an open channel, under every interleaving |
| FanoutTheorems.ClosedManager | internal/daemon/subscription.go:84-87 | a closed manager holds nothing and hands out channels that are already closed |
| FanoutTheorems.FreshId | internal/daemon/subscription.go:78-83 | ids are never reused |
| FanoutTheorems.OneOwner | internal/daemon/server.go:302-303 | every live subscription is tracked by exactly one connection, which has not ended |
| FanoutTheorems.EndedOwnsNothingLive | internal/daemon/server.go:242-245 | after its clean-up a connection has no live subscription |
| FanoutTheorems.CleanUpIsPrivate | internal/daemon/server.go:493-504 | the clean-up of one connection leaves all others and their subscriptions as they were, even with stale ids in its set |
| FanoutTheorems.WireOrder | internal/daemon/server.go:230-240 | hello is the first frame and only the first; an update or lag frame comes after the subscribe response of its subscription, on the owner's connection |
| FanoutTheorems.LagThenUpdate | internal/daemon/server.go:363-378 | a lag frame reports at least one drop and is followed by an update of the same subscription or by the end of its stream |
| FanoutRuns.PublishedIsTrue | internal/daemon/subscription.go:113-129 | over any run, exactly the events given to the publisher before the shutdown are published, in order |
| FanoutRuns.LiveIff | internal/daemon/subscription.go:75-146 | the manager's map holds exactly what was subscribed before the shutdown and neither unsubscribed nor drained since |
| FanoutRuns.BirthOf | internal/daemon/server.go:297-303 | every subscription has the filter and the connection of one subscribe request, the one its id counts |
| FanoutRuns.BornOnce | internal/daemon/subscription.go:78-83 | no two requests of a run are answered with the same id |
| FanoutRuns.ConservationOfRun | internal/daemon/server.go:350-381 | the matching events given to the publisher while the subscription was in the map, by the steps of the run alone: each is written, held, buffered, counted once as a drop, or about to be offered; those not dropped keep their order |
| FanoutRuns.CleanEndOfRun | internal/daemon/server.go:359-371 | a stream that ended cleanly told the client of every one of those events, as an update or as a drop |
| FanoutRuns.AnswersWereAsked | internal/daemon/server.go:289-320 | every subscribe response names a request of the same connection and the subscription that request made; every other reply names a request of the connection |
| FanoutRuns.RemovedIsClosed | internal/daemon/subscription.go:96-146 | a subscription out of the map has a closed channel, unless the handler that removed it stands right before the close |
| FanoutProgress.PublishRound | internal/daemon/subscription.go:113-129 | a publication can always be carried through, and then every live subscription that wants the event has it buffered or counted, and nothing else has changed |
| FanoutProgress.ShutdownRound | internal/daemon/subscription.go:135-146 | so can a shutdown, which empties the map and closes every live channel with what is buffered still in it |
| FanoutProgress.StreamerCatchesUp | internal/daemon/server.go:355-380 | a waiting streamer on a working connection empties its buffer by its own steps; the client reads the drops, if any, and then every buffered event in order |
| FanoutProgress.StreamerEnds | internal/daemon/server.go:359-380 | when its channel is closed it does the same and ends; its last frames are all that was buffered |
| FanoutProgress.CancelEndsStreamer | internal/daemon/server.go:355-358 | a cancelled connection ends its waiting streamers, whatever is buffered |
| FanoutProgress.EventReachesClient | internal/daemon/server.go:350-381 | from any reachable state, a wanted event can go from the publisher to the client's wire, behind what was buffered, or into the drops reported there |
| FanoutProgress.GreetingRound | internal/daemon/server.go:230-252 | a new connection is sent hello and then read from |
| FanoutProgress.SubscribeRound | internal/daemon/server.go:302-310 | a subscribe request ends with a streaming subscription: in the map, open, empty, with the requested filter, tracked by the connection and confirmed to it |
| FanoutProgress.UnsubscribeRound | internal/daemon/server.go:318-320 | an unsubscribe request takes the subscription out of the map and out of the connection's set, closes its channel and is answered |
| FanoutProgress.UnsubscribeGone | internal/daemon/server.go:318-320 | for a subscription that is gone it changes nothing else and is answered all the same |
| FanoutProgress.DisconnectRound | internal/daemon/server.go:215-245 | a connection that ends has all its subscriptions out of the map and closed, its context cancelled and its socket closed, and leaves every other connection as it was |
| Rpc.StepKeepsInv | internal/daemon/client.go:177-221 | the inductive invariant of request matching under every step |
| Rpc.Correlation | internal/daemon/client.go:201-219 | a call that returns a response returns what its own method and parameters produced |
| Rpc.AtMostOnce | internal/daemon/server.go:322-344 | no request is run twice or answered twice |
| Rpc.ReaderNeverBlocks | internal/daemon/client.go:311-316 | whenever the reader holds a response for a call, that call's channel has room |
| Rpc.PendingIsExact | internal/daemon/client.go:187-195 | the pending map holds exactly the calls between registration and deferred deletion |
| RpcProgress.NoResponseLost | internal/daemon/client.go:294-317 | while no write of the server has failed, the request of a waiting call or its response is in exactly one place: a socket, a job or the reader's hand |
| RpcProgress.EveryCallAnswered | internal/daemon/client.go:294-317 | from any such state the server and the reader alone can answer every waiting call, without touching anything else of the calls |
| RpcProgress.CallRound | internal/daemon/client.go:177-221 | from any such state a new call can be carried to its end, returns the server's answer to its own id, method and parameters, and is forgotten |
| RpcProgress.ResultHasCause | internal/daemon/client.go:197-221 | over any run, a call returns a response exactly when it took one, its context's error exactly when it gave up, a send error exactly when its send failed |
| RpcProgress.GiveUpRound | internal/daemon/client.go:190-204 | a waiting call can give up at any time; it returns its context's error and is forgotten |
| RpcProgress.CorrelationOfRun | internal/daemon/client.go:177-221 | over any run, a returned response comes from a handler's run on the very request a begin step of this call made |
| RpcProgress.EventsInOrder | internal/daemon/client.go:303-309 | every pushed event reaches the client's channel, in order and once |
| RpcProgress.BuiltInsBlock | internal/daemon/server.go:271-344 | built-in and unknown methods are answered in line: none is being handled when a later request is taken up |
| RandomIds.UnmixMix | internal/telegram/message_ops.go:75-81 | the output function can be undone, so it is injective |
| RandomIds.MixUnmix | internal/telegram/message_ops.go:75-81 | every word is the output of some state, so the function is onto |
| RandomIds.StatesDistinct | internal/telegram/message_ops.go:76-77 | the states of a whole period of 2^64 steps are pairwise distinct |
| RandomIds.DrawsDistinct | internal/telegram/message_ops.go:75-81 | so are the ids drawn after the first one |
| RandomIds.EveryWordOnce | internal/telegram/message_ops.go:75-81 | a period draws every 64-bit value exactly once, at a known place |
| RandomIds.BatchDistinct | internal/telegram/message_ops.go:31-43 | all ids of a batch, the seed included, differ exactly up to the draw that repeats the seed |
| SeededReader.NextSplitmix64 | internal/telegram/message_ops.go:75-81 | one step along the state sequence, returning the next id |
| SeededReader.SeededRandReader.constructor | internal/telegram/message_ops.go:41-43 | nothing consumed; the seed is the two's complement word of the signed value |
| SeededReader.SeededRandReader.Refill | internal/telegram/message_ops.go:56-64 | the buffer holds the next id, the seed first |
| SeededReader.SeededRandReader.Read | internal/telegram/message_ops.go:53-71 | fills the whole buffer with the next bytes of the stream |
| SeededReader.ChunkIndependence | internal/telegram/message_ops.go:53-71 | reads of any sizes, one after the other, give one prefix of the stream |
| SeededReader.IdsOnTheWire | internal/telegram/message_ops.go:31-43 | the sender's k-th eight bytes are the k-th id of the stream |
| SeededReader.StreamDigits | internal/telegram/message_ops.go:53-71 | byte k of the stream is a digit of id k/8, least significant first; the seed is the first id |
| SeededReader.SingleMessageId | internal/telegram/message_ops.go:35-36 | a single message is sent with the value of the option itself |
| ListMessages.CollectRows | internal/telegram/messages.go:33-71 | the early-exit loop builds exactly the rows of the shown groups |
| ListMessages.AddMessage | internal/telegram/messages.go:52-70 | folding into the last row or appending one is one step of the grouping |
| ListMessages.ReverseMessageRows | internal/telegram/messages.go:150-154 | the rows are reversed in place |
| ListMessages.ListRows | internal/telegram/messages.go:21-80 | the whole listing equals its specification: filter, cut into albums, limit, sort, order |
| ListMessages.GroupsSplit | internal/telegram/messages.go:49-60 | grouping cuts the messages into maximal runs of equal non-zero grouped id, losing none |
| ListMessages.SplitUnique | internal/telegram/messages.go:49-60 | there is only one such cut |
| ListMessages.ShownIsPrefix | internal/telegram/messages.go:61-63 | what is shown is a prefix of the eligible messages, limited in rows, and the limit never cuts an album |
| ListMessages.RowMeaning | internal/telegram/messages.go:52-75 | a row has its anchor's id, its members' first text, and its members sorted by id |
| ListMessages.FirstTextMeaning | internal/telegram/messages.go:56-58 | the text of the first member that has one |
| ListMessages.SortByIdSorts | internal/telegram/messages.go:91-93 | album members are sorted by id and none is lost |
| ListMessages.AscReverses | internal/telegram/messages.go:76-78 | ascending order is the exact reverse of descending order |
| ListMessages.EarlyExitIsFilter | internal/telegram/messages.go:39-48 | on a newest-first history stopping early is the same as filtering |
| ListMessages.EligibleIff | internal/telegram/messages.go:35-50 | on a newest-first history the eligible messages are exactly the regular ones above the minimum id and within both dates, bounds included for dates and excluded for the id |
| ListMessages.ShownWithin | internal/telegram/messages.go:35-50 | on any history every message behind a row is a regular one within all three bounds |
| ListMessages.NeighboursDiffer | internal/telegram/messages.go:54-60 | two neighbouring groups never share a non-zero grouped id |
| Utf16.EncodeConcat | internal/telegram/messages.go:414 | encoding distributes over concatenation |
| Utf16.UnitsOfRune | internal/telegram/messages.go:414 | one unit below U+10000, above it a high and a low surrogate of ten bits each, U+FFFD for what is no scalar value (section 2.1 of RFC 2781) |
| Utf16.DecodeEncode | internal/telegram/messages.go:419 | decoding undoes encoding of any text |
| Utf16.SliceExact | internal/telegram/messages.go:415-420 | an entity over the middle part of a text is exactly that part |
| Utf16.SliceAnywhere | internal/telegram/messages.go:415-420 | any request in range gives its whole characters and one U+FFFD for each end inside a pair |
| Utf16.SliceEveryRequest | internal/telegram/messages.go:415-420 | the answer to every request, in range or not, and it is empty exactly out of range |
| Utf16.ExactIffOnBoundaries | internal/telegram/messages.go:415-420 | nothing is lost exactly when both ends are character boundaries |
| SentMessages.DedupeSentMessages | internal/telegram/message_ops.go:560-579 | the loop with its index map computes the specification |
| SentMessages.OneRowEach | internal/telegram/message_ops.go:560-579 | one row for every mentioned message and none for any other |
| SentMessages.GathersAll | internal/telegram/message_ops.go:581-589 | a message's row has the first chat and the first date that any of its updates gave |
| SentMessages.FieldsOfRow | internal/telegram/message_ops.go:581-589 | its chat is that of the first row about it that has one, its date likewise, each looked for on its own, and each is missing only when no row has it |
| SentMessages.RowsInOrder | internal/telegram/message_ops.go:560-579 | the rows stand in the order of first mention, with the first row's action; rows about no known message stay whole and in place |
| SentMessages.DistinctUnchanged | internal/telegram/message_ops.go:560-579 | rows without duplicates stay as they are |
| SentMessages.Batches | internal/telegram/message_ops.go:560-579 | deduplicating in batches is the same as deduplicating once |
| AtomicWriteSteps.StepKeepsInv | internal/account/atomicwrite.go:23-71 | the inductive invariant of the write protocol under every step, crashes included |
| AtomicWriteTheorems.TargetsAreWhole | internal/account/atomicwrite.go:53-70 | a target is absent, as it was at the start, or the complete bytes of one call, after a crash too |
| AtomicWriteTheorems.OnlyRenameOrDelete | internal/account/atomicwrite.go:70 | only a rename onto a target or its deletion changes what it holds |
| AtomicWriteTheorems.OneWriter | internal/account/atomicwrite.go:36-51 | one call at a time between lock and unlock |
| AtomicWriteTheorems.RemovesOnlyItsOwn | internal/account/atomicwrite.go:43-58 | the deferred removal, which runs before the deferred unlock, never removes another call's file |
| AtomicWriteTheorems.OutcomeIsTrue | internal/account/atomicwrite.go:53-70 | success is reported exactly when the bytes reached the target, once |
| AtomicWriteRuns.NothingWentWrong | internal/account/atomicwrite.go:23-71 | over any run, a call fails exactly when one of its operations did, is busy exactly when its time for the lock ran out, and succeeds exactly when neither happened, which is exactly when it renamed its file |
| AtomicWriteRuns.OutcomeHasCause | internal/account/atomicwrite.go:23-71 | the same at every point of a call: nothing is decided before one of these steps, no two of them happen to one call, and a crashed call took a crash step |
| AtomicWriteRuns.WriteRound | internal/account/atomicwrite.go:53-70 | a call that finds the lock free and meets no error ends in success: the target holds its data, no temp name is left, the lock is free, every other target is as it was |
| AtomicWriteRuns.BusyRound | internal/account/atomicwrite.go:38-50 | a call that waits too long for a held lock returns busy and touches no file |
| AtomicWriteRuns.CrashFreesTheLock | internal/account/atomicwrite.go:36-51 | the lock of a crashed process is freed without a change to any file |
| AtomicWriteRuns.ReadRound | internal/account/session.go:34-41 | an undisturbed read returns what the target holds, or that there is none |
| AtomicWriteRuns.DeleteRound | internal/account/session.go:75-79 | a deletion empties its target and no other |
| AtomicWriteTheorems.NoLeftovers | internal/account/atomicwrite.go:57-58 | without crashes and failed removals temp files exist only under the lock |
| AtomicWriteTheorems.ReadsOneVersion | internal/account/session.go:34-41 | a lock-free read returns one version of the file |
| AtomicWriteTheorems.ReadIsASnapshot | internal/account/session.go:34-41 | namely what the target held when it was opened |
| AtomicWriteTheorems.LoadSessionIsSafe | internal/account/session.go:34-62 | loading finds no session or returns exactly a stored payload; the length error needs a stored payload of 2^32 bytes or more |
| SessionFrame.FrameSession | internal/account/session.go:64-71 | the buffer filled in place is the frame of the payload |
| SessionFrame.ParseSession | internal/account/session.go:42-61 | the checks and the copied payload agree with the specification |
| SessionFrame.FrameLayout | internal/account/session.go:64-71 | the file byte by byte: the four letters, version one in two bytes, the length in four, the payload |
| SessionFrame.LoadWhatWasStored | internal/account/session.go:34-71 | a stored payload is loaded again exactly when its length fits the 32-bit field |
| SessionFrame.AcceptsOnlyFrames | internal/account/session.go:42-61 | a file is accepted with a payload exactly when it is that payload's frame |
| SessionFrame.DamageIsNamed | internal/account/session.go:42-58 | a wrong magic, version or length is reported as itself, in that order |
| SessionFrame.NoTornFrame | internal/account/session.go:42-58 | a file cut short is never accepted |
| Text.ParseFormat | internal/ref/ref.go:49 | a printed number is read back exactly when it is in the 64-bit range |
| Text.ParseIntReads | internal/ref/ref.go:110-113 | the texts read as a number are its digits behind zeros and a fitting sign, in range |
| Text.SplitJoin | internal/ref/ref.go:133 | splitting at colons loses nothing and leaves none in a part |
| Refs.ParsedIffWellFormed | internal/ref/ref.go:60-115 | the records parsing can return are exactly the well-formed ones |
| Refs.RoundTrip | internal/ref/ref.go:36-58 | every well-formed reference of any kind is parsed back from its printed form |
| Refs.ParseStringParse | internal/ref/ref.go:60-115 | every accepted text, whatever its spelling, parses to a reference that its printed form parses to |
| RefSpelling.ParseRefReads | internal/ref/ref.go:60-115 | a text is accepted for a reference exactly when it is one of its spellings, for a reference within plain bounds: any link prefix, any kind word, any leading zeros and fitting signs; letters, digits and underscores in a name, digits in a phone number |
| RefSpelling.RefusalIsNamed | internal/ref/ref.go:60-115 | what a refusal says about the text: empty, a link or sign with nothing behind it, a wrong character behind a sign, or a kind word in front of a malformed peer |
| Refs.StringInjective | internal/ref/ref.go:36-58 | accepted references print alike exactly when they are the same |
| MessageRefs.MessageRoundTrip | internal/ref/message.go:16-41 | a printed message reference is parsed back by splitting at the last colon |
| MessageRefs.ParsePrintParse | internal/ref/message.go:27-41 | every accepted message reference is well-formed and survives printing |
| MessageRefs.ParseMessageReads | internal/ref/message.go:27-41 | the accepted texts are any text of the peer, a colon, and any spelling of a positive id in range |
| MessageRefs.MessageRefusalIsNamed | internal/ref/message.go:27-41 | a wrong shape is a text that no colon cuts in two; a wrong id is a last part that spells no positive number in range; a wrong peer carries its own error |
| MessageRefs.PeerIsNoMessage | internal/ref/message.go:27-41 | a user, chat or channel reference is never also a message reference |
| MessageRefs.BothOnlyForLinks | internal/ref/message.go:27-41 | only links can be read both ways |
| MessageRefs.LinkMayBeMessage | internal/ref/message.go:27-41 | and some links are |
| MessageRefs.PrintsAlike | internal/action/message/ops.go:736 | comparing printed peers decides whether the peers are the same |
| MessageRefs.ParseMessageRefs | internal/action/message/ops.go:721-742 | succeeds exactly when all references are accepted and name one peer, with the ids in order; otherwise the error is that of the first reference that spoils it |
| Base64Url.DecodeEncode | internal/action/message/sticker.go:39 | decoding undoes encoding of any bytes |
| Base64Url.KnownAnswers | internal/action/message/sticker.go:39 | the test vectors of section 10 of RFC 4648, unpadded, and the two URL-safe symbols |
| Base64Url.GroupBits | internal/action/message/sticker.go:39 | three bytes are a 24-bit number in four digits; a short group is filled up with zero bits |
| Base64Url.AcceptedCharacters | internal/action/message/sticker.go:46 | only the alphabet and line breaks are accepted |
| Base64Url.DecodedText | internal/action/message/sticker.go:46 | an accepted text differs from the true encoding in line breaks and the last symbol's unused bits at most |
| DocTokens.EncodeDocToken | internal/action/message/sticker.go:32-40 | the buffer filled in place, encoded behind the prefix |
| DocTokens.DocLayout | internal/action/message/sticker.go:32-38 | the bytes behind a token: id, access hash, set id and set access hash, eight bytes each, most significant first, in two's complement, and then the file reference |
| DocTokens.DecodeReads | internal/action/message/sticker.go:42-57 | a text is no token unless something follows the prefix; else it is accepted exactly when the rest decodes to 32 bytes or more, and those are the document's bytes |
| DocTokens.TokenRoundTrip | internal/action/message/sticker.go:32-57 | all four signed numbers and the file reference come back |
| DocTokens.TokenInjective | internal/action/message/sticker.go:32-40 | different documents have different tokens |
| DocTokens.OneKind | internal/action/message/sticker.go:42-45 | a text with one prefix is no token for the other |
| DocTokens.TokenIsNoMessage | internal/action/message/sticker.go:61-75 | an accepted token is no message reference |
| DocTokens.PrefixedIsNoMessage | internal/action/message/sticker.go:61-75 | a message reference never starts like a token |
| DocTokens.SourceReadings | internal/action/message/sticker.go:61-75 | the two readings of a source argument never overlap, so their order does not matter |
| DocTokens.HandlesDoNotMix | internal/action/message/gif.go:18-39 | a sticker handle is refused for a gif and the other way round |
| RawMaps.RawMap.ReadRaw | internal/config/keys.go:106-121 | the entry at the dotted path, or none |
| RawMaps.RawMap.WriteRaw | internal/config/keys.go:125-137 | the heap tree afterwards represents the written path map, and is a tree before and after |
| RawMaps.RawMap.UnsetRaw | internal/config/keys.go:142-158 | true exactly when the key was there; the tree afterwards represents the path map without it |
| RawMaps.PutAt | internal/config/keys.go:125-137 | every path after a write: the leaf, tables above it, nothing below it, all else unchanged |
| RawMaps.ReadAfterWrite | internal/config/keys.go:103-137 | a write is read back and keys that are no prefix of one another do not interfere |
| RawMaps.PutIsTree | internal/config/keys.go:125-137 | a write to a tree gives a tree, even where it replaces a scalar by a table |
| RawMaps.UnsetAfterWrite | internal/config/keys.go:139-158 | unsetting a new key restores everything but the tables made on the way, which are not pruned |
| Config.Merge | internal/config/merge.go:5-43 | the twelve overwrites compute the field-wise choice |
| Config.FieldsDetermine | internal/config/config.go:8-33 | the keys cover the whole record |
| Config.DefaultSettings | internal/config/config.go:37-43 | the seven defaults, and none for any other setting |
| LoadMerged.SettingName | internal/config/keys.go:35-47 | the dotted name of every setting |
| Layers.ApplyRawLayer | internal/config/load_merged.go:118-137 | one layer over the tree and the sources, recursively |
| Layers.OrderDoesNotMatter | internal/config/load_merged.go:119 | any iteration order gives the same tree and sources |
| LoadMerged.OverlayConfig | internal/config/load_merged.go:118-137 | a key has the upper layer's value if there is one, else the lower one's |
| LoadMerged.MarksOfLayer | internal/config/load_merged.go:132-135 | a layer is recorded as source for exactly the keys it sets |
| LoadMerged.RawFormIsRaw | internal/config/load_merged.go:139-156 | every configuration has a raw form with exactly its keys, so the layers the theorems assume exist |
| LoadMerged.PipelineFaithful | internal/config/load_merged.go:48-84 | the four layers are faithful, also after an empty alias table was dropped from the file |
| LoadMerged.FieldComesFrom | internal/config/load_merged.go:86-112 | for every setting, the merged record and the raw tree agree and the source names the highest layer that sets it |
| LoadMerged.AliasComesFrom | internal/config/load_merged.go:94-105 | an alias in the raw tree has the value and the source of the highest layer that has it |
| LoadMerged.AliasesAgreeIff | internal/config/load_merged.go:86-112 | the two results agree on aliases exactly when the highest alias table has every lower alias |
| LoadMerged.OneAliasTable | internal/config/load_merged.go:86-112 | in particular when one layer at most has aliases |
| LoadMerged.PipelineAgrees | internal/config/load_merged.go:86-112 | over the four layers, record and raw tree have the flag, else environment, else file, else default value of every setting, and the source names that layer |
| LoadMerged.PipelineAliases | internal/config/load_merged.go:63-112 | the two results agree on aliases exactly when the flags have no alias table or one with every alias of the file |
| LoadMerged.AliasesMayDiffer | internal/config/load_merged.go:86-112 | a concrete file and flag layer, with their raw forms, on which the two results differ |
| LoadMerged.FieldByName | internal/config/keys.go:35-47 | a setting's dotted name leads to its key |
| LoadMerged.AliasByName | internal/config/keys.go:106-121 | an alias is found by its dotted name exactly when it has no dot itself |
| LoadMerged.LoadMergedWithSources | internal/config/load_merged.go:44-113 | the pipeline computes both results and the sources; for layers as the file format gives them the results agree on every setting, the sources are right, and aliases agree under the condition above |
| UpdatesSinks.UpdatesSink.constructor | internal/daemon/worker.go:186-199 | opening picks up the size of the file |
| UpdatesSinks.UpdatesSink.RotateLocked | internal/daemon/worker.go:223-242 | the rotation with a failure at any call |
| UpdatesSinks.UpdatesSink.Write | internal/daemon/worker.go:201-218 | the write with its partial failure and its rotation |
| UpdatesSinks.RecordInv | internal/daemon/worker.go:201-242 | each file holds whole records, one after the other, through every write |
| UpdatesSinks.NothingLostInBetween | internal/daemon/worker.go:186-242 | from opening, through any writes and failures: discarded bytes, backup and current file are everything that reached the disk, in order, cut between records |
| UpdatesSinks.CounterIsSize | internal/daemon/worker.go:194-208 | after any calls the counter is the file's size exactly when the size was known or the file empty at opening and no write failed half-way since, or a rotation went through after that |
| UpdatesSinks.HalfWriteIsNotCounted | internal/daemon/worker.go:204-208 | a concrete half-written record that is not counted |
| UpdatesSinks.PumpKeepsCount | internal/daemon/worker.go:201-242 | a pump without error keeps the counter equal to the size, and the file below the limit |
| UpdatesSinks.CountFromOpening | internal/daemon/worker.go:186-199 | for a pump without error from opening, the counter is right exactly when the size was learned, the file was empty, or the lines alone reach the limit |
| UpdatesSinks.UnknownSizeOverruns | internal/daemon/worker.go:194-198 | a concrete file over its limit after an unknown size, without any error |
| UpdatesSinks.PumpEvents | internal/daemon/worker.go:152-174 | events are published in order, each after its write, until the first error |
| UpdatesSinks.PublishedWereWritten | internal/daemon/worker.go:166-171 | an event is published exactly when all writes up to its own had no error |
| UpdatesSinks.PublishedIff | internal/daemon/worker.go:163-172 | how many events are published, read off the line lengths and the file system's answers: each up to the first that is not written whole or whose due rotation fails at any call |
| UpdatesSinks.PumpContinuesIff | internal/daemon/worker.go:209-215 | the same condition for one event on any sink |
| UpdatesSinks.RotationFailureEndsPump | internal/daemon/worker.go:209-242 | the event a failed rotation stops at is at the end of the current file, or of the backup when only the reopening failed; the current file loses no byte, the old backup may be gone; the sink is left open exactly when the close and the reopening worked and the rename did not |
| UpdatesSinks.FailedRenameExample | internal/daemon/worker.go:229-234 | a concrete rename failure: the event is in the file, unpublished, and the pump has ended |

## Left out

- FanoutTheorems.Conservation: subscription ids and drop counters are unbounded here, 64 bits wide in the original.
- FanoutTheorems.FreshId: for the same reason it does not speak of an id counter that has wrapped around.
- Rpc.Correlation: closing the client while a call or the reader is at work is not modelled; the original then
  closes channels the reader may still send on, so no invariant is claimed there.
- Rpc.AtMostOnce: request ids are unbounded here too.
- Rpc.ReaderNeverBlocks: speaks of response channels only; the reader does wait when nobody drains the events.
- ListMessages.ListRows: rows have no message refs, edit date, pin mark, buttons or entities, which the loop does
  not look at; the iterator is a given sequence and its final error is not modelled; album members with equal ids
  may come in either order in the original.
- Utf16.SliceExact: the switch that labels entity kinds is not modelled, only the slice all of them share.
- SentMessages.DedupeSentMessages: how updates are turned into rows before is not modelled.
- AtomicWriteTheorems.TargetsAreWhole: crashes are of processes; the original does not flush to the device, so
  nothing is said about a loss of power. Writing without a lock, which no caller does, is not modelled.
- AtomicWriteTheorems.OneWriter: renaming or removing a whole account directory is not modelled; removal
  (`internal/account/store.go:79`) deletes the lock file as well, and the lock does not survive that.
- SubscriptionManagers.SubscriptionManager.Publish: the methods run one at a time; interleavings are in Fanout,
  where connections, streamers and subscriptions are values of one state and not objects.
- Rpc and Fanout model goroutine code as step systems over values, so aliasing of the original's objects is not
  visible there.
- LoadMerged.LoadMergedWithSources: reading the file and the environment, enum validation and their errors are not
  modelled; the raw form of a layer is given, related to the typed one by IsRawOf.
- RawMaps.RawMap.WriteRaw: values are scalars, as its callers write them.
- Layers.ApplyRawLayer: works on values, so sharing of sub-tables between layers is not visible.
- UpdatesSinks.UpdatesSink.constructor: an opening that fails returns an error and no sink.
- UpdatesSinks.PumpEvents: the events are those received before the context is cancelled, which ends the loop
  without an error.
- UpdatesSinks.UpdatesSink.Write: what else may happen to the files from outside the process is not modelled.
- The 1 MB limit on a frame, JSON and TOML themselves, and everything that depends on time.
- Restarting a client, liveness of connections, socket set-up and metrics.
- Read-modify-write helpers on account state, which read outside the lock.
- Telegram calls, authentication, resolving peers, dialogs, commands, tables and prompts: library behaviour or user
  interface.
- Validators with one branch and exit-code tables: each is a single comparison or lookup with nothing to relate.
