# Proofs about hypergraph's deterministic kernels

Dafny models of the parts of hypergraph that decide things by themselves, with
no input or output inside, and proofs of what each promises. `dafny verify
dfyconfig.toml` checks all of it.

| files | part of hypergraph |
|---|---|
| `LogKeys`, `Digests`, `SortedKeys` | a member's sorted keys, with counts and digests of any range (`lib/ranges.js`, class `Keys`) |
| `RangeSession`, `RangeReplies`, `RangeExchange`, `RangeBounds`, `RangeNeeds` | one peer's side of the range exchange (`lib/ranges.js`, class `Session`), two honest members exchanging over FIFO channels, how the exchange ends, and that nothing travels or is taken that need not |
| `Directory`, `DirectoryRun` | the directory's bookkeeping of one channel (`lib/directory.js`): which messages are unanswered, and when the directory is known; two such channels joined |
| `KeyLinks` | links between the epoch keys of a private space (`lib/space.js`) |
| `Blocks`, `WriteLimit`, `Activity`, `EntryRepair` | a log as another member sees it, the write limit of an open space (`lib/limit.js`), activity entries (`lib/activity.js`) and how they are put right when blocks are wiped (`lib/space.js`) |
| `Completeness` | the indexer's pass over a log and what `completeFrom` may then claim (`lib/index/indexer.js`, `lib/space.js`) |
| `Shares` | storage budgets (`lib/storage.js`) |
| `Varint`, `Fields`, `Types` | the tagged field encoding (`lib/fields.js`) and the compatibility of type declarations (`lib/types.js`) |
| `ContextRoles`, `RoleLaws` | roles, linked writers and invites of a version 3 context (`src/context-base.js`, `src/roles-registry.js`), and exactly when each event counts |
| `ContextApply`, `IndexLaws` | applying a context's log in chunks with edge counters held back (`src/context-base.js`, `src/index-layout/context.js`), and what a reader of the index is promised |

Code that works in place is a class or a method with loops, tied by its
`ensures` to a function of what it was given; the properties are lemmas about
those functions and about every run of them.

## What does not hold as written

Each of these is proved with a concrete input, and the exact condition under
which the code does meet its promise is proved beside it.

- `lib/limit.js:7-9` says deleting never frees room. It holds on logs whose
  stamps never decrease (`WipingNeverFreesRoom`), and on any log exactly when
  every readable block of the window is too recent (`WipingFreesRoomExactly`);
  `WipingMayFreeRoomOutOfOrder` is a log where it does not.
- `lib/index/indexer.js:146-150`: a run that fails leaves blocks looked at,
  neither indexed nor holes, and clears `uncommitted`: those of its batch when
  judging them or the transaction fails, and the block being read when a read
  does (`lib/index/indexer.js:352-355` raises `scanned` before it reads).
  `completeFrom` may then say complete (`FailedBatchStillSaysComplete`,
  `FailedReadStillSaysComplete`). A complete answer is right if and only if no
  block asked for was lost by a run that failed and not looked at since
  (`CompleteIsRightIffNothingLost`).
- `lib/activity.js:4-8`: a checked entry may start after a record of its period
  or a later one (`CheckedEntryMayMissOutOfOrder`). No entry that passes for a
  member not holding the block at its start does, if and only if the log's
  periods never decrease below its cut (`CheckedMissNothingIff`). For a member
  that holds that block, if and only if they never decrease towards a block
  whose next one, if readable, is of a later period (`HeldMissNothingIff`).
- `lib/space.js:1981-2006` moves an entry that starts right after a wiped block
  down to where it can be checked. It finds the entry by the block after the
  wiped one: if that cannot be read, being wiped too, the entry stays and fails
  every check (`DeletedBackwards`; not in the other order, `DeletedForwards`). It
  also passes over blocks whose content it dropped, and others find the entry
  false (`MovedBelowADroppedBlock`). All entries pass after it if and only if
  none starts there, or the next block is read here, the search does not stop at
  a block not read here, and the block moved to is wiped (`RepairedIff`).
- `src/context-base.js:863-865` says the last indexer is never demoted. Each writer
  of a demoted member is asked about alone (`src/context-base.js:888`), so a
  member with two writers that are the only indexers leaves none
  (`BothWritersMayBeDemoted`), and adding the only indexer again asks nothing
  (`AddingMayStopIndexing`). `IndexingStopsIff` gives, for every event, exactly
  when it leaves nobody indexing.
- `src/context-base.js:850-851` says a writer indexes exactly when its member's
  role allows it. `IndexingFollowsRolesIffSteady` gives the events
  that keep this, all others breaking it: a redemption promotes only the
  redeeming writer (`JoiningMayLeaveAWriterBehind`), a writer linked to a second
  member keeps following the first, and adding or removing a linked writer
  without its member ignores the role.
- `lib/types.js:238-242`: an index declared as `['stamp']` is stored with no
  keys, and such a type is refused when read back (`StampIndexIsRefused`,
  exactly when: `DescribedReadsBack`).
- `lib/types.js:159-167`: an older app that agrees with a space's types may
  group one-per-member records otherwise than the space (`AgreeingMayGroupApart`,
  exactly when: `AgreeingGroupsAlike`).
- `src/index-layout/context.js:79-91`: whoever tags the same twice and takes the
  tag back leaves the first tag where a reader of all tags finds it, and `hasTag`
  says no (`TagLeftBehind`, exactly when: `TagsExactIff`).
- `src/context-base.js:1448-1466`: a delete of an edge that is not there lowers
  its counters (`DeleteMayMiscount`), and so does one that names another time
  than the active edge's, which readers still get (`StaleDeleteMayMiscount`).
  Counters stay right exactly when a delete names the active edge's time, or
  finds no active edge and both its counters at 0 (`CountersExactIff`).

## Model

| member | source | states |
|---|---|---|
| LogKeys.CheckWithin | lib/ranges.js:60-63 | the nibble loop answers whether the key has the prefix |
| LogKeys.BoundsBracketThePrefix | lib/ranges.js:42-49 | a key has a prefix exactly when it lies between the prefix's smallest and largest key |
| LogKeys.ChildOfKey | lib/ranges.js:51-58 | the 16 children of a range split it: a key is in exactly the one its next nibble names |
| Digests.XorInto | lib/ranges.js:174-176 | writing into the first buffer gives the XOR of both |
| Digests.XorLaws | lib/ranges.js:174-176 | XOR commutes, associates and undoes itself, so the digest does not depend on the order of operations |
| Digests.DigestOfConcat | lib/ranges.js:178-182 | the digest of two lists together is the XOR of their digests |
| Digests.HeldIsCanonical | lib/ranges.js:81-135 | two members with the same keys and lengths have the same sorted list and the same digest, whatever led there |
| Digests.SliceIsFilter | lib/ranges.js:146-149 | slicing between the ends of the run with a prefix gives exactly the keys with it, in order |
| Digests.FilterOfFilter | lib/ranges.js:137-149 | the keys of an inner range are the same looked for in the outer one |
| SortedKeys.Keys.At | lib/ranges.js:90-99 | the binary search finds the first index whose key is not smaller |
| SortedKeys.Keys.Has | lib/ranges.js:101-104 | whether a key is held |
| SortedKeys.Keys.LengthOf | lib/ranges.js:106-110 | a held key's length, -1 for any other |
| SortedKeys.Keys.Set | lib/ranges.js:116-126 | adds or changes exactly this key, keeping the list sorted, in step with the entries, and the digest the XOR of the items held |
| SortedKeys.Keys.Delete | lib/ranges.js:128-135 | removes exactly this key, keeping the same |
| SortedKeys.Keys.Range | lib/ranges.js:137-144 | an index is in the range exactly when its key has the prefix |
| SortedKeys.Keys.Inside | lib/ranges.js:146-149 | the keys with the prefix, in order |
| SortedKeys.Keys.Count | lib/ranges.js:155-158 | how many keys have the prefix |
| SortedKeys.Keys.Parts | lib/ranges.js:160-171 | part i is the count and digest of child range i |
| SortedKeys.Tally | lib/ranges.js:164-169 | the loop over a range's keys adds each to the part of its next nibble and to no other |
| SortedKeys.InsertEntry | lib/ranges.js:116-126 | inserting a key where the search says keeps the order and XORs its item into the digest |
| SortedKeys.RemoveEntry | lib/ranges.js:128-135 | removing it takes its item out again |
| SortedKeys.ChangeEntry | lib/ranges.js:116-126 | changing a length swaps the old item for the new in the digest |
| RangeSession.Session.constructor | lib/ranges.js:193-197 | a new session remembers no range |
| RangeSession.Session.Begin | lib/ranges.js:199-201 | the first message: the parts of all keys |
| RangeSession.Session.OnRanges | lib/ranges.js:203-228 | the messages sent back and the ranges remembered are those of `AnswerRanges` |
| RangeSession.Session.OnKeys | lib/ranges.js:230-259 | what is sent, learnt, ignored, ended and forgotten is that of `AnswerKeys` |
| RangeSession.DigestOfList | lib/ranges.js:178-182 | the digest of a message's keys and lengths |
| RangeSession.Longer | lib/ranges.js:244-245 | the keys named that this side lacks or holds shorter |
| RangeSession.Lacked | lib/ranges.js:253-254 | the keys held here that the peer's table lacks or has shorter |
| RangeSession.Chunked | lib/ranges.js:255-256 | those, CHUNK to a message, in order |
| RangeReplies.ManyKeysMeanShortPrefix | lib/ranges.js:36-38 | at most 16 keys share 252 bits, so only ranges of at most 248 bits hold more than FEW |
| RangeReplies.HonestKeysAccepted | lib/ranges.js:248-252 | an honest member's keys match what was remembered of its range and are never ignored |
| RangeReplies.RangesAnswerGood | lib/ranges.js:203-228 | answering honest ranges sends only honest messages, the one `done` last, and what is remembered of the peer is right |
| RangeReplies.KeysAnswerGood | lib/ranges.js:230-259 | answering honest keys does the same, and learns only what this side lacks, at the peer's lengths |
| RangeReplies.RangesAnswerCovers | lib/ranges.js:203-228 | a key one side lacks goes on in the answer to the ranges it lies in, before the `done` |
| RangeReplies.AnswerServesPeer | lib/ranges.js:230-259 | answering a message its peer waits on, a member sends what the peer lacks there before the `done` |
| RangeReplies.AnswerServesMe | lib/ranges.js:244-258 | a message covering a key this member lacks teaches it, or makes it ask on |
| RangeExchange.NextKeepsInv | lib/ranges.js:192-260 | every start and every delivery keeps: messages honest, counts exact, nothing learnt but what is lacked, everything lacked learnt or on its way |
| RangeExchange.RunKeepsInv | lib/ranges.js:192-260 | so does every run, with starts by either side at any time |
| RangeExchange.OnlyHonestMessagesTravel | lib/ranges.js:204-242 | in every reachable state every message under way is one its receiver accepts: ranges at most 248 bits deep, and after the first only of ranges of more than FEW keys |
| RangeExchange.CountIsExact | lib/directory.js:625-634 | in every reachable state a side's `waiting` is its unanswered messages plus the `done`s on their way to it |
| RangeExchange.NothingAwaitedMeansLearntExactly | lib/directory.js:636-666 | a side that took part and waits for nothing has learnt exactly the keys the peer holds and it lacks or holds shorter, at the peer's lengths |
| RangeExchange.SettledMeansLearntExactly | lib/directory.js:655-665 | once its count came back to 0 that stays so: the directory may call itself known |
| RangeExchange.SilenceMeansSettled | lib/ranges.js:192-260 | when the channels fall silent after a start, both sides wait for nothing and know all they asked for |
| RangeBounds.AnswerIsLighter | lib/ranges.js:203-259 | the answers to a message weigh less than it did |
| RangeBounds.DeliveriesEnd | lib/ranges.js:192-260 | no run of deliveries is longer than the measure of the state it begins in: the exchange ends |
| RangeBounds.StuckMeansSettled | lib/ranges.js:192-260 | a run of deliveries that cannot go on has settled both sides, each with exactly what it lacked |
| RangeBounds.EachRangeSentOncePerStart | lib/ranges.js:209-225 | a range is sent at most once per start, by either side |
| RangeNeeds.SameContentsSamePart | lib/ranges.js:157-167 | the same contents of a range give the same count and digest, on whichever member |
| RangeNeeds.SameIsDone | lib/ranges.js:204-228 | ranges in which both hold the same are answered with one `done` and nothing else, and nothing is remembered of them |
| RangeNeeds.NextKeepsLean | lib/ranges.js:204-260 | every step keeps what `OnlyNeededMessagesTravel` says |
| RangeNeeds.OnlyNeededMessagesTravel | lib/ranges.js:1-9 | in every reachable state each message but starts and `done`s is of a range in which the two differ; who takes keys goes deeper only where both hold many and offers only keys the other lacks; who does not take never asks |
| RangeNeeds.SameHoldingsExchangeNothing | lib/ranges.js:6-9 | two that hold the same exchange starts and `done`s only, and learn nothing |
| RangeNeeds.AskingRemembers | lib/ranges.js:217-219 | of each range asked for the count and digest given are remembered, and of no other |
| RangeNeeds.AskedIsChecked | lib/ranges.js:18-20 | whatever a peer answers: keys asked for are taken if and only if they are as many and of the digest it gave for that range, and but once |
| RangeNeeds.LearntWithinBounds | lib/ranges.js:233-260 | whatever a peer sends: what is learnt lies in its range and is lacked here, FEW keys at most in a whole range not asked for; what is ignored teaches and asks nothing |
| RangeNeeds.IgnoredExactly | lib/ranges.js:234-252 | exactly which keys messages are ignored, that kind 3 alone ends an answer, and that every other one awaited gets its `done` |
| RangeNeeds.RangesAlwaysDone | lib/ranges.js:204-228 | ranges of any peer get their `done` last, and nothing at all if they are too deep or not sixteen |
| RangeNeeds.OffersAreSome | lib/ranges.js:213-215 | who does not take offers keys only where it holds some |
| RangeNeeds.MessagesAreShort | lib/ranges.js:34-37 | whatever came, no message names more than CHUNK keys, nor one that names a whole range more than FEW |
| RangeNeeds.ChunksAreAll | lib/ranges.js:256 | the chunks hold the keys lacked, in order, in as few messages as CHUNK allows |
| RangeNeeds.CountNeverNegative | lib/directory.js:650-654 | whatever a peer sends, the count stays at 0 or above, and a `done` nobody waits for changes nothing |
| Directory.Channel.CurrentExchange | lib/directory.js:668-673 | the exchange under way, or a new one for the peer's last summary |
| Directory.Channel.Send | lib/directory.js:625-634 | sends in order, and counts each message the peer will answer |
| Directory.Channel.OnSummary | lib/directory.js:590-623 | starts an exchange only as initiator or while the directory is unknown, when none is under way and the summary is not the one settled with |
| Directory.Channel.OnRanges | lib/directory.js:535 | answering ranges is the step `Receive` of this side, and settles nothing |
| Directory.Channel.Consider | lib/directory.js:645-649 | each key learnt is considered or claimed, and a dropped one is remembered |
| Directory.Channel.Finish | lib/directory.js:651-665 | the directory is known, and settled with that summary, by the `done` that brings the count to 0 with nothing dropped, and by nothing else |
| Directory.Channel.OnKeys | lib/directory.js:636-665 | the step `Receive` of this side; an exchange remains while answers are awaited and remembers whether a log handed over was dropped; the `done` that brings the count to 0 makes the directory known exactly if none was |
| DirectoryRun.Wire.constructor | lib/directory.js:593-673 | two channels with nothing under way |
| DirectoryRun.Wire.Deliver | lib/directory.js:636-673 | each delivery is a step of the exchange, and whoever asks for keys and knows the directory has learnt exactly what it lacked, before and after |
| DirectoryRun.Wire.Turn | lib/directory.js:593-673 | either end of the wire may send and receive: seen from the other one, it is the same exchange mirrored |
| DirectoryRun.Wire.Summarise | lib/directory.js:593-623 | each summary is a start or no step at all, and keeps the same |
| DirectoryRun.SameSummaryKnows | lib/directory.js:603-608 | equal count and digest mean nothing is lacked, so a member may know the directory by the summary alone |
| DirectoryRun.HandAll | lib/directory.js:636-665 | over all keys messages of an exchange: it ends with the directory known exactly if no log of all that were handed over was dropped |
| DirectoryRun.AskAgain | lib/directory.js:656-658 | after an exchange in which one was dropped, the peer's next summary starts another |
| KeyLinks.RotateGrows | lib/decisions/apply.js:501-519 | a rotation records its commitment at most, and forgets none |
| KeyLinks.RotationRecorded | lib/decisions/apply.js:501-519 | exactly when a rotation's commitment is recorded |
| KeyLinks.FreshRotationRecordedOnce | lib/decisions/apply.js:513-517 | a commitment never seen before keeps each recorded for one epoch only |
| KeyLinks.OpensExactly | lib/space.js:1223-1231 | a link opens exactly for a holder of the key it was sealed under, of a later epoch, that lacks the key sealed, which must be of the recorded commitment it names |
| KeyLinks.KeyRing.FollowLinks | lib/space.js:1217-1234 | the fixpoint ends; what is learnt is learnt by opening links from later epochs to recorded commitments, and nothing more can be opened |
| KeyLinks.Reach | lib/space.js:1243-1253 | the least set of keys the current one unlocks |
| KeyLinks.KeyRing.LinkEarlier | lib/space.js:1236-1261 | writes exactly one link from the current key to each earlier key held that it does not unlock yet, and no other |
| KeyLinks.WriteLinks | lib/space.js:1254-1260 | the loop over the recorded commitments: one link to each key missing, no two to the same |
| KeyLinks.WrittenIsHonest | lib/space.js:1254-1260 | every link written seals an older recorded key under a newer recorded one |
| KeyLinks.LinkedThenFollowed | lib/space.js:1217-1261 | after a holder linked, a device that holds the current key and follows all links has every earlier key of the holder |
| KeyLinks.LinkedOnceIsEnough | lib/space.js:1236-1261 | a holder that linked writes no link again for the keys it has |
| KeyLinks.RunKeepsSpaceOk | lib/space.js:1217-1261 | in every run of rotations, grants, links and follows nobody holds a key whose commitment was not recorded |
| KeyLinks.HistoryRecovered | lib/space.js:1217-1261 | in every run: once a holder links and a device with the current key follows, the device has each earlier key the holder has |
| Shares.ShareOut | lib/storage.js:44-73 | the two loops end and give `Result` |
| Shares.EachGetsItsDue | lib/storage.js:48-50 | a kept space gets what it stores, one with a budget that or its floor, whichever is more, a sharing one no less than its floor, and nobody else anything |
| Shares.AddsUpIffFloorsFit | lib/storage.js:57-72 | with a space sharing, the shares add up to exactly the app's budget less what is fixed if and only if the floors fit in what is left |
| Shares.FloorsOnlyIfTheyDoNotFit | lib/storage.js:57-72 | and where they do not fit, each sharing space gets exactly its floor |
| Shares.OneRatioForAll | lib/storage.js:57-72 | then each sharing space gets the larger of its floor and one common ratio of what it holds |
| Shares.OnlyOneFilling | lib/storage.js:57-72 | and no other amounts of that form use up the same pool |
| Shares.SettleFills | lib/storage.js:59-72 | the loop from any round on: one ratio for those left, their pool used up |
| WriteLimit.Judge | lib/limit.js:15-24 | the loop gives `JudgeOf` |
| WriteLimit.NextAllowed | lib/limit.js:28-36 | the loop gives `AllowedOf` |
| WriteLimit.WindowHolds | lib/limit.js:1-9 | with stamps that never decrease, any `records` + 1 blocks of which the last is judged ok span at least `periodMs`, whatever lies between or was wiped before |
| WriteLimit.FirstRecordsCount | lib/limit.js:6-7 | without a limit, or among a log's first `records` records, a record is ok whatever is known of the log, and could be written now |
| WriteLimit.OverIffFull | lib/limit.js:3-8 | on a log all known with stamps that never decrease: over exactly if it and the `records` before it lie within less than a period, else ok |
| WriteLimit.AllCountIffSpread | lib/limit.js:2-4 | such a log counts whole if and only if any `records` + 1 in a row span a period |
| WriteLimit.WaitsForOne | lib/limit.js:15-24 | it waits exactly for a block not here with all between it and the start of the window wiped |
| WriteLimit.WipingNeverFreesRoom | lib/limit.js:7-9 | with such stamps, wiping more never turns over into ok |
| WriteLimit.WipingMayFreeRoomOutOfOrder | lib/limit.js:7-9 | a log with decreasing stamps where it does |
| WriteLimit.WipingFreesRoomExactly | lib/limit.js:15-24 | on any log, wiping cannot free room exactly when every readable block of the window is too recent |
| WriteLimit.AnswersStand | lib/limit.js:13-24 | on any log an answer other than wait does not change as more blocks become known |
| WriteLimit.AllowedIsExact | lib/limit.js:26-36 | with all blocks known `nextAllowed` is now exactly when judged ok, else the least stamp that would count |
| WriteLimit.AllowedNowIsSafe | lib/limit.js:26-36 | with blocks missing, on a log whose stamps never decrease, now is still right for whoever knows more |
| WriteLimit.MissingAsWiped | lib/limit.js:28-36 | and for a new record a block not here is as one wiped |
| Activity.Derive | lib/activity.js:34-49 | the loop gives `DeriveOf` |
| Activity.EntriesIncrease | lib/activity.js:27-33 | entries strictly increase in both period and start, whatever the stamps and wiped blocks |
| Activity.EntriesCover | lib/activity.js:27-33 | every readable block looked at is covered by an entry of its period or later that starts no later |
| Activity.LowestStartMissesNothing | lib/activity.js:1-8 | the lowest start of period p or later is at or below every readable record of those periods |
| Activity.NoEntryNoRecord | lib/activity.js:1-8 | with no entry from p on there is no such record |
| Activity.ResumedIsOnePass | lib/activity.js:27-33 | deriving in pieces, each resumed where the last ended and with more known, gives what one pass gives |
| Activity.DerivedPass | lib/activity.js:51-66 | every entry derived from a log, below its cut, passes its check, the block at its start held or not |
| Activity.ChecksStand | lib/activity.js:51-66 | it waits exactly for the block before the start, and false stays false whatever else becomes known |
| Activity.CheckIsExact | lib/activity.js:51-66 | with no wiped block and stamps that never decrease, an entry passes exactly when its start is the first block of its period or later |
| Activity.CheckedEntryMissesNothing | lib/activity.js:51-66 | with such stamps a checked entry misses no readable record of its period or later |
| Activity.CheckedEntryMayMissOutOfOrder | lib/activity.js:51-66 | with decreasing stamps it may |
| Activity.CheckedMissNothingIff | lib/activity.js:51-66 | on any log, the entries that pass for one not holding the block at their start all miss nothing if and only if the log's periods never decrease below its cut |
| Activity.HeldMissNothingIff | lib/activity.js:51-66 | and those that pass for one who holds it, if and only if no readable block is of a later period than a later one below the cut whose next block, if readable, is of a later period than it |
| EntryRepair.DerivedSound | lib/activity.js:27-33 | a derived entry starts after a readable block or the header, all readable blocks before it are of earlier periods and the one at its start of its own |
| EntryRepair.SoundPasses | lib/activity.js:51-66 | such an entry passes, the block at its start held or not, and misses no record of its period or later, whatever the order of stamps |
| EntryRepair.DerivedPassesIff | lib/activity.js:30-33 | after any blocks are wiped, a derived entry passes if and only if the block before its start is not one of them |
| EntryRepair.MovedPasses | lib/space.js:1981-1990 | moved down to after the last readable block, it passes again and misses nothing |
| EntryRepair.Entries.WipedEntry | lib/space.js:1985-2004 | the entry of the next block's period that starts right after the wiped one is moved down, as is the block deriving goes on from; nothing else changes, and nothing at all if it cannot be told |
| EntryRepair.Entries.AfterReadable | lib/space.js:1987-1991 | the loop finds the block after the last readable one, or stops when it cannot be told |
| EntryRepair.CannotTellIff | lib/space.js:1988-1990 | it cannot be told exactly if nothing can be read from there down to a block that is not read here |
| EntryRepair.RepairedIff | lib/space.js:1981-2004 | of sound entries, after one more block is wiped and the repair, all pass for everyone, and are sound, if and only if none starts right after that block or it can be repaired; starts only go down and none misses a record |
| EntryRepair.DerivedStands | lib/activity.js:28-30 | where deriving stands: after the last readable block, with no later period before |
| EntryRepair.NextEntryPassesIff | lib/space.js:1992 | the next entry derived passes if and only if the block wiped is not the last readable one or what is found below it is wiped |
| EntryRepair.DeletedBackwards | lib/space.js:1993-1995 | two neighbouring records deleted, the later one first: the entry after them passes for nobody |
| EntryRepair.DeletedForwards | lib/space.js:1993-2001 | deleted in their order, it passes |
| EntryRepair.MovedBelowADroppedBlock | lib/space.js:1986-1990 | a repair on a member that dropped the block before makes an entry others find false |
| Completeness.Log.LookAt | lib/index/indexer.js:331-389 | one batch: unless it fails, each hole that arrived and each block scanned ends as it was found (taken, a hole, or done with), no other changes, and arrived holes or blocks are left only if the batch is full; it fails only at a block that cannot be read or judged, and only then is a block lost |
| Completeness.Log.Arrivals | lib/index/indexer.js:339-344 | of the blocks that arrived exactly the holes that are held are taken, and some are left only if the batch is full; one whose read fails stays a hole |
| Completeness.Log.Scan | lib/index/indexer.js:345-356 | reads every block up to the end or a full batch but those to skip, and each becomes what is found; a read that fails ends it past that block, which is lost |
| Completeness.Log.Take | lib/index/indexer.js:352-355 | a block looked at is taken if held, done with if known wiped, a hole if neither, and lost if its read fails and it was not indexed, a hole or taken; what it was before no longer counts |
| Completeness.Log.Unlock | lib/index/indexer.js:357-367 | exactly the locked records leave the batch, as holes, and the others are holes no more |
| Completeness.Log.JudgeOne | lib/index/indexer.js:377-387 | one block of the batch: kept, a hole again, or done with |
| Completeness.Log.Judge | lib/index/indexer.js:368-389 | exactly what is within the limit stays in the batch, what waits is a hole, what is over it is done with; it fails only at a block that cannot be judged |
| Completeness.Log.Jump | lib/index/indexer.js:347-351 | no block is read in the jump, and it stops at the end of the blocks to skip or of the log |
| Completeness.Log.Run | lib/index/indexer.js:324-389 | a whole run, unless it fails: everything arrived and scanned is as its look says, indexed exactly if it can be read and is within the limit, and a hole exactly if it is not here or waits |
| Completeness.Log.Arrived | lib/index/indexer.js:174-179 | a block that comes below the scan, of those read here, is looked at again |
| Completeness.Log.RecheckHoles | lib/index/indexer.js:164-169 | so is every hole, after a while |
| Completeness.Log.FillHoles | lib/index/indexer.js:153-156 | once all holes can be read, looking at them again leaves none: each is indexed, or over the limit |
| Completeness.Log.Commit | lib/index/indexer.js:403-409 | a committed batch is indexed |
| Completeness.Log.Fail | lib/index/indexer.js:146-150 | a run that fails loses what its batch held and was not indexed, done with or a hole |
| Completeness.Log.Wipe | lib/index/indexer.js:239-247 | a hole whose record was deleted is done with, no other block is |
| Completeness.Log.ReadAgain | lib/index/indexer.js:223-230 | every block is looked at again |
| Completeness.Log.ReadFrom | lib/space.js:2876-2892 | reads from an earlier block on and skips what the scan did since the last start; a block is looked at twice exactly when it was to be skipped already and lies outside of that |
| Completeness.Reading.Remember | lib/space.js:2827-2833 | the lowest start of each log and period is kept, nothing else changes |
| Completeness.Reading.Kept | lib/space.js:2863-2874 | an entry within the periods read is remembered and its log read from there |
| Completeness.Reading.StartOf | lib/space.js:2855-2861 | the lowest start of a log's entries at or after a period |
| Completeness.Reading.CompleteFrom | lib/space.js:2929-2957 | for a member that reads from a horizon on: yes exactly when members are known or the space is personal, the lists reach back that far, none waits, and every log with an entry from then on is complete from its start |
| Completeness.Reading.LogReady | lib/space.js:2950-2954 | what it asks of one log |
| Completeness.CompleteNeeds | lib/space.js:2929-2957 | it is no before it is known who writes and what is read, while the lists are not whole from then on, and while a log with an entry from then on is behind |
| Completeness.WholeListsCover | lib/space.js:2929-2933 | with whole lists, every readable record of those periods is at or after the start read from |
| Completeness.CompleteMeansIndexed | lib/space.js:2929-2957 | if it says yes and the lists are whole, a readable record stamped in that period or later of a log read is indexed, has nothing to index, or was lost |
| Completeness.CompleteIsRightIffNothingLost | lib/space.js:2929-2957 | if it says yes and the lists are whole, all there is to index of that period and later is indexed if and only if none of it was lost by a run that failed and not looked at since |
| Completeness.FailedRun | lib/index/indexer.js:403-409 | a run whose transaction fails ends with a record neither indexed nor a hole |
| Completeness.FailedRead | lib/index/indexer.js:352-355 | so does a run that fails to read the record's block |
| Completeness.FailedBatchStillSaysComplete | lib/space.js:2951-2954 | after the failed transaction the answer is complete although that record is not indexed |
| Completeness.FailedReadStillSaysComplete | lib/space.js:2951-2954 | and so it is after the failed read |
| Varint.UintRoundTrip | lib/fields.js:65-73 | a field header's number reads back, whatever follows it |
| Varint.UintIsLocal | lib/fields.js:141-142 | reading a number depends on its own bytes only |
| Fields.Decode | lib/fields.js:134-154 | the loop gives `DecodeOf`: the last entry of each field, null for none, an error if an entry or a link runs past the end |
| Fields.UnknownOf | lib/fields.js:86-99 | the loop gives the entries of fields not declared, in order, byte for byte |
| Fields.Encode | lib/fields.js:107-132 | the loops give `EncodeOf` |
| Fields.WriteFields | lib/fields.js:112-127 | each field given is written with its number and length, link targets added to the list once |
| Fields.WriteRaw | lib/fields.js:128-131 | the entries kept follow unchanged |
| Fields.ParseOfConcat | lib/fields.js:137-141 | entries put one after another read as those entries |
| Fields.WrittenValue | lib/fields.js:112-127 | each field written reads back as its value, links added later or not |
| Fields.LinksOnce | lib/fields.js:116-121 | the list of links holds those it held and each target given, and none twice |
| Fields.NewerReadsOlder | lib/fields.js:1-5 | a record reads as written under its own declaration and any that appends fields, null in those |
| Fields.OlderReadsNewer | lib/fields.js:3-4 | whatever record a newer declaration reads, an older one reads too, with the same values in the fields it knows |
| Fields.EditKeepsNewerFields | lib/fields.js:101-132 | an edit by an older app, read by the newer, has the edited values in the older fields and the values it had, link targets included, in the others |
| RecordTypes.DeclaredIsSound | lib/types.js:201-262 | a declaration accepted has distinct unreserved fields, links from link fields to known types, and indexes over its own fields |
| RecordTypes.DeclaredExactly | lib/types.js:201-262 | exactly which declarations are accepted, and what becomes of one: as declared, grouped by its first link field if one per member, its indexes without the stamp |
| RecordTypes.OlderDefaults | lib/types.js:189-199 | a type stored before links and put were has no link targets and is put by members |
| RecordTypes.StoredReadsBack | lib/types.js:189-199 | a stored type read back is the type, unless an index has no keys |
| RecordTypes.StampIndexIsRefused | lib/types.js:237-242 | a declaration accepted that is refused when read back from its stored form |
| RecordTypes.DescribedReadsBack | lib/types.js:46-50 | so the types in use, stored and read back, are the same, if and only if no index was declared as stamp alone |
| RecordTypes.CheckType | lib/types.js:135-151 | the checks in order: the first thing wrong with one type, or nothing |
| RecordTypes.AcceptedIffGrows | lib/types.js:127-153 | the checks accept a type exactly when fields were only appended, link targets, grouping field and rules staying the same |
| RecordTypes.Types.New | lib/types.js:40-44 | succeeds exactly when every declaration is accepted, and holds them and the built-in types |
| RecordTypes.Types.From | lib/types.js:46-50 | the same for a space's stored types |
| RecordTypes.Types.DeclarationsOf | lib/types.js:190-199 | each stored type as a declaration |
| RecordTypes.Types.DescribeTypes | lib/types.js:117-125 | every type but the built-in ones, in stored form |
| RecordTypes.Types.CheckCompatible | lib/types.js:127-153 | accepts exactly when each stored type is still there and only grew; a refusal names a type and what is wrong with it |
| RecordTypes.Types.Conflict | lib/types.js:155-167 | accepts exactly when app and space agree on what both have |
| RecordTypes.Types.Over | lib/types.js:59-68 | the space's types with the app's that are at least as long |
| RecordTypes.CompatibleIsReflexive | lib/types.js:130-153 | types are compatible with themselves as stored |
| RecordTypes.CompatibleIsTransitive | lib/types.js:130-153 | and compatibility passes through a middle version |
| RecordTypes.CompatibleKeepsRecords | lib/types.js:127-153 | every record written under the stored types reads the same under compatible ones, null in added fields, grouped by the same field |
| RecordTypes.OverGrows | lib/types.js:59-68 | if `conflict` accepts, `over` only grows the space's types, shortens no field list, is accepted by `conflict`, and done again changes nothing; read back it is in use if and only if no type taken from the app has an index without keys, and then is compatible with the space's types |
| RecordTypes.AgreeingGroupsAlike | lib/types.js:143-148 | an agreeing app groups one per member as the space does exactly when it knows a link field or the space has none |
| RecordTypes.AgreeingMayGroupApart | lib/types.js:155-167 | an app and a space that agree and do not |
| ContextRoles.Context.ApplyContextInit | src/context-base.js:775-793 | only the creator's first record counts; a version 3 one starts the role table with the creator as owner |
| ContextRoles.Context.ApplyContextUpgrade | src/context-base.js:986-1004 | the creator's conversion starts the table and stops every other indexer |
| ContextRoles.Context.ApplyContextWriter | src/context-base.js:850-861 | links a writer to its member, indexing as the member's role says |
| ContextRoles.Context.ApplyContextRole | src/context-base.js:863-893 | changes the role and all the member's writers, or nothing if one of them is the last indexer |
| ContextRoles.Context.ApplyContextInvite | src/context-base.js:895-928 | mints an invite once, or revokes it, by who may |
| ContextRoles.Context.ApplyContextRedeem | src/context-base.js:930-975 | counts a use, gives the role to a member without one, links and adds the writer |
| ContextRoles.Context.ApplyRolesAdd | src/context-base.js:351-365 | a writer added by the table's rights never indexes |
| ContextRoles.Context.ApplyRolesRemove | src/context-base.js:351-365 | a removal is refused for the last indexer only |
| ContextRoles.Context.Apply | src/context-base.js:281-365 | one event: dispatch, refusal of a context this peer cannot apply, and the invariant kept |
| RoleLaws.WritesByRole | src/context-base.js:43-46 | owners and admins, and nobody else, change who writes, and index |
| RoleLaws.NoRoleIsMember | src/roles-registry.js:102-115 | whoever has no role has the rights of "member", in any table |
| RoleLaws.AssignsByRole | src/context-base.js:820-834 | who may give a role: owners but not away from their own ownership, admins below their rank |
| RoleLaws.RoleGiven | src/context-base.js:863-896 | a role is given exactly if signed by one who may and no writer of the member is the last indexer lost; then that role changes, no other, and the member's writers index as it says |
| RoleLaws.InviteMinted | src/context-base.js:898-930 | exactly when an invite is minted, and as what |
| RoleLaws.InviteRevoked | src/context-base.js:906-912 | it is revoked exactly by its minter, an owner, or an admin where its role is minor, and nothing else changes |
| RoleLaws.InviteRedeemed | src/context-base.js:932-980 | exactly when a redemption counts, and all it changes: a use, the role if there was none, the writer, the scope asked for |
| RoleLaws.WriterAdded | src/context-base.js:850-861 | exactly when a writer is added for a member, linked and indexing as the role says |
| RoleLaws.WritersChanged | src/context-base.js:346-412 | in version 3 writers added otherwise never index, and a removal goes through but for the last indexer |
| RoleLaws.WritersChangedBefore | src/context-base.js:346-412 | before version 3 another registry decides, and a writer added in version 1 indexes |
| RoleLaws.Opened | src/context-base.js:775-805 | the creator's first record alone counts, and opens a table with the one owner if this peer can apply it |
| RoleLaws.Converted | src/context-base.js:985-1003 | the creator's conversion alone counts: one owner, and no other writer indexes |
| ContextRoles.CanByRole | src/roles-registry.js:94-115 | with the default roles only owners hold every right, and owners and admins may index and moderate |
| ContextRoles.StepKeepsInv | src/context-base.js:821-975 | every event keeps: default roles, every member with a role, at least one owner, no invite for owner, none used more than its uses |
| ContextRoles.AlwaysAnOwner | src/context-base.js:823-833 | in every run a context with a role table keeps one with at least one owner |
| ContextRoles.RoleChangesAreGranted | src/context-base.js:821-838 | a role changes only by an owner other than its own ownership, by an admin among no role, member and mod, or from none by an invite, never to owner |
| ContextRoles.MintsAreGranted | src/context-base.js:895-928 | an invite is minted only by an owner, or by an admin for a minor role |
| ContextRoles.OutsidersOnlyRedeem | src/context-base.js:318-322 | an event from a peer that is no writer changes nothing unless it is a valid redemption |
| ContextRoles.UsedCountsRedemptions | src/context-base.js:930-953 | in every run an invite's accepted redemptions are its `used`, at most its `uses`, none once revoked, and it stays as minted |
| ContextRoles.IndexingFollowsRolesIffSteady | src/context-base.js:850-893 | writers index exactly as their members' roles say after an event if and only if the event is not one of those listed |
| ContextRoles.SteadyRunKeepsLinks | src/context-base.js:850-893 | so throughout every run of such events |
| ContextRoles.JoiningMayLeaveAWriterBehind | src/context-base.js:951-973 | a reachable state and a redemption after which a member's other writer should index and does not |
| ContextRoles.RoleChangeStopsIndexingIff | src/context-base.js:884-892 | in any state where some writer indexes, a role change leaves no indexer exactly when it demotes a member whose writers are all the indexers, two or more |
| ContextRoles.IndexingStopsIff | src/context-base.js:850-1004 | in any such state, an event leaves no indexer exactly when it is such a role change, converts a context whose creator's writer does not index, or adds the only indexer again as one that does not |
| ContextRoles.AddingMayStopIndexing | src/context-base.js:351-361 | a reachable state and two events that do the last |
| ContextRoles.BothWritersMayBeDemoted | src/context-base.js:863-892 | a reachable state and a role change that does |
| ContextRoles.RemovalKeepsAnIndexer | src/context-base.js:361-363 | removing a writer never does |
| ContextApply.Applying.AnswerNow | src/context-base.js:1033-1072 | the reader tells an app's rules what the index with the counters held back says |
| ContextApply.Applying.PassesRules | src/context-base.js:1016-1031 | the rules are asked until they answer: what they say is `Passes`, and what they ask and are told is `AllQuestions` |
| ContextApply.Applying.BumpCount | src/context-base.js:1438-1446 | a counter held back changes as one written at once, never below 0 |
| ContextApply.Applying.ApplyRelation | src/context-base.js:1397-1436 | an edge is added once, by its source's author, if the rules accept |
| ContextApply.Applying.ApplyRelationDelete | src/context-base.js:1448-1466 | and deleted by anyone the rules accept |
| ContextApply.Applying.ApplyTag | src/context-base.js:1468-1479 | a tag whose signature held and which the rules accept is added, the rules asked only then |
| ContextApply.Applying.ApplyTagDelete | src/context-base.js:1481-1487 | and removed by its author's reference, likewise |
| ContextApply.Applying.ApplyMessage | src/context-base.js:1489-1499 | a message is stored under its stamp and author |
| ContextApply.Applying.Flush | src/context-base.js:252-258 | writes each counter held back once, then the chunk, and changes nothing a reader sees |
| ContextApply.Applying.ApplyIndexed | src/context-base.js:418-437 | the events of the index, as if applied alone |
| ContextApply.Applying.ApplyMembership | src/context-base.js:293-365 | the events of roles and invites, as if applied alone |
| ContextApply.Applying.ApplyNode | src/context-base.js:281-438 | one event with the record remembered is that event with the record read again |
| ContextApply.Applying.ApplyView | src/context-base.js:231-277 | for every chunk size the index stored is that of the events one at a time with counters written at once, and the rules ask the same questions about the same events in the same order and get the same answers |
| ContextApply.BatchesCompose | src/context-base.js:231-277 | splitting a batch in two changes neither the index nor what the rules ask and are told, unless apply stopped |
| ContextApply.DeleteMayMiscount | src/context-base.js:1448-1466 | a view with exact counters and a delete of an edge never added, after which a counter is not the number of edges a reader gets |
| ContextApply.StaleDeleteMayMiscount | src/context-base.js:1448-1466 | and a delete that finds the edge active but names another time |
| ContextApply.CountersExactIff | src/context-base.js:1432-1466 | counters that are the numbers of edges a reader gets stay so exactly when an accepted delete names the active edge's time, or finds no active edge and both its counters at 0 |
| IndexLaws.AllComesFromEvents | src/context-base.js:1402-1413 | after any batch every edge was there before or its source's author asked for it, signed if signatures count; every tag was signed by its author; every message said by its author at its time |
| IndexLaws.BatchKeepsAuthors | src/index-layout/context.js:169-170 | if every edge's author is its source's, so it is after any batch, so layout 2 may leave it out |
| IndexLaws.UnsignedChangesNothing | src/context-base.js:1398-1399 | what is not signed, where signatures count, changes no edge, counter, tag or entry, and no rule is asked about it |
| IndexLaws.NotApplied | src/context-base.js:307-324 | a context this peer cannot apply stops the batch at the next event, and app events of a peer that is no writer change nothing |
| IndexLaws.Applied | src/context-base.js:279-345 | every other event counts, an app event for the index and one of the roles for those, and the batch goes on |
| IndexLaws.RelationAdded | src/context-base.js:1397-1438 | exactly when an edge is added, and that both ends' readers then find one more edge and nothing else changes |
| IndexLaws.RelationDeleted | src/context-base.js:1448-1466 | exactly when an edge is deleted, and that its readers then find all but that one |
| IndexLaws.PassesIff | src/context-base.js:1023-1031 | an event passes exactly if there are no rules, or a conversation, each question answered by the index as it stands, leads them to accept |
| IndexLaws.AskedExactly | src/context-base.js:1023-1031 | the rules are asked about exactly the app events of writers that are otherwise in order; what they ask and are told is that conversation, and it decides |
| IndexLaws.TagsFollow | src/context-base.js:1468-1487 | a tag's reference comes and goes by its author's own signed events only, and leads to a tag |
| IndexLaws.TagsExactIff | src/index-layout/context.js:79-91 | references and tags stay in step if and only if nobody tags the same again at another time |
| IndexLaws.TagLeftBehind | src/index-layout/context.js:79-91 | a tag given twice and taken back: `hasTag` says no, and a reader of all tags finds it |
| IndexLaws.MessageKept | src/context-base.js:1489-1499 | a message is kept under its time and the first 8 characters of its author, and no other changes |
| IndexLaws.ActiveMeans | src/index-layout/context.js:48-53 | a pair has an active edge exactly when a reader of the source's edges finds one |
| IndexLaws.EdgesMean | src/index-layout/context.js:93-108 | the edges a reader is given are those not deleted, of that end and kind |
| IndexLaws.AnswersRight | src/context-base.js:1036-1073 | while the index is exact, the rules' answers are what one would find who reads all edges and tags |

## Left out

- Logs, views, channels and databases are values: a log is a function from block to stamp, a view a map, a channel a FIFO queue. Hypercore, Corestore, Autobase, Hyperbee, HyperDB, Hyperswarm, Protomux and compact-encoding are not part of this model.
- Signatures, hashes, sealing and key derivation are abstract: an event says whether its signature held, an item is any function of key and length, a sealed box opens with its key only.
- Keys are 64 nibbles, not 32 bytes, so the bit shifts of `nibble`, `bound` and `child` are not modelled.
- The range exchange is that of two honest members: equal counts and digests of a range mean equal contents (`NoCollision`), keys and `take` stay as they are during a run, and messages are well formed up to what `OnRanges` and `OnKeys` check. A prefix longer than its bits, missing arrays and a peer that lies are not modelled.
- Directory.Channel.OnSummary: the start a member that knows the directory makes after a second of silence (`lib/directory.js:620-622`) is left to `RangeExchange`, where either side may start at any time.
- Directory.Channel.OnKeys: considering a log ends at once instead of later, so two exchanges whose checks overlap are not modelled.
- DirectoryRun.Wire.Deliver: `known` is one channel's here; a member with several peers shares it among its channels.
- KeyLinks.KeyRing.LinkEarlier: a write that fails, and closing the space midway, are not modelled.
- KeyLinks.HistoryRecovered: grants are a step that gives a device a recorded key; who may be granted one is not modelled.
- Shares.ShareOut: sizes are real numbers, so the rounding of floating point is not modelled.
- WriteLimit.WindowHolds: stamps are those of one log; clocks are a parameter.
- EntryRepair.Entries.WipedEntry: a wiped block's content is taken as gone, and passing the entry on (`lib/space.js:2005`) is not modelled.
- Activity.Derive: receiving entries, waiting for the blocks a check needs and dropping them after a time are not modelled; only the lowest start is (`Reading.Remember`).
- Completeness.CompleteMeansIndexed: speaks of other members' logs, not a device's own, which `completeFrom` skips; that the lists are whole is a hypothesis, as their exchange between members is not modelled. `unheard` is a parameter.
- Completeness.Log.LookAt: a batch is a set of blocks; what is written for each record, and the activity entries derived from it, are not modelled.
- Completeness.Reading.CompleteFrom: a member that reads everything answers by another test (`lib/space.js:2938`), which is not modelled.
- Completeness.Log.ReadAgain: judging records again when the write limit changed or a block was wiped (`lib/index/indexer.js:197-222`) is not modelled.
- Completeness.Reading.Kept: saving the horizon and widening it (`lib/space.js:2894-2914`) are not modelled.
- Fields.Decode: the encodings of kinds other than links are taken as one to one, so a value is its bytes; numbers beyond 2^53 are exact here.
- RecordTypes.Types.New: field names are taken as distinct and in the order declared; an object's integer-like names come first in JavaScript. `stale`, `linkAllowed` and the checks of values are not modelled.
- ContextRoles.Context.Apply: before version 3, what another registry answers is part of the event, and queueing an event whose registry has not arrived is not modelled. Member names found on every JavaScript object are not modelled. Moderation events are not modelled.
- ContextRoles.StepKeepsInv: names are strings as given; a key written in two ways in hexadecimal is two keys here.
- ContextApply.Applying.AnswerNow: `edges` gives the set of edges found; their order and the limit are not modelled.
- ContextApply.Applying.PassesRules: rules may ask any questions depending on the answers, but only so many; a rule that never ends is one that throws.
- ContextApply.Applying.ApplyNode: text keys are told apart by their parts, so two keys whose parts join to the same text are two keys here.
- Timers, retries, event emitters, status output, opening and closing cores, networking, `lib/stamp.js`, `lib/gate.js`, `src/content-ref.js`, `src/query.js` and `src/batch.js`: scheduling, or settled by reading one branch.
