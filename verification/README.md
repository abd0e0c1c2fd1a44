# Verified models of ckpool

Dafny models of the parts of ckpool and its API server whose correctness spans several functions, with proofs over all
inputs and all runs. Each module models one component, in the form the component has in the source: code that changes
state in place is a class or a method over arrays with loop invariants, proved against a function of its inputs or of the
old state; what the component promises is then proved about that function, over every input or every run.

| modules | component |
|---|---|
| `ChannelSpec`, `Channel` | the upstream SV2 mining channel: job ring, staged custom job, work-source arbiter |
| `ChannelRuns`, `ChannelSends`, `ChannelClock`, `FlushedTip`, `PrefixFlush`, `DeclaredWork` | what its runs keep: the arbiter, what is sent and when, the flushes, the work miners are on |
| `ChannelLayout`, `SolvePath`, `ChannelTemplates` | the coinbases hashed and submitted, and the template references |
| `TipRing` | the ring of our node's last tips, and where a pool's tip lies in it |
| `ShareLedger` | submitted shares, wrapping sequence numbers, batched acknowledgement |
| `ClientLifecycle`, `ClientRuns`, `ClientEffects`, `Connector` | reference counts and lists of the connector's clients, one step per locked section |
| `SendQueue`, `SenderShard` | a sender shard: latch, short writes, encryption, queued-byte account |
| `RedirectShares`, `Redirector` | in-flight submits, the redirect latch, redirected addresses |
| `LineFraming`, `SocketLines` | newline framing of miner connections and of upstream sockets |
| `CursorText`, `ShareCursor` | the resumable cursor of the share log |
| `LruCache`, `LruRuns` | the response cache |
| `TxBytes`, `CoinbaseOutputs`, `CoinbaseParts`, `CoinbasePayout` | coinbase construction and everything that reads it back |
| `CoinbaseTemplate`, `TemplateSplit`, `TemplateCache` | the per-height coinbase template and its shared probe |
| `Merkle` | the in-place merkle branch |
| `Digits`, `Base58`, `BitGroups`, `CashAddr`, `CashAddrField` | the address codecs |
| `Sha256Stream` | buffered SHA-256 |
| `Basics` | what they share |

Hashes, the compression function, ciphers, JSON parsers and difficulties are parameters or plain numbers. Sockets, clocks
and schedulers are arbitrary values and arbitrary interleavings of the steps.

Some properties the source seems to rely on do not hold without a condition. The model keeps the code as it is, gives an
input or a run that breaks each (the lemma named last), and proves exactly when it holds (the lemma named first):

- A SetNewPrevHash that names a custom job of the ring decides on the announced tip whether to flush, but the notify carries
  the tip of the job; and a new connection has forgotten what the one before it flushed. Either way one tip can be flushed
  twice (`ChannelRuns.FlushesOnceIffNotRepeated`, `ChannelRuns.SomeRunRepeatsATip`, `ChannelRuns.ReconnectRepeatsATip`).
- For the first of these reasons miners can also be on a tip they were never flushed for
  (`FlushedTip.SettledIffNot`, `FlushedTip.DeclaredJobNamedUnsettles`).
- A custom job is built before the send lock is taken and staged under it; a SetExtranoncePrefix in between leaves a stage
  with the old prefix (`ChannelLayout.InstallLaidOut`, `ChannelLayout.StaleStage`).
- A notify outlives its connection, and a share of it is submitted, and solved, with the pad of the next one
  (`ChannelLayout.EveryShareIsRebuilt` and `SolvePath.EverySolveIsOfAHash`, `ChannelLayout.ShareOfAnotherConnection`).
- A future job is not marked as active when a tip activates it, so SetExtranoncePrefix passes it over: miners on it are put
  on an older job of the pool, or left on the old prefix (`PrefixFlush.KeepsTheJobIffYoungest`,
  `PrefixFlush.OlderJobIsSentInstead`, `PrefixFlush.LoneFutureJobIsNotResent`).
- LOCAL_JD does not always mean miners are on the declared job. It may have been accepted on another tip than the pool's, and
  then an immediate pool job replaces it; and SetExtranoncePrefix leaves LOCAL_JD only if it finds declared work in the ring
  or the stage, from which pool jobs can have evicted it (`DeclaredWork.DeclaredWorkIffNotLost`,
  `DeclaredWork.OvertakenLosesDeclaredWork`, `DeclaredWork.EvictionStrandsMiners`).
- A share enters the table of pending shares after it has been sent; an Error that overtakes it is lost
  (`ShareLedger.ErrorRejectsIffPending`, `ShareLedger.EarlyErrorIsLost`).
- A client is hashed before its epoll reference is added; a drop and cull in between can recycle it while it is held
  (`ClientRuns.CullSound`, `ClientRuns.DropInTheAcceptWindow`).
- That reference is added without the lock, so it can undo a change of the count by another thread, or be undone by one
  (`ClientRuns.StoreSound`, `ClientRuns.TornEpollReference`).
- `redirect_client` takes a reference on a client whose reference its thread has handed to a send
  (`ClientRuns.QueueMoreSound`, `ClientRuns.ReconnectAfterHandover`).
- Expiry stops at the first young submit, so an old one behind it, put there after the clock was set back, still earns a
  redirect (`RedirectShares.ReplyEarns`, `RedirectShares.StaleRecordEarns`).
- A witness commitment can bring the outputs of a declared coinbase to 17, one more than the reader accepts
  (`CoinbaseOutputs.BuiltReadsBack`, `CoinbaseOutputs.SixteenAndACommitment`).
- The padding of `sha256_final` writes 32 bits of length, which is FIPS 180-2 padding only under 2^29 bytes
  (`Sha256Stream.PaddingIsFipsIffShort`, `Sha256Stream.MispaddedMessage`).
- `sha256_update` adds the waiting and the new bytes in 32 bits; a sum that wraps loses the piece (`Sha256Stream.Context.Update`).

`dafny verify dfyconfig.toml` checks the project.

## Model

| member | source | states |
|---|---|---|
| `Channel.SplitExtranonce` | src/generator.c:3090-3126 | The granted extranonce splits without loss into pad, enonce1 and enonce2, in exactly the sizes the configured length or, without one, its own length calls for; a pad only once enonce1 has its 8 bytes. |
| `ChannelSpec.NewestIsStoredLast` | src/generator.c:4101-4112 | The job flushed for a new prefix is the minable job stored last, if there is any. |
| `ChannelSpec.StoringAges` | src/generator.c:3389-3398 | Storing a job makes it the newest of the ring and every other one older. |
| `Channel.Channel.TakeSlot` | src/generator.c:3389-3398 | In place, the oldest slot gives way, with the template it held. |
| `Channel.Channel.FindJob` | src/generator.c:3400-3409 | The loop returns the first slot that holds this id. |
| `Channel.Channel.SetSource` | src/generator.c:3428-3447 | The multiplexer moves, the bridge clock starts only on entering BRIDGE. |
| `Channel.Channel.SendJob` | src/generator.c:3452-3548 | A stored job becomes one notify: a pool job only with a tip announced, on that tip; no job deeper than 32 merkle levels; a clean one is recorded as the flush of its own tip. |
| `Channel.Channel.Post` | src/generator.c:3481-3545 | The notify carries the job, the tip, and for declared work a template reference and the prefix of the moment. |
| `Channel.Channel.NewExtendedMiningJob` | src/generator.c:3810-3872 | The frame stores the job, built on the current prefix, and sends it unless it awaits a tip or declared work is live on this one. |
| `Channel.Channel.Arbitrate` | src/generator.c:3924-3962 | BRIDGE exactly for a plausible tip ahead of our node, POOL otherwise. |
| `Channel.Channel.Announce` | src/generator.c:3891-3902 | The tip is stored; declared work stays live only if it is on that tip. |
| `Channel.Channel.SetNewPrevHash` | src/generator.c:3873-3967 | The frame fails closed on an unknown job, is silent while declared work is live on the tip, and otherwise arbitrates and sends the job it names. |
| `Channel.Channel.CustomSuccess` | src/generator.c:3969-4010 | Only the answer to the pending request installs the staged job, sends it and goes to LOCAL_JD. |
| `Channel.Channel.CustomError` | src/generator.c:4012-4038 | Only the answer to the pending request drops the stage; live work stays. |
| `Channel.Channel.RebuildRing` | src/generator.c:4066-4100 | The loop clears declared jobs with their templates and rebuilds the others under the new prefix. |
| `Channel.Channel.FlushNewest` | src/generator.c:4101-4112 | Of the minable jobs the one stored last is sent clean. |
| `Channel.Channel.SetExtranoncePrefix` | src/generator.c:4053-4132 | The frame rebuilds, flushes, drops staged work, and leaves LOCAL_JD if there was declared work to drop. |
| `PrefixFlush.PrefixSends` | src/generator.c:4101-4112 | With a tip announced, the frame sends, under the new prefix and clean on the pool's tip, the job stored last of those that came with a time of their own; without such a job it sends nothing. |
| `PrefixFlush.KeepsTheJobIffYoungest` | src/generator.c:4101-4112 | Miners are sent the job and the tip they are on, under the new prefix, if and only if they are on the pool's tip and on the youngest job that is not a future one. |
| `PrefixFlush.LoneFutureJobIsNotResent` | src/generator.c:4105-4111 | A run of three events in which miners are on an activated future job and are sent nothing, so stay on the old prefix. |
| `PrefixFlush.OlderJobIsSentInstead` | src/generator.c:4105-4111 | A run in which miners are on an activated future job and are put, on its tip, on the immediate job the pool gave for the tip before. |
| `Channel.Channel.BuildCustom` | src/generator.c:3273-3343 | A declaration is built on the prefix of the moment, and refused if its hole no longer fits or its branch is too deep. |
| `Channel.Channel.StageCustom` | src/generator.c:3345-3356 | Under the send lock the job built earlier replaces the stage, under a fresh request id. |
| `Channel.Channel.CheckTimeouts` | src/generator.c:4258-4292 | A bridge ends after 30 seconds and an unanswered stage after 15. |
| `Channel.Channel.AgeNotifies` | src/generator.c:4689-4699 | The pass removes notifies older than ten minutes, in table order, while three or more are left. |
| `Channel.Channel.BeginSolve` | src/generator.c:3573-3644 | A solve pins the template of the notify it was found on, if that notify is declared work. |
| `Channel.Channel.EndSolve` | src/generator.c:3655-3667 | The end of a solve puts its template, once. |
| `Channel.Channel.Reopen` | src/generator.c:2750-2783 | A channel that goes away puts the templates of its ring and stage; its notifies and solves outlive it. |
| `Channel.Channel.SubmitExtranonce` | src/generator.c:3705-3753 | A share is submitted exactly if its notify is known and its bytes fill the hole behind the pad; the whole hole of declared work starts with the prefix it was sent under. |
| `ChannelRuns.LocalJdIffCustomPrev` | src/generator.c:3856-4130 | Over every run of frames, calls and timers the work source is LOCAL_JD exactly while declared work is live. |
| `ChannelRuns.ArbitratedKept` | src/generator.c:3856-4130 | One step keeps that equivalence. |
| `ChannelRuns.MinersStayOnCustomWork` | src/generator.c:3856-3912 | While declared work is live on the pool's tip, only more declared work or a new extranonce prefix sends miners anything, and it stays live. |
| `ChannelRuns.BridgeIffPoolLeads` | src/sv2_bridge.c:42-59 | A new pool tip means BRIDGE exactly when it is plausible, our node has a chain, and none of our last eight tips is the pool's. |
| `ChannelRuns.FlushesOnceIffNotRepeated` | src/generator.c:3418-3421 | A step flushes the tip of the previous flush again exactly if it names a declared job of the ring on that tip while announcing another, or is the first flush of a new connection and on the tip the one before flushed last; SetExtranoncePrefix flushes on purpose. |
| `ChannelRuns.OneFlushATip` | src/generator.c:3536-3541 | Over every run, reconnects included, no tip is flushed twice in a row except by SetExtranoncePrefix, if and only if none of those steps is taken. |
| `ChannelRuns.OneConnectionFlushesOnce` | src/generator.c:3536-3541 | So it is over every run of one connection whose SetNewPrevHash frames name the pool's own jobs. |
| `ChannelRuns.SomeRunRepeatsATip` | src/generator.c:3873-3967 | A run of three events on one connection in which a SetNewPrevHash naming a declared job flushes the same tip twice. |
| `ChannelRuns.ReconnectRepeatsATip` | src/generator.c:2750-2783 | A run in which a connection is dropped and the next one flushes the same tip again, the pool naming its own jobs throughout. |
| `DeclaredWork.DeclaredWorkIffNotLost` | src/generator.c:3856-4130 | While the source is LOCAL_JD the last notify is declared work on the live tip; a step keeps that if and only if it is neither an immediate pool job on another tip nor a SetExtranoncePrefix that finds a pool job to flush and no declared job in the ring. |
| `DeclaredWork.DeclaredWorkOfEveryRun` | src/generator.c:3856-4130 | So it is over every run without those two steps. |
| `DeclaredWork.EvictionStrandsMiners` | src/generator.c:3389-3398 | From any live declared work, 32 immediate pool jobs and a SetExtranoncePrefix leave miners on pool work, the source LOCAL_JD and later pool jobs on the tip untold. |
| `DeclaredWork.SomeRunIsOnDeclaredWork` | src/generator.c:3969-4010 | A run that gets there. |
| `DeclaredWork.OvertakenLosesDeclaredWork` | src/generator.c:3969-4010 | A run in which the pool announces another tip between request and acceptance: miners are on the declared job under LOCAL_JD, and the next immediate pool job takes them off it while the source stays. |
| `ChannelLayout.InstallLaidOut` | src/generator.c:3315-3356 | Staging a job keeps every coinbase laid out if and only if the channel still has the prefix the job was built on. |
| `ChannelLayout.StaleStage` | src/generator.c:3315-3356 | A prefix change between building and staging leaves a staged job that is not laid out for the channel. |
| `ChannelLayout.NotifyMade` | src/generator.c:3494-3503 | A notify of a pool job is on the tip in force at its difficulty, and of the time the job came with, or of the time of that tip if it came without one; a notify of declared work is of the tip, difficulty and time it was declared with. |
| `ChannelLayout.LayoutKept` | src/generator.c:3828-4124 | Every other step keeps it: each job of ring and stage is a job the pool or a declaration gave, its coinb1 that very base closed with the channel's prefix and pad, and each notify likewise with those it was sent under. |
| `ChannelLayout.RebuiltMade` | src/generator.c:4083-4098 | A rebuilt job is still the one the pool gave, base and all, closed with the new prefix and the pad. |
| `ChannelLayout.LayoutOfEveryRun` | src/generator.c:3828-4124 | Over every run without a prefix change between building and staging, reconnects included, each coinb1 of ring, stage and notifies is the base the pool or a declaration sent in that run, then extranonce prefix and pad; and each notify has the tip, difficulty and time of its job and of the SetNewPrevHash in force. |
| `ChannelLayout.RebuiltIffSamePad` | src/generator.c:3723-3742 | What a channel submits for a share, its pad before the miner's bytes, rebuilds the coinbase the miner hashed if and only if its pad is the one the notify was sent with. |
| `ChannelLayout.EveryShareIsRebuilt` | src/generator.c:3727-3753 | So it is for a share on any notify still known in any such run, over connections and prefixes, with the base and coinb2 of the job the pool or a declaration gave and the prefix the notify was sent under. |
| `ChannelLayout.RebuiltOnItsConnection` | src/generator.c:3727-3753 | A share on a notify of the present connection is always rebuilt to the coinbase that was hashed. |
| `ChannelLayout.ShareOfAnotherConnection` | src/generator.c:3727-3753 | A run in which the pool gives a job on one connection and drops it: after the reconnect the notify is still known, a share of it passes the length check, and the coinbase rebuilt from what is submitted is not the one that was hashed. |
| `ChannelLayout.EveryNotifyOnRecord` | src/generator.c:3530-3533 | Notifies are numbered in the order they were sent, over all connections, and only notifies that were sent are known. |
| `ChannelClock.ClockOfEveryRun` | src/generator.c:3428-3447 | Over every run the tip in force is that of the last SetNewPrevHash of the connection for a job it had, a new connection is asked for exactly after one for a job it did not have, and bridge and stage are timed from the events that began them. |
| `ChannelClock.NotifiesOfEveryRun` | src/generator.c:3494-3541 | So each notify is of the tip in force when it was sent, and of the time of the event that sent it. |
| `ChannelClock.ServiceOfEveryRun` | src/generator.c:4246-4292 | In every run a bridge gives way to the pool's work at the first service 30 seconds after it was entered, and an unanswered stage is dropped 15 seconds after its request, neither before; nothing else changes. |
| `ChannelSends.StepSends` | src/generator.c:3810-4130 | A step sends one notify or none: which frames do, for which job, and which of these notifies flush. |
| `ChannelSends.JobIsStored` | src/generator.c:3810-3852 | A job of at most 32 merkle levels takes the slot that was filled 32 jobs ago, with all it came with; a deeper one changes nothing. |
| `ChannelSends.AgeingKeeps` | src/generator.c:4689-4699 | No notify younger than ten minutes goes, none while fewer than three are left, and if three are left none of them is older. |
| `FlushedTip.SettledIffNot` | src/generator.c:3856-4130 | Unless declared work is live, miners were last flushed for the pool's tip; a step keeps that if and only if it is neither a SetNewPrevHash naming a declared job on another tip nor a SetExtranoncePrefix that ends declared work with no pool job to flush. |
| `FlushedTip.SettledOfEveryRun` | src/generator.c:3856-4130 | So it is over every run without those two steps. |
| `FlushedTip.ImmediateJobOnFlushedTip` | src/generator.c:3854-3872 | An immediate job is then sent, unflushed, on the tip miners were flushed for. |
| `FlushedTip.DeclaredJobNamedUnsettles` | src/generator.c:3873-3967 | A run of three events that ends on pool work for tip 9 with miners last flushed for tip 7. |
| `SolvePath.SplitsAgree` | src/sv2_jdc.c:1193-1221 | Of the two splits made of one coinbase, the declared one around any hole, without marker, flag and witness, is the legacy one around that hole. |
| `SolvePath.SolvesIffSamePad` | src/generator.c:3559-3640 | The coinbase submitted as a block for a share is, without marker, flag and witness, the one the miner hashed if and only if the pad in its hole is the one the notify was sent with. |
| `SolvePath.EverySolveIsOfAHash` | src/generator.c:3559-3753 | In every run, over any number of connections, whose declarations each split one coinbase and are staged on the prefix they were built on: each notify of declared work is such a declaration, and its shares are solved with what was hashed if and only if the channel still has its pad. |
| `SolvePath.SolvesOnItsConnection` | src/generator.c:3559-3753 | On the connection a notify was sent on they always are, and its prefix and an extranonce of the channel fill the declared hole exactly. |
| `SolvePath.CountingKept` | src/generator.c:3273-3343 | Every step keeps this: a declared job that is stored, staged or sent leaves room in its scriptSig for exactly the bytes the miners of the channel roll. |
| `ChannelTemplates.ReferencesOfEveryRun` | src/generator.c:3341-4292 | Over every run the template references taken are those put and those held by ring, stage, notifies and solves: none is released early, twice or never. |
| `ChannelTemplates.BalanceKept` | src/generator.c:3341-4292 | One step keeps that balance. |
| `ChannelTemplates.PlaceBalanced` | src/generator.c:3389-3398 | Ring eviction passes a reference on and puts the evicted one. |
| `ChannelTemplates.EmitBalanced` | src/generator.c:3511-3528 | A notify takes its own reference. |
| `ChannelTemplates.ReflushedBalanced` | src/generator.c:4079-4100 | Clearing declared jobs for a new prefix puts exactly their references. |
| `ChannelTemplates.AgeingSplits` | src/generator.c:4689-4699 | An ageing pass lets go of exactly the references of the notifies it removes, and leaves two notifies at least. |
| `ChannelTemplates.ReconnectBalanced` | src/generator.c:2750-2783 | A freed channel puts what its ring and stage held. |
| `TipRing.Ring.Push` | src/sv2_bridge.c:18-32 | The eight slots list the last eight tips pushed, a repeat of the newest not counting. |
| `TipRing.Ring.RelationOf` | src/sv2_bridge.c:42-59 | SAME, BEHIND and AHEAD are the place of the pool's tip in that list, or its absence. |
| `TipRing.Ring.PlausibilityOf` | src/sv2_bridge.c:61-83 | A tip is plausible exactly with equal difficulty bits and a time within two hours of ours; each complaint has its exact condition. |
| `TipRing.RecentTipIsNotAhead` | src/sv2_bridge.c:42-59 | A tip our node left within its last seven changes is never AHEAD. |
| `ShareLedger.EveryStateBalanced` | src/generator.c:3755-4188 | Over every run, reconnects included, each share that was tracked is in exactly one of pending, accepted, rejected and lost with its connection, at its submit-time difficulty. |
| `ShareLedger.InOnePlace` | src/generator.c:4141-4186 | No share is in two places, or twice in one. |
| `ShareLedger.InvKept` | src/generator.c:3755-4188 | Each submit, Success, Error and reconnect keeps that balance. |
| `ShareLedger.FreeBalanced` | src/generator.c:2761-2765 | A channel that goes away loses exactly the shares it still awaits an answer for, and credits none. |
| `ShareLedger.BatchIsExact` | src/generator.c:4147-4154 | With all pending shares among the last 2^31 sequence numbers of the connection, a batched Success credits exactly those submitted up to its sequence, across the 32-bit wrap. |
| `ShareLedger.WrapKeepsOrder` | src/generator.c:4149 | The signed 32-bit difference of two wrapped sequence numbers is their true difference within 2^31. |
| `ShareLedger.SignedDifferenceIs` | src/generator.c:4148-4156 | The cast gives the number from -2^31 to 2^31 - 1 that is congruent to the difference. |
| `ShareLedger.ErrorRejectsIffPending` | src/generator.c:4164-4188 | An Error rejects its share if and only if the share is in the table; otherwise it changes nothing. |
| `ShareLedger.EarlyErrorIsLost` | src/generator.c:3755-3780 | In the run of taking a number, an Error for it, the insert and a Success, the share ends up credited as accepted and none is rejected. |
| `ShareLedger.Ledger.TakeNumber` | src/generator.c:3756-3758 | Sequence numbers count up modulo 2^32. |
| `ShareLedger.Ledger.Track` | src/generator.c:3773-3780 | A share sent is tracked under its number at the difficulty of the moment. |
| `ShareLedger.Ledger.SubmitSuccess` | src/generator.c:4133-4163 | The loop unlinks and credits exactly what the Success covers. |
| `ShareLedger.Ledger.SubmitError` | src/generator.c:4164-4188 | The share with this number is unlinked and rejected, if there is one. |
| `ShareLedger.Ledger.Forget` | src/generator.c:2750-2783 | The table is emptied without credit and the numbers start anew. |
| `ClientRuns.SafeIffClean` | src/connector.c:254-1498 | One locked section of any thread, or the read or the write of the unlocked epoll reference, keeps every reference count right and every structure in exactly one of live, dead, reusable and being accepted, if and only if it is no write of a count changed since it was read, no locked change that overwrites that write, no cull inside the accept window and no reconnect queued, on a reference long handed to a send, for a structure up for reuse. |
| `ClientRuns.EveryStateSound` | src/connector.c:254-1498 | So it is in every state of every interleaving that avoids those windows: a count is the epoll reference of a live client, its queued sends and its holders. |
| `ClientRuns.NothingHeldIsReused` | src/connector.c:598-626 | In such a run a client with a queued send or a holder is live or dead, and a dead one has no references left exactly when it has neither. |
| `ClientRuns.CullSound` | src/connector.c:609-625 | A cull takes a client from under a thread that still has it exactly if the client is dead, its epoll reference is yet to be added, and one other reference is out. |
| `ClientRuns.StoreSound` | src/connector.c:499-502 | The unlocked epoll reference is added soundly if and only if the count is still what was read. |
| `ClientRuns.OverwrittenUnsound` | src/connector.c:499-502 | A locked change that overwrites the epoll reference always leaves the count one short. |
| `ClientRuns.QueueMoreSound` | src/connector.c:1629-1661 | The reference taken for a reconnect, by a thread that has handed its own to a send and latched the redirect, is safe exactly while the structure is not up for reuse. |
| `ClientRuns.DropSound` | src/connector.c:520-538 | Dropping a client, the first time or again, keeps every count right: its epoll reference goes once. |
| `ClientRuns.DropInTheAcceptWindow` | src/connector.c:485-502 | After a client is hashed, referenced by id and dropped, all before its epoll reference is added, a cull recycles it while the other thread still holds it. |
| `ClientRuns.TornEpollReference` | src/connector.c:499-502 | A run in which another thread takes a reference between the read and the write of the epoll reference; a drop and a cull, each sound by itself, then recycle the client while that thread has it. |
| `ClientRuns.ReconnectAfterHandover` | src/connector.c:1629-1661 | A run in which a thread hands its reference to a send and latches the redirect, and the client is dropped, sent to and recycled before the thread queues the reconnect on it, which breaks the counts. |
| `ClientEffects.IdsAreNew` | src/connector.c:483-486 | A hashed client has an id no client before it had. |
| `ClientEffects.FoundById` | src/connector.c:1086-1100 | A reference by id is taken on the hashed client with this id, and on none if there is none. |
| `ClientEffects.DropUnhashes` | src/connector.c:520-541 | The first drop takes a client and no other out of the hash and puts it on the dead list; a second does nothing. |
| `ClientEffects.CullRecycles` | src/connector.c:609-625 | A cull recycles exactly the dead clients without references, emptied, and leaves all others as they are. |
| `ClientEffects.UnreferencedIsRecycled` | src/connector.c:609-625 | In a run that avoids the windows a dead client without holder or queued send is recycled by the next cull. |
| `ClientEffects.ReuseComesAround` | src/connector.c:281-335 | A new client gets the structure that has waited longest for reuse; one given back waits behind the others, emptied. |
| `Connector.Connector.RecruitClient` | src/connector.c:281-302 | A structure is reused if there is one, else made. |
| `Connector.Connector.RecycleClient` | src/connector.c:304-332 | A connection not accepted after all gives its structure back, zeroed. |
| `Connector.Connector.HashClient` | src/connector.c:484-488 | An accepted client is hashed under the next id. |
| `Connector.Connector.ReadCount` | src/connector.c:499-502 | Outside the lock the count is read for the epoll reference... |
| `Connector.Connector.WriteCount` | src/connector.c:499-502 | ...and written back with one more, whatever it has become. |
| `Connector.Connector.RefClientById` | src/connector.c:1086-1101 | A reference is taken exactly on a client that is hashed and not invalid. |
| `Connector.Connector.DecRef` | src/connector.c:272-277 | A holder releases its own reference. |
| `Connector.Connector.IncRefForSend` | src/connector.c:259-264 | A send queued beside the caller's reference takes its own. |
| `Connector.Connector.IncRefForRedirect` | src/connector.c:1650-1661 | The reconnect takes a reference on a client its thread has latched, whoever holds it by then. |
| `Connector.Connector.DecRefOfSend` | src/connector.c:1482-1498 | A finished send releases the reference it owned. |
| `Connector.Connector.DropClient` | src/connector.c:520-538 | The first drop invalidates, unhashes and releases the epoll reference; later ones do nothing. |
| `Connector.Connector.CullDead` | src/connector.c:609-625 | The loop recycles exactly the dead clients without references, in list order, and keeps the others. |
| `Connector.Connector.DropAll` | src/connector.c:640-668 | A bulk drop empties the hash, each live client losing one reference. |
| `SenderShard.Shard.QueueSend` | src/connector.c:1577-1601 | A message is appended to the client's log and to the pending list, and its length to the client's account, all else as before; the client is over its limit exactly if the account says so. |
| `SenderShard.Shard.Visit` | src/connector.c:1405-1498 | One visit of the sender does to the visited client and its wire exactly what its outcome says, whatever the socket and the cipher do, and nothing to any other: a dropped client's wire stays, a waiting one's turn is kept, and what is written grows by the next bytes of its messages. Every client's bytes remain a prefix of its messages in queue order, each encrypted once, and every account equal to what is queued. |
| `SenderShard.Shard.Serve` | src/connector.c:1417-1480 | The turn of a send: all its bytes and the account reversed; or some of them and the latch kept with the time it blocked, nothing written only within 60 seconds of that time; or some of them and the client dropped, for want of a cipher, for an error, or for nothing written in 60 seconds. |
| `SenderShard.Shard.WriteOut` | src/connector.c:1450-1476 | The bytes taken are those the socket takes, answer by answer, until it takes none; the send is done exactly when none are left, the client given up for its time exactly if nothing was taken now or in the 60 seconds before, and for an error exactly if that stopped it. |
| `SenderShard.NothingTaken` | src/connector.c:1450-1470 | When the first write takes nothing, an error breaks the connection, a full socket keeps the send waiting, and either breaks it once 60 seconds have passed. |
| `SenderShard.Shard.Attempt` | src/connector.c:1405-1480 | A send whose turn it is latches its client, is encrypted once, and puts the bytes behind its offset on the wire up to where the socket stops; no other client, wire or log changes. |
| `SenderShard.Shard.Clear` | src/connector.c:1482-1498 | The account falls by the length it rose by; the clamp at zero has nothing to do. |
| `SenderShard.Shard.Splice` | src/connector.c:1541-1544 | What was queued during a pass joins the list in order. |
| `SenderShard.Shard.Drop` | src/connector.c:1417-1420 | A drop by any thread keeps all of this. |
| `SenderShard.Shard.Pass` | src/connector.c:1516-1544 | Over a whole pass nobody comes or goes, no log changes, what is written stays written, a dropped client stays dropped with its wire as it is, clients without a send in the list are untouched, and what was queued meanwhile joins the list in order. If all sockets take what they are offered nothing else is left on it. |
| `SenderShard.OnwardNext` | src/connector.c:1522-1530 | A visit keeps all that from where the visits before it got. |
| `SenderShard.HeadGoes` | src/connector.c:1417-1480 | The first send of the list is never held up by a latch: on such a socket it goes. |
| `SenderShard.AllDelivered` | src/connector.c:1405-1498 | A live client with nothing outstanding has had every message queued, and its account is zero. |
| `SenderShard.QueuedInv` | src/connector.c:1577-1588 | Queueing keeps the books of all clients. |
| `SenderShard.WroteInv` | src/connector.c:1417-1476 | Writing part of the first send of a client keeps them. |
| `SenderShard.ClearedInv` | src/connector.c:1482-1493 | Clearing a send that is written, or whose client is gone, keeps them, and the account never falls below zero. |
| `SendQueue.FirstOfClient` | src/connector.c:1410-1417 | The latch and the order of the pass make the send that may write the first of its client. |
| `Redirector.Redirector.Submit` | src/connector.c:712-757 | A submit of an authorised client is recorded once by id, after expiry, among at most 64 of its own and 4096 in all. |
| `Redirector.Redirector.TestReply` | src/connector.c:1666-1728 | A reply takes its submit off the list, accepted or not, and an accepted one earns a redirect and clears the list. In every reachable state a redirect is earned exactly by accepting a submit on the list that is young or behind a young one; and unless the clock was set back between two submits of the client, exactly by accepting one sent within 120 seconds. |
| `Redirector.Redirector.Latch` | src/connector.c:1638-1646 | One caller wins the redirect of a client, once, and only if the client is authorised; its submits go, and nothing else changes. |
| `Redirector.Redirector.Announce` | src/connector.c:1605-1625 | An address keeps the redirect it was given first, a new one gets the next in turn, and a client is told at most once. |
| `Redirector.Redirector.Matches` | src/connector.c:1143-1152 | An address redirected before traces back to someone there who earned it. |
| `Redirector.Redirector.AuthResult` | src/connector.c:2091-2112 | A success authorises this client unless it is redirected, dropping what it submitted before if it was not authorised; a failure, and any other client, is left alone. |
| `Redirector.Redirector.Expire` | src/connector.c:692-702 | The loop drops the expired head of the list and the count with it. |
| `Redirector.Redirector.ExpireAll` | src/connector.c:1312-1323 | The sweep does so for every client of the hash and changes nothing else; for a client whose clock was not set back exactly the submits older than 120 seconds go. |
| `Redirector.Redirector.Drop` | src/connector.c:520-538 | A dropped client leaves the hash with its submits still on record and on the global count. |
| `Redirector.Redirector.Unlink` | src/connector.c:679-688 | One record goes, from the list and from both counts. |
| `Redirector.Redirector.FreeShares` | src/connector.c:704-708 | All records of a client go. |
| `Redirector.Redirector.Recycle` | src/connector.c:304-313 | A recycled client takes its records off the global count; no other client changes. |
| `RedirectShares.FreshDropsExpired` | src/connector.c:692-702 | On a list filled in the order of time, stopping at the first young record drops exactly the expired ones. |
| `RedirectShares.ReplyEarns` | src/connector.c:1666-1728 | A reply earns a redirect if and only if it accepts a submit that is on the list and not older than 120 seconds, or behind one that is not, of a client authorised and not yet redirected. |
| `RedirectShares.ReplyLeaves` | src/connector.c:1700-1722 | Whatever a reply says its submit is off the list; a redirect leaves the list empty, and otherwise the records of other ids stay in order from the first not older than 120 seconds on. |
| `RedirectShares.SecondReplyEarnsNothing` | src/connector.c:1663-1722 | Until a client submits an id again no second reply to it earns a redirect, whatever is submitted, answered and swept between. |
| `RedirectShares.SubmitLeaves` | src/connector.c:712-757 | A submit drops what is expired at the head, keeps at most the last 63 records in order, and adds its own unless its id is there or 4096 are in flight. |
| `RedirectShares.ShieldedInOrder` | src/connector.c:690-702 | In a list in the order of time that is a submit sent within 120 seconds. |
| `RedirectShares.StaleRecordEarns` | src/connector.c:690-702 | A clock set back between two submits leaves one that earns a redirect 240 seconds after its time. |
| `Redirector.SubmitInOrder` | src/connector.c:712-757 | A submit keeps every list in the order of time of whose client the clock is not set back. |
| `RedirectShares.SubmitIsRecorded` | src/connector.c:712-757 | With room in all, an eligible submit is on record afterwards, whatever was in flight. |
| `Redirector.SharesInv` | src/connector.c:679-757 | A new list for one client keeps the global count the sum of all lists, and every bound. |
| `Redirector.LatchInv` | src/connector.c:1638-1646 | Winning the latch keeps reconnects at one per client and every redirect traced. |
| `Redirector.AnnounceInv` | src/connector.c:1605-1625 | So does announcing. |
| `LineFraming.FrameSplit` | src/connector.c:956-1083 | Framing a stream in two pieces is framing it whole. |
| `LineFraming.GoodLinesPass` | src/connector.c:996-1083 | Complete valid lines of at most 1024 bytes are dispatched as they are, and what follows is framed by itself. |
| `LineFraming.StreamOfLines` | src/connector.c:956-1083 | So a stream of such lines is kept while its unfinished last line is at most 1024 bytes long, and ended by the first line that is longer or invalid. |
| `LineFraming.Client.Receive` | src/connector.c:956-1083 | After any read the messages dispatched, the bytes buffered and the fate of the client are those of the whole stream so far. |
| `LineFraming.Client.Reparse` | src/connector.c:996-1083 | The loop dispatches the newline split of the buffer up to the first invalid or overlong line, in bounds. |
| `LineFraming.ReceiveAll` | src/connector.c:956-1083 | However the bytes arrive, the dispatched messages are the newline split of the stream up to the first invalid or overlong line. |
| `SocketLines.ConnSock.ReadSocketLine` | src/ckpool.c:655-727 | What comes of a call is what the socket says: all it brings joins what is pending, wait by wait, until a newline hands out the first line, or the wait ends without one, or the connection breaks and everything starts afresh. The lines handed out, joined, and the bytes pending are the stream received. |
| `SocketLines.ConnSock.ClearBufline` | src/ckpool.c:562-579 | Either meaning of the two offsets becomes a buffer that starts with the pending bytes. |
| `SocketLines.ConnSock.AddBuflen` | src/ckpool.c:590-627 | Bytes are added exactly up to the cap, the buffer growing by pages. |
| `SocketLines.ConnSock.RecvAvailable` | src/ckpool.c:631-648 | All the socket has is added, recv by recv, or the cap is hit. |
| `SocketLines.LineIsHeard` | src/ckpool.c:673-713 | On a connection that stays and brings something each time, a line is heard as soon as its newline is there and no sooner. |
| `SocketLines.PiecesGathered` | src/ckpool.c:631-648 | Pieces that come one behind the other are gathered in order, if there is room for them. |
| `SocketLines.ConnSock.TakeLine` | src/ckpool.c:714-722 | The first line is handed out in place and only the bytes behind it stay pending. |
| `SocketLines.JoinIsSplit` | src/ckpool.c:655-727 | Lines handed out in that way are the newline split of the stream. |
| `ShareCursor.PollsDeliverAll` | api/ckpool_api_server.go:1728-1808 | Chained polls over a log that grows at its newest file deliver every record between the first cursor and the last, once and in log order. |
| `ShareCursor.ScanShares` | api/ckpool_api_server.go:1728-1808 | One poll returns exactly the records between its cursor and the next, stops at the limit, and if it stops for neither limit nor deadline has passed all complete lines of the log; without the limit it stops for the deadline if and only if that comes before one look at the clock for each directory, file and line from the cursor on; a bootstrap read keeps the last ones. |
| `ShareCursor.ScanDir` | api/ckpool_api_server.go:1763-1803 | The files of one directory are passed in order from a position in it. |
| `ShareCursor.ReadShareLines` | api/ckpool_api_server.go:1659-1691 | The read stops at a line boundary and matches exactly the complete lines it passed. |
| `ShareCursor.Locate` | api/ckpool_api_server.go:1735-1761 | The walk starts at the directory, file and offset the cursor names. |
| `ShareCursor.AppendBounded` | api/ckpool_api_server.go:1698-1705 | The last matches are kept. |
| `ShareCursor.BeforeIsStable` | api/ckpool_api_server.go:1631-1634 | A cursor of a log is still found after it has grown, an idle directory cursor included, and what lies before it is the same. |
| `ShareCursor.ResolveStart` | api/ckpool_api_server.go:1631-1645 | A poll starts at its cursor if the file or directory is still there, else at the first directory that is not below the cursor's, or at the last of all. |
| `ShareCursor.PrunedSkipsNothing` | api/ckpool_api_server.go:1623-1645 | After pruning, what the poll starts behind is only the records of directories below the cursor's. |
| `ShareCursor.RecordsSum` | api/ckpool_api_server.go:1672-1690 | A file cut behind a newline loses no record to the cut. |
| `CursorText.RoundTrip` | api/ckpool_api_server.go:1589-1622 | A cursor survives encoding exactly if its directory is a height, its file name has no bar and its offset fits. |
| `CursorText.DecodedShape` | api/ckpool_api_server.go:1608-1622 | No other cursor is ever decoded. |
| `CursorText.OffsetText` | api/ckpool_api_server.go:1617-1620 | An offset in decimal is parsed back, unless it is too large. |
| `LruCache.Cache.Get` | api/ckpool_api_server.go:276-292 | A fresh entry is returned and becomes the most recent; a stale one goes. |
| `LruCache.Cache.GetPersistent` | api/ckpool_api_server.go:300-310 | An entry is returned whatever its age. |
| `LruCache.Cache.Set` | api/ckpool_api_server.go:313-335 | An entry is stored; a full cache first loses its least recent entry. |
| `LruCache.Cache.Touch` | api/ckpool_api_server.go:337-347 | The key moves to the most recent end of the order. |
| `LruCache.Cache.Remove` | api/ckpool_api_server.go:349-359 | The key goes from the map and the order. |
| `LruCache.ListingOfKeys` | api/ckpool_api_server.go:256-359 | The order lists exactly the keys of the map, once each, and never more than the capacity. |
| `LruCache.HeadIsLeastRecent` | api/ckpool_api_server.go:328-331 | The head of the order is the least recently used key. |
| `LruCache.EvictionIsDetermined` | api/ckpool_api_server.go:313-335 | Contents and evictions are those of the reference cache, which leaves no choice. |
| `LruRuns.StoredIsServed` | api/ckpool_api_server.go:276-347 | What is set is served, after any run of operations on fewer other keys than the cache has room for, until it is older than the time to live; and by GetPersistent always. |
| `LruRuns.RecentIsKept` | api/ckpool_api_server.go:313-347 | Such a run never evicts it, whatever is set, got and expires. |
| `LruRuns.OnlySetBrings` | api/ckpool_api_server.go:313-335 | A key is in the cache only after it has been set, with that data and time, and never in one without room. |
| `CoinbaseOutputs.ReadPayout` | src/sv2_cb.c:150-170 | An output is read if it is all there and its script is between 1 and 255 bytes. |
| `CoinbaseOutputs.WalkOutputs` | src/sv2_cb.c:177-210 | The walk succeeds exactly on 1 to 16 payable outputs whose fixed amounts do not overflow, and totals them. |
| `CoinbaseOutputs.WrittenWalks` | src/sv2_cb.c:177-210 | Every list of 1 to 16 payouts with scripts of 1 to 255 bytes, whose fixed amounts fit, is walked as it was written. |
| `CoinbaseOutputs.WalkedPays` | src/sv2_cb.c:177-210 | And what is walked is such a list. |
| `CoinbaseOutputs.WrittenIsHonoured` | src/sv2_cb.c:212-240 | It is honoured exactly if its fixed amounts come to no more than the value of the block. |
| `CoinbaseOutputs.BuildOutputs` | src/sv2_cb.c:212-264 | Outputs are built exactly if the blob is well formed, asks for no more than the value and fits. |
| `CoinbaseOutputs.FindOutput` | src/sv2_cb.c:278-301 | The loop returns the output of this index, if all up to it are payable and the list is not too long. |
| `CoinbaseOutputs.BuiltReads` | src/sv2_cb.c:212-264 | What is built reads to its end as the remainder on the first script, the pool's other outputs, and the commitment. |
| `CoinbaseOutputs.BuiltReadsBack` | src/sv2_cb.c:278-301 | Every output built is read back by its index if and only if the commitment does not bring them over 16. |
| `CoinbaseOutputs.RewardIsConserved` | src/sv2_cb.c:212-264 | With a commitment of no value the outputs add up to exactly the reward, on the pool's scripts and all but the first at the pool's amounts. |
| `CoinbaseOutputs.SixteenAndACommitment` | src/sv2_cb.c:212-301 | A blob of sixteen payouts is honoured with a commitment, and none of the outputs built of it is read back. |
| `CoinbaseParts.Assemble` | src/sv2_cb.c:16-66 | The coinbase is assembled exactly if its scriptSig is at most 255 bytes and it fits. |
| `CoinbaseParts.CoinbaseReads` | src/sv2_cb.c:16-66 | An assembled coinbase reads as one input spending the null outpoint, with script, sequence, outputs and lock time in place. |
| `CoinbaseParts.DeclareParts` | src/sv2_cb.c:68-143 | The parts are made exactly if there are outputs and a hole, the scriptSig is within 100 bytes and the parts fit. |
| `CoinbaseParts.DeclaredIsAssembled` | src/sv2_cb.c:16-143 | Declared parts around any hole of their length, without marker, flag and witness, are the assembled coinbase. |
| `CoinbaseParts.Finally` | src/coinbase_final.c:28-87 | Final means final at every median time, non-final at none, and anything else is unknown; malformed is exactly a buffer without room for the fields. |
| `CoinbaseParts.FieldsFound` | src/coinbase_final.c:50-66 | On an assembled coinbase sequence and lock time are found behind any scriptSig under 253 bytes. |
| `CoinbasePayout.FindPayout` | src/libckpool.c:2313-2365 | A coinbase that parses to its end gives the first of its largest outputs, unless its script is empty or too long; any other gives nothing. |
| `CoinbasePayout.Scan` | src/libckpool.c:2338-2364 | The loop over the outputs finds the first largest signed value. |
| `CoinbasePayout.SplitParses` | src/libckpool.c:2313-2365 | Wherever the hole is cut out of the scriptSig, the two parts parse to the coinbase's outputs. |
| `CoinbasePayout.BuiltPays` | src/libckpool.c:2313-2365 | So a coinbase built from the pool's payouts parses to exactly its shared outputs. |
| `TxBytes.CompactReadsBack` | src/sv2_tx.c:15-36 | A compact size written is read back, whatever follows. |
| `TxBytes.CompactIsShortest` | src/sv2_tx.c:15-47 | What is written is the shortest form, of 1, 3, 5 or 9 bytes. |
| `TxBytes.FourBytes` | src/sv2_tx.c:15-36 | Numbers are written lowest byte first. |
| `TxBytes.OutputReadsBack` | src/sv2_cb.c:150-170 | An output written is read back, whatever follows. |
| `TxBytes.OutputsAreLocal` | src/sv2_cb.c:177-210 | Outputs read the same whatever follows them. |
| `CoinbaseTemplate.SplitCoinb2` | api/coinbase_template.go:90-151 | The split is found by walking the structure of coinb2, or refused. |
| `CoinbaseTemplate.TailEnds` | api/coinbase_template.go:134-149 | The tail is accepted exactly if it is the remaining outputs and four bytes. |
| `TemplateSplit.SplitIffShaped` | api/coinbase_template.go:90-151 | A coinb2 splits if and only if it is a push of the declared length or none, the sequence number, one to three outputs with a script of 1 to 255 bytes in the first, and a lock time; and then into exactly those parts. |
| `TemplateSplit.JobSplits` | api/coinbase_template.go:90-151 | Every job a pool writes with one to three outputs splits into its head, its first script and the rest. |
| `CoinbaseTemplate.Assemble` | api/coinbase_template.go:71-80 | The script is spliced between the parts. |
| `CoinbaseTemplate.OwnScriptRebuilds` | api/coinbase_template.go:71-151 | With the job's own script the template gives back the job. |
| `CoinbaseTemplate.ParseOutputs` | api/ckpool_api_server.go:2545-2608 | The outputs listed are those of the walk, clipped buffers included, and the total is their sum as signed 64-bit additions leave it. |
| `CoinbaseTemplate.TotalIsSum` | api/ckpool_api_server.go:2569-2608 | That is the true sum exactly while it is below 2^63. |
| `CoinbaseTemplate.SpliceReads` | api/coinbase_template.go:71-80 | A spliced coinbase reads as the script at the job's first value and the job's other outputs. |
| `CoinbaseTemplate.SpliceChangesOnlyThePayee` | api/coinbase_template.go:71-151 | Another script changes the script of the first output and nothing else, neither outputs nor values nor total. |
| `TemplateCache.Cache.Get` | api/coinbase_template.go:273-329 | A call probes the pool at most once and ends, and no two probes run at a time. A cached template that answers it is returned without a probe, a height the pool has left is given up without one, a recent miss is not repeated, and otherwise the probe is made and its template, if it is of the height asked for, returned. |
| `TemplateCache.Cache.RecentlyMissed` | api/coinbase_template.go:228-236 | A refresh counts as missed within two seconds if it failed or asked for this height or more. |
| `TemplateCache.DecidesByHeight` | api/coinbase_template.go:251-271 | A template is used for exactly its own height, and a height the pool has left never costs a probe. |
| `Merkle.ComputeBranch` | src/merkle.c:7-38 | The in-place climb leaves the siblings of slot 0, whatever stood there, within its workspace of one slot more than the leaves. |
| `Merkle.TakeSiblings` | src/merkle.c:21-36 | Each level hands out the node next to slot 0 and is halved in place. |
| `Merkle.HashLevel` | src/merkle.c:24-35 | One level is paired up in place, the last of an odd number with itself. |
| `Merkle.PairUp` | src/merkle.c:28-34 | An even row of slots is hashed in place into the next level. |
| `Merkle.PairAt` | src/merkle.c:28-34 | A node is the hash of its left child before its right, the last of an odd row paired with itself. |
| `Merkle.RequiredDepth` | src/merkle.c:15-20 | The depth computed before anything is written is the height of the tree. |
| `Merkle.FoldedBranchIsRoot` | src/generator.c:3595-3602 | Folding any coinbase hash through the branch gives the merkle root of the finished block. |
| `Merkle.FoldBranch` | src/generator.c:3595-3602 | The loop of the solve path is that fold. |
| `Merkle.BranchLength` | src/merkle.c:7-38 | The branch is as long as the tree is high. |
| `Merkle.HalvingsIsCeilLog2` | src/merkle.c:15-20 | That height is ceil(log2) of the leaves. |
| `Merkle.DepthBound` | src/merkle.c:15-20 | A depth of at most 32 is exactly at most 2^32 leaves. |
| `Sha256Stream.Context.Update` | src/sha2.c:194-226 | Whatever the piece, the context stands for all bytes fed so far if and only if the unsigned sum of waiting and new bytes does not wrap; if it wraps, for exactly 2^32 bytes fewer, none of the piece among them. |
| `Sha256Stream.Context.Transform` | src/sha2.c:128-172 | The block loop compresses the blocks in order. |
| `Sha256Stream.Context.Pad` | src/sha2.c:228-246 | The padding written is one bit, zeros, and the low word of the length. |
| `Sha256Stream.Context.Final` | src/sha2.c:228-251 | The digest is that of all bytes fed, padded as the code pads. |
| `Sha256Stream.PaddingIsFipsIffShort` | src/sha2.c:228-246 | The code's padding is that of section 5.1.1 of FIPS 180-2 if and only if the message is under 2^29 bytes. |
| `Sha256Stream.FipsPaddingReads` | src/sha2.c:228-246 | The standard's padding: a one bit, zeros to 64 bits short of the end of a block, and the number of bits, highest byte first. |
| `Sha256Stream.MispaddedMessage` | src/sha2.c:228-246 | A message of 2^29 bytes is padded differently. |
| `Sha256Stream.HashPieces` | src/sha2.c:183-251 | However a message under 2^29 bytes is cut into updates, the digest is that of the padded message. |
| `Sha256Stream.BlocksConcat` | src/sha2.c:128-172 | Compressing whole blocks is associative with concatenation. |
| `Base58.DecodeStrict` | src/libckpool.c:1922-1947 | Decoding succeeds exactly on 1 to 100 alphabet characters of a value below 256^25, with its 25 big-endian bytes. |
| `Base58.DecodableIs` | src/libckpool.c:1922-1947 | That domain, character by character. |
| `Base58.MulAdd` | src/libckpool.c:1934-1943 | The digit loop multiplies by 58 and adds in 25 bytes, with the carry. |
| `Base58.Encode` | src/libckpool.c:2035-2072 | The text is one 1 for each leading zero byte and the shortest form of the rest, or nothing if it does not fit. |
| `Base58.EncodeDigits` | src/libckpool.c:2050-2062 | The digit loops leave the shortest base-58 form of the payload. |
| `Base58.PushByte` | src/libckpool.c:2051-2061 | One byte more, carry appended. |
| `Base58.DecodeInvertsEncode` | src/libckpool.c:1922-2072 | Every encoded payload is accepted by the decoder and comes back. |
| `Base58.DigitOf` | src/libckpool.c:1913-1940 | A character is of the alphabet exactly if it has a position in it. |
| `Base58.AlphabetInOrder` | src/libckpool.c:1913-1914 | The alphabet is the letters and digits but 0, O, I and l, in the order of their codes. |
| `BitGroups.FiveToEight` | src/cashaddr_simple.c:76-105 | Symbols convert exactly if they are below 32 and their left-over bits are zero, to the bytes they spell. |
| `BitGroups.EightToFive` | src/libckpool.c:2156-2172 | Bytes convert to the symbols that spell them with zero padding. |
| `BitGroups.BytesThereAndBack` | src/cashaddr_simple.c:76-105 | Every byte string comes back from its symbols. |
| `BitGroups.SymbolsThereAndBack` | src/libckpool.c:2156-2172 | Every accepted symbol string is what its bytes become. |
| `CashAddr.Polymod` | src/cashaddr_simple.c:59-73 | The loop runs the checksum rounds over all symbols. |
| `CashAddr.StepLinear` | src/cashaddr_simple.c:62-70 | A round is linear over exclusive or. |
| `CashAddr.StepInjective` | src/cashaddr_simple.c:62-70 | A round takes only the zero state to zero. |
| `CashAddr.RunLinear` | src/cashaddr_simple.c:59-73 | So is the whole run. |
| `CashAddr.BurstState` | src/cashaddr_simple.c:59-73 | A string that is zero outside eight neighbouring symbols leaves the zero state exactly if it is zero. |
| `CashAddr.BurstDetected` | src/cashaddr_simple.c:214-241 | Two payloads accepted under one prefix are equal if they agree outside a window of eight symbols. |
| `CashAddr.BurstOfNineUndetected` | src/cashaddr_simple.c:59-73 | A window of nine is too wide: nine symbols, added to any valid payload at any place, leave another valid one. |
| `CashAddr.DecodeSymbols` | src/cashaddr_simple.c:214-291 | An address is accepted exactly if its symbols denote it. |
| `CashAddr.MistypedIsRejected` | src/cashaddr_simple.c:134-291 | Mistyping up to eight neighbouring characters never gives another accepted address. |
| `CashAddr.FirstCharacterTells` | src/cashaddr_simple.c:251-286 | An accepted address has 42 characters, of which the first tells a script hash from a key hash. |
| `CashAddrField.MultipleVanishes` | src/cashaddr_simple.c:59-73 | The generator polynomial of the specification, times any symbol of GF(32), leads the zero state to zero: this fixes the five constants of a round. |
| `CashAddrField.ProductVanishes` | src/cashaddr_simple.c:59-73 | So does every multiple of it. |
| `CashAddrField.VanishingIsProduct` | src/cashaddr_simple.c:59-73 | And nothing else does: long division by the generator gives the other factor. |
| `CashAddrField.ValidIffMultiple` | src/cashaddr_simple.c:211-241 | A checksum is accepted if and only if the word of prefix, separator and payload is a multiple of the generator polynomial over GF(32). |

## Left out

- ChannelSpec.Step: a frame is one atomic step; `sv2_proxy_set_custom_job` reads the prefix in one go, so a prefix torn by a concurrent memcpy is not modelled.
- ChannelSpec.StepNewPrevHash: the job declaration client that places the pool's tip is an environment; it supplies the relation and the plausibility.
- Channel.Channel.SetNewPrevHash: byte order and hex of the notify, difficulty targets and logging are not modelled; hashes are numbers.
- ChannelClock.ClockOfEveryRun: a Reconnect frame of the pool, which asks for a new connection as well, is not modelled.
- ChannelLayout.EveryShareIsRebuilt: a pool job is taken to be rebuilt under the prefix its notify was sent with; what a pool does with shares of jobs from before a SetExtranoncePrefix is the pool's affair.
- SolvePath.EverySolveIsOfAHash: whether a share is worth a solve (the network target, a hole of at most 32 and a coinbase of at most 1024 bytes) is not modelled.
- ShareLedger.BatchIsExact: difficulties are integers; the statistics behind `account_shares` are not modelled.
- ClientRuns.SafeIffClean: the read and the write of the unlocked count are atomic each, and of two overlapping changes the later write stands.
- ClientRuns.EveryStateSound: client structures are entries of a map keyed by address, not objects; the branch in which `epoll_ctl` fails on accept is not modelled.
- ShareLedger.Ledger.Forget: a share sent but not yet tracked when its channel is freed is taken never to be tracked.
- SenderShard.Shard.Visit: an invalidation in the middle of one write loop is taken to come before or after it; send-buffer sizing is not modelled, and the queue limit is a parameter.
- Redirector.Redirector.Latch: a client instance is known by a number that is not used again, so a `redirect_client` on a recycled structure (see `ClientRuns.QueueMoreSound`) is outside this module.
- LineFraming.ReceiveAll: trusted remote clients, whose lines may be longer, and the rewriting of JSON keys are not modelled; JSON validity is a parameter.
- SocketLines.ConnSock.ReadSocketLine: timeouts and closed sockets are arbitrary; retries of a failed allocation are not modelled.
- ShareCursor.PollsDeliverAll: pruned directories, unreadable files and late appends to older files are outside the assumptions.
- ShareCursor.ResolveStart: a file of the cursor's directory that is no share log is taken not to be there; the documentation says a poll never resumes below its cursor, the code resumes at the last directory if all are below it.
- CursorText.RoundTrip: the base64 wrapping is not modelled.
- CoinbaseTemplate.SplitCoinb2: lengths of 2^63 and more, which wrap in the original, are compared as the numbers they are.
- CoinbaseTemplate.ParseOutputs: addresses and output types are not modelled, nor the choice of the miner output.
- CoinbaseOutputs.BuildOutputs: buffers are sequences; writing into the caller's buffer is not captured. The same holds for `CoinbaseParts` and `CoinbaseTemplate`.
- CashAddr.DecodeSymbols: the character table, the case rules and the prefix text are not modelled; the decoder starts from looked-up symbols.
- Base58.Encode: the checksum bytes are part of the payload.
- Sha256Stream.Context.Final: the compression of a block is a parameter, and the big-endian output of the state is not modelled.
- LruCache.Cache.Set: the lock is not modelled, each call being one step.
- The stratifier, Noise and ECDH, the JD client and server, job declaration messages, the SV2 codec and Stratum V1 parsing.
- HTTP handlers, rate limiting, request coalescing of `CoinbaseFlightGroup`, log tailing and grepping, configuration and process handover.
- Status strings, drop reasons and other tables, which would only add easy members.
