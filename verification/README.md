# A verified model of axon's tensor hand-off

axon hands tensors from one process to another through shared state: a seqlock-protected metadata slot with a
futex-style notify word, a Unix-socket plane that carries buffer and fence descriptors, and a wait-free ring of
payload buffers. This project models those pieces in Dafny and proves what their interleavings keep.

`dafny verify dfyconfig.toml` checks everything. A file is a component:

| file | component |
|---|---|
| `Descriptor.dfy` | the 144-byte metadata record, its word layout, and the check made before it is published |
| `Seqlock.dfy`, `Channel.dfy` | the metadata slot as a step system: readers (`Seqlock`), the publisher's stores (`Channel`) |
| `WaitProtocol.dfy`, `Stranded.dfy` | sleeping and waking, any number of slots and consumers; the wakeup that is lost |
| `FenceRing.dfy`, `Wire.dfy`, `Sidecar.dfy` | the fence cache, the message format, both ends of the socket |
| `Subscriber.dfy`, `WaitAny.dfy` | attaching, reading, falling back, draining; waiting with deadlines |
| `WaitRun.dfy` | the same wait, step by step, as a consumer of the waiting protocol |
| `Pool.dfy`, `Publisher.dfy`, `LapBound.dfy` | buffer allocation, publishing on both planes, ring depth |
| `CrossPlane.dfy` | a consumer's view of both planes together |
| `Restart.dfy`, `Desync.dfy` | what a restarted publisher, and a handshake cut short, do to a subscriber |
| `LatencyHold.dfy`, `CpuList.dfy`, `CpuFile.dfy` | CPU latency limits, CPU lists, and the line reader they come through |
| `Edf.dfy`, `Tally.dfy` | the benchmark's earliest-deadline-first producer and its consumer's tally |

## How concurrency is modelled

Every load, store or exchange of one 64-bit word, and every system call, is one sequentially consistent step. The
slot's life is the sequence of the states it goes through. A reader never writes what a publisher reads, except the
waiter flag, so a reader is a method that looks at that sequence at increasing positions chosen freely; whatever is
proved of it holds under every interleaving with the publisher and with any number of other readers. The publisher's
end is imperative: each of its stores extends the recorded sequence, and the contract says that the sequence is a run
of the step system. Waiting is a step system over all slots and all consumers, in which sleeping is an atomic
compare-and-enqueue on all watched words and a wake rouses everybody who sleeps on the slot.
`Stranded.SlotOfRunIsSlotRun` projects its runs onto the slot runs the readers are proved against, and
`WaitRun.WaitAnyRuns` performs the loop of `wait_any` as such steps.

Whatever the kernel, the driver, a clock or a peer decides, errors included, arrives as a parameter or as an arbitrary
choice. Assumed: in step with the stream a header is received whole, as it was sent; sends succeed; a descriptor
number is given out once; the kernel accepts back an attribute value it gave out. What the network does during a
handshake, where a receive ends, what the kernel grants an allocation and when messages reach a socket are parameters,
so runs that fail can be written down as methods.

## Where the code and its documentation part

* `src/metadata_channel.cpp:171-176` says a wakeup is never lost. At the granularity of single steps one can be: a
  consumer that reads `notify` and raises its flag between a publish's bump and that same publish's exchange has its
  flag consumed, then sleeps on the current value. `WaitProtocol.SleeperIsWokenOrRaisedInGap` shows that this is the
  only way, `WaitProtocol.FusedNeverLosesAWakeup` that the claim is true if the two operations are one,
  `Stranded.StrandedForever` that the sleeper can be left behind by any number of publishes. What this means for a
  call of `wait_any` is the contract of `WaitRun.WaitAnyRuns`.
* `seen_notify` and `seen_seqno` survive a re-handshake (`src/subscriber.cpp:149-231` resets neither), while a
  restarted publisher's slot starts at 0. `Restart.RestartedPublisher` is a run, on a slot with a notify word and on
  one without, in which the subscriber is told that there is nothing new while there is. On a slot from which nothing
  was taken, "no update" can be trusted exactly if the one of the two that the check goes by is 0:
  `Restart.HandshakeAndAsk`, `Restart.MissedUpdate`, `Restart.NewSlotTrustedIff`. On a slot without a notify word the
  check has to read; what "no update" is worth when it cannot is in `Restart.HandshakeAndAsk`, and
  `Restart.UnreadableSlot` is a run in which it is worth nothing.
* A handshake that times out inside the import blob gives its descriptors up but leaves the socket open inside the
  message (`src/sidecar.cpp:376-382`; `poll_sync_fences` shuts it down in the same situation).
  `Subscriber.TensorSubscriber.WaitHandshake` says exactly when the connection is out of step afterwards.
  `Desync.DrainAfterCut` is a run in which a fence is then stored under a token nobody sent; no descriptor is lost in
  it. `Desync.LeakAfterCut` is one in which the fence's descriptor is lost: a receive that returns fewer bytes than
  asked for drops the descriptors that came with them (`src/sidecar.cpp:132-135`).
  `Subscriber.TensorSubscriber.DrainFences` says exactly what a drain loses, in whatever state.
* `image_bytes` multiplies in 64 bits and wraps (`Descriptor.WrapWitness`), and the shape of an unpitched descriptor
  is never compared with its size (`Descriptor.PackedWitness`); the exact conditions are stated beside the witnesses.
* The publisher's buffer size is read once, when it is created. `Publisher.ResizePool` says when that matters,
  `Publisher.OverrunAfterResize` is a run in which an accepted frame leaves its buffer.
* The sizing formula of `docs/usage.md` counts readers, but what it must cover is unpublished acquires: see
  `LapBound.DepthIsExact` and `LapBound.DocumentedSize`.
* Assigning one latency hold over another that is live on the same CPU keeps the nest only under the condition of
  `LatencyHold.AssignKeepsNestIff`; `LatencyHold.AssignOverLive` is the case the setup code avoids by resetting first.
* The line reader of `src/rt.cpp:38-56` delivers at most 63 bytes. Of the CPU lists the kernel prints, exactly those
  of at most 63 characters read back (`CpuFile.FileRoundTripIff`). What is left of a longer one need not be malformed:
  it can name fewer CPUs (`CpuFile.CutBehindEntry`), or one that is not in the list (`CpuFile.WrongCpu`).

## Model

| member | source | states |
|---|---|---|
| Descriptor.PackUnpack | include/axon/tensor_descriptor.h:18-82 | a reader that holds the words a publisher stored recovers every field of its record |
| Descriptor.UnpackPack | include/axon/tensor_descriptor.h:18-82 | the layout has no padding: no two word images decode to the same record |
| Descriptor.ElementCount | include/axon/detail/descriptor_util.h:22-26 | the loop leaves the residue modulo 2^64 of the true product of the used dimensions |
| Descriptor.ImageBytes | include/axon/detail/descriptor_util.h:43-48 | rows times row stride modulo 2^64, 0 for rank 0 |
| Descriptor.DescriptorError | include/axon/detail/descriptor_util.h:56-70 | Valid exactly for accepted descriptors, whose window fits the buffer in unbounded integers; EMSGSIZE exactly when an otherwise sane window does not fit |
| Descriptor.ElementsInsideIff | include/axon/detail/descriptor_util.h:33-48 | all elements, over every multi-index, lie in the window exactly if there are none or the last one's end does |
| Descriptor.AcceptedPitchedIsSafe | include/axon/detail/descriptor_util.h:63-68 | accepted, pitched and not wrapping: every element lies in the window and in the buffer |
| Descriptor.LowRankNeverWraps | include/axon/detail/descriptor_util.h:43-48 | up to rank 2 the no-wrap hypothesis always holds |
| Descriptor.WrapWitness | include/axon/detail/descriptor_util.h:43-48 | an accepted rank-3 descriptor whose footprint wraps and whose elements leave the window |
| Descriptor.AcceptedPackedIsSafeIff | include/axon/detail/descriptor_util.h:33-70 | without a pitch an accepted descriptor is safe exactly if its packed bytes fit its size |
| Descriptor.PackedWitness | include/axon/detail/descriptor_util.h:56-70 | an accepted unpitched descriptor that is not |
| Seqlock.RunInv | src/metadata_channel.cpp:161-180 | in every state of every run, guard, ready, words and notify agree with the number of publishes begun and finished |
| Seqlock.Monotone | src/metadata_channel.cpp:161-180 | guard, notify, ready and the list of published records never go back |
| Seqlock.QuietInterval | src/metadata_channel.cpp:187-198 | between two equal even guard values no copy was in progress and no word changed |
| Seqlock.MovedMeansCopying | src/metadata_channel.cpp:187-200 | between guard values that differ or are odd, a copy was in progress at some instant |
| Seqlock.CopyOut | src/metadata_channel.cpp:191 | the plain struct copy is 18 word loads in any order, each at some later instant |
| Seqlock.ReadPass | src/metadata_channel.cpp:187-200 | a pass succeeds exactly if no copy overlapped it, and then its words are one published record, current throughout |
| Seqlock.QuietRead | src/metadata_channel.cpp:187-198 | words loaded at arbitrary instants between two equal even guards are the record current at every instant in between |
| Seqlock.ReadLatest | src/metadata_channel.cpp:182-202 | success delivers one record, current throughout a pass inside the call and at least as new as what was in place when it began; failure with data present means each of max_retry + 1 disjoint passes overlapped a copy; the reported retries |
| Seqlock.CurrentIsStored | src/metadata_channel.cpp:161-180 | the record current at an instant is the publish whose number is half the guard |
| Seqlock.CurrentIsVersioned | src/publisher.cpp:166-177 | until seqnos wrap, the current record's seqno is half the guard |
| Channel.MetadataChannel.constructor | src/metadata_channel.cpp:122-129 | a fresh slot starts a run |
| Channel.MetadataChannel.CopyIn | src/metadata_channel.cpp:166 | the copy's stores extend the run, whatever consumers do in between, and leave the record in place |
| Channel.MetadataChannel.Publish | src/metadata_channel.cpp:161-180 | the stores of publish() are a run of the step system; guard +2, notify +1, the record stored and appended; a flag that was up always ends in a wake |
| WaitProtocol.NextKeepsInv | src/subscriber.cpp:412-445 | every step of a publisher or a consumer keeps the wait invariant of every waiter on every slot |
| WaitProtocol.RunKeepsInv | src/subscriber.cpp:412-445 | hence it holds in every reachable state |
| WaitProtocol.SleeperIsWokenOrRaisedInGap | src/metadata_channel.cpp:171-179 | a sleeper whose notify word moved has a wake to come from the publish in progress, or raised its flag between a bump and the same publish's exchange |
| WaitProtocol.UncoveredRaisedInGap | src/metadata_channel.cpp:171-179 | a sleeper that neither a raised flag nor a wake under way covers raised its flag in that gap |
| WaitProtocol.CoveredSleeperIsWoken | src/metadata_channel.cpp:177-179 | a covered sleeper cannot sleep through two publishes |
| WaitProtocol.FusedNeverLosesAWakeup | src/metadata_channel.cpp:171-179 | with bump and exchange as one step every sleeper is covered, and one whose word moved is being woken |
| Stranded.SoloToBumped | src/metadata_channel.cpp:161-177 | from anywhere inside publish() the publisher alone reaches its bump |
| Stranded.SoloPublishes | src/metadata_channel.cpp:161-180 | from rest it alone can publish any list of records without a wake |
| Stranded.UncoveredCanSleepThrough | src/metadata_channel.cpp:177-179 | the converse of being covered: an uncovered sleeper can sleep through any number of publishes |
| Stranded.StrandedReachable | src/metadata_channel.cpp:177-178 | the stranded state is reachable from the start, as an explicit run |
| Stranded.StrandedForever | src/metadata_channel.cpp:171-179 | for every n, a run in which a sleeper without a timeout misses n newer frames |
| Stranded.SlotOfRunIsSlotRun | src/metadata_channel.cpp:52-60 | in any run of the whole system each slot goes through a run of the slot system |
| FenceRing.Ring.Store | src/subscriber.cpp:80-86 | the ring stands for one more store; what is closed is the superseded descriptor and only that |
| FenceRing.Ring.Lookup | src/subscriber.cpp:88-93 | misses exactly the tokens not among the last 16 stores; a hit is one of those stores, and with distinct tokens the one |
| FenceRing.Ring.Clear | src/subscriber.cpp:95-100 | closes each live descriptor once and forgets all stores |
| FenceRing.SlotOrderIsLive | src/subscriber.cpp:95-100 | closing in slot order closes the live descriptors, wherever the ring has wrapped |
| Wire.HeaderRoundTrip | include/axon/detail/sidecar.h:36-44 | decoding the 24 header bytes gives the header back |
| Wire.TokenRoundTrip | include/axon/detail/sidecar.h:47-51 | decoding the 16 fence bytes gives the token back |
| Wire.PoolAtHead | src/sidecar.cpp:180-200 | at a boundary before a pool message stand its header, its descriptors and its blob, then the next message |
| Wire.FenceAtHead | src/sidecar.cpp:292-301 | at a boundary before a fence message stand its bytes and its one descriptor, then the next message |
| Sidecar.SidecarServer.SetPool | src/sidecar.cpp:233-256 | the cached bundle carries the blob exactly if it fits 65535 bytes, and is well formed either way |
| Sidecar.SidecarServer.SendPoolTo | src/sidecar.cpp:180-200 | however the sends are cut short, the stream grows by exactly one encoded bundle |
| Sidecar.SidecarServer.AcceptAndHandshake | src/sidecar.cpp:258-282 | every connection's stream starts with the current pool message; a failing poll or accept gives -1 and leaves those accepted before it connected |
| Sidecar.SidecarServer.BroadcastPool | src/sidecar.cpp:284-290 | every stream grows by one bundle, or none does |
| Sidecar.SidecarServer.BroadcastSyncFence | src/sidecar.cpp:292-301 | every stream grows by one fence message |
| Sidecar.SidecarClient.RecvFds | src/sidecar.cpp:110-156 | bytes and descriptors come together if all bytes asked for do; otherwise it fails and the descriptors that came are lost |
| Sidecar.SidecarClient.ReadExact | src/sidecar.cpp:38-62 | succeeds exactly if the bytes come in time, in whatever pieces; either way what came is consumed, in order |
| Sidecar.SidecarClient.RecvPoolHandshake | src/sidecar.cpp:351-388 | succeeds exactly if header and blob come in time, and then it is the first message and stops at its end; otherwise every received descriptor is given up, and a cut blob leaves the position inside it |
| Sidecar.SidecarClient.SkipBlob | src/sidecar.cpp:430-436 | a blob of any length is skipped exactly if it comes in time |
| Sidecar.SidecarClient.TakeMessage | src/sidecar.cpp:399-441 | whatever stands there, the descriptors of a header received in full are stored or closed, each once; then the position is the one the header calls for, or the connection is cut |
| Sidecar.SidecarClient.PollSyncFences | src/sidecar.cpp:390-444 | in step, with headers in full: exactly the fences of the messages consumed, in order, stopping at a boundary with nothing left behind that had arrived; in step or not, descriptors are stored or closed, each once, but for those on a receive that ends early, which are lost |
| Sidecar.HeaderAt | src/sidecar.cpp:409-416 | what stands at any message boundary of a well-formed stream, and that the next position is the next boundary |
| Sidecar.ChainFollows | src/sidecar.cpp:394-442 | headers taken one after the other from a boundary on are those of the messages, whatever blobs lie between |
| Sidecar.MidBlobIsNoBoundary | src/sidecar.cpp:376-382 | inside the blob of the first message no message begins, whatever the bytes |
| Sidecar.ReadIsCarried | src/sidecar.cpp:407-416 | what a drain receives, in step or not, is among the descriptors on the bytes it reads |
| Subscriber.TensorSubscriber.constructor | src/subscriber.cpp:132-147 | the invariant holds from the start |
| Subscriber.TensorSubscriber.EachFdInOnePlace | src/subscriber.cpp:102-129 | each received descriptor is in exactly one of pool list, fence ring, closed set and lost set; none is closed twice |
| Subscriber.TensorSubscriber.Detach | src/subscriber.cpp:102-129 | closes the pool's descriptors and the fences, and forgets the frame that aliased them |
| Subscriber.TensorSubscriber.Destroy | src/subscriber.cpp:134-138 | everything ever received, and not lost in a drain, has been closed, once |
| Subscriber.TensorSubscriber.ReceiveBundle | src/subscriber.cpp:154-162 | of what was received the bundle is kept and the rest closed; it is kept exactly if all came in time and the wire version is right |
| Subscriber.TensorSubscriber.Adopt | src/subscriber.cpp:166-222 | buffers are mapped at their own place or not at all; refused exactly for a device pool without device support |
| Subscriber.TensorSubscriber.Install | src/subscriber.cpp:164-231 | even when it fails half way, no frame of the old attachment survives and the books balance |
| Subscriber.TensorSubscriber.WaitHandshake | src/subscriber.cpp:149-231 | the whole invariant over success and every partial failure; when it succeeds; what a failure leaves alone; afterwards the connection is in step exactly if the blob was not cut |
| Subscriber.TensorSubscriber.DrainFences | src/subscriber.cpp:233-242 | conservation of descriptors, in step or not: lost are exactly those on a receive that ends early, so none if every header comes in full; then, in step, the ring gains exactly the fences sent, in order |
| Subscriber.TensorSubscriber.ReadFrame | src/subscriber.cpp:252-257 | a descriptor read is current and at least as new as the notify value loaded before it; a failed read overlapped a copy in every pass; without a notify word the value loaded is 0 |
| Subscriber.TensorSubscriber.Accepts | src/subscriber.cpp:261-276 | accepted exactly if of this generation, in range, and not waiting for a fence that is not at hand |
| Subscriber.TensorSubscriber.TryRead | src/subscriber.cpp:252-276 | lets a record through exactly if one was read and it is acceptable; it is then no older than anything seen before the call |
| Subscriber.TensorSubscriber.Fallback | src/subscriber.cpp:318-336 | a frame exactly under LastKnownGood with one kept: the kept one, still of this attachment, ageing, without its fence |
| Subscriber.TensorSubscriber.LatestView | src/subscriber.cpp:244-337 | every view, fresh or reused, points into the current attachment and carries its generation; seqnos never go back; fresh exactly if an acceptable record was read, and then it shows that record, covers all published before the call, and alone counts as seen; without a notify word what it leaves as seen notify value is 0 |
| Subscriber.TensorSubscriber.HasUpdate | src/subscriber.cpp:356-361 | no update means the last fresh frame is at least as new as every publish that has bumped notify |
| WaitAny.DeadlineAfter | src/subscriber.cpp:363-370 | the deadline is normalised and exactly the timeout later in total nanoseconds |
| WaitAny.Past | src/subscriber.cpp:372-376 | the two-field comparison is the comparison of total nanoseconds |
| WaitAny.AllAttached | src/subscriber.cpp:398-405 | what is refused, and when all words can be slept on, in a build with futex_waitv or without |
| WaitAny.CheckAll | src/subscriber.cpp:419-422 | the first subscriber with an update, or none; every subscriber before it had nothing unseen: its notify word at the seen value, or without one its read failed or gave the seen seqno |
| WaitAny.WaitAny | src/subscriber.cpp:397-449 | the last pass decides: the first updated subscriber, else a timeout exactly if the clock is past the deadline, and then no subscriber, sleeping or polling, had anything unseen; whatever ended the sleeps; EINVAL exactly for no or unattached subscribers |
| WaitAny.WaitForUpdate | src/subscriber.cpp:380-385 | 1 only for an update, 0 only for a timeout in that sense, -1 when not attached |
| WaitAny.ConsumeLoop | src/subscriber.cpp:248-253 | with any timeouts and retry bounds, n returns need n publishes, not counting returns after which no fresh frame was had |
| WaitRun.CheckAll | src/subscriber.cpp:419-422 | a checking pass among any moves of the others: each slot looked at once, in order, up to the first whose word has moved |
| WaitRun.TakeTurn | src/subscriber.cpp:412-443 | one turn of the loop, flags, pass, deadline and sleep, is a stretch of a protocol run; what ends the call |
| WaitRun.SleeperSleepsSoundly | src/subscriber.cpp:413-414 | a sleeper whose word has moved is being woken by the publish in progress, or raised its flag in the gap, which does not exist if bump and exchange are one step |
| WaitRun.WaitAnyRuns | src/subscriber.cpp:397-449 | wait_any, whatever the others do meanwhile, goes through a run of the waiting protocol; its last pass decides the result; while it sleeps it sleeps in the sense of SleeperSleepsSoundly |
| WaitRun.AsSubscriberSees | src/subscriber.cpp:356-361 | what the protocol's consumer finds in a slot is what has_update() finds of a subscriber on that slot, whose life is a slot run |
| Restart.HandshakeAndAsk | src/subscriber.cpp:224-227 | after a handshake, onto a slot with or without a notify word, "no update" means nothing published was missed, if the check could look and either a frame was taken from this slot before or the value the check goes by is 0; if it could not read, only that nothing was ready or every pass overlapped a copy |
| Restart.UnspoiltIsTrusted | src/subscriber.cpp:356-361 | with that value at 0, no "no update" of a check that could look hides a frame, anywhere in the history of any slot |
| Restart.MissedUpdate | src/subscriber.cpp:356-361 | otherwise, for every subscriber: a handshake onto another slot after which "no update" is said although the check could look and nothing was taken |
| Restart.NewSlotTrustedIff | src/subscriber.cpp:356-361 | on slots from which nothing was taken "no update" of a check that could look can be trusted exactly if seen_notify, or without a notify word seen_seqno, is 0 |
| Restart.UnreadableSlot | src/subscriber.cpp:356-361 | a concrete run on a slot without a notify word: nothing remembered, the read fails because a publish is in progress, "no update" although a record is in place |
| Restart.HistoryOf | src/metadata_channel.cpp:161-180 | for every notify value there is a slot history that reaches it |
| Restart.OnePublishIsHistory | src/metadata_channel.cpp:161-180 | the life of a slot with one publish, store by store, is a run |
| Restart.RestartedPublisher | src/subscriber.cpp:149-231 | a concrete run, with or without a notify word: one frame taken, restart, one frame published, "no update" |
| Desync.Misread | src/sidecar.cpp:409-422 | the bytes after a cut blob's header, read as a fence |
| Desync.DrainAfterCut | src/sidecar.cpp:376-382 | a concrete run: the handshake times out inside the blob, a later drain stores a token nobody sent, no descriptor is lost |
| Desync.LeakAfterCut | src/sidecar.cpp:132-135 | a concrete run: the same with a shorter blob, a later drain receives all that is there, which is less than it asked for, and the fence's descriptor is neither stored nor closed |
| Pool.PageRoundUpFits | src/pool.cpp:41-45 | for any page size, the next whole number of pages exactly up to a page below 2^64; beyond that 0 |
| Pool.StepsOnFreeSet | src/pool.cpp:327-344 | acquiring takes an element out of the free set, releasing puts one in, a bad index does nothing |
| Pool.PassedOverMovesUp | src/pool.cpp:327-344 | over any mix of acquires and releases, each acquire that passes a free slot over brings it nearer |
| Pool.FreeSlotIsHandedOut | src/pool.cpp:327-338 | a slot that stays free is handed out within its cyclic distance plus one acquires, at most n |
| Pool.TensorPool.AcquireNext | src/pool.cpp:327-338 | the free slot nearest behind the head; -1 exactly if none is free |
| Pool.TensorPool.Release | src/pool.cpp:340-344 | frees the slot named, ignores an index that names none |
| Pool.TensorPool.FreeAll | src/pool.cpp:241-270 | closes every descriptor of every buffer, in order, then the video device's |
| Pool.TensorPool.Allocate | src/pool.cpp:224-239 | all buffers, free, with the head at 0, exactly if the kernel grants them; or none, with the head where it was; surfaces bring their own size |
| Pool.TensorPool.RetireAndReallocate | src/pool.cpp:346-351 | generation up by exactly one, all old descriptors closed, every slot free or no slot at all; the new size, for every backend |
| Publisher.Create | src/publisher.cpp:90-119 | null exactly for an unknown buffer size, import parameters too long, or a socket or slot that cannot be made; otherwise all the invariants below |
| Publisher.TensorPublisher.constructor | src/publisher.cpp:90-119 | a new publisher satisfies all the invariants below |
| Publisher.TensorPublisher.Coupled | src/publisher.cpp:154-185 | between publishes guard = 2 * seqno and notify = seqno, and records carry 1, 2, 3, .. without a gap; so its slot is what subscribers assume of one |
| Publisher.TensorPublisher.CachePool | src/publisher.cpp:51-61 | afterwards the cached bundle is the pool's, whether or not it was cached again |
| Publisher.TensorPublisher.AcquireDescriptor | src/publisher.cpp:126-152 | the next buffer round robin, spent whether or not it is ever published; -1 exactly for an empty pool |
| Publisher.TensorPublisher.SendFence | src/publisher.cpp:171-175 | the fence is in every connected consumer's stream before any state from which its record can be read |
| Publisher.TensorPublisher.Publish | src/publisher.cpp:154-185 | refused exactly if not accepted, and then nothing but the counter changes; else the next seqno, both planes in order, newcomers sent the current bundle |
| Publisher.TensorPublisher.HandshakePool | src/publisher.cpp:121-124 | newcomers are sent the current bundle, first |
| Publisher.TensorPublisher.ReannouncePool | src/publisher.cpp:189-195 | the last message of every consumer is the current bundle |
| Publisher.FenceOfDraft | src/publisher.cpp:171-175 | the fence sent carries the token that the published record names |
| Publisher.AfterWrite | src/publisher.cpp:171-177 | more traffic on the sockets keeps the order between the planes |
| Publisher.AfterFence | src/publisher.cpp:171-175 | a fence sent now precedes the record about to be published, on every connection |
| Publisher.AfterPublish | src/publisher.cpp:177 | publishing keeps the order between the planes, for all earlier records too |
| Publisher.TurnsAfterPublish | src/publisher.cpp:126-177 | the record published for an acquire names, by its seqno, that acquire and its buffer; earlier records keep theirs |
| Publisher.AcceptedFitsIff | src/publisher.cpp:159 | everything the check accepts for one size fits another exactly if that is no smaller |
| Publisher.ResizePool | src/publisher.cpp:189-195 | after a reallocation every consumer has the new buffers under the next generation, with the publisher's old size; what it accepts fits the pool's buffers exactly if they are no smaller than that |
| Publisher.OverrunAfterResize | src/publisher.cpp:99-106 | a concrete run in which they are smaller: an accepted, published frame overruns its buffer |
| LapBound.DeepRingIsSafe | src/publisher.cpp:126-152 | n >= ceil(T/P) + 2 + R: no buffer is handed out again within T of a read of its descriptor |
| LapBound.RecordKeepsItsBuffer | src/publisher.cpp:126-177 | the same of a record that a reader has got from the slot: the buffer it names is not handed out again within T |
| LapBound.ShallowRingIsUnsafe | docs/usage.md:266-280 | any smaller ring has a schedule that hands it out too early |
| LapBound.DepthIsExact | docs/usage.md:266-280 | safe for all schedules if and only if n >= ceil(T/P) + 2 + R |
| LapBound.DocumentedSize | docs/usage.md:273-280 | the documented size is safe exactly for R <= readers + margin - 2, so always for R = 0 |
| CrossPlane.ArrivalIsFramed | src/sidecar.cpp:184-200 | a log stays well formed in the receiver's descriptor numbers |
| CrossPlane.StoreNumber | src/subscriber.cpp:233-242 | which store a drained fence message becomes |
| CrossPlane.LiveStore | src/subscriber.cpp:69-86 | a store is in the ring while fewer than 16 newer ones were made, and with distinct live tokens a lookup can find nothing else |
| CrossPlane.LiveIff | src/subscriber.cpp:69-93 | a token no newer store reuses is live exactly while fewer than 16 newer stores were made |
| CrossPlane.FenceHasArrived | src/publisher.cpp:171-177 | the record read names a fence; for a consumer connected before its publish, that fence is among the messages in its socket by then |
| CrossPlane.DrainAndLookup | src/subscriber.cpp:80-93 | draining what has arrived and looking up finds that fence, or not, by how many newer ones were stored |
| CrossPlane.AttachToPublisher | src/subscriber.cpp:149-231 | a handshake over what a publisher writes to a connection, onto its slot, makes a subscriber that consumer: in step, with its ring standing for the fences drained |
| CrossPlane.ReadDrainLookup | src/subscriber.cpp:244-276 | read the slot, drain, look up the token of the record read: its own fence is found if fewer than 16 newer ones were stored and live tokens are distinct, and then only generation and range decide acceptance |
| CrossPlane.Follow | src/subscriber.cpp:244-337 | a subscriber on a publisher's slot, draining and reading at will: seqnos never decrease and are those of published records |
| LatencyHold.LimitIsNeverNoLimit | src/rt.cpp:91-105 | no limit is written as the string that means none |
| LatencyHold.CpuLatencyHold.Moved | src/rt.cpp:112-117 | the hold changes hands whole and its source is left empty |
| LatencyHold.CpuLatencyHold.Release | src/rt.cpp:136-150 | only a live hold in its own process restores or closes, and afterwards it is empty |
| LatencyHold.CpuLatencyHold.Assign | src/rt.cpp:119-132 | releases what was held, then takes over; self-assignment changes nothing |
| LatencyHold.Acquire | src/rt.cpp:73-107 | which error for which input, the kernel's own errors included; a failure changes nothing; a success remembers exactly the value it replaced |
| LatencyHold.Pushed | src/rt.cpp:100-106 | taking a hold on top of a nest gives a nest |
| LatencyHold.Popped | src/rt.cpp:136-150 | restoring the innermost hold's value gives the nest below it |
| LatencyHold.AssignKeepsNestIff | src/rt.cpp:119-132 | assigning over a live hold leaves a nest exactly if that hold is innermost, or its limit, the limit it replaced and the innermost limit are spelled the same |
| LatencyHold.OneMoreRestored | src/rt.cpp:136-150 | a release moves one hold from live to restored, whichever it is |
| LatencyHold.Program.Relocate | src/rt.cpp:112-132 | moving a hold into a new or an empty object, and destroying the husk, changes no attribute and restores nothing |
| LatencyHold.Program.AssignOver | src/rt.cpp:119-132 | moving one live hold over another: what is restored, and exactly when the nest survives |
| LatencyHold.Program.PopOne | src/rt.cpp:136-150 | destroying the innermost hold gives the nest below |
| LatencyHold.Program.Forked | src/rt.cpp:138-148 | a child process that destroys its copy changes nothing |
| LatencyHold.Program.Run | src/rt.cpp:73-150 | over any program of nested holds, moves, assignments that may be and forks the attribute is the innermost live limit; it ends at the original, and every single hold has restored exactly once |
| LatencyHold.SetupHold.Setup | src/rt.cpp:214-220 | replaces the hold so that nothing but the new limit differs from the original machine |
| LatencyHold.SetupHold.RunSetups | src/rt.cpp:214-220 | any sequence of setup calls, on any CPUs, ends at the original values |
| LatencyHold.AssignOverLive | src/rt.cpp:119-132 | a new hold assigned over a live one of the same CPU: its limit is in force exactly if it is spelled like the value found first, which is restored in the end exactly if the old limit was |
| CpuList.Cpus | src/rt.cpp:152-171 | empty exactly if the list is empty or some item is malformed |
| CpuList.ReadLine | src/rt.cpp:38-56 | the first 63 bytes without trailing newlines and blanks, or nothing |
| CpuList.CoreSiblings | src/rt.cpp:152-171 | the loops compute the meaning of the line read, or nothing without one |
| CpuList.StrtolOfDecimal | src/rt.cpp:159-166 | the number parser reads a printed number back and stops right after it |
| CpuList.ListRoundTrip | src/rt.cpp:156-170 | printing any list of CPUs and ranges and parsing it gives their expansion, in order |
| CpuList.MalformedAnywhere | src/rt.cpp:160-167 | a malformed item in any position empties the result |
| CpuFile.FileRoundTrip | src/rt.cpp:38-56 | through the file it still does, for lists of up to 63 characters |
| CpuFile.CutEntry | src/rt.cpp:159-167 | the beginning of an entry, wherever it is cut, is not read as that entry, nor as more CPUs |
| CpuFile.CutListDiffers | src/rt.cpp:41-50 | no proper beginning of a list the kernel prints is read as the list |
| CpuFile.LongFileIsCut | src/rt.cpp:41-50 | what is read of a list of more than 63 characters is what its first 63 mean, and never what the list means |
| CpuFile.FileRoundTripIff | src/rt.cpp:38-56 | a list the kernel prints reads back exactly if it has at most 63 characters |
| CpuFile.CutBehindEntry | src/rt.cpp:41-50 | where the cut falls behind an entry, the entries before it are read |
| CpuFile.LongFileExists | src/rt.cpp:41-50 | such a list |
| CpuFile.WrongCpu | src/rt.cpp:41-50 | a list without CPU 1, cut inside a number, of which CPU 1 is read |
| Edf.DeadlineIsArithmetic | benchmarks/ros2_cpp/src/mstream.cpp:168-181 | the deadlines reached by adding periods one at a time are the arithmetic progression from the first |
| Edf.EarliestDue | benchmarks/ros2_cpp/src/mstream.cpp:177 | the first of the earliest deadlines |
| Edf.StaggerIsWithinAPeriod | benchmarks/ros2_cpp/src/mstream.cpp:169-171 | staggered starts lie within one period |
| Edf.ServeOne | benchmarks/ros2_cpp/src/mstream.cpp:176-184 | one send keeps the log planned, complete and sorted, and brings the end nearer |
| Edf.RunProducer | benchmarks/ros2_cpp/src/mstream.cpp:162-184 | terminates having sent exactly the deadlines before the end, in deadline order, with the exact count per stream and in all |
| Edf.OrderIsDecided | benchmarks/ros2_cpp/src/mstream.cpp:176-184 | the plan decides every send: two such logs are equal |
| Edf.InNumberOrder | benchmarks/ros2_cpp/src/mstream.cpp:176-184 | deadlines never go back, and each stream's frames go out in number order |
| Tally.SpanCovers | benchmarks/ros2_cpp/src/mstream.cpp:353-355 | distinct increasing numbers fill their span exactly if there is no gap |
| Tally.Tally.FrameArrives | benchmarks/ros2_cpp/src/mstream.cpp:325-339 | counted exactly if inside the window, whole and newer than the last |
| Tally.Tally.Rate | benchmarks/ros2_cpp/src/mstream.cpp:352-355 | a delivery rate between 0 and 1, and 1 exactly if the stream was seen without a gap |
| Tally.Tally.Report | benchmarks/ros2_cpp/src/mstream.cpp:341-358 | the worst rate of all streams, and the total counted |

## Left out

- Seqlock.ReadLatest: words are sequentially consistent; weak-memory effects, which the fences are there for, are not modelled.
- Channel.MetadataChannel.Publish: guard (64 bits) and notify (32 bits) do not wrap; two states exactly 2^32 publishes apart would compare equal.
- WaitProtocol.RunKeepsInv: consumers on slots without a notify word, which poll, do not take part in the protocol.
- Subscriber.TensorSubscriber.WaitHandshake: the fields of the source's Impl are grouped into a few values (pool, metadata, last good frame); imported surfaces and device handles are pointers named by attachment and buffer.
- Subscriber.TensorSubscriber.LatestView: view fields that are copied one by one are carried as the record itself.
- Sidecar.SidecarServer.AcceptAndHandshake: needs a bundle to have been set, as the publisher always does first.
- Sidecar.SidecarClient.PollSyncFences: always has the ring as its sink, as the subscriber uses it; interrupted calls are not modelled.
- Sidecar.SidecarServer.SendPoolTo: sends do not fail, so no client is left half served; socket buffers and crashes are outside.
- Sidecar.SidecarClient.PollInFull: in step with the stream the kernel delivers each header whole, as it was sent in one message; where a drain out of step is cut short is the kernel's choice.
- Publisher.TensorPublisher.AcquireDescriptor: the running index does not wrap at 2^64, and host views are left out.
- WaitRun.WaitAnyRuns: of slots with a notify word, in a build with futex_waitv and on a kernel that has it; the clock enters as the outcome of the deadline test.
- WaitAny.ConsumeLoop: of one slot; after a handshake onto another, see Restart.HandshakeAndAsk.
- Publisher.TensorPublisher.Publish: the caller's descriptor is the publisher's staging record, as the interface hands it out.
- Pool.TensorPool.RetireAndReallocate: the 64-bit generation does not wrap; the backends' allocation calls either give a descriptor or fail.
- LapBound.DeepRingIsSafe: real time is an integer clock; the schedule of acquires and publishes is given.
- CpuFile.FileRoundTripIff: of lists with CPU numbers that fit an int and ranges of at least two CPUs, as the kernel prints them.
- LatencyHold.CpuLatencyHold.Release: a restoring write does not fail; values are the lines read, without their newline.
- CpuList.CoreSiblings: a range that ends at LONG_MAX, where the source's counter overflows, is expanded like any other.
- Edf.RunProducer: needs at least one stream and rates of 1 to 10^9 Hz, as the stream table has; 64-bit time does not wrap; sleeping and sending are not modelled.
- Tally.Tally.Rate: rates are exact, not floating point; latency samples and percentiles are left out.
- Tally.Tally.Report: needs a stream, and a window of at least a second; with an empty window the source divides by zero.
- The iceoryx2 metadata backend: its correctness rests on a library that is not part of this model.
- Shared-memory and mapping calls, name sanitising, memory locking, prefaulting, scheduling, `rt_sleep_until_prewarmed`: foreign I/O or straight-line code.
- Python bindings, ROS bridges, other benchmarks and examples: glue.
