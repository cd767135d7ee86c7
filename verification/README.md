# A verified model of the NVMe driver

This project models the host side of the NVMe server and the controller it talks to, and
proves what the driver relies on but never writes down. It consists of three machines and
two theorems that join them.

1. **The queue pair** (`SubmissionQueue.dfy`, `CompletionQueue.dfy`, `Protocol.dfy`,
   `QueueInvariant.dfy`, `QueueGuarantees.dfy`). Host and device are a state machine over
   produce, fill, submit, fetch, execute, post, consume, complete with callback, and head
   doorbell. The queue objects are classes with the source's fields; their methods are
   proved against functions on values that the protocol uses. The device obeys sections 4.1
   and 4.6 of the NVM Express Base Specification 1.4: it fetches only below the tail
   doorbell, completes each command once and in any order, reports its head, and never posts
   into a full queue. Unbounded counters and logs (`History`) give every command an
   identity that no register holds; the invariant ties each wrapped index, phase bit and
   reused identifier to them.
2. **Data pointers and limits** (`Memory.dfy`, `Prp.dfy`, `Sgl.dfy`, `Limits.dfy`,
   `InputOutput.dfy`). The controller's reading of PRPs (section 4.3) and SGLs (section 4.4)
   is an independent specification, written over physical memory; the loops of `inout_data`
   are methods over arrays. List pages `k`, entries per page `n`, queue and sector sizes are
   parameters; `Limits.DriverLimits` puts the driver's constants in.
3. **Identification** (`IdentifyLoop.dfy`, `IdentifyResults.dfy`, `AdminCommands.dfy`,
   `Identification.dfy`, `IdentificationResults.dfy`, `Controller.dfy`, `Scan.dfy`). The
   closures are a datatype of continuations; what a callback does is a list of actions that
   the machine performs one by one on the admin queue pair, interleaved with the device. The
   class `Ctl` holds the callbacks as code and is shown to follow that machine; it keeps the
   sector size found for each namespace and the queues created for it, which are what the
   namespace's requests use. The counter of `main.cc` is a machine over any number of
   controllers.

`EndToEnd.dfy` joins the first two machines: each accepted request is carried out on exactly
its blocks and memory and its own callback is told so; `Service.dfy` shows that each can be.
The controller that carries out an entry reads its bits as the specification numbers them and
rejects one with any bit set that these commands have no use for.
`HostSteps.dfy` and `Namespace.dfy` tie the imperative request path and interrupt handler to
runs of the protocol. Where a handler runs while the device goes on and clients submit
further requests from their callbacks, device, client and identify buffers are methods of
which the handler knows only the contract: any number of device steps, any submissions of a
finite supply of requests, any data a controller may return.
`Ring.dfy`, `Arithmetic.dfy` and `Types.dfy` hold wrapped counters, integer facts, bit
fields and the queue entries.

Four expectations do not hold without a condition, which the model makes exact.

- For a 32-bit count of namespaces, the completion callback of an identification runs exactly
  once, whatever the device answers, if and only if the count is between 1 and 65535
  (`IdentifyResults.FinishesExactlyWithNamespaces`, and over the admin queue
  `IdentificationResults.FinishesExactlyOverQueue`). With none, namespace 1 is identified all
  the same, and once its completion queue is created nothing runs the callback any more. From
  65536 on a usable namespace with a larger number than a queue can have makes the assertion
  of `qid` stop the driver. With the broadcast identifier the loop wraps around and ends in no
  other way. When nothing can happen any more the service has been registered if and only if
  no controller was stranded or stopped like this (`Scan.ServiceIsRegistered`).
- The number of blocks a read or write asks for is the number the driver means if and only if
  that is between 1 and 65536; with none it asks for 65536 (`InputOutput.BlocksAsMeant`). With
  PRPs that takes a request that is not empty and a sector that fits `max_size`
  (`InputOutput.PrpBlocksAsMeant`): with 4 MiB sectors every request means no sector
  (`InputOutput.LargeSectorsWrap`).
- What a successful command did is the whole request if and only if, with SGLs, no segment with
  sectors lies beyond the number of segments a command has, or, with PRPs, the segment is within
  `max_size` (`InputOutput.EffectIsWhole`).
- Descriptors read back as built if and only if each SGL length fits 32 bits and the transfer
  fits the PRP list; within the announced limits both hold.

`dafny verify dfyconfig.toml` checks the whole project.

## Model

| member | source | states |
|---|---|---|
| EndToEnd.RequestsAreCarriedOut | server/src/nvme_device.cc:19-112 | in every run of host and device from the initial state, with any interleaving and completion order, each callback belongs to one accepted request and to no other call; with status 0 the device carried out exactly the requested operation on exactly the blocks from `sector` on and the DMA bytes, in order, of the part of the request one command covers, which is the whole request exactly under the condition of `InputOutput.EffectIsWhole`, and the client is told the number of these bytes; otherwise it is told failure and 0 bytes |
| EndToEnd.RunEncoded | server/src/ns.cc:98-159 | every submitted command of a run holds the encoding of the request of its callback |
| QueueGuarantees.RunRefines | server/src/queue.h:214-251 | every run of the queue pair, callbacks that produce again included, is a run of a plain set of pending requests that starts empty |
| QueueGuarantees.StepRefines | server/src/queue.h:214-251 | each step is one step of that machine: accept, decide once while waiting, call back with the own callback and the decided status, or nothing |
| QueueGuarantees.CallsAreFaithful | server/src/ns.h:51-59 | callbacks run at most once, in posting order, each with the status posted for its own command, which the device fetched as submitted; waiting is accepted minus called; the in-flight counter is their number |
| QueueInvariant.ReachableInv | server/src/queue.h:186-310 | the inductive invariant behind all queue results holds in every reachable state |
| QueueInvariant.StepInv | server/src/queue.h:186-310 | every step of host or device keeps it |
| QueueGuarantees.HeadIsBehindDevice | server/src/queue.h:212-241 | the host's head is the image of a counter that never exceeds the device's head, nor that the tail; together they span less than one ring |
| QueueGuarantees.RefusesExactly | server/src/queue.h:212-217 | `produce` refuses if and only if the ring is full, counted from the head that the completion handled last reported, or as many requests as there are identifiers are not called back |
| QueueGuarantees.RunLater | server/src/queue.h:239-242 | over any run that counter never decreases, logs only grow, and submitted commands never change |
| QueueGuarantees.FetchedAsSubmitted | server/src/queue.h:214-237 | whatever happens between submission and fetch, the device fetches the entry as it was when its doorbell was rung |
| QueueGuarantees.NoHalfFilledFetch | server/src/queue.h:226-237 | while a request is being filled the device can fetch only commands submitted before it, from another slot |
| QueueGuarantees.ConsumeIsExact | server/src/queue.h:290-301 | `consume` returns an entry if and only if one is posted and not consumed, and it is the oldest one as the device wrote it |
| QueueGuarantees.ConsumedEntryIsStable | server/src/queue.h:290-303 | from `consume` to the head doorbell the entry stays as posted, and all assertions of `complete` hold for it |
| QueueInvariant.CompletionIsValid | server/src/queue.h:239-251 | when `complete` runs, identifier and head report are in range, the counter is positive and the callback is present: that of the oldest unhandled completion |
| QueueGuarantees.FreshIdentifier | server/src/queue.h:220-224 | `produce` takes the first free identifier in cyclic order from the hint, unused by every outstanding command |
| QueueGuarantees.RegionsAreDisjoint | server/src/queue.h:253-261 | the descriptor regions of two outstanding commands lie in the buffer and do not overlap |
| QueueGuarantees.DescriptorsAreStable | server/src/ns.cc:105-125 | from submission until its completion is handled, a command's descriptors keep their contents, and that is what the device reads |
| QueueGuarantees.NoDeadlock | server/src/ns.h:51-59 | while a request is in flight or the host is busy, some step that brings in no new request is possible |
| QueueGuarantees.WorkDecreases | server/src/ns.h:51-59 | every such step uses up work |
| QueueGuarantees.DrainBound | server/src/ns.h:51-59 | runs without new requests are no longer than the work at their start |
| QueueGuarantees.StuckMeansDrained | server/src/queue.h:239-251 | when no such step is left, every accepted request has been called back and every identifier is free |
| QueueGuarantees.CanDrain | server/src/ns.h:51-59 | from every state some run without new requests, in which the device reports success, calls back every accepted request |
| QueueGuarantees.DrainedMeansNoWork | server/src/ns.h:51-59 | with nothing in flight and the host idle no work is left, in the ring, on the device or in the completion queue |
| QueueGuarantees.EveryRequestCanBeServed | server/src/queue.h:214-251 | for every request `produce` accepts some run goes on to its callback, with status 0 |
| Service.EveryRequestCanBeCarriedOut | server/src/nvme_device.cc:19-112 | for every request within the limits that the queue does not refuse some run submits it and goes on to its callback with success, the device having carried out exactly the request |
| QueueGuarantees.ReachableCount | server/src/queue.h:219-244 | accepted requests are called ones plus the in-flight counter |
| SubmissionQueues.SubmissionQueue.Produce | server/src/queue.h:214-232 | refuses exactly when the ring is full or all identifiers are taken, then changing nothing; else the new registers and table, and an entry in which nothing is set but the identifier |
| SubmissionQueues.SubmissionQueue.FindFree | server/src/queue.h:221-223 | the search loop ends, at the first free identifier |
| SubmissionQueues.SubmissionQueue.Submit | server/src/queue.h:234-237 | the doorbell is the tail |
| SubmissionQueues.SubmissionQueue.Complete | server/src/queue.h:239-251 | frees exactly the completed identifier, takes over the reported head, returns the stored callback and the status |
| SubmissionQueues.ProduceAllocates | server/src/queue.h:214-232 | the counter stays the number of occupied slots; the identifier was free and is the only slot touched |
| SubmissionQueues.CompleteReleases | server/src/queue.h:239-248 | a completion undoes exactly the allocation of its own identifier |
| SubmissionQueues.ReusesCompleted | server/src/queue.h:239-247 | the identifier completed last is the next to be used |
| SubmissionQueues.SearchFindsFirstFree | server/src/queue.h:221-223 | when fewer identifiers are in use than exist the search result is the first free one in cyclic order |
| SubmissionQueues.FirstFreeUnique | server/src/queue.h:221-223 | that one is unique |
| SubmissionQueues.OccupiedFull | server/src/queue.h:216-223 | counting slots: all taken, or none, exactly at the extreme counts |
| CompletionQueues.CompletionQueue.Consume | server/src/queue.h:290-301 | an entry exactly when its phase tag is the expected one; index and phase advance |
| CompletionQueues.CompletionQueue.Complete | server/src/queue.h:303 | the head doorbell is the head index |
| Ring.SlotNext | server/src/queue.h:294-297 | wrapping the index advances the unbounded counter and toggles the phase exactly at zero |
| Ring.FullMeansRingLess1 | server/src/queue.h:212 | the comparison of wrapped indices is the comparison of the counters |
| Protocol.OverlayRegions | server/src/queue.h:258-261 | writing one command's descriptors gives it these words and leaves the others' alone |
| Namespaces.Namespace.constructor | server/src/ns.cc:43-64 | the fresh queues created for a namespace are an initial state of the protocol |
| Namespaces.Namespace.HandleIrq | server/src/ns.h:51-59 | while the device goes on and callbacks submit further requests, the handler's loop ends, is a run the end-to-end theorem is about, and has answered, in order, exactly the completions posted: the i-th new answer goes to the client of the request the i-th completion is for, success with the bytes this moved if its status is zero, else failure with none |
| Namespaces.Namespace.HandleOne | server/src/ns.h:53-58 | one turn: none when nothing is posted, else consume, complete with the callback, whose client is answered as the completion says, and its submissions, doorbell |
| Namespaces.Namespace.AnswerClient | server/src/nvme_device.cc:41-73 | the closure of a request tells its client failure and no bytes unless the status is zero, else success and the bytes the request moves |
| Namespaces.Namespace.InoutData | server/src/nvme_device.cc:19-112 | for every well-formed request: refused exactly when the queue refuses, then nothing changed; else produce, fill and submit, which for a request within the limits is the request path of the end-to-end theorem |
| Namespaces.Namespace.Discard | server/src/nvme_device.cc:128-153 | invalid exactly for ranges the block count cannot express, busy exactly when the queue refuses, both changing nothing |
| Namespaces.Namespace.PrepareEntry | server/src/ns.cc:98-159 | the fields set one after the other make the entry `Encode` describes, over what `produce` left |
| Namespaces.Namespace.PrepareDescriptors | server/src/nvme_device.cc:50-103 | exactly the command's own region is written, with the descriptors of the request |
| InputOutput.CarriedOutAsRequested | server/src/nvme_device.cc:19-112 | a controller that reads entry and descriptors of a request does exactly the request |
| InputOutput.EffectIsWhole | server/src/nvme_device.cc:32-69 | what a command is to do is the whole request, all sectors and all DMA bytes, if and only if, with SGLs, every segment beyond those a command has is empty, or, with PRPs, the segment fits `max_size`; a chain that is no longer than that always is |
| InputOutput.EntryIsExact | server/src/ns.cc:98-181 | every bit of a filled entry but PRP2, in the numbers of the specification: opcode, transfer type and identifier, namespace, first sector, count with the deallocate bit, data pointer; all else is zero |
| InputOutput.ZeroesExact | server/src/ns.cc:161-181 | the write-zeroes entry means exactly the requested range and deallocation, and keeps its identifier |
| InputOutput.SectorsInRange | server/src/nvme_device.cc:32-69 | within the announced limits the block count and every descriptor field are exact |
| InputOutput.BlocksAsMeant | server/src/nvme_device.cc:109 | for every well-formed request the entry asks for the sectors meant if and only if these are 1 to 65536; for none it asks for 65536 |
| InputOutput.PrpBlocksAsMeant | server/src/nvme_device.cc:67-69 | with PRPs it asks for the smaller of the request and what fits `max_size` if and only if the request has a sector and a sector fits |
| InputOutput.LargeSectorsWrap | server/src/nvme_device.cc:67-109 | with 4 MiB sectors, which identification accepts, and no SGLs every request means no sector, asks for 65536 blocks, and its client is told success for 0 bytes |
| InputOutput.AnswerIsBytesMoved | server/src/nvme_device.cc:39-43 | the byte count a client is told is the number of bytes its request moves |
| InputOutput.DescriptorAddressAsComputed | server/src/queue.h:253-261 | the address of a command's descriptors is what the source computes from its identifier |
| Prp.WalkInverts | server/src/nvme_device.cc:75-103 | for every address and size the controller's reading of PRP1, PRP2 and the list is exactly the contiguous bytes of the transfer |
| Prp.WalkListInverts | server/src/nvme_device.cc:88-103 | the same from any point of the list on |
| Prp.DecisionsAgree | server/src/ns.cc:108-112 | `inout_data` fills the list if and only if `readwrite_prepare_prp` pointed PRP2 to it, when more than two pages are touched; else PRP2 is 0 or the second page |
| Prp.EmptyPrp2 | server/src/ns.cc:108-112 | for an empty transfer, whose last byte is computed as the one before it, PRP2 is the list if it starts on a page boundary, else 0 |
| Prp.EntriesAligned | server/src/nvme_device.cc:89-103 | every list entry is page-aligned |
| Prp.LinksChainPages | server/src/nvme_device.cc:92-98 | the last entry of a list page that is not the last of the list points to the next list page |
| Prp.Capacity | server/src/nvme_device.cc:89-105 | the loop ends with nothing left if and only if at most 2 + k * (n - 1) pages are touched |
| Prp.MaxSizeFits | server/src/nvme_device.h:126-127 | one page less fits at every page offset; at the worst offset the bound is tight |
| Prp.DataEntriesAsDeclared | server/src/queue.h:33-39 | that number is the declared `Prp_data_entries` |
| Prp.FillList | server/src/nvme_device.cc:89-103 | the loop stores the specified words, as many as there is room for, and nothing else; the remainder is 0 exactly when they all fit |
| Prp.ConstructList | server/src/nvme_device.cc:77-105 | the asserted remainder is 0 if and only if the transfer fits |
| Sgl.WalkInverts | server/src/nvme_device.cc:50-57 | the controller reads back the segments' ranges in order if and only if each length fits 32 bits |
| Sgl.DescriptorBits | server/src/nvme_device.cc:50-57 | every bit of the i-th descriptor: address, type 0 and length of the i-th segment; the reserved bits stay as they were |
| Sgl.ConstructSgl | server/src/nvme_device.cc:50-57 | the loop stores the descriptors of the segments over what was there, and nothing else |
| Sgl.CountSectors | server/src/nvme_device.cc:33-38 | the sectors of the first segments, at most the maximum of them |
| Sgl.RangesLength | server/src/nvme_device.cc:39-43 | the ranges' total length is the size the callback reports |
| Limits.LimitsCompose | server/src/nvme_device.h:109-149 | segments within `max_segments` and `max_size` have at most 65536 sectors, respect MDTS as a whole, and their lengths fit 32 bits |
| Limits.LimitTimesSegments | server/src/nvme_device.h:109-149 | the product of both limits respects all limits of the whole transfer |
| Limits.MaxSizeIsGreatest | server/src/nvme_device.h:109-149 | a size above `max_size` exceeds the block count or the MDTS limit with all segments in use, or 4 MiB with SGLs, or what the list maps at every offset with PRPs |
| Limits.DriverMdts | server/src/nvme_device.h:112-139 | with MDTS the driver announces the smaller of it and 1023 pages in one segment, or with SGLs of a 32nd of it, 4 MiB and 2048 sectors in each of 32; MDTS 5 is 128 KiB |
| Limits.TruncationFits | server/src/nvme_device.cc:67-69 | a request cut to `max_size` fits the list at every offset; it is not cut when within the limit, and is empty exactly when it was or when a sector exceeds the limit |
| Limits.BlockCountField | server/src/nvme_device.cc:109 | the truncated `sectors - 1` is exact if and only if there are 1 to 65536 sectors; 0 becomes 65536 |
| Limits.DriverLimits | server/src/queue.h:25-39 | the driver's constants: 1024 pages mapped, 1023 announced with PRPs, and the SGL limits |
| IdentifyLoop.CallbacksAreALoop | server/src/ctl.cc:346-440 | the nested callbacks do what a plain loop over the namespace identifiers does, which stops at a usable one beyond 65535, whatever the device answers, for every count below the broadcast identifier, 0 included |
| IdentifyLoop.BroadcastCountNeverEnds | server/src/ctl.cc:359-362 | with that count the 32-bit identifier wraps around: the completion callback never runs, and there is always one more command unless the assertion of `qid` stops the driver |
| IdentifyLoop.PlayOne | server/src/ns.cc:36-95 | one identifier: its commands, its outcome, and then the next, unless the outcome is that the driver stops |
| IdentifyResults.AcceptedExactly | server/src/ctl.cc:366-411 | a namespace is not skipped if and only if its command succeeded, it is active, and the low four bits of `flbas` select an existing format without metadata and with sectors of 512 bytes to less than 2^64, which is its sector size |
| IdentifyResults.AcceptedSizes | server/src/ctl.cc:392-408 | sectors of 512 and 4096 bytes and 4 MiB are accepted; 256 bytes, metadata and inactive namespaces are not |
| IdentifyResults.CreatedSizes | server/src/ctl.cc:396-408 | whatever the device answers, every namespace object is created with such a sector size |
| IdentifyResults.IdentificationOutcome | server/src/ctl.cc:443-496 | identifiers 1..nn, and 1 in any case, are identified once in increasing order, up to one that stops the driver; announced are exactly the usable ones with both queues, destroyed exactly those whose queue creation failed; done runs once, or never when stranded or stopped |
| IdentifyResults.EachNamespace | server/src/ns.cc:36-95 | a namespace is announced if and only if its set-up ended ready, destroyed if and only if a queue of it failed, created if and only if it was not skipped |
| IdentifyResults.NamespacesHaveOneOwner | server/src/ctl.cc:408-410 | objects created are the disjoint sum of those announced and those destroyed, none twice, but for the one at which the driver stops, if it does |
| IdentifyResults.CallbackProgress | server/src/ns.cc:36-95 | a callback issues a command, lexicographically closer to the end (remaining identifiers, stage) unless the count wraps around, and does not finish, or finishes once, or stops; only past the last identifier the callback of Create I/O Submission Queue does none of this |
| IdentifyResults.FinishedWhenIdle | server/src/ctl.cc:353-364 | neither finished nor stopped while a command is in flight; when none is, finished exactly once with only destruction afterwards, or not at all |
| IdentifyResults.IdentificationEnds | server/src/ctl.cc:443-496 | for counts below the broadcast identifier over after at most three completions for each identifier visited and one more, finished exactly once if and only if neither stranded nor stopped; a failing Identify Controller only finishes |
| IdentifyResults.EndsUnlessStranded | server/src/ns.cc:68-93 | a complete identification runs its completion callback exactly once if and only if it is neither stranded nor stopped, else never |
| IdentifyResults.StoppedExactly | server/src/ns.h:73-82 | in a complete identification the assertion has stopped the driver if and only if a namespace beyond 65535 was usable, or the count wraps around |
| IdentifyResults.FinishesExactlyWithNamespaces | server/src/ns.cc:68-93 | for a 32-bit count the completion callback runs exactly once, after boundedly many completions, for every behaviour of the device if and only if the count is between 1 and 65535 |
| IdentifyResults.FarNamespaceStops | server/src/ns.h:73-82 | for every larger count, answers with which only namespace 65536 is usable stop the driver without the completion callback |
| IdentifyResults.NoNamespaces | server/src/ns.cc:68-93 | with none reported it runs if and only if namespace 1 is skipped or its completion queue is not created |
| IdentifyResults.NeverFinishes | server/src/ns.cc:68-93 | four answers with which it never runs |
| AdminCommands.AdminRoundTrip | server/src/ctl.cc:251-343 | the controller decodes each admin entry, in which no other bit is set, to the command its callback waits for: queues with the namespace's number, as many entries as the object made has, tied to each other; the identifier is kept |
| Identification.StepGood | server/src/ctl.cc:145-153 | every step of identification over the admin queue pair keeps its invariant |
| Identification.DrainedQueueAccepts | server/src/queue.h:214-217 | when nothing is in flight the reported head has caught up and `produce` accepts, for every queue size |
| IdentificationResults.AdminQueueNeverRefuses | server/src/ctl.cc:355-359 | at most one admin command is in flight and every unchecked `produce` returns an entry |
| IdentificationResults.TraceFollowsCallbacks | server/src/ctl.cc:145-153 | in every run the trace is what the callbacks amount to for the statuses posted; idle means complete |
| IdentificationResults.CompletedIdentification | server/src/ctl.cc:346-440 | over the queue and any interleaving, the trace of a completed identification is that of the plain loop; it has finished exactly once if and only if it is neither stranded nor stopped |
| IdentificationResults.EveryAnswerHappens | server/src/ctl.cc:145-153 | conversely, for every list of successful answers that completes an identification some run of host and device over the queue ends with exactly the trace the callbacks amount to |
| IdentificationResults.FinishesExactlyOverQueue | server/src/ns.cc:68-93 | over the queue, too, for a 32-bit count every run that is over has run the completion callback exactly once if and only if the count is between 1 and 65535 |
| IdentificationResults.BroadcastNeverFinishes | server/src/ctl.cc:359-362 | in no run in which the controller reported the broadcast identifier as its count has the completion callback run; unless stopped, a command is in flight whenever no callback is running |
| IdentificationResults.CompletedNamespaces | server/src/ns.cc:36-95 | and has identified, announced and destroyed exactly the right namespaces, each object created having one owner |
| IdentificationResults.ControllerGetsIssuedCommands | server/src/ctl.cc:430-439 | the f-th entry the controller fetches decodes to the f-th command issued, with its namespace identifier and the address, size and interrupt vector of the buffer or queue object made for that very command |
| IdentificationResults.EveryIdentificationFinishes | server/src/ctl.cc:346-440 | runs are bounded unless the count wraps around, and one that cannot go on has run the completion callback exactly once if and only if it is neither stranded nor stopped |
| IdentificationResults.IdentificationCanFinish | server/src/ctl.cc:346-440 | from every state that is not stopped, with a count that does not wrap around, some run completes the identification, the device reporting success and returning given data; no usable data beyond 65535 namespaces |
| IdentificationResults.IdentificationCanStrand | server/src/ns.cc:68-93 | over the queue, too, some run ends stranded |
| IdentificationResults.IdentificationCanStop | server/src/ns.h:73-82 | and for every larger count than 65535 some run ends with the driver stopped and the completion callback not run |
| Controllers.ConfigFits | server/src/ns.cc:61-66 | the descriptor memory made for a queue is what the requests of its namespace use, with the namespace's number and sector size and the controller's SGL support and MDTS; unless the block count limit overflows, requests then are as the end-to-end theorem has them |
| Controllers.Ctl.constructor | server/src/ctl.cc:97-107 | two admin queues with two entries are a start state |
| Controllers.Ctl.Send | server/src/ctl.cc:325-343 | produce without check, fill, submit: never refused, and steps of the machine |
| Controllers.Ctl.Identify | server/src/ctl.cc:443-496 | leads to the state with Identify Controller submitted |
| Controllers.Ctl.IdentifyNamespace | server/src/ctl.cc:346-440 | the command is issued with the address of the buffer its callback reads |
| Controllers.Ctl.OnNamespaceIdentified | server/src/ctl.cc:360-428 | the callback's code performs its script; a namespace not skipped keeps its sector size, and a completion queue unless the driver stops |
| Controllers.Ctl.LoopInit | server/src/ctl.cc:251-273 | stops at a namespace beyond 65535; else the namespace keeps a completion queue of 32 entries, and its address, size and interrupt vector are what the controller is given |
| Controllers.Ctl.OnCqCreated | server/src/ns.cc:45-66 | the callback's code performs its script; the namespace keeps a submission queue of 32 entries with the descriptor memory of 32 SGL descriptors or two list pages for each, and its address and size are what the controller is given |
| Controllers.Ctl.OnSqCreated | server/src/ns.cc:65-93 | the callback's code performs its script, the object being destroyed last when it goes out of scope; a namespace handed over serves requests with its own number, sector size and descriptor memory |
| Controllers.Ctl.HandleIrq | server/src/ctl.cc:145-153 | while the device goes on, the handler's loop ends, stopped by the assertion or with every completion posted handled, each by the callback of its command; the events are those of the machine |
| Scan.CounterIsReferences | server/src/main.cc:425-436 | over any interleaving the counter is the discovery loop, plus controllers still identifying, plus pending partition scans; the service is registered at most once, exactly when all three are finished |
| Scan.NeverUnderflows | server/src/main.cc:425-429 | whenever it is decremented it is positive |
| Scan.NothingAfterRegistration | server/src/main.cc:425-436 | after registration nothing touches the counter again |
| Scan.ServiceIsRegistered | server/src/main.cc:460-533 | when nothing can happen any more the service has been registered if and only if no controller was stranded and none stopped the driver |
| Scan.ServiceMayNeverBeRegistered | server/src/main.cc:425-436 | a controller that reports no namespaces and accepts every command leads to a state in which nothing can happen and nothing was registered |
| Scan.BroadcastNeverRegisters | server/src/main.cc:515-528 | in every state of a scan with a controller that reported the broadcast identifier as its count the service is unregistered |
| Scan.BroadcastKeepsServiceBack | server/src/main.cc:425-436 | one such controller can be found, and from there no run registers the service |
| Scan.ServiceCanBeRegistered | server/src/main.cc:460-533 | from every state in which each count reported is positive and does not wrap around, and no identification has been or is being stopped, some run registers the service |
| Scan.ScanIsFinite | server/src/main.cc:460-533 | without new controllers, and with counts that do not wrap around, a scan is finite: its length is bounded by a measure that every step uses up |
| Scan.NothingAfterFinished | server/src/main.cc:515-528 | once its completion callback has run a controller announces nothing and does not finish again |
| Scan.StartedExactly | server/src/main.cc:460-528 | every controller that could be set up is started, once and in the order of the bus, also after one that could not |
| Scan.DeviceScan.DeviceScanFinished | server/src/main.cc:425-436 | drops one reference, as 32-bit unsigned arithmetic has it, and registers with the last |
| Scan.DeviceScan.DeviceDiscovery | server/src/main.cc:460-533 | after the loop one reference is left for each controller started, and with none the service is registered |

## Left out

- EndToEnd.RequestsAreCarriedOut: is about requests that respect the announced limits, are not empty, and whose sectors fit `max_size`; for the others InputOutput.BlocksAsMeant says what the entry asks for. No product or shift exceeds 64 bits.
- Namespaces.Namespace.HandleIrq: the requests its callbacks submit come from a finite supply and respect the limits; device steps happen between turns of the loop here, and anywhere in the protocol.
- Controllers.Ctl.HandleIrq: device steps happen between turns of the loop here, and anywhere in the identification machine; the handlers of the namespaces, which it calls afterwards, are Namespaces.Namespace.HandleIrq; the count of namespaces is below the broadcast identifier, as the loop need not end otherwise.
- IdentificationResults.EveryIdentificationFinishes: has no bound for the broadcast identifier as the count, for which IdentificationResults.BroadcastNeverFinishes says what happens instead.
- IdentificationResults.EveryAnswerHappens: is about answers with status 0.
- Scan.ServiceIsRegistered: relies on fewer than 2^32 references at a time, and on `add_disk` eventually calling its callback exactly once; the libraries behind it are not part of this model.
- Scan.CounterIsReferences: relies on the same.
- Scan.NeverUnderflows: relies on the same.
- Scan.NothingAfterRegistration: relies on the same.
- Scan.BroadcastNeverRegisters: relies on the same.
- Scan.BroadcastKeepsServiceBack: relies on the same.
- Scan.ServiceCanBeRegistered: relies on the same.
- Scan.ScanIsFinite: relies on the same.
- A build without assertions, in which the number of a queue of a namespace beyond 65535 is cut to 16 bits.
- The namespace callback and the completion callback, and the creation and destruction of namespace objects, are events; what the block layer does with a disk is not modelled.
- PCI configuration, MSI and MSI-X set-up, interrupt binding and the MSI allocator: I/O on other hardware.
- Reset and enabling of the controller, busy-wait loops and register offsets, apart from the admin queue sizes.
- L4Re capabilities, dataspaces and DMA mapping: a buffer is an array with a page-aligned physical base.
- The PRP list buffer that the admin submission queue allocates and never uses.
- Serial number, MDTS and SGL support read by Identify Controller: they are parameters of the I/O model.
- Command line, factory, clients, partitions, logging and `flush`: plumbing over libraries.
- `inout_data` for a queue without PRP list pages: the driver is always built with two.
