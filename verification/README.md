# GASNet-EX: verified models of active messages, barriers and exit

This project models the parts of GASNet-EX whose correctness is spread over many
functions and many processes, and proves what they promise for every input, every
run and every interleaving.

* **Negotiated-payload active messages** (`Npam`, `NpamClient`, `NpamSafety`,
  `NpamTheorems`, `NpamDelivery`, `NpamMessages`, `NpamImpl`). One thread of the debug, non-PSHM
  build: two source descriptors, two medium buffers, the handler counters, the
  `replyIssued` marks of the neighbourhood tokens and the stack of polls and
  handlers. `Npam` gives each library function on values, one branch per branch of
  the C code, with every assertion and fatal error as the result `Fatal`.
  `NpamClient` tells the discipline of the client without any of that state, as a
  protocol over "what I hold" and "where I am". `NpamSafety` relates the two and
  proves simulation for every step, hence for every run, with arbitrary traffic
  arriving in every poll. `NpamMessages` tells, from the arguments of the calls alone,
  every message that a permitted step sends or delivers. `NpamImpl` is the same library as a class whose methods
  update fields and descriptors in place, proved equal to the functions and closed
  by `Execute`: no debug check fires in any disciplined program.
* **Handler registration** (`Dispatch`, `RegistrationSpec`, `Registration`,
  `RegistrationImpl`). Table validation and call checking; the two-pass index
  allocator with its exact success condition, its determinism and what any
  sequence of calls, failed ones included, leaves behind; and the in-place loops.
* **The AMDISSEM dissemination barrier** (`Dissemination`, `BarrierNode`,
  `BarrierSystem`, `BarrierProgress`, `BarrierImpl`, `BarrierTeam`). N nodes with the
  two-phase reuse of the real code over an unordered network, episode after episode:
  safety, consensus on the barrier name, safe phase reuse, progress and termination.
  `BarrierImpl` is one node's object, and `BarrierTeam` shows each call on it, with
  the messages it sends, to be one step of that system.
  A message counts as in flight from the moment its sender has decided to send it;
  since the network may delay anything, sending it later is one of the delays.
* **ibv-conduit's credit flow control** (`Credits`, `CreditLimits`, `CreditsImpl`).
  Both directions of a pair of endpoints, with banking, piggybacking, the sampling
  race of `have_flow`, the spare pool and the copied request: conservation of
  credits and buffers, with the exact condition under which each holds. Deciding on
  an acknowledgement and sending it are two steps, with anything in between.
  `CreditsImpl.Link` runs whole runs of the protocol on two endpoint objects.
* **ibv-conduit's leader/member exit** (`ExitProtocol`, `ExitRuns`, `ExitImpl`):
  election, exit requests and replies among N nodes, the assertions of the handlers,
  completion, and message counts; `ExitImpl.Job` runs it on N node objects.
* **Value get** (`ValGet`): a partial-width get into a zeroed register.

Every induction is written out: automatic induction is switched off on all lemmas.

## What the proofs found

* Credits are conserved if and only if the slack in force is at most 255. The
  start-up clamp admits 256 (`ibv-conduit/gasnet_core_sndrcv.c:3168`), but the
  credit count travels in eight bits (`ibv-conduit/gasnet_core_internal.h:844-846`)
  and the sender assumes `credits <= 255` (`ibv-conduit/gasnet_core.c:4298`). With
  a slack of 256 and M >= 257 the 256th banked credit is lost
  (`CreditLimits.SlackOf256LosesCredits`, `CreditLimits.ConservationIffSlackFits`).
* A reply's credit is granted before its receive buffer is posted again
  (`ibv-conduit/gasnet_core_sndrcv.c:1371-1376`). If another thread can inject in
  between, one message more than there are posted buffers can be under way; if it
  cannot, none ever is (`CreditLimits.AlwaysReadyIffSerial`). The README's promise
  of never meeting "receiver not ready" holds exactly in the second case.
* The README of ibv-conduit speaks of M preposted buffers and one more on demand
  for each request; the code preposts 2M and none on demand
  (`ibv-conduit/gasnet_core_sndrcv.c:3594-3597`). The model follows the code.
* `gasneti_am_validate` decides by the first entry whether a table is a legacy
  table; the legacy flag further down a normal table is not looked at
  (`Dispatch.LegacyBitUncheckedAfterFirst`). The calls such an entry accepts do not
  depend on the flag (`Dispatch.LegacyBitIrrelevantToCalls`).
* The documentation says that the LEAST flags are ignored by the Prepare calls
  (`docs/GASNet-EX.txt:495`). A PrepareRequest that is in order otherwise is fatal
  exactly when it has the LEAST flag of the other buffer choice, because its flags
  are checked before they are cleared (`NpamTheorems.LeastFlagOnRequest`). In a
  PrepareReply they are cleared first and make no difference
  (`NpamTheorems.LeastFlagOnReply`).
* Which misuse of negotiated payload the debug checks stop, and when. At the call, a
  check fires exactly when the call is not allowed at that place with those arguments
  (`NpamTheorems.ChecksAreExact`). What is only looked at after the poll inside a
  call, the handler of a request, the bounds of a Prepare and the conduit's answer,
  is fatal at the end of that poll exactly when it is wrong, whatever traffic the
  poll brings (`NpamTheorems.PollEndIsExact`). A reply whose arguments are turned
  down has no effect, so it may come second (`NpamTheorems.ViolationsAreAccountedFor`).
* A request handler that returns while it holds a Prepare is not stopped. Until that
  reply is committed or cancelled, every poll, injection and Prepare is fatal,
  whatever else happens (`NpamTheorems.ReturnHoldingReply`); only its Commit or
  Cancel ends this (`NpamTheorems.OnlyItsEndDeactivates`), and for a reply to the
  network a late Cancel does set everything right
  (`NpamTheorems.LateCancelRecovers`).
* The fixed-payload path passes the size through an `int`; it is exact if and only
  if the size is below 2^31 or within 2^31 of 2^64 (`NpamDelivery.NarrowExactIff`).

## Assumptions

* `NpamClient.ConfigOk`: the aligned allocation is aligned and not null; the
  conduit's maximum-payload function never grows when a LEAST flag is added, and
  within the process, or with LEAST_ALLOC, it stays within the buffer size (for a
  Long, within the loopback Long limit).
* The conduit refuses a Commit only if it was sent IMMEDIATE, and runs handlers only
  inside polls. Both are the conduit's side of the contract; its answer and all
  arriving traffic are otherwise arbitrary.
* Active-message delivery is reliable; order is not assumed in the barrier, the
  credit and the exit models.

## Model

| member | source | states |
|---|---|---|
| NpamSafety.StepGood | gasnet_am.h:549-589 | for every action a disciplined client or the network may take, no assertion or fatal error is met, and descriptors, buffers, counters and call stack again match the client's view |
| NpamSafety.RunGood | gasnet_am.c:573-586 | the same for whole runs of any length, from any related state |
| NpamTheorems.DisciplinedRunsNeverFail | gasnet_internal.c:380-395 | from the start, no disciplined mix of polls, fixed-payload sends, Prepare, Commit, Cancel and nested replies meets a check |
| NpamTheorems.BufferLiveIffHeld | gasnet_am.h:279-315 | outside calls and handlers the request buffer is live exactly when the client holds a Prepare that needs it, an inactive descriptor has nothing left to free, and the reply side is free: no double allocation, double free or leak |
| NpamTheorems.ReplyBufferLiveIffHeld | gasnet_am.h:525-541 | the same for the reply buffer inside a request handler |
| NpamTheorems.HandlersNestReplyInRequest | gasnet_am.h:110-131 | two handlers run at once only as a reply handler inside a request handler, so the recursion assertions cannot fire |
| NpamTheorems.OneReplyPerToken | gasnet_am.h:800-815 | a neighbourhood request token gets at most one delivered reply, a reply token none, and replyIssued means exactly delivered or held by the active reply descriptor |
| NpamTheorems.ChecksAreExact | gasnet_internal.c:380-395 | a Poll, send, Commit, Cancel or neighbourhood PrepareReply is fatal at the call iff it is not allowed there with those arguments; what only the end of its poll can tell, and a reply turned down for its arguments, are left to the next two rows |
| NpamTheorems.PollEndIsExact | gasnet_am.c:618-628 | whatever traffic the poll inside a call brings, its end is fatal iff the pending Prepare is out of bounds, the handler of the pending request does not accept it, or the conduit refuses what was not IMMEDIATE |
| NpamTheorems.ViolationsAreAccountedFor | gasnet_am.h:67-101 | a call that breaks the discipline is fatal, or is turned down without effect, or is fatal at the end of its poll |
| NpamTheorems.PrepareRequestCheckIsExact | gasnet_am.c:605-650 | PrepareRequest is fatal after its poll iff it breaks the discipline |
| NpamTheorems.ReturnHoldingReply | gasnet_am.c:573-586 | returning from a handler with a held reply is not stopped; in every continuation without its Commit or Cancel, every poll, injection and Prepare is fatal |
| NpamTheorems.OnlyItsEndDeactivates | gasnet_am.h:594-605 | from any state with an active reply descriptor, a step deactivates it iff it is a Commit or Cancel of a reply, other than a Commit the conduit refuses |
| NpamTheorems.LateCancelRecovers | gasnet_am.c:999-1010 | cancelling the reply to a network request after its handler has returned leads back to a state in which the client holds nothing |
| NpamTheorems.LeastFlagOnRequest | gasnet_am.c:626-630 | a PrepareRequest that is in order but for its flags is fatal iff it has the LEAST flag of the other buffer choice, and is otherwise the same as with the flags cleared |
| NpamTheorems.LeastFlagOnReply | gasnet_am.c:664-674 | a PrepareReply is the same with and without LEAST flags |
| NpamTheorems.NestedReplyRun | gasnet_am.h:943-962 | a loopback Medium answered by a Medium reaches the deepest nesting with both buffers live |
| NpamSafety.GrantWithinBounds | gasnet_am.c:636-641 | every Prepare that passes its checks grants least <= size <= most, local or remote, and no more than the library's buffer holds when it uses it |
| NpamSafety.FinishPrepareGood | gasnet_am.h:627-648 | after its checks a Prepare always succeeds, with the descriptor it granted, the buffer taken exactly when it is used, and nothing else changed |
| NpamSafety.FinishFrees | gasnet_am.h:925-936 | when a loopback handler returns, its message's buffer is released on every path and the descriptor is idle |
| NpamSafety.CancelFrees | gasnet_am.h:1255-1284 | Cancel of a reply releases exactly what Prepare took and gives the token back |
| NpamSafety.Buffered | gasnet_am.h:281-290 | for every maximum size and alignment both buffers are aligned and disjoint, with less than one alignment between them |
| NpamDelivery.CommitDelivers | gasnet_am.h:862-936 | the handler of a committed loopback message sees the bytes that are in the descriptor's buffer at the commit, whether that is the client's or the library's (no copy) |
| NpamDelivery.FixedDelivers | gasnet_am.h:943-962 | the handler of a fixed-payload loopback message, a Short included, sees the narrowed number of bytes of the client's buffer and all the arguments |
| NpamDelivery.SendPathsAgree | gasnet_am.h:822-936 | fixed payload, client buffer and library buffer run the same handler with the same token information, payload and arguments when bytes and arguments are the same and the size is in int range |
| NpamDelivery.NarrowExactIff | gasnet_am.h:943-949 | exactly which sizes survive the int parameter |
| NpamDelivery.InnerRunKeepsRequest | gasnet_am.h:620-625 | whatever handlers run inside a poll, a Commit or a request handler leave the request descriptor and buffer alone and inject no request |
| NpamDelivery.RefusalsLeaveNoTrace | gasnet_am.c:808-818 | after any number of refused IMMEDIATE commits the descriptor, its buffer and the number of requests sent are as after Prepare |
| NpamDelivery.RefusalsThenCommit | gasnet_am.c:790-822 | a later accepted commit injects exactly one request, with the parameters given to Prepare, and releases the buffer |
| NpamDelivery.RefusalsThenCancel | gasnet_am.c:976-993 | a later Cancel injects nothing and releases the buffer |
| NpamDelivery.RefusedReplyIsNoOp | gasnet_am.c:857-865 | a refused commit of a reply changes nothing at all |
| NpamDelivery.NestedRepliesKeepPayload | gasnet_am.h:872-887 | from the start of a handler to its return the request payload stays as it was, through its replies and their handlers, unless the client itself writes there |
| NpamMessages.MessagesAreExact | gasnet_am.h:862-936 | every permitted step, from any related state, sends or delivers exactly the messages, if any, that its arguments and the held Prepare ask for: destination, handler, category, payload, target address, arguments, completion and flags; memory changes exactly where the client stores or a payload is put |
| NpamMessages.SendReplyMessage | gasnet_am.h:1002-1037 | a fixed-payload reply, Short included, runs its handler here with its arguments or injects one message with the bytes at its source, its handler, arguments and target |
| NpamMessages.CommitReplyMessage | gasnet_am.c:846-868 | a committed reply, when accepted, sends one message to the prepared destination with the committed handler and arguments, the bytes of its buffer and the effective completion and flags |
| NpamMessages.RequestMessage | mpi-conduit/gasnet_core.c:611-637 | a whole fixed-payload request, call and poll, adds exactly its own message |
| NpamMessages.TurnedDownIff | gasnet_am.h:29-101 | a fixed-payload call is turned down iff its payload exceeds the limit, or it is a Long with a byte whose destination is outside the segment |
| NpamMessages.CompletionOptions | gasnet_am.h:329-352 | which completion options go with which buffer, for requests and replies |
| NpamMessages.PrepareInOrderIff | gasnet_am.h:353-390 | a Prepare is in order iff its completion option fits its buffer, it has no opposite LEAST flag, its argument count is allowed, and its least is within its most and the limit for that buffer choice |
| NpamMessages.ReplyWithinGrant | gasnet_am.h:392-431 | any Commit of a reply that passes its checks has a held Prepare, of its category and argument count, and stays within its size and destination |
| NpamMessages.RequestWithinGrant | gasnet_am.h:392-431 | the same for requests |
| NpamMessages.PrepareOffers | gasnet_am.c:636-641 | PrepareRequest offers what was asked for at most, or else all there is, at the client's or the library's buffer |
| NpamMessages.PrepareReplyOffers | gasnet_am.h:837-855 | the same for PrepareReply |
| NpamMessages.PlainPrepareAndCommit | gasnet_am.h:862-936 | Prepare, fill, Commit, return of a Medium to oneself, for any bytes and arguments that fit: the run exists, its handler runs once with exactly those, and everything is given back |
| NpamImpl.Thread.constructor | gasnet_am.c:540-568 | a new thread has inactive descriptors, no buffers and no handler running |
| NpamImpl.Thread.CheckInjection | gasnet_internal.c:380-395 | which contexts may communicate |
| NpamImpl.Thread.HandlerEnter | gasnet_am.h:110-120 | the handler counter on entry |
| NpamImpl.Thread.HandlerLeave | gasnet_am.h:121-131 | the handler counter on return |
| NpamImpl.Thread.AllocPerthreadMediumBuffer | gasnet_am.h:279-305 | lazy allocation of both buffers and taking one of them |
| NpamImpl.Thread.FreePerthreadMediumBuffer | gasnet_am.h:307-319 | giving a buffer back, only to its own side |
| NpamImpl.Thread.FreeNpamBuffer | gasnet_am.h:534-541 | release of the buffer noted in the descriptor |
| NpamImpl.Thread.AllocNpamBuffer | gasnet_am.h:524-532 | a buffer for a payload of bounded size, entered into the descriptor |
| NpamImpl.Thread.InitSrcdesc | gasnet_am.h:547-589 | activation of a descriptor and the states in which it is refused |
| NpamImpl.Thread.ResetSrcdesc | gasnet_am.h:594-605 | deactivation, refused when already inactive |
| NpamImpl.Thread.LoopbackPrepareInner | gasnet_am.h:822-858 | the common first half of fixed and negotiated loopback sends, on the thread's own or a local descriptor |
| NpamImpl.Thread.PrepareCommon | gasnet_am.c:636-641 | the remote Prepare: size, recorded parameters, buffer and what is to be freed |
| NpamImpl.Thread.AmPrepareRequest | gasnet_am.c:623-648 | PrepareRequest after its poll, Medium and Long, local and remote |
| NpamImpl.Thread.AmPrepareReply | gasnet_am.h:1186-1240 | PrepareReply, local and remote, with the token checks |
| NpamImpl.Thread.LoopbackCommitInner | gasnet_am.h:862-914 | staging of the payload, the dispatch checks and entry into the client's handler |
| NpamImpl.Thread.HandlerReturn | gasnet_am.h:915-936 | return of the handler, release of the message and the reply mark |
| NpamImpl.Thread.NetworkCommit | gasnet_am.c:798-818 | injection of a committed message with its effective parameters, and reactivation when refused |
| NpamImpl.Thread.AmCommit | gasnet_am.c:778-822 | Commit of request and reply |
| NpamImpl.Thread.AmCancel | gasnet_am.c:976-1052 | Cancel of request and reply |
| NpamImpl.Thread.LoopbackReqRepGeneric | gasnet_am.h:943-962 | a fixed-payload loopback send up to its handler |
| NpamImpl.Thread.AmRequest | gasnet_am.h:29-61 | the checks of a fixed-payload request, before its poll |
| NpamImpl.Thread.AmReply | gasnet_am.h:1002-1037 | a fixed-payload reply to a neighbourhood or network token |
| NpamImpl.Thread.Perform | gasnet_am.c:605-1053 | every action on the fields is the transition of the value model |
| NpamImpl.Thread.Execute | gasnet_am.h:549-589 | running a whole disciplined program on the fields never meets a check and ends in the state of the value model |
| Dispatch.AmValidate | gasnet_am.c:28-77 | the validation loop accepts exactly the valid tables |
| Dispatch.WellFormedIff | gasnet_am.c:48-72 | a normal entry is accepted iff its arity is allowed, it has a role, and it is for Short alone or for Medium, Long or both |
| Dispatch.TableValidIff | gasnet_am.c:28-77 | a table is accepted iff it is empty, or all legacy (unknown arity, every flag), or all normal with a first entry free of the legacy flag |
| Dispatch.AcceptsWhatItIsRegisteredFor | gasnet_am.c:268-296 | an entry accepts exactly the calls of its arity, or any if unknown, in its registered categories and roles, told from the bits of the flags |
| Dispatch.SingleUse | gasnet_fwd.h:172-179 | an entry registered for one category and one role accepts a call iff arity, category and role are its own |
| Dispatch.WildcardAcceptsAll | gasnet_am.c:268-296 | an entry of unknown arity with all category and role flags accepts every call |
| Dispatch.OneSignature | gasnet_am.c:268-296 | all calls accepted for a validated non-legacy entry use one arity and only Short, or only Medium and Long |
| Dispatch.ValidatedIsCallable | gasnet_am.c:28-77 | every validated entry accepts some call |
| Dispatch.LegacyIsAllOrNothing | gasnet_am.c:28-77 | a validated table is all legacy or has no legacy entry |
| Dispatch.LegacyBitUncheckedAfterFirst | gasnet_am.c:28-77 | a table that validates although a later entry carries the legacy flag |
| Dispatch.LegacyBitIrrelevantToCalls | gasnet_am.c:268-296 | setting or clearing the legacy flag changes no call an entry accepts |
| RegistrationSpec.FixedPass | gasnet_am.c:97-147 | the fixed-index pass goes through iff indices are in range, free and distinct; it fills exactly those slots with exactly those entries |
| RegistrationSpec.DontCarePass | gasnet_am.c:100-112 | the don't-care pass goes through iff there are enough free slots, and gives each entry the free slot of its rank from the top |
| RegistrationSpec.OccupiedStays | gasnet_am.c:121-138 | no pass changes an occupied slot or one outside the range, and a written slot holds its own number |
| RegistrationSpec.FailureInstallsPrefix | gasnet_am.c:97-164 | a failing pass has done exactly what it would do for the entries before the one that failed |
| Registration.ClientSucceedsIffFits | gasnet_am.c:174-210 | a client call succeeds iff its fixed indices are usable and its don't-cares fit in what is left; then every entry sits at its own nonzero index, no two share one, and the two counts add up to the number of entries |
| Registration.DontCareGetsKthHighest | gasnet_am.c:104-108 | the k-th don't-care entry gets the one slot with exactly k free slots above it after the fixed pass |
| Registration.RefusedCallKeepsPrefix | gasnet_am.c:185-205 | what a refused call has installed, and why it was refused |
| Registration.ClientDeterministic | gasnet_am.c:104-138 | equal occupancy and equal index columns give equal status, indices and occupancy |
| Registration.CallsDeterministic | gasnet_am.c:174-210 | the same for every sequence of calls on two endpoints, whatever the handlers are |
| Registration.CallsMonotone | gasnet_am.c:121-138 | over every sequence of calls, failed or not, an occupied slot never changes, slots below the client range are untouched and slot j holds 0 or j |
| Registration.RegistrationIsForever | gasnet_am.c:174-210 | what a successful call registered stays registered through all later calls |
| Registration.LegacyContract | gasnet_am.c:215-248 | the legacy wrapper succeeds iff its index column fits; every caller's handler is then called at the index written back, with any arguments, category and role; on failure the caller's table is unmodified |
| Registration.ClientArguments | gasnet_am.c:174-186 | which client calls are bad arguments, which are fatal, and that those and empty ones change nothing |
| Registration.LegacyArguments | gasnet_am.c:215-226 | the same for the legacy wrapper, which never meets the fatal validation error |
| RegistrationImpl.Endpoint.constructor | gasnet_am.c:251-264 | a fresh table is all default entries, every client slot free |
| RegistrationImpl.DefaultCatchesAll | gasnet_am.c:251-264 | a free slot catches every call with the default handler, which finds the slot number in its data |
| RegistrationImpl.Endpoint.FindTop | gasnet_am.c:104-108 | the downward search finds the highest free slot |
| RegistrationImpl.Endpoint.AmRegister | gasnet_am.c:86-166 | the in-place pass over table and caller entries is the pass on values |
| RegistrationImpl.Endpoint.AmRegisterClient | gasnet_am.c:174-210 | the in-place client call is the call on values, and its counts always add up |
| RegistrationImpl.Endpoint.AmRegisterLegacy | gasnet_am.c:215-248 | the in-place legacy call, with its error cases |
| Dissemination.PeerFormulas | extended-ref/coll/gasnet_team.c:267-271 | the two peer formulas modulo N |
| Dissemination.PredFwd | extended-ref/README:128-129 | the node sent to in a round is the one that hears from the sender in that round |
| Dissemination.ReachIsWindow | extended-ref/README:125-130 | after k rounds the news of the 2^k nodes ending at x has arrived |
| Dissemination.ReachIsEveryone | extended-ref/README:125-126 | after ceil(lg N) rounds the news of all N nodes has arrived |
| Dissemination.BuildPeers | extended-ref/coll/gasnet_team.c:260-272 | the peer-list loop computes the number of rounds and both lists |
| BarrierNode.MergeIsJoin | extended-ref/gasnet_extended_refbarrier.c:719-728 | merging two notices is the least upper bound of what they say |
| BarrierSystem.InvStep | extended-ref/gasnet_extended_refbarrier.c:785-915 | every step of every node keeps the invariant over counters, marks, messages and consensus values |
| BarrierSystem.BarrierSafety | extended-ref/gasnet_extended_refbarrier.c:963-1000 | when a node may leave episode e, every node has entered e and none has entered e + 2 |
| BarrierSystem.RoundEvidence | extended-ref/README:125-130 | in every reachable state a node that has completed k steps has its 2^k ring predecessors, itself included, in its episode |
| BarrierSystem.BarrierConsensus | extended-ref/gasnet_extended_refbarrier.c:818-837 | a node that may leave holds exactly the combination of what all N callers gave to their notify of that episode |
| BarrierSystem.RecordedStep | extended-ref/gasnet_extended_refbarrier.c:900-904 | over every step, what each node announces is what its caller gave to notify, recorded at the call; between the two halves of notify the node still holds it |
| BarrierSystem.OutcomeIsUnique | extended-ref/gasnet_extended_refbarrier.c:718-730 | that combination is unique |
| BarrierSystem.ClashIffDisagreement | extended-ref/gasnet_extended_refbarrier.c:719-728 | it is a mismatch iff some notify was one or two named values differ, and a name iff somebody announced it |
| BarrierSystem.NoDoubleMark | extended-ref/gasnet_extended_refbarrier.c:735-737 | the handler's assertion that the step is not yet marked cannot fail |
| BarrierSystem.SendsAreFresh | extended-ref/gasnet_extended_refbarrier.c:870-872 | no node sends a step of an episode twice while the first is under way |
| BarrierProgress.SameVerdictForAll | extended-ref/gasnet_extended_refbarrier.c:999-1010 | any two nodes leaving the same episode, at any two times of a run, hold the same verdict |
| BarrierProgress.WaitReport | extended-ref/gasnet_extended_refbarrier.c:999-1008 | wait reports a mismatch iff the combination of what was given to notify is one or differs from the name given to wait |
| BarrierProgress.ResultIsKept | extended-ref/gasnet_extended_refbarrier.c:1009-1011 | after wait and until its next notify a node keeps the outcome of the episode it left, whatever the others do |
| BarrierProgress.Progress | extended-ref/README:127-130 | once all have entered, a node that is not done always has some receive or kick left to do somewhere |
| BarrierProgress.InternalStepDecreases | extended-ref/gasnet_extended_refbarrier.c:785-873 | every receive, mark and effective kick lowers a measure |
| BarrierProgress.InternalRunsAreShort | extended-ref/gasnet_extended_refbarrier.c:785-873 | so runs without a new notify or wait are finite, with a bound |
| BarrierProgress.QuiescentMeansDone | extended-ref/gasnet_extended_refbarrier.c:785-873 | and when nothing is left to do, every node has completed all its steps |
| BarrierImpl.AmdBarrier.constructor | extended-ref/gasnet_extended_refbarrier.c:1076-1120 | the initial fields, with the peers of the rank |
| BarrierImpl.AmdBarrier.NotifyBegin | extended-ref/gasnet_extended_refbarrier.c:900-905 | name and step are written before the phase flips |
| BarrierImpl.AmdBarrier.NotifyFinish | extended-ref/gasnet_extended_refbarrier.c:905-909 | the phase flips and step 0 is sent; a singleton answers itself |
| BarrierImpl.AmdBarrier.NotifyReqhMerge | extended-ref/gasnet_extended_refbarrier.c:712-733 | the locked part of the receive handler |
| BarrierImpl.AmdBarrier.NotifyReqhMark | extended-ref/gasnet_extended_refbarrier.c:735-738 | the final mark of the receive handler |
| BarrierImpl.AmdBarrier.KickLocked | extended-ref/gasnet_extended_refbarrier.c:809-866 | one kick consumes all completed steps in one go |
| BarrierImpl.AmdBarrier.KickLoop | extended-ref/gasnet_extended_refbarrier.c:785-873 | a kick on the fields is the kick of the node, and its sends are one message per step it opens |
| BarrierImpl.AmdBarrier.WaitFinish | extended-ref/gasnet_extended_refbarrier.c:999-1027 | result and final fields of wait |
| BarrierTeam.NewBarrier | extended-ref/gasnet_extended_refbarrier.c:1076-1110 | the object built from the team's peer list stands for its node in an initial system |
| BarrierTeam.Begin | extended-ref/gasnet_extended_refbarrier.c:900-904 | the first half of notify on the object is that step of the system, with the name and flags the caller gave on record |
| BarrierTeam.Finish | extended-ref/gasnet_extended_refbarrier.c:905-909 | the second half is that step, and the message sent is exactly what appears in the network |
| BarrierTeam.Receive | extended-ref/gasnet_extended_refbarrier.c:712-733 | absorbing a message is that step |
| BarrierTeam.Mark | extended-ref/gasnet_extended_refbarrier.c:735-738 | marking is that step, and under the invariant its assertion holds |
| BarrierTeam.Kick | extended-ref/gasnet_extended_refbarrier.c:785-873 | a kick is that step, and the messages it sends are exactly those that appear in the network |
| BarrierTeam.Wait | extended-ref/gasnet_extended_refbarrier.c:999-1027 | wait is that step, and under the invariant it reports a mismatch iff the combination of what was given to notify is one or is another name |
| BarrierTeam.Result | extended-ref/gasnet_extended_refbarrier.c:1054-1062 | a later result call gives the name the episode agreed on, or says that nobody gave one |
| BarrierTeam.StepIsLocal | extended-ref/gasnet_extended_refbarrier.c:690-705 | a step at one node leaves the objects of the others standing for theirs |
| Credits.InvStep | ibv-conduit/README:1651-1676 | every send, arrival, reply, decision on an acknowledgement, acknowledgement, banking and piggybacking keeps the credit and buffer balances |
| Credits.ReachableInv | ibv-conduit/README:1651-1660 | so in every reachable state the M credits of each endpoint are in hand, with an unanswered request, banked or on their way back, and the banked number is at most the slack |
| Credits.PinnedConserved | ibv-conduit/README:1678-1695 | copying a request when the pool is empty neither loses nor invents a pinned buffer |
| Credits.NoStarvation | ibv-conduit/README:996-1006 | in every quiescent state an endpoint has at least M - slack >= 1 credits |
| Credits.EffectiveSlackIs | ibv-conduit/gasnet_core_sndrcv.c:3166-3168 | the slack in force is the one asked for if that fits, and otherwise the smaller of M - 1 and 256 |
| Credits.UnansweredBounded | ibv-conduit/README:1653-1656 | M bounds the unanswered requests and undelivered replies of an endpoint |
| Credits.SerialNeverNotReady | ibv-conduit/gasnet_core_sndrcv.c:3593-3597 | without overlap of injection and reposting, a posted buffer awaits every message |
| CreditLimits.SlackOf256LosesCredits | ibv-conduit/gasnet_core.c:4292-4302 | with a slack of 256 a reachable state has lost credits |
| CreditLimits.ConservationIffSlackFits | ibv-conduit/gasnet_core_sndrcv.c:3166-3168 | credits are conserved in all runs iff the slack in force is at most 255 |
| CreditLimits.OverlapCanBeNotReady | ibv-conduit/gasnet_core_sndrcv.c:1371-1376 | with overlap, a reachable state has more messages than posted buffers |
| CreditLimits.AlwaysReadyIffSerial | ibv-conduit/gasnet_core_sndrcv.c:1371-1383 | no message ever lacks a posted buffer iff injection and reposting do not overlap |
| CreditsImpl.HiddenArgRoundTrip | ibv-conduit/gasnet_core_internal.h:844-846 | the argument count always survives the packing, the credits iff they fit in eight bits |
| CreditsImpl.Cep.constructor | ibv-conduit/gasnet_core_sndrcv.c:3593-3607 | M credits and 2M posted buffers |
| CreditsImpl.Link.constructor | ibv-conduit/gasnet_core_sndrcv.c:3593-3607 | two fresh endpoints are the initial state of the protocol |
| CreditsImpl.Link.Perform | ibv-conduit/gasnet_core_sndrcv.c:1293-1415 | every send, receipt, reply, banking and acknowledgement on the endpoint objects is that step of the protocol |
| CreditsImpl.Link.Execute | ibv-conduit/README:1651-1695 | any run of the protocol, on the objects, ends where the protocol says and keeps every balance |
| ExitProtocol.InvStep | ibv-conduit/gasnet_core.c:3277-3318 | every step keeps the invariant of election and exit, and no handler assertion fails |
| ExitProtocol.ElectionSafety | ibv-conduit/README:1939-1951 | in every interleaving, election requests sent after the role became known included, there is at most one leader and no assertion of the handlers fails |
| ExitProtocol.CompletedExit | ibv-conduit/README:2039-2052 | after a completed exit everybody else is a member and between 2N and 4N-2 messages were sent, two per candidate and two per peer of the leader |
| ExitProtocol.ExitProgress | ibv-conduit/gasnet_core.c:3504-3562 | until the exit is complete some message can be handled or some peer told |
| ExitRuns.RunsAreBounded | ibv-conduit/README:1933-1959 | no run is longer than 6N - 3 steps |
| ExitRuns.StuckMeansCompleted | ibv-conduit/README:1947-1959 | when somebody has asked and nothing is left to handle or tell, the exit is complete: every run completes |
| ExitRuns.ExitCompletes | ibv-conduit/README:1947-1959 | from every reachable state in which somebody has asked, the exit completes without anybody else asking |
| ExitRuns.EveryCountOccurs | ibv-conduit/README:2039-2052 | every even number of messages from 2N to 4N - 2 occurs, so both bounds are attained |
| ExitImpl.Job.Perform | ibv-conduit/gasnet_core.c:3277-3318 | every step on the node objects is that step of the protocol, and fails exactly when a handler's assertion would |
| ExitImpl.Job.Execute | ibv-conduit/gasnet_core.c:3504-3562 | any interleaving on the node objects ends where the protocol says and no assertion fails |
| ValGet.WideningExact | gasnet.h:499-513 | for every width and either byte order the widened register has the value of the n bytes |
| ValGet.BigNeedsOffset | gasnet.h:503-504 | without the big-endian offset the value would be scaled by the missing bytes |
| ValGet.UnsignedFits | gasnet.h:499-522 | the value fits in n bytes |
| ValGet.OrdersMirror | gasnet.h:499-513 | the two byte orders read the same number in opposite directions |
| ValGet.LittleByteCounts | gasnet.h:499-513 | in the little-endian order byte k counts 256^k times |
| ValGet.Handle.Wait | gasnet.h:515-522 | once every byte has landed, in whatever order, wait returns the unsigned value of the remote bytes |
| ValGet.ReadValue | gasnet.h:515-522 | reading the register byte by byte in either order gives its unsigned value |

## Left out

- PSHM queues and the conduits' own injection code: accepted or refused-if-IMMEDIATE answers and arriving messages are arbitrary in the model.
- Negotiated payload implemented natively by a conduit (ibv, template): only the reference implementation is modelled.
- The poison canary, tracing, statistics, thread-info optimisation and events for local completion: no effect on the properties proved.
- Replies to network tokens: that a second one is refused is the conduit's check and not part of this model; the discipline forbids it.
- Stale tokens and descriptors of other threads: a reply is always to the token of the handler that is running.
- Memory beyond the buffers: reads and writes outside the modelled memory have no effect instead of faulting.
- NpamMessages.MessagesAreExact: does not model what the conduit writes to memory for an arriving Long, nor memory when a loopback payload does not fit where the client sends it.
- NpamSafety.StepGood: does not model the point at which the lazy descriptor initialisation happens; descriptors start inactive.
- NpamDelivery.SendPathsAgree: does not compare Short, which has no negotiated form and no payload.
- BarrierSystem.BarrierSafety: does not model the hierarchical (PSHM) barrier, whose kick and wait take other branches.
- Barrier flag bits other than ANONYMOUS and MISMATCH: no transition reads them.
- `gasnete_amdbarrier_try`: a kick followed by a wait that may be refused.
- Credits.InvStep: does not model SRQ, which the repository says uses no flow control, nor dynamic connections.
- The one-spare-per-poll reuse of receive buffers: it shortens the time a spare is out of the pool and changes no balance.
- ExitProtocol.ExitProgress: does not model timeouts, alarms and signals, after which the real exit stops waiting.
- The reduction-based exit that is tried before the leader/member protocol.
- `gex_Token_Info`, argument forwarding macros, put forms of value transfers: they pass arguments on or read single fields.
