# Tea agent kernel: a verified model

A Dafny model of the parts of the tea agent kernel and its terminal host that hold its branching, state and
arithmetic, with proofs of what they keep. Each module follows one component:

| file | component |
|---|---|
| `core_cancellation.dfy` | the kernel's cancellation token, its wakers and its waits |
| `scope_cancellation.dfy` | the protocol's cancellation scope: flag, mutex and condition variable |
| `compaction_protocol.dfy` | reserving an agent, driving a compaction, committing, aborting, settling |
| `conversation.dfy` | which conversations are valid, the automatic split, the host's compactor |
| `schema.dfy` | the validator for tool schemas and tool arguments |
| `module_paths.dfy`, `bundles.dfy`, `bundle_hash.dfy` | module paths, closed bundles, the hashed byte stream |
| `bundle_loader.dfy` | the recursive module loader |
| `session_codec.dfy` | the session file: saving, loading and the normal form between them |
| `civil_date.dfy` | the calendar arithmetic of timestamps |
| `terminal_input.dfy` | the terminal's byte decoder |
| `model_stream.dfy` | the grammar of normalized model streams |
| `transcript.dfy` | the live transcript and the one rebuilt from a conversation |
| `tool_notices.dfy`, `tool_text.dfy` | truncation and projection of tool results |
| `wrap.dfy`, `wrap_raw.dfy` | soft wrapping of styled and raw text |
| `visual_layout.dfy`, `composer.dfy` | the prompt editor and its rows on screen |
| `json.dfy`, `json_text.dfy`, `binary64.dfy` | JSON values, their printed form, and how their numbers are compared |
| `wrappers.dfy`, `basics.dfy`, `messages.dfy`, `utf8.dfy`, `string_order.dfy`, `display_width.dfy` | shared values |

Components that change fields are classes whose methods are proved against a function of their old state;
protocols of several threads are state machines with one step per atomic access, lock, list update, emission or
answer, so that a run is any interleaving. `utf8.dfy` follows section 3 of RFC 3629, `civil_date.dfy` section 5.7
of RFC 3339, and `schema.dfy` sections 4.2.2, 10.2.1 and 10.3.2 of JSON Schema Core (draft 2020-12).

## Where the code and its promises differ

The model follows the code. Where the code does less than its documentation or a caller would expect, a lemma
shows an input and another says exactly when the expectation holds.

- `register_waker` shares the entry of a wait with an equivalent waker, and dropping that wait removes it:
  `SharedRegistrationLost` reaches such a token from the initial one. `RegistrationSureExactly` says when a registration
  on a quiet token is sure to be woken, and `RegistrationServed` what every registration can rely on in every
  interleaving.
- In the protocol scope, a cancellation without a reason never takes the mutex and can miss a thread that is about
  to wait: `EmptyReasonMisses`; `MissedExactly` says which threads a notification misses.
- A compaction run is marked running before anyone drives it, so aborting or dropping an undriven handle does not
  settle it, although `RunHandle::abort` is documented to settle undriven handles: `UndrivenDropSticks`. A late abort
  can also mark an agent that has already been released: `LateAbortSticks`. `StuckArisesExactly` lists both ways, and
  `FreedExactly` says that a busy agent can become idle again if and only if it is not stuck in one of them.
- One compaction handle can replace the history more than once: `TwoDrivesReplaceTwice`. `CommitsOnceMoreExactly` says
  when it still can: if and only if its run is running and either the handle lives and its token is clear, or one of
  its drives is at its write. So a second drive beside the first, or after one that was abandoned past its commit, may
  replace again, and drives that are begun one after the other's return never do: `SequentialDrivesReplaceOnce`.
- A paste whose start marker arrives together with content, but without the end, loses the paste: `SplitPasteLost`;
  `SplitPasteExactly` is the exact condition, whenever its pieces arrive.
- An Alt key or a completed paste leaves the escape deadline behind: `DeadlineAfterEvent`; a later escape sequence
  that arrives in pieces then falls apart: `StaleDeadlineSplitsKeys`. `CutKeysExactly` is the exact condition for any
  keys, pieces and times: each time at which an escape key is still incomplete lies before the deadline in force.
- The number of capabilities is not hashed, so bundles with different numbers can have one byte stream:
  `CapabilitiesCanPoseAsModule`; `StreamIdentifiesExactly` says that equal numbers are what it takes.
- The automatic split can retain a tool result without its call if other messages stand between them:
  `SplitCanSever`; `SplitsValidlyExactly` says that a valid conversation is split safely for every number of tokens if
  and only if only results stand between its calls and their results.
- A bound and a number are both rounded to binary floating point before they are compared, so large integers that
  differ can count as equal: `BoundsBlurAbove53Bits`; `IntegerBoundsExactly` says when.
- `const`, `enum` and `uniqueItems` compare number forms, so 1 and 1.0 differ although they are equal instances of JSON
  Schema: `OneIsNotOnePointZero`; `EqualExactly` says that equal instances are taken for equal if and only if numbers in
  the same places have the same form.
- Alt with a character beyond ASCII falls apart, because Alt takes one byte: `AltFallsApart`; `AltCharacterExactly` says
  which characters are read with Alt.
- A visual move up or down can end outside the previous or next row, because the end of a softly wrapped row is shown as
  the start of the row after it: `UpStaysInRow`; `VisualMoveShownExactly` is the exact condition.
- A tool call identifier of a model stream may be started again after it has finished, contrary to the comment on the
  duplicate error: `RestartedCallAccepted`; `AcceptedExactly` states the language of the code.

## Model

| member | source | states |
|---|---|---|
| `CoreCancellation.CancellationState.Cancel` | crates/tea-core/src/scheduler.rs:154-169 | the first call sets the flag, empties the waiter list and wakes every waker it held; later calls change nothing |
| `CoreCancellation.CancellationState.RegisterWaker` | crates/tea-core/src/scheduler.rs:178-203 | a cancelled token wakes at once; otherwise an equivalent waker is shared or a new entry added |
| `CoreCancellation.CancellationState.Poll` | crates/tea-core/src/scheduler.rs:223-247 | ready exactly if cancelled; otherwise this wait has exactly one entry, with an equivalent waker |
| `CoreCancellation.CancellationState.DropWait` | crates/tea-core/src/scheduler.rs:251-262 | a dropped wait leaves no entry and disturbs no other |
| `CoreCancellation.StepKeepsInv` | crates/tea-core/src/scheduler.rs:153-262 | every step of every interleaving keeps the invariant of lock, list, waits and winner |
| `CoreCancellation.NoLostWakeup` | crates/tea-core/src/scheduler.rs:153-262 | in every run, once the winning cancel has returned, the latest waker of every undropped pending wait has been woken, exactly the drained entries were woken, once each, and every registered entry is among them |
| `CoreCancellation.NoEarlyWakeup` | crates/tea-core/src/scheduler.rs:153-247 | in every run, nothing is drained, woken by a drain or woken by a registration before a cancellation |
| `CoreCancellation.DrainedOnce` | crates/tea-core/src/scheduler.rs:154-169 | once the list has been drained, no later step drains again and the list stays empty |
| `CoreCancellation.DroppedWaitLeavesNoEntry` | crates/tea-core/src/scheduler.rs:250-262 | in every run, until a cancellation no entry of a dropped wait remains |
| `CoreCancellation.NoDeadlock` | crates/tea-core/src/scheduler.rs:153-262 | under the invariant, while some call is unfinished some call can take its next step |
| `CoreCancellation.PendingCallsComplete` | crates/tea-core/src/scheduler.rs:153-262 | under the invariant, all unfinished calls complete in a run of their own steps whose length is bounded by the remaining work |
| `CoreCancellation.PollAlone` | crates/tea-core/src/scheduler.rs:223-247 | on a live token an undisturbed poll stores its waker, replacing its own entry at most, and parks |
| `CoreCancellation.RegisterAlone` | crates/tea-core/src/scheduler.rs:178-203 | on a live token an undisturbed registration shares an entry that the waker would wake as well, or adds one |
| `CoreCancellation.CancelAlone` | crates/tea-core/src/scheduler.rs:154-169 | an undisturbed first cancel drains the list and wakes everything on it, in order |
| `CoreCancellation.DropSharingWaits` | crates/tea-core/src/scheduler.rs:192-198 | from any quiet live state in which no registered entry serves a waker, dropping waits leads to one in which no entry serves it |
| `CoreCancellation.RegistrationSureExactly` | crates/tea-core/src/scheduler.rs:178-203 | a task registered on a quiet live token is woken by every later cancellation if and only if no entry served it before or an earlier registration does |
| `CoreCancellation.SharedRegistrationLost` | crates/tea-core/src/scheduler.rs:178-262 | for every waker a reachable quiet live token on which its registration can go without being woken |
| `CoreCancellation.RegistrationServed` | crates/tea-core/src/scheduler.rs:178-203 | in every interleaving a registration returns with its waker woken or served by an entry; once the winning cancel has returned, a waker served by an entry that a registration added has been woken |
| `ScopeCancellation.NobodyStaysParked` | crates/tea-protocol/src/cancellation.rs:68-134 | in every run with spurious wakeups, after a winning call with a reason has returned nobody is parked or about to park |
| `ScopeCancellation.ReasonIsWinners` | crates/tea-protocol/src/cancellation.rs:68-134 | the reason is written at most once, by the winner, and every observed reason is none or the winner's |
| `ScopeCancellation.WinnerStays` | crates/tea-protocol/src/cancellation.rs:69-86 | once a call has won, no later step changes who won |
| `ScopeCancellation.MissedExactly` | crates/tea-protocol/src/cancellation.rs:84-84 | a notification leaves blocked exactly the threads that hold the mutex having loaded the flag as clear |
| `ScopeCancellation.EmptyReasonMisses` | crates/tea-protocol/src/cancellation.rs:79-84 | without a reason a waiter can stay parked after the winner has returned |
| `ScopeCancellation.WorkDecreases` | crates/tea-protocol/src/cancellation.rs:117-134 | once a call with a reason has returned, every step of a waiting or checking call brings it closer to its return |
| `ScopeCancellation.NoDeadlock` | crates/tea-protocol/src/cancellation.rs:117-134 | after a return with a reason, while a call is unfinished some call can take a step |
| `ScopeCancellation.Scope.CancelWithReason` | crates/tea-protocol/src/cancellation.rs:69-86 | the first call wins and its non-empty reason is kept; later calls change nothing |
| `ScopeCancellation.CancelAlone` | crates/tea-protocol/src/cancellation.rs:69-86 | in the state machine, an undisturbed cancellation has the effect of the method, returns as the winner and leaves nobody parked |
| `ScopeCancellation.CheckAlone` | crates/tea-protocol/src/cancellation.rs:110-118 | in the state machine, an undisturbed check observes the current reason exactly if the scope is cancelled, and changes nothing |
| `CompactionProtocol.OwnerStep` | crates/tea-core/src/compaction.rs:494-561 | every step keeps one owner at most, named by a running phase, with unique run identifiers |
| `CompactionProtocol.LogStep` | crates/tea-core/src/compaction.rs:354-486 | every step keeps the history equal to the last valid replacement and end events in agreement with what was written |
| `CompactionProtocol.HistoryIsReplacement` | crates/tea-core/src/compaction.rs:576-591 | in every execution the history is the original or the latest replacement, and every replacement is valid |
| `CompactionProtocol.EndsAreTruthful` | crates/tea-core/src/compaction.rs:354-486 | an end event reports success exactly if its drive replaced the history, once, with that many messages; failure and cancellation exactly if it did not |
| `CompactionProtocol.OwnersExclude` | crates/tea-core/src/compaction.rs:494-534 | concurrent start_compaction calls never both own the agent, and an owned agent is not idle |
| `CompactionProtocol.NoCommitAfterCancel` | crates/tea-core/src/compaction.rs:576-591 | once the token is cancelled no drive of the run replaces the history, unless it had already passed its check under the lock |
| `CompactionProtocol.SoleDriveReplacesItsSnapshot` | crates/tea-core/src/compaction.rs:386-424 | the only drive of a handle replaces exactly the history it showed the compactor, and no other replacement of the run exists |
| `CompactionProtocol.TwoDrivesReplaceTwice` | crates/tea-core/src/compaction.rs:354-439 | two concurrent drives of one handle can replace twice, the second from a stale snapshot |
| `CompactionProtocol.CommitsOnceMoreExactly` | crates/tea-core/src/compaction.rs:354-439 | in every reachable state, one more replacement by a handle is possible if and only if its run is running and either the handle lives with a clear token or one of its drives is at its write |
| `CompactionProtocol.SequentialDrivesReplaceOnce` | crates/tea-core/src/compaction.rs:354-439 | a handle each of whose drives is begun after the earlier ones have returned replaces the history at most once |
| `CompactionProtocol.StuckForever` | crates/tea-core/src/run/mod.rs:1530-1549 | a stuck agent is never idle, reserved or changed again |
| `CompactionProtocol.StuckArisesExactly` | crates/tea-core/src/run/mod.rs:1530-1549 | an agent becomes stuck exactly by dropping the handle of an unreleased run, or by an abort that marks an unowned agent |
| `CompactionProtocol.FreedExactly` | crates/tea-core/src/run/mod.rs:1571-1609 | in every reachable state the agent can become idle again if and only if it is not stuck |
| `CompactionProtocol.UndrivenDropSticks` | crates/tea-core/src/compaction.rs:530-560 | in every reachable state, a live handle that nobody has driven can be dropped, and dropping it makes its agent stuck |
| `CompactionProtocol.UndrivenHandleExists` | crates/tea-core/src/compaction.rs:494-534 | a granted handle that nobody has driven is reachable |
| `CompactionProtocol.LateAbortSticks` | crates/tea-core/src/run/mod.rs:1530-1549 | a reachable idle agent that an abort, past its checks, then marks and makes stuck |
| `Conversation.ValidateMessages` | crates/tea-core/src/compaction.rs:593-666 | accepts exactly the conversations with unique unreserved identifiers whose results are in bijection with earlier calls of the same name; a rejection names the defect of the first message that has one, or exactly the calls without results |
| `Conversation.AutomaticSplit` | crates/tea-core/src/run/mod.rs:1745-1781 | prefix, turn and suffix rebuild the conversation; the suffix holds the recent tokens, starts at no result, and a turn is cut only before an assistant message |
| `Conversation.SuffixValidExactly` | crates/tea-core/src/run/mod.rs:1758-1763 | a suffix of a valid conversation is valid if and only if no result in it answers a call before it |
| `Conversation.ContiguousSuffixValid` | crates/tea-core/src/run/mod.rs:1758-1763 | if only results stand between calls and results, a suffix that starts at no result is valid |
| `Conversation.SplitCanSever` | crates/tea-core/src/run/mod.rs:1745-1781 | a valid conversation whose split suffix is invalid |
| `Conversation.SplitsValidlyExactly` | crates/tea-core/src/run/mod.rs:1745-1781 | a valid conversation is split into a valid suffix for every number of recent tokens if and only if only results stand between its calls and their results |
| `Conversation.PrependValidExactly` | crates/tea-core/src/compaction.rs:593-666 | prepending a user message keeps validity if and only if its identifier is unreserved and new |
| `Conversation.NextMessageId` | crates/tea-agent/src/app/compaction.rs:200-214 | terminates with the least unused positive identifier, at most the number of messages plus one |
| `Conversation.SummaryMessage` | crates/tea-agent/src/app/compaction.rs:193-198 | a user message around the summary, with the least positive identifier that no message has |
| `Conversation.Compact` | crates/tea-agent/src/app/compaction.rs:127-152 | manual compaction yields one valid message around the summary, or nothing for an empty conversation, and fails exactly if the summary does |
| `Conversation.CompactAutomatic` | crates/tea-agent/src/app/compaction.rs:154-190 | the replacement is the summary message and then exactly the retained suffix, and is valid if and only if the suffix is |
| `Conversation.SplitAndCompact` | crates/tea-agent/src/app/compaction.rs:154-190 | splitting and compacting a valid conversation with contiguous results always gives a valid replacement that ends in the retained suffix |
| `Conversation.Retained.AllocateId` | crates/tea-core/src/state/lifecycle.rs:118-122 | a new identifier differs from every retained one |
| `Conversation.Retained.ReplaceMessages` | crates/tea-core/src/state/lifecycle.rs:128-137 | a replacement never makes the next identifier collide and never moves it back |
| `Schema.ValidateSchema` | crates/tea-core/src/schema_validation.rs:350-474 | accepts exactly the supported schemas, at every depth |
| `Schema.CheckRequiredKeyword` | crates/tea-core/src/schema_validation.rs:407-420 | accepts exactly arrays of distinct strings |
| `Schema.ValidateValue` | crates/tea-core/src/schema_validation.rs:60-151 | for a supported schema, only appends failures at or below the path, and none if and only if the value satisfies the schema |
| `Schema.ValidateApplicators` | crates/tea-core/src/schema_validation.rs:108-141 | appends nothing if and only if allOf, anyOf, oneOf and not are satisfied |
| `Schema.MatchesOne` | crates/tea-core/src/schema_validation.rs:121-132 | holds if and only if exactly one branch is satisfied |
| `Schema.MatchesAny` | crates/tea-core/src/schema_validation.rs:113-120 | holds if and only if some branch is satisfied |
| `Schema.IsValid` | crates/tea-core/src/schema_validation.rs:326-330 | decides satisfaction |
| `Schema.ValidateObject` | crates/tea-core/src/schema_validation.rs:153-207 | appends nothing if and only if required names are present and every property meets its own or the additional schema |
| `Schema.ValidateArray` | crates/tea-core/src/schema_validation.rs:209-240 | appends nothing if and only if items, uniqueness and bounds are satisfied |
| `Schema.IsUnique` | crates/tea-core/src/schema_validation.rs:225-237 | holds if and only if no two items are equal |
| `Schema.ValidateNumber` | crates/tea-core/src/schema_validation.rs:266-295 | appends nothing if and only if all four bounds hold of the numbers as rounded to binary floating point |
| `Schema.IntegerBoundsExactly` | crates/tea-core/src/schema_validation.rs:266-295 | bounds of integers hold as for the integers themselves, except that two which round to one number count as equal |
| `Schema.BoundsBlurAbove53Bits` | crates/tea-protocol/src/json.rs:124-131 | integers of up to 53 bits never round to one number; just above, two do |
| `Binary64.RoundedGrows` | crates/tea-protocol/src/json.rs:124-131 | rounding integers to binary floating point keeps their order |
| `Binary64.RoundedExact` | crates/tea-protocol/src/json.rs:124-131 | integers of up to 53 bits are not rounded |
| `Schema.EqualExactly` | crates/tea-protocol/src/json.rs:41-49 | the equality of values is the instance equality of JSON Schema together with equal number forms in the same places |
| `Schema.ConstantAcceptsExactly` | crates/tea-core/src/schema_validation.rs:98-106 | a constant accepts exactly the equal instances whose numbers have its forms |
| `Schema.OneIsNotOnePointZero` | crates/tea-core/src/schema_validation.rs:90-106 | neither const nor enum takes 1 for 1.0, and uniqueItems accepts both side by side |
| `Binary64.ValueUnique` | crates/tea-protocol/src/json.rs:47-48 | floating point numbers of one value are one number |
| `Schema.CheckCounts` | crates/tea-core/src/schema_validation.rs:297-324 | appends nothing if and only if both count bounds hold |
| `Schema.ValidateToolArguments` | crates/tea-core/src/schema_validation.rs:14-51 | accepts exactly if the schema is supported, the arguments parse, and they satisfy it; and names which of the three failed |
| `Schema.KeywordsAreIndependent` | crates/tea-core/src/schema_validation.rs:60-207 | two groups of keywords together accept exactly what both accept, if properties stands in each group that has additionalProperties |
| `Schema.AddingKeywordsNarrows` | crates/tea-core/src/schema_validation.rs:60-207 | a schema with more keywords accepts no more values, unless properties is added beside additionalProperties |
| `Schema.PropertiesWiden` | crates/tea-core/src/schema_validation.rs:184-206 | adding properties beside additionalProperties can accept more |
| `ModulePaths.NewPathExactly` | crates/tea-luau/src/bundle.rs:27-73 | a path is accepted if and only if it is relative, slash-separated and every segment is a plain name |
| `ModulePaths.ParentSegments` | crates/tea-luau/src/bundle.rs:81-83 | the parent is the path without its last segment |
| `ModulePaths.SplitOfJoin` | crates/tea-luau/src/bundle.rs:85-87 | splitting undoes joining for names without slashes |
| `ModulePaths.JoinOfSplit` | crates/tea-luau/src/bundle.rs:85-87 | joining undoes splitting |
| `Bundles.ManifestExactly` | crates/tea-luau/src/bundle.rs:283-318 | a manifest is built if and only if the version is supported, the entrypoint valid, and the capabilities valid and distinct; they end up sorted |
| `Bundles.ManifestOrderFree` | crates/tea-luau/src/bundle.rs:283-318 | the manifest does not depend on the order of the capabilities |
| `Bundles.FromSources` | crates/tea-luau/src/bundle.rs:414-429 | collects the records into a map, failing at the first invalid or repeated path |
| `Bundles.BuiltExactly` | crates/tea-luau/src/bundle.rs:391-429 | a bundle is built if and only if paths are valid and distinct and the entrypoint is among them; its modules are exactly the records |
| `Bundles.BuiltOrderFree` | crates/tea-luau/src/bundle.rs:414-429 | the bundle does not depend on the order of distinct records |
| `Bundles.ResolveRelative` | crates/tea-luau/src/bundle.rs:456-509 | the segment stack computes the normalised join of the requester's directory and the request, or the same error |
| `Bundles.WalkComposes` | crates/tea-luau/src/bundle.rs:476-500 | resolving a request in two parts is resolving the second from where the first leads |
| `Bundles.WalkNormalises` | crates/tea-luau/src/bundle.rs:476-500 | a detour into a directory and back changes no resolution, wherever it stands |
| `Bundles.EscapesExactly` | crates/tea-luau/src/bundle.rs:476-500 | a request fails as an escape if and only if some beginning of it climbs above the root |
| `Bundles.ResolvedIsModule` | crates/tea-luau/src/bundle.rs:456-516 | every successful resolution is a module of the bundle |
| `Bundles.RelativeRequestResolves` | crates/tea-luau/src/bundle.rs:456-516 | for any two modules, the computed relative request leads from the one exactly to the other |
| `Bundles.BuiltRequestResolves` | crates/tea-luau/src/bundle.rs:414-516 | in every bundle that can be built, any record reaches any other by the computed relative request |
| `BundleHash.Hasher.HashField` | crates/tea-luau/src/bundle.rs:636-647 | feeds the little-endian length and then the bytes |
| `BundleHash.CalculateHash` | crates/tea-luau/src/bundle.rs:622-634 | feeds exactly the stream of version, entrypoint, capabilities and modules in key order |
| `BundleHash.FramesInjective` | crates/tea-luau/src/bundle.rs:636-647 | the framed stream determines the fields |
| `BundleHash.StreamIdentifiesExactly` | crates/tea-luau/src/bundle.rs:622-647 | for bundles with equally many capabilities, equal streams mean equal bundles |
| `BundleHash.StreamOrderFree` | crates/tea-luau/src/bundle.rs:414-429 | the stream does not depend on the order of capabilities and records |
| `BundleHash.CapabilitiesCanPoseAsModule` | crates/tea-luau/src/bundle.rs:622-634 | two valid bundles with different capability counts and one stream |
| `BundleLoader.RuntimeState.LoadRequired` | crates/tea-luau/src/bundle_runtime.rs:113-154 | answers a request with the cached or freshly loaded module, or the error that blames the import |
| `BundleLoader.RuntimeState.LoadModule` | crates/tea-luau/src/bundle_runtime.rs:160-217 | on every outcome the stack is restored and the cache only grows by finished modules; success if and only if nothing reachable is broken or on a cycle |
| `BundleLoader.RuntimeState.FinishLoading` | crates/tea-luau/src/bundle_runtime.rs:219-225 | removes the last occurrence of the module from the stack, which is its top when the module is on top |
| `BundleLoader.RuntimeState.EvalEntrypoint` | crates/tea-luau/src/bundle_runtime.rs:94-105 | loading succeeds if and only if every reachable import resolves and no cycle is reachable; each reachable module is evaluated once, dependencies first |
| `BundleLoader.Program.FinishedIsLoadable` | crates/tea-luau/src/bundle_runtime.rs:160-217 | modules in dependency order, none of which fails by itself, are loadable |
| `BundleLoader.Program.StackedIsOnCycle` | crates/tea-luau/src/bundle_runtime.rs:171-176 | a request for a module on the stack proves a cycle |
| `BundleLoader.RequestOutcome` | crates/tea-luau/src/bundle_runtime.rs:113-154 | a failing request blames a defect its module can reach and condemns that module; a successful one lets it go on |
| `SessionCodec.EncodeFile` | crates/tea-agent/src/app/session.rs:277-323 | writes header, model, thinking level and messages, each entry naming the one before it |
| `SessionCodec.DecodeFile` | crates/tea-agent/src/app/session.rs:472-587 | folds every later line into model, thinking level and messages, failing at the first bad entry |
| `JsonText.FaithfulTextExists` | crates/tea-protocol/src/json.rs:58-68 | a printer and a parser with the properties assumed of JSON text exist |
| `SessionCodec.MessageRoundTrip` | crates/tea-agent/src/app/session.rs:325-636 | an encoded message decodes to its normal form under the loader's identifier |
| `SessionCodec.UsageRoundTrip` | crates/tea-agent/src/app/session.rs:438-746 | usage loses reasoning tokens, and an absent cost becomes the text of null |
| `SessionCodec.ContentRoundTrip` | crates/tea-agent/src/app/session.rs:339-672 | text and tool calls of an assistant message survive, with canonical arguments |
| `SessionCodec.SaveThenLoad` | crates/tea-agent/src/app/session.rs:277-587 | a saved record loads as its normal form if and only if its session identifier is valid |
| `SessionCodec.NormalStable` | crates/tea-agent/src/app/session.rs:277-746 | saving and loading a second time changes nothing |
| `SessionCodec.NormalValid` | crates/tea-agent/src/app/session.rs:277-746 | a conversation the kernel accepts is still accepted after saving and loading |
| `SessionCodec.LoadSaveLoad` | crates/tea-agent/src/app/session.rs:472-587 | whatever file loads, saving and loading it again succeeds with its normal form, and its messages are numbered from one |
| `SessionCodec.IgnoredLineRemovable` | crates/tea-agent/src/app/session.rs:525-575 | blank, unparsable and unknown lines after the header never change what is loaded |
| `SessionCodec.EntriesLinked` | crates/tea-agent/src/app/session.rs:277-323 | every entry names the entry before it; the first names none |
| `SessionCodec.EntriesHaveOwnIds` | crates/tea-agent/src/app/session.rs:277-323 | no two entries have the same identifier, if identifiers are drawn from a counter |
| `SessionCodec.EntryIdsDiffer` | crates/tea-agent/src/app/session.rs:873-875 | padded hexadecimal identifiers differ exactly if their counter values do |
| `CivilDate.CivilFromDaysCorrect` | crates/tea-agent/src/app/session.rs:938-949 | every day count is converted to the valid Gregorian date with that day number |
| `CivilDate.CivilFromDaysExactly` | crates/tea-agent/src/app/session.rs:938-949 | the conversion inverts the day number, and later days are later dates |
| `CivilDate.DayNumberMonotone` | crates/tea-agent/src/app/session.rs:938-949 | day numbers grow strictly with the calendar |
| `CivilDate.UtcCivilFromDays` | crates/tea-agent/src/app/support.rs:83-96 | the second copy computes the same date |
| `CivilDate.FitsExactly` | crates/tea-agent/src/app/session.rs:938-949 | no 64-bit step overflows if and only if the first addition does not |
| `CivilDate.YearFound` | crates/tea-agent/src/app/session.rs:942-943 | the corrected division finds the year of the era that contains the day |
| `TerminalInput.InputDecoder.NextEvent` | crates/tea-agent/src/terminal.rs:386-472 | one event, and the new state, exactly as the decoder function says |
| `TerminalInput.InputDecoder.EscapeSequence` | crates/tea-agent/src/terminal.rs:474-509 | reads a mapped sequence, or enters paste mode and reads on |
| `TerminalInput.InputDecoder.EscapeSequencePrefix` | crates/tea-agent/src/terminal.rs:511-539 | holds exactly for proper beginnings of a candidate |
| `TerminalInput.InputDecoder.FindSubslice` | crates/tea-agent/src/terminal.rs:573-581 | the first occurrence, or none if there is none or the needle is empty |
| `TerminalInput.InputDecoder.ReadUtf8` | crates/tea-agent/src/terminal.rs:541-561 | one character, nothing if it is incomplete, or a replacement for one bad byte |
| `TerminalInput.InputDecoder.TimeoutUntilEscape` | crates/tea-agent/src/terminal.rs:381-384 | the time left until the deadline, zero once it has passed |
| `TerminalInput.InputDecoder.DrainEvents` | crates/tea-agent/src/terminal.rs:386-472 | reads events until none is left |
| `TerminalInput.EventsConsume` | crates/tea-agent/src/terminal.rs:386-509 | every event consumes at least one byte |
| `TerminalInput.KeysDecodeExactly` | crates/tea-agent/src/terminal.rs:376-581 | keys whose bytes all arrive within 30 ms decode to exactly those keys, however they are cut, and leave nothing |
| `TerminalInput.CutKeysExactly` | crates/tea-agent/src/terminal.rs:376-581 | keys cut into any pieces that arrive at any times decode to exactly those keys if and only if each time at which an escape key is incomplete lies before the deadline in force |
| `TerminalInput.PromptKeysDecode` | crates/tea-agent/src/terminal.rs:376-581 | keys that are each complete within 30 ms of their own first byte decode exactly, with any pauses between them, if no Alt key is cut |
| `TerminalInput.AltCharacterExactly` | crates/tea-agent/src/terminal.rs:423-438 | an escape and a character's bytes, sent at once, are read as Alt with that character if and only if the character is from U+0020 to U+007F and neither `[` nor `O` |
| `TerminalInput.AltFallsApart` | crates/tea-agent/src/terminal.rs:423-438 | beyond ASCII they are read as Alt with the first byte and a replacement character for each byte after it |
| `TerminalInput.WholePasteDecodes` | crates/tea-agent/src/terminal.rs:386-398 | a paste pushed whole decodes to its text, whatever follows |
| `TerminalInput.SplitPasteExactly` | crates/tea-agent/src/terminal.rs:410-439 | a paste cut into pieces that arrive at any times decodes if and only if no deadline passes within its start, and the piece that completes the start also completes the end or leaves, in time, only the beginning of an escape sequence |
| `TerminalInput.SplitPasteLost` | crates/tea-agent/src/terminal.rs:410-439 | a two-piece paste that is lost |
| `TerminalInput.EscapeHeldExactly` | crates/tea-agent/src/terminal.rs:400-413 | a lone escape is held exactly until its deadline |
| `TerminalInput.DeadlineAfterEvent` | crates/tea-agent/src/terminal.rs:386-439 | an event clears the deadline unless it is an Alt key or a completed paste |
| `TerminalInput.StaleDeadlineSplitsKeys` | crates/tea-agent/src/terminal.rs:424-435 | a deadline left by an Alt key makes a later cut arrow key fall apart |
| `ModelStreams.ModelStream.AcceptItem` | crates/tea-protocol/src/model_stream.rs:156-227 | accepts or rejects as the automaton says; a rejected item changes nothing |
| `ModelStreams.ModelStream.AcceptAll` | crates/tea-protocol/src/model_stream.rs:156-227 | a stream passes without rejection to a normal finish if and only if it is a complete response |
| `ModelStreams.AcceptedExactly` | crates/tea-protocol/src/model_stream.rs:156-227 | the accepted streams are started, a body, finished, where each call by itself is started, deltas, finished, repeatedly |
| `ModelStreams.ActiveLanguage` | crates/tea-protocol/src/model_stream.rs:191-227 | the same from any active state, given the open calls |
| `ModelStreams.RestartedCallAccepted` | crates/tea-protocol/src/model_stream.rs:191-210 | a stream that starts a finished call again is a complete response |
| `ModelStreams.RejectedItemsDeletable` | crates/tea-protocol/src/model_stream.rs:151-155 | deleting the rejected items gives an accepted stream with the same final state |
| `Transcripts.AppState.ApplyEvent` | crates/tea-agent/src/app/state.rs:218-443 | one event changes the rows as the projection says and keeps them consistent |
| `Transcripts.AppState.UpdateToolLine` | crates/tea-agent/src/app/state.rs:861-900 | updates the active row of the call, or opens one |
| `Transcripts.AppState.RestoreMessages` | crates/tea-agent/src/app/state.rs:455-518 | one row per message, in order, with nothing streaming or active |
| `Transcripts.AnyStreamKeepsInv` | crates/tea-agent/src/app/state.rs:218-443 | any events keep rows and sequences aligned, the indices on their rows, and never remove a row |
| `Transcripts.LiveEqualsRestored` | crates/tea-agent/src/app/state.rs:218-518 | the transcript of a well-formed stream equals, row by row, the one rebuilt from its conversation, up to sequences, arguments and progress |
| `Transcripts.BatchExtends` | crates/tea-agent/src/app/state.rs:285-340 | tools running in any interleaving end as one final row per call, in source order |
| `Transcripts.ReplyExtends` | crates/tea-agent/src/app/state.rs:230-284 | a streamed reply ends as the one row of its final message |
| `ToolText.TruncateMiddle` | crates/tea-core/src/tool.rs:307-326 | the text if it fits, otherwise the marker between the longest whole-character prefix and suffix that fit in half each of what it leaves |
| `ToolText.ShortenedKeeps` | crates/tea-core/src/tool.rs:307-326 | for every limit the result is valid UTF-8 within it: a true prefix, the marker and a true suffix that do not overlap, at most six bytes short, or a beginning of the marker, at most three short |
| `ToolText.PrefixEnd` | crates/tea-core/src/tool.rs:328-334 | the last character boundary within the limit |
| `ToolText.SuffixStart` | crates/tea-core/src/tool.rs:336-342 | the first character boundary that leaves at most the limit |
| `ToolText.RoundedNearest` | crates/tea-core/src/tool.rs:328-342 | no boundary lies between an index and the boundary it is rounded to |
| `ToolText.BoundariesNear` | crates/tea-core/src/tool.rs:328-342 | in valid UTF-8 rounding to a boundary gives up three bytes at most |
| `ToolText.BoundarySplits` | crates/tea-core/src/tool.rs:328-342 | a byte boundary splits the characters as well |
| `ToolText.AppendSection` | crates/tea-core/src/tool.rs:286-299 | appends the section behind a line break, truncated to the room that is left, or nothing if no room is left |
| `ToolText.AppendedWithin` | crates/tea-core/src/tool.rs:284-299 | what stands already is never displaced and the total is kept |
| `ToolText.AppendedWhole` | crates/tea-core/src/tool.rs:286-299 | a section that fits is appended whole |
| `ToolText.ProjectSections` | crates/tea-core/src/tool.rs:237-281 | status, guidance, content and details in this order, each cut to its own limit and appended within the total |
| `ToolText.ProjectedKeeps` | crates/tea-core/src/tool.rs:237-281 | under a valid policy: valid UTF-8 within the total budget, an error starts with its complete status header, and everything is shown in full if everything fits |
| `ToolText.Projection.Project` | crates/tea-core/src/tool.rs:213-282 | at most the total or the 62-byte notice; an error not seen before starts with its complete status; a repeated one is the notice |
| `ToolText.HeaderFits` | crates/tea-core/src/tool.rs:182-198 | every status header fits the smallest valid budget |
| `Wrapping.WrapStyledLine` | crates/tea-agent/src/render.rs:718-777 | the lines are the ones the wrapping rules determine, with leading white space kept or trimmed |
| `Wrapping.NextCut` | crates/tea-agent/src/render.rs:742-772 | the line ends at the last white space before the first glyph that does not fit, or there if there is none |
| `Wrapping.WrappingKeeps` | crates/tea-agent/src/render.rs:718-777 | every character is kept in order with its style, but for at most one white space per line; every line fits or is one wide character |
| `Wrapping.WrappingUnique` | crates/tea-agent/src/render.rs:718-777 | the rules determine the lines |
| `Wrapping.TrimmedKeeps` | crates/tea-agent/src/render.rs:727-734 | trimming removes white space at the start only |
| `RawWrapping.WrapRawText` | crates/tea-agent/src/render.rs:933-973 | the lines of every logical line in turn; an empty line stays and a line of white space vanishes |
| `RawWrapping.NextCut` | crates/tea-agent/src/render.rs:945-966 | where the next line ends: at its last white space, or where no more fits, or at the end of the text |
| `RawWrapping.WrapLogicalLine` | crates/tea-agent/src/render.rs:938-971 | one empty line for an empty one, otherwise the lines cut off one after the other and trimmed |
| `RawWrapping.CutIsLastBreak` | crates/tea-agent/src/render.rs:945-966 | a line takes everything that is left if it fits; otherwise it ends at the last white space among the characters that fit, or takes all of those, at least one |
| `RawWrapping.RawWrappingKeeps` | crates/tea-agent/src/render.rs:933-973 | all characters but white space are kept in order, and every line fits or is one wide character, without white space at its ends |
| `RawWrapping.LogicalKeep` | crates/tea-agent/src/render.rs:938-971 | the same for one logical line, which leaves no line if and only if it is white space throughout |
| `VisualLayouts.Measure` | crates/tea-agent/src/ui/visual_layout.rs:22-86 | the rows tile the text, each ending where one more character would not have fitted, and a boundary cursor is reported in the row it belongs to, at the clamped width of what precedes it |
| `VisualLayouts.RowsFit` | crates/tea-agent/src/ui/visual_layout.rs:53-74 | every row takes at most the width, or the two cells of one wide character |
| `VisualLayouts.TilingUnique` | crates/tea-agent/src/ui/visual_layout.rs:34-79 | text and width determine the rows |
| `VisualLayouts.RowUnique` | crates/tea-agent/src/ui/visual_layout.rs:37-74 | every character position belongs to one row only |
| `VisualLayouts.LayoutUnique` | crates/tea-agent/src/ui/visual_layout.rs:22-86 | text, boundary cursor and width determine the whole layout |
| `Composers.Composer.InsertText` | crates/tea-agent/src/composer.rs:65-84 | inserts at the cursor and moves past the insertion; the cursor stays on a boundary |
| `Composers.Composer.InsertLine` | crates/tea-agent/src/composer.rs:55-78 | refuses line breaks without a change |
| `Composers.Composer.MoveLeft` | crates/tea-agent/src/composer.rs:108-110 | moves to the start of the cluster before the cursor |
| `Composers.Composer.MoveRight` | crates/tea-agent/src/composer.rs:113-123 | moves past the cluster at the cursor |
| `Composers.Composer.MoveWordLeft` | crates/tea-agent/src/composer.rs:126-147 | passes white space and then a whole word |
| `Composers.Composer.MoveWordRight` | crates/tea-agent/src/composer.rs:150-171 | passes white space and then a whole word |
| `Composers.Composer.MoveLineUp` | crates/tea-agent/src/composer.rs:174-188 | scans back to the line above and goes to the same character column or to its end; on the first line it stays |
| `Composers.Composer.MoveLineDown` | crates/tea-agent/src/composer.rs:191-207 | scans on to the line below and goes to the same character column or to its end; on the last line it stays |
| `Composers.LineAboveUnique` | crates/tea-agent/src/composer.rs:174-188 | text and position determine where a move up lands |
| `Composers.LineBelowUnique` | crates/tea-agent/src/composer.rs:191-207 | text and position determine where a move down lands |
| `Composers.UpThenDown` | crates/tea-agent/src/composer.rs:174-207 | moving up and down again returns if and only if the line above reaches as far as the column |
| `Composers.ScanBack` | crates/tea-agent/src/composer.rs:175-177 | the offset behind the last line break before a position, or the start of the text |
| `Composers.ScanForward` | crates/tea-agent/src/composer.rs:195-197 | the offset of the next line break, or the end of the text |
| `Composers.CharOffset` | crates/tea-agent/src/composer.rs:307-311 | the offset of the character at a column of a line, or of its end |
| `Composers.Composer.Home` | crates/tea-agent/src/composer.rs:251-255 | moves to the start of the logical line |
| `Composers.Composer.End` | crates/tea-agent/src/composer.rs:258-262 | moves to the end of the logical line |
| `Composers.Composer.MoveVisualLine` | crates/tea-agent/src/composer.rs:214-248 | moves if and only if there is an adjacent row, to the last position in its text, its end included, whose text before it takes at most the cells before the cursor |
| `Composers.VisualMoveShownExactly` | crates/tea-agent/src/composer.rs:209-248 | after a move the cursor appears in the adjacent row if and only if that row ends hard or is wider than the cells before the old position; otherwise at the start of the row after it |
| `Composers.UpStaysInRow` | crates/tea-agent/src/composer.rs:209-248 | from the end of the second of two full rows, at any width, a move up lands in that row again |
| `Composers.VisualMoveUnique` | crates/tea-agent/src/composer.rs:223-248 | whether and where the cursor moves is determined by text, cursor, width and direction |
| `Composers.Composer.Backspace` | crates/tea-agent/src/composer.rs:265-272 | removes the cluster before the cursor |
| `Composers.Composer.Delete` | crates/tea-agent/src/composer.rs:275-287 | removes the cluster at the cursor |
| `Composers.ClustersInvert` | crates/tea-agent/src/composer.rs:108-123 | moving over a cluster and back returns, in both directions |
| `Composers.BackspaceIsDelete` | crates/tea-agent/src/composer.rs:265-287 | at a cluster boundary, backspace removes what moving left and deleting removes |
| `Composers.Composer.PreviousClusterStart` | crates/tea-agent/src/composer.rs:322-336 | the byte offset where the cluster before the cursor starts |

## Left out

- Memory ordering weaker than sequential consistency, mutex poisoning and waker panics: every step is atomic.
- Wrap-around of the 64-bit identifiers of waits and runs, which are never reused in the models.
- CoreCancellation: what a woken task does; the guarantee is that its latest waker is woken.
- ScopeCancellation.Scope: its methods run without interference; the separate steps are in the state machine.
- CompactionProtocol: ordinary runs on the same agent, queues, and subscribers; an event's observers answer in the
  same step in which it is recorded, and a drive may be dropped wherever it waits.
- Conversation.AutomaticSplit: byte counts are unbounded; only the token total saturates.
- Schema.ValidateValue: the order of failures within one object, since maps are visited in an arbitrary order here,
  and the wording of failures.
- Json: integers are unbounded, and the two zeros of binary floating point are one number.
- Schema.ValidateToolArguments: parsing and pretty printing of the arguments, which arrive parsed or as an error.
- BundleHash.CalculateHash: the FNV arithmetic; the theorems are about the bytes that are fed to it.
- BundleLoader.RuntimeState.LoadModule: the Luau machine, its registry, and requests made after a module has finished;
  a module is the list of requests of its top level and whether it raises an error.
- SessionCodec.DecodeFile: reading the file, its size limit, and splitting it into lines; printing and parsing JSON are
  assumed to be inverse on parsed values.
- SessionCodec.EncodeFile: identifiers and times come from the caller; the counter of identifiers does not wrap around.
- CivilDate: formatting of timestamps.
- TerminalInput.InputDecoder.ReadUtf8: looks at the first character only; the source checks the whole buffer and then
  takes the first character of the valid part, which is the same character.
- Transcripts: status line, usage, notices, scrolling and pickers, which do not touch the rows.
- ToolText.Projection.Project: the fingerprint function is a parameter, so its collisions are not modelled.
- ToolText.TruncateMiddle: the marker is a parameter, so the theorems hold for every marker; projections use the source's.
- Wrapping: theme styles are numbers, and display width is that of the three copies of the width table, which agree.
- VisualLayouts.Measure: the prompt text before each row is counted in columns but not part of the row's text.
- Composers: history, slash completion and the one-line replace, which add only assignments.
- Tool batches and completion sets of the scheduler, markdown highlighting, frame rectangles, configuration, providers,
  process and file tools, and the evaluation harness: input and output, or bookkeeping that adds no harder property.
