# Models of Wave Terminal's update, protocol and text code

This project models twelve pieces of Wave Terminal in Dafny and proves what they promise. Each piece
is one or more modules; the file has the module's name.

| module | repository code |
|---|---|
| `IJson`, `IJsonLaws`, `IJsonCommute`, `IJsonCommands`, `IJsonHeap` | path updates on JSON trees (`set`, `del`, `append`): values, laws, when operations commute, what commands do and how they fail, and the version that changes objects in place |
| `FormatPath`, `PathReader` | the printer of JSON paths, and a reader that gives them back |
| `HostedRuntime`, `HostedEntries` | the consumer of hosted-runtime events, its journal operations, and whose event each one carries |
| `DeliveryPipe`, `DeliveryRuns` | the simulated network lane with delay and skew: one object, then every interleaving |
| `StreamCheck` | the test-data generator and the stream verifier |
| `ToolApproval`, `ToolRound` | the approval registry under every interleaving, and one round of tool calls |
| `JsoncScanner`, `JsoncText`, `JsoncTokens` | the comment and trailing-comma stripper, RFC 8259 texts as derivations, and the tokens of a text |
| `HistoryUtil`, `Strings` | bounded navigation history; `split` and `join` |
| `ActionQueue` | the two-slot action queue of a window |
| `KeyUtil` | printing, parsing and matching key descriptions |
| `MetaMerge` | metadata merge with section clears |
| `WindowBounds` | window placement on several displays |
| `Basics` | `Option`, minimum and maximum, digits |

Code that changes things step by step is a class or a method with loops, proved equal to a function of
its inputs or of the old state; the laws are lemmas about that function. Concurrent code (the event
consumer, the pipe, the approval registry, the action queue) is a step system: a `Step` is what runs
under one lock or between two awaits, `Run` folds any sequence of steps, and the theorems hold for every
sequence. Clocks, random numbers, journal answers, tool callbacks and the user's decisions are arguments
of the steps, so a theorem holds for all of them.

## Where the code does less than one would expect

* Two `del`s on apart paths need not commute: removing the last two elements of one array in either
  order gives different lengths, and pruning can take away the place where the other `del` would have
  failed, on a container of the wrong kind or on a segment that is not valid.
  `IJsonCommute.DelsCommuteIff` is the exact condition; `IJsonCommute.StoreDelCommuteIff` is the one for
  a store and a `del` (`IJsonCommute.StoreDelClashOnNothing` is an input). A `del` undoes a `set` exactly
  under `IJsonLaws.Restorable` (`IJsonLaws.PaddingStays` is an input where it does not).
* Hook sequences: a host that numbers a command 2^64-1 makes the next unnumbered one wrap to 0.
  `HostedRuntime.NumbersIncreaseUnlessWrapped` is the exact condition, `HostedRuntime.WrappingRun` a run.
* Trailing commas: one pass leaves a comma that stands before a comment and a closer, or behind another
  comma (`JsoncScanner.OnePassLeavesCommas`). `JsoncText.ResultIsJsonIff` says exactly when the resulting
  text is JSON. The comment above the function speaks of removing trailing commas without this
  exception.
* Action queue: an early `return` while a second action waits leaves that action in the queue for ever,
  and later requests only replace it (`ActionQueue.StuckIff`, `ActionQueue.StuckForever`).
* Tool rounds: with two calls under one id, the id can be both answered and removed
  (`ToolRound.SameIdInBothSets`). `ToolRound.AnsweredOrRemovedIff`, `ToolRound.InBothSetsIff` and
  `ToolRound.RepeatedIdInBothIff` are the exact conditions. A second registration of an id leaves the first request, and every wait on it,
  out of reach of all decisions not already under way (`ToolApproval.OverwrittenIsForgotten`).
* Key descriptions: an event whose key is `:`, `(` or `)` never matches its own description
  (`KeyUtil.PunctuationNeverMatches`); `KeyUtil.EventMatchesItsDescription` is the exact condition for
  every key.
* Window placement: on a display whose work area is empty, a second call can move the window again
  (`WindowBounds.EmptyWorkAreaMovesAgain`); `WindowBounds.IdempotentIff` is the exact condition.

## Model

| member | source | states |
|---|---|---|
| IJsonLaws.UpdateThenRead | frontend/util/ijson.ts:40-213 | after any successful `set`, `del` or `append`, its path reads the new value, nothing, or the old array with one more element |
| IJsonLaws.UpdateLeavesOthers | frontend/util/ijson.ts:40-213 | no operation, pruning included, is visible on a path apart from its own |
| IJsonLaws.StoreSucceedsIff | frontend/util/ijson.ts:145-213 | `set` and `append` succeed exactly when every proper prefix of the path reads nothing or a container of the right kind, and an appended-to value is nothing or an array |
| IJsonLaws.DelSucceedsIff | frontend/util/ijson.ts:145-213 | `del` succeeds exactly when the path is passable up to its end or to a point that reads nothing; segments behind that point are not looked at |
| IJsonLaws.StoresCommute | frontend/util/ijson.ts:145-213 | stores and appends on apart paths commute: both orders give one tree, or both fail, padding and created containers included |
| IJsonLaws.LaterSetWins | frontend/util/ijson.ts:145-213 | a `set` at or above an earlier `set` hides it |
| IJsonLaws.DelsNeedNotCommute | frontend/util/ijson.ts:129-143 | a first case of the clash below: two `del`s on the last two elements of an array, whose orders give different trees |
| IJsonCommute.VanishesIff | frontend/util/ijson.ts:113-213 | `del` leaves nothing exactly when every container on its path has that one slot |
| IJsonCommute.DelsCommuteIff | frontend/util/ijson.ts:113-213 | for all trees and apart paths, the two orders of two `del`s have the same outcome if and only if the paths do not clash in the tree |
| IJsonCommute.DelsAtKeysCommute | frontend/util/ijson.ts:113-213 | `del`s on paths of keys and natural numbers that part at two keys always commute |
| IJsonCommute.DelsClashWithoutArrays | frontend/util/ijson.ts:160-171 | a clash without arrays: a key meets an index, and pruning makes the second `del` succeed |
| IJsonCommute.StoreDelCommuteIff | frontend/util/ijson.ts:113-213 | for all trees and apart paths, a `set` or `append` and a `del` commute, padding and pruning included, if and only if they do not clash |
| IJsonCommute.StoreDelClashOnNothing | frontend/util/ijson.ts:145-213 | a clash: where nothing is, `set [k]` then `del [0]` fails, and the other order succeeds |
| IJsonCommute.StoreBlocksVanish | frontend/util/ijson.ts:113-213 | after a store on an apart path a `del` never leaves nothing |
| IJsonLaws.DelKeepsClean | frontend/util/ijson.ts:113-213 | `del` leaves no empty container in a tree that had none |
| IJsonLaws.DelTwice | frontend/util/ijson.ts:129-213 | deleting twice is deleting once, on arrays too |
| IJsonLaws.SetThenDel | frontend/util/ijson.ts:113-213 | `del` after a `set` on its path succeeds, and gives the old tree back if and only if the path is restorable in it |
| IJsonLaws.PaddingStays | frontend/util/ijson.ts:129-143 | a `set` that its `del` does not undo: the holes that pad an array stay |
| IJsonLaws.DelUndoesSet | frontend/util/ijson.ts:113-213 | on an absent path of keys, in a tree without empty containers and null-valued keys, `del` undoes `set` |
| IJsonCommands.SetCommand | frontend/util/ijson.ts:222-250 | a `set` command succeeds exactly when its path is passable; then the path reads the value and no path apart from it changes |
| IJsonCommands.DelCommand | frontend/util/ijson.ts:222-250 | a `del` command: when it succeeds, and that the path then reads nothing and no path apart from it changes |
| IJsonCommands.AppendCommand | frontend/util/ijson.ts:222-250 | an `append` command succeeds exactly on a passable path that reads nothing or an array; then it reads that array with the value behind it, and no path apart from it changes |
| IJsonCommands.CommandErrors | frontend/util/ijson.ts:215-250 | exactly when a command is refused for itself or its type, and when for its path, in this order |
| IJsonCommands.TreeErrors | frontend/util/ijson.ts:71-213 | which error a good command gives where its walk through the tree fails, and that it fails nowhere else |
| IJsonCommands.ReadOne | frontend/util/ijson.ts:40-63 | what one segment reads from each kind of value |
| IJsonCommands.ReadThrough | frontend/util/ijson.ts:40-63 | a path is read segment by segment |
| IJsonHeap.Node.SetField | frontend/util/ijson.ts:182-183 | storing a field in place gives exactly the functional update of the tree and keeps it alias-free |
| IJsonHeap.Node.DeleteField | frontend/util/ijson.ts:168-172 | deleting a field in place is the functional removal, with null for an emptied object |
| IJsonHeap.Node.SetItem | frontend/util/ijson.ts:208-209 | storing an element in place, past the end too, is the functional update with its padding |
| IJsonHeap.Node.RemoveItem | frontend/util/ijson.ts:129-143 | the in-place array removal is the functional one in all of its branches |
| IJsonHeap.Node.UpdateBelow | frontend/util/ijson.ts:174-183 | the recursive step below an existing container, with pruning; a failure leaves every node of the tree unchanged |
| IJsonHeap.ArrayAppend | frontend/util/ijson.ts:71-83 | appending to nothing, an array or anything else; the last fails and changes nothing |
| IJsonHeap.SetPathInternal | frontend/util/ijson.ts:145-213 | on an alias-free tree the in-place recursion computes exactly `IJson.Update`, result or error; a failing call leaves every old node unchanged |
| IJsonHeap.GetPath | frontend/util/ijson.ts:40-63 | the reading loop computes `IJson.Read` |
| IJsonHeap.SetPath | frontend/util/ijson.ts:97-111 | the same with the path check in front |
| IJsonHeap.ApplyCommand | frontend/util/ijson.ts:215-250 | a whole command in place: exactly `IJson.Apply`, whose meaning per command and error `IJsonCommands` states, and all old nodes unchanged when it fails |
| FormatPath.FormatPath | frontend/util/ijson.ts:11-30 | the loop prints the path segment by segment |
| FormatPath.QuotedUnique | frontend/util/ijson.ts:21 | where a quoted segment ends, and its string, can be told from the text that follows the quote |
| FormatPath.SegmentUnique | frontend/util/ijson.ts:16-28 | the first segment and its end can be told from the whole text |
| FormatPath.FormatInjective | frontend/util/ijson.ts:11-30 | two paths of strings and integers that print alike are the same |
| PathReader.QuoteIsLiteral | frontend/util/ijson.ts:21 | a quoted key is a JSON string literal (section 7 of RFC 8259) that stands for exactly this key |
| PathReader.ReadBack | frontend/util/ijson.ts:11-30 | a reader that knows JSON strings and not the printer gives every printed path of strings and integers back |
| PathReader.DotIff | frontend/util/ijson.ts:9-22 | a key is printed behind a dot exactly when it is a name |
| HostedRuntime.HostedRuntimeConsumer.AcceptHookSequence | pkg/commandjournal/hosted_runtime.go:209-223 | the next number, wrapping at 2^64, for 0; a larger number taken over; any other refused with no change |
| HostedRuntime.HostedRuntimeConsumer.ObserveEvent | pkg/commandjournal/hosted_runtime.go:49-155 | an event does to the fields and the log exactly what the protocol's transition function says; `HostedEntries` states it field by field |
| HostedEntries.EventAddsItsEntry | pkg/commandjournal/hosted_runtime.go:49-155 | exactly when an event is handed on to the journal, and that the entry carries the event's own command, cwd, id, data, success, exit code and interruption, with mode and source by its mode string or of the open command |
| HostedEntries.EventNumber | pkg/commandjournal/hosted_runtime.go:209-223 | the number an entry gets: the event's own, or for 0 the one after the last, wrapping |
| HostedEntries.EventChangesFields | pkg/commandjournal/hosted_runtime.go:59-155 | what an event binds, and how it opens and ends a command |
| HostedEntries.EveryEntryHasItsEvent | pkg/commandjournal/hosted_runtime.go:49-191 | in every run each journal operation carries the fields of an event that was observed, with the journal's answer, or is an abort |
| HostedEntries.DisconnectOwes | pkg/commandjournal/hosted_runtime.go:159-190 | exactly when a disconnect owes an abort, and for which command |
| HostedRuntime.HostedRuntimeConsumer.Disconnect | pkg/commandjournal/hosted_runtime.go:159-180 | the locked part of a disconnect: closes, clears, and returns the abort owed for an open structured command |
| HostedRuntime.HostedRuntimeConsumer.ObserveDisconnect | pkg/commandjournal/hosted_runtime.go:159-191 | a whole disconnect: closed and cleared, and the journal is asked to abort exactly the structured command that was open, if the consumer was live |
| HostedRuntime.HostedRuntimeConsumer.Close | pkg/commandjournal/hosted_runtime.go:195-203 | closes and forgets the open command |
| HostedRuntime.InvHolds | pkg/commandjournal/hosted_runtime.go:49-203 | the state agrees with an independent reading of the log in every run |
| HostedRuntime.LogReadsWell | pkg/commandjournal/hosted_runtime.go:75-191 | in every run the log is start, output, finish in the allowed order, each finish with the mode, source and identity of its start, an abort only for an open structured command |
| HostedRuntime.AbortEndsLog | pkg/commandjournal/hosted_runtime.go:159-191 | an abort is the last entry of a log and ends the structured command open there |
| HostedRuntime.AbortIsTheLastOperation | pkg/commandjournal/hosted_runtime.go:159-203 | after the abort that is applied once the lock is released, whatever happens, nothing more is handed to the journal |
| HostedRuntime.ClosedIsSilent | pkg/commandjournal/hosted_runtime.go:159-203 | closed with no abort owed: the log never grows again |
| HostedRuntime.CommandsAlternate | pkg/commandjournal/hosted_runtime.go:75-154 | accepted starts and ends alternate and match |
| HostedRuntime.IdentityBoundOnce | pkg/commandjournal/hosted_runtime.go:60-74 | a host and a runspace, once bound, stay bound in every continuation |
| HostedRuntime.EveryItemCarriesIdentity | pkg/commandjournal/hosted_runtime.go:87-148 | every operation handed to the journal carries the one bound host and runspace |
| HostedRuntime.ForeignEventsFailClosed | pkg/commandjournal/hosted_runtime.go:60-82 | an event of another host or runspace changes nothing |
| HostedRuntime.NumbersIncreaseUnlessWrapped | pkg/commandjournal/hosted_runtime.go:209-223 | the hook sequences handed to the journal strictly increase if and only if no step wraps the counter |
| HostedRuntime.WrappingRun | pkg/commandjournal/hosted_runtime.go:209-212 | a run whose hook sequences are 2^64-1 and then 0 |
| DeliveryPipe.SortPending | cmd/test-streammanager/deliverypipe.go:145-153 | the queue sorted by due time, then sequence: a sorted permutation |
| DeliveryPipe.SortedIsUnique | cmd/test-streammanager/deliverypipe.go:145-153 | two sorted queues with the same packets are equal, so any sort gives this one |
| DeliveryPipe.EnqueueSorted | cmd/test-streammanager/deliverypipe.go:98-99 | append and sort is insertion into the sorted queue |
| DeliveryPipe.ReadyIsExact | cmd/test-streammanager/deliverypipe.go:217-224 | on a sorted queue the counted front is every packet that is due and no other |
| DeliveryPipe.DeliveryPipe.ComputeDeliveryTime | cmd/test-streammanager/deliverypipe.go:132-143 | now plus delay plus a skew between minus and plus the configured one |
| DeliveryPipe.DeliveryPipe.EnqueueData | cmd/test-streammanager/deliverypipe.go:80-106 | an enqueue's whole effect: the packet that `DeliveryRuns.AcceptedAreTaken` describes, its place in the queue, bytes, high-water mark; none when closed |
| DeliveryPipe.DecodedSize | cmd/test-streammanager/deliverypipe.go:88 | three bytes for every whole group of four characters |
| DeliveryRuns.AcceptedAreTaken | cmd/test-streammanager/deliverypipe.go:80-106 | in every run the accepted packets are made from the enqueues before any close, one from each, in order: number, data, size by the text, due time by delay and random offset |
| DeliveryRuns.EveryPacketWasEnqueued | cmd/test-streammanager/deliverypipe.go:80-241 | every packet pending, in flight, delivered or dropped is one that was enqueued, with the data it was enqueued with |
| DeliveryRuns.CloseStops | cmd/test-streammanager/deliverypipe.go:80-241 | after a close nothing more is accepted or taken out of the queue |
| DeliveryPipe.DeliveryPipe.ExtractReady | cmd/test-streammanager/deliverypipe.go:208-231 | the locked part of the loop takes exactly the ready front, nothing when closed |
| DeliveryPipe.DeliveryPipe.Hand | cmd/test-streammanager/deliverypipe.go:166-174 | the out-of-order counter just before the call of the target |
| DeliveryPipe.DeliveryPipe.Account | cmd/test-streammanager/deliverypipe.go:176-178 | the bytes of a delivered packet are subtracted |
| DeliveryRuns.OrderHolds | cmd/test-streammanager/deliverypipe.go:80-241 | the run's invariant: accepted packets are extracted then pending, in skew order |
| DeliveryRuns.SkewBoundsReordering | cmd/test-streammanager/deliverypipe.go:80-241 | with skew S no packet is delivered after one enqueued more than 2S later, across batches |
| DeliveryRuns.FirstInFirstOut | cmd/test-streammanager/deliverypipe.go:135-137 | without skew, delivered, then in flight, then pending packets are the accepted ones in order |
| DeliveryRuns.NothingLost | cmd/test-streammanager/deliverypipe.go:80-241 | with a target, accepted packets have distinct numbers and are exactly those pending, in flight and delivered |
| DeliveryRuns.ExtractionIsExact | cmd/test-streammanager/deliverypipe.go:217-229 | in every run an extraction takes a pending packet if and only if it is due |
| DeliveryRuns.CurrentBytesExact | cmd/test-streammanager/deliverypipe.go:101-178 | the byte counter is at every point the bytes accepted and not yet subtracted, those dropped for want of a target included |
| DeliveryRuns.CurrentBytesInFlight | cmd/test-streammanager/deliverypipe.go:101-178 | with a target it is the bytes pending, in the batch, or handed over and not yet subtracted |
| DeliveryRuns.HighWaterIsMaximum | cmd/test-streammanager/metrics.go:73-79 | the high-water mark is the greatest value the counter had at any point of the run |
| DeliveryRuns.OutOfOrderCounted | cmd/test-streammanager/deliverypipe.go:166-174 | the out-of-order counter is the number of descents in the delivered stream numbers |
| DeliveryRuns.NoSkewNothingOutOfOrder | cmd/test-streammanager/deliverypipe.go:135-174 | without skew, packets enqueued in stream order are never counted out of order |
| StreamCheck.TestDataGenerator.Read | cmd/test-streammanager/generator.go:22-40 | a read fills the front of the buffer with the next stretch of the pattern, leaves the rest, and ends exactly at the total |
| StreamCheck.PatternByCharacter | cmd/test-streammanager/generator.go:10-36 | the pattern in plain words: capitals, small letters, digits, plus and slash, with period 64 |
| StreamCheck.Verifier.Write | cmd/test-streammanager/verifier.go:25-45 | a write compares with the reference generator's buffer, zeros after its end, and updates all counters |
| StreamCheck.ReadsAreThePattern | cmd/test-streammanager/generator.go:22-40 | any sequence of read sizes gives a prefix of one fixed stream, as long as the sizes and the total allow |
| StreamCheck.VerdictIsCorrect | cmd/test-streammanager/verifier.go:25-45 | for any chunks, `mismatches` counts the wrong positions of the whole stream and `firstMismatch` is the least, or -1 |
| StreamCheck.CutsAgree | cmd/test-streammanager/verifier.go:25-45 | two ways to cut one stream into writes give one verdict |
| StreamCheck.GeneratedVerifies | cmd/test-streammanager/generator.go:22-40 | generator output, read in any sizes and written in any chunks, verifies with no mismatch |
| StreamCheck.CleanVerdictMeansPattern | cmd/test-streammanager/verifier.go:25-45 | on a stream of full length, no mismatch if and only if it is the generator's stream |
| ToolApproval.ApprovalRequest.UpdateApproval | pkg/aiusechat/toolapproval.go:22-38 | the first decision is recorded and closes the channel; a later one does nothing |
| ToolApproval.ApprovalRegistry.Register | pkg/aiusechat/toolapproval.go:49-86 | a fresh undecided request under the id, nothing else changed |
| ToolApproval.ApprovalRegistry.Unregister | pkg/aiusechat/toolapproval.go:55-63 | the id is taken out and its request, if undecided, decided as empty |
| ToolApproval.FirstDecisionIsFinal | pkg/aiusechat/toolapproval.go:22-38 | a decided request is the same in every continuation of every interleaving |
| ToolApproval.StepDecides | pkg/aiusechat/toolapproval.go:22-96 | the steps that decide a request, the decision each one brings, and that nothing else about a request ever changes |
| ToolApproval.UpdateGoesToItsId | pkg/aiusechat/toolapproval.go:88-96 | an update is applied to the request under its id at its lookup, with its own approval |
| ToolApproval.RegisterMakesOne | pkg/aiusechat/toolapproval.go:49-86 | a registration makes one new undecided request and puts it under the id |
| ToolApproval.ClosedOnceWhenDone | pkg/aiusechat/toolapproval.go:22-38 | the done channel has been closed once if the request is done, and not at all otherwise |
| ToolApproval.WaitersGetTheDecision | pkg/aiusechat/toolapproval.go:98-119 | every wait that returned gave the context's error, the one decision of its request, or, exactly when it had found no request, nothing |
| ToolApproval.WaitIsOnItsRequest | pkg/aiusechat/toolapproval.go:98-102 | the wait a step begins is, in every continuation, on the request that stood in the table under its id then, and that request was registered under that id |
| ToolApproval.TableHoldsLastRegistered | pkg/aiusechat/toolapproval.go:49-53 | until the id is registered again, the table holds the request of its last registration or none |
| ToolApproval.WaitersAgree | pkg/aiusechat/toolapproval.go:98-119 | two waits on one request that got decisions got the same |
| ToolApproval.UnregisteredStaysOut | pkg/aiusechat/toolapproval.go:55-63 | an id taken out stays out until it is registered again, whatever is still under way |
| ToolApproval.UnregisteredGivesNothing | pkg/aiusechat/toolapproval.go:55-63 | an undecided request that is unregistered is decided as empty for good, and every wait on it that is not cut short returns the empty decision |
| ToolApproval.ReturnedIdIsOut | pkg/aiusechat/toolapproval.go:98-119 | once a wait for an id has returned, unless by its context, the id is out of the table until it is registered again |
| ToolApproval.UnregisterWakesWaiters | pkg/aiusechat/toolapproval.go:55-63 | after an unregistration every blocked wait on that request can wake up in every continuation, and then holds the one decision |
| ToolApproval.OverwrittenIsForgotten | pkg/aiusechat/toolapproval.go:49-53 | a request whose id is registered again is out of reach: undecided, it stays so, and a wait on it ends only with its context |
| ToolRound.ResolveToolCall | pkg/aiusechat/usechat.go:495-547 | text or error of the callback, or the error of a tool without one; never both |
| ToolRound.ProcessToolCall | pkg/aiusechat/usechat.go:221-327 | one call through the shared tool-use data, equal to `Process` in result and data; the answers themselves are stated by the four rows on answers and messages below |
| ToolRound.CreateToolUses | pkg/aiusechat/usechat.go:330-349 | fresh tool-use data per call; a fresh undecided request, a different one each, under exactly the ids that need approval; nothing else in the registry changed |
| ToolRound.ProcessInOrder | pkg/aiusechat/usechat.go:352-360 | results of the calls before the first broken connection, in order |
| ToolRound.CleanUp | pkg/aiusechat/usechat.go:362-373 | every id unregistered; each call answered or removed as the final data say |
| ToolRound.ProcessAllToolCalls | pkg/aiusechat/usechat.go:329-387 | the whole round: answers, removals, and no id of the round left in the registry |
| ToolRound.ApprovalGatesTheCallback | pkg/aiusechat/usechat.go:258-291 | in every interleaving a gated call reaches its callback exactly when it has one, its wait was not cut short, and the request found under its own id when the wait began is decided with an approval |
| ToolRound.WithdrawnNeverRuns | pkg/aiusechat/usechat.go:258-283 | a gated call whose request was taken out undecided is denied as canceled and never reaches its callback |
| ToolRound.ResultMatchesStatus | pkg/aiusechat/usechat.go:221-301 | a call's shared data end in error exactly when its result is an error, with its own id, no text and the same message; otherwise its callback ran |
| ToolRound.CallbackAnswers | pkg/aiusechat/usechat.go:290-547 | a call that reaches its callback, gated or not, is answered with the callback's text, or with no text and its error |
| ToolRound.UngatedAnswers | pkg/aiusechat/usechat.go:258-300 | a call that needs no approval at the gate reaches its callback if there is one, else it is answered with the reason |
| ToolRound.StoppedBeforeGate | pkg/aiusechat/usechat.go:230-256 | exactly when a call does not come to the gate, and the message it is then answered with |
| ToolRound.DenialMessages | pkg/aiusechat/usechat.go:258-283 | the message of each kind of denial |
| ToolRound.CallbackMeansRequestApproved | pkg/aiusechat/usechat.go:258-349 | in a round, the same for the very request that the call's own registration at the start of the round made |
| ToolRound.ApprovedRound | pkg/aiusechat/usechat.go:258-349 | such a round exists |
| ToolRound.CountIff | pkg/aiusechat/usechat.go:353-360 | a call is processed if and only if no call up to it found the connection broken |
| ToolRound.GatedCallStaysIff | pkg/aiusechat/usechat.go:258-373 | exactly when a call that needs approval stays in the chat |
| ToolRound.RoundIsComplete | pkg/aiusechat/usechat.go:362-373 | the ids answered and the ids removed are together the ids of the round, as multisets |
| ToolRound.AnsweredOrRemovedIff | pkg/aiusechat/usechat.go:362-373 | every id of the round is in exactly one of the two sets, once, if and only if the ids are distinct |
| ToolRound.AnsweredOrRemoved | pkg/aiusechat/usechat.go:362-373 | with distinct ids each id is answered or removed exactly once, not both |
| ToolRound.InBothSetsIff | pkg/aiusechat/usechat.go:258-373 | an id is both answered and removed if and only if one of its calls would stay and another would not, by stops, verification, wait and callback of each |
| ToolRound.OnlyFirstStays | pkg/aiusechat/usechat.go:258-373 | in every registry run of a round, of the gated calls under one id only the first can stay: a later wait finds no request, or a broken context ends the round |
| ToolRound.RepeatedIdInBothIff | pkg/aiusechat/usechat.go:258-373 | so a repeated id of gated calls is in both sets if and only if the first of them would stay |
| ToolRound.SameIdInBothSets | pkg/aiusechat/usechat.go:329-373 | a round with one id twice, with its registry run: one approval, one call answered, the other removed |
| ToolRound.ResultsKeepCallOrder | pkg/aiusechat/usechat.go:353-373 | kept calls are answered by their own results, in call order |
| JsoncScanner.SkipLine | emain/elevation.ts:324-330 | the loop over a line comment stops at its newline or at the end |
| JsoncScanner.SkipBlock | emain/elevation.ts:331-338 | the loop over a block comment stops behind its closer or at the end |
| JsoncScanner.IsTrailing | emain/elevation.ts:339-347 | whether only white space stands between a comma and a closing bracket |
| JsoncScanner.StripJsonCommentsAndTrailingCommas | emain/elevation.ts:302-351 | the index-jumping scanner computes `Strip` |
| JsoncScanner.NoCommentLeft | emain/elevation.ts:302-351 | for any input whatever, the output has no comment opener outside a string |
| JsoncScanner.OnePassLeavesCommas | emain/elevation.ts:339-347 | inputs where one pass leaves a comma before a closer |
| JsoncText.DocumentStripped | emain/elevation.ts:302-351 | on a text decorated with comments and commas the scanner works token by token, string literals untouched |
| JsoncText.JsonTextUnchanged | emain/elevation.ts:302-351 | the scanner is the identity on every text of RFC 8259, sections 2 to 7 |
| JsoncText.TokensKept | emain/elevation.ts:302-351 | stripping a derivation keeps its tokens |
| JsoncText.StrippedIsPlainIff | emain/elevation.ts:302-351 | the stripped derivation is plain if and only if no comment stands between a comma and the closer after it |
| JsoncText.DecoratedTextStripped | emain/elevation.ts:302-351 | a decorated text gives the text of a derivation with the same tokens |
| JsoncText.ResultIsJsonIff | emain/elevation.ts:302-351 | the resulting text is a JSON text, by any derivation whatever, if and only if no comment stood between a comma and the closer after it |
| JsoncTokens.TokensAreUnique | emain/elevation.ts:302-351 | all derivations of one JSON text have the same tokens |
| JsoncTokens.StrippingKeepsTokens | emain/elevation.ts:302-351 | where the result of stripping is JSON, its tokens, read by any derivation or off the text, are those of the decorated text |
| HistoryUtil.ParentSpec | frontend/util/historyutil.ts:9-24 | the parent is the text before the last slash; only the root and the empty path are their own parents; any other parent is shorter |
| HistoryUtil.GoHistoryBack | frontend/util/historyutil.ts:26-48 | the update that back gives, to the parent too, or none |
| HistoryUtil.GoHistoryForward | frontend/util/historyutil.ts:50-63 | the update that forward gives, or none |
| HistoryUtil.GoHistory | frontend/util/historyutil.ts:65-73 | the update that going somewhere gives |
| HistoryUtil.BothListsBounded | frontend/util/historyutil.ts:26-73 | in every run from empty history the two lists together hold at most 20 entries |
| HistoryUtil.BackThenForward | frontend/util/historyutil.ts:26-63 | back keeps the timeline and forward undoes it |
| HistoryUtil.ForwardThenBack | frontend/util/historyutil.ts:26-63 | forward keeps the timeline and back undoes it |
| HistoryUtil.UpThenForward | frontend/util/historyutil.ts:26-63 | a step up shows the parent and makes the old value the first to go forward to; going forward leads back |
| HistoryUtil.NowhereToGo | frontend/util/historyutil.ts:30-56 | where there is nothing to go back or forward to, nothing changes |
| HistoryUtil.GoEndsTimeline | frontend/util/historyutil.ts:65-73 | going somewhere ends the timeline there, keeps the last 20 entries before it, and back leads to where one was |
| HistoryUtil.UpReachesFixedPoint | frontend/util/historyutil.ts:9-48 | from any state, going back to the parent again and again ends at the root or the empty path, within a number of steps given by the state, and stays there |
| ActionQueue.WindowQueue.QueueAction | emain/emain-window.ts:633-643 | a request starts the processor, waits in slot 1, or replaces what waits there |
| ActionQueue.WindowQueue.EndEntry | emain/emain-window.ts:655-726 | the entry in process is shifted out, and the loop goes on or is left |
| ActionQueue.InProcessIsSafe | emain/emain-window.ts:633-726 | in every interleaving: at most two entries, at most one processor, and the entry in process never replaced |
| ActionQueue.BegunInTurn | emain/emain-window.ts:633-726 | on an empty queue a request is begun at once; when an entry ends and the loop goes on, the one that waits is begun, and it alone is left |
| ActionQueue.StuckIff | emain/emain-window.ts:655-726 | the queue gets stuck exactly by an early exit while a second entry waits |
| ActionQueue.StuckForever | emain/emain-window.ts:633-643 | once stuck, no later request is ever begun |
| ActionQueue.Drains | emain/emain-window.ts:655-726 | without early exits the queue drains and the last action queued is the last begun |
| ActionQueue.DrainsWithoutExits | emain/emain-window.ts:655-726 | the same for every run in which no action takes an early exit |
| ActionQueue.EarlyReturnLosesTheNext | emain/emain-window.ts:677-725 | a run in which the second action is lost |
| KeyUtil.WaveEventToKeyDesc | frontend/util/keyutil.ts:34-61 | the steps print modifiers in order, then the key |
| KeyUtil.DescriptionInOrder | frontend/util/keyutil.ts:34-61 | a description has the event's modifiers, in a fixed order, and then the key, a word for the blank, or the code |
| KeyUtil.ParseKeyDescription | frontend/util/keyutil.ts:63-128 | the loop over the parts is a fold over them |
| KeyUtil.DescriptionRead | frontend/util/keyutil.ts:34-128 | for every event, parsing its description gives back exactly its modifiers, and then reads the parts of the key's text |
| KeyUtil.EventMatchesItsDescription | frontend/util/keyutil.ts:34-272 | on every platform, for every key and code, an adapted event matches its own description if and only if the key agrees with the event |
| KeyUtil.DescriptionMatchesOther | frontend/util/keyutil.ts:188-229 | exactly which other events a printed description matches: the same modifiers, Shift being implied by a capital, and a key that the described one stands for |
| KeyUtil.CleanKeyAgrees | frontend/util/keyutil.ts:63-128 | for a key without colons and parentheses: a modifier's name comes with it, a single capital with Shift, and `c{}` text names the code |
| KeyUtil.PunctuationNeverMatches | frontend/util/keyutil.ts:74-76 | an event whose key is a colon or a parenthesis never matches its own description |
| MetaMerge.MergeMeta | frontend/util/util.ts:350-419 | the loops, over keys in any order, give per key: the update's own entry, else nothing if a section clear covers it, else the old value |
| MetaMerge.OwnEntry | frontend/util/util.ts:400-416 | an entry of its own is stored, or removed by null, and no other key changes |
| MetaMerge.SectionEntry | frontend/util/util.ts:371-398 | which keys a section clear removes, and which values ask for it |
| MetaMerge.MergeIsIdempotent | frontend/util/util.ts:350-419 | merging an update twice is merging it once |
| MetaMerge.MergesCollapse | frontend/util/util.ts:350-419 | two merges in a row are one merge with a combined update |
| WindowBounds.IsWindowFullyVisible | emain/emain-util.ts:187-208 | all four corners are on some display |
| WindowBounds.VisibleByCorners | emain/emain-util.ts:187-208 | in coordinates, what each corner of a fully visible window satisfies |
| WindowBounds.FindDisplayWithMostArea | emain/emain-util.ts:210-228 | the first display of greatest overlap, or none when nothing overlaps |
| WindowBounds.OverlapCountsPoints | emain/emain-util.ts:215-219 | the overlap is the number of points that window and display share |
| WindowBounds.AdjustBoundsToFitDisplay | emain/emain-util.ts:230-252 | the clamped rectangle |
| WindowBounds.EnsureBoundsAreVisible | emain/emain-util.ts:254-265 | visible windows stay; others are fitted to the display found, or the primary one |
| WindowBounds.EnsuredIsUnique | emain/emain-util.ts:210-265 | the specification determines the result |
| WindowBounds.FitIsNearest | emain/emain-util.ts:230-252 | the window keeps its size where it fits, else takes the room there is; of all places for that size in the work area it takes the nearest on each axis |
| WindowBounds.GoesWhereItMostlyIs | emain/emain-util.ts:210-265 | a window that is not visible goes into the work area of the display it overlaps most, or of the primary one if it overlaps none |
| WindowBounds.VisibleOrInside | emain/emain-util.ts:254-265 | for any displays, overlapping ones included, the result has four visible corners or lies wholly inside one work area |
| WindowBounds.IdempotentIff | emain/emain-util.ts:254-265 | placing a placed window changes nothing, unless the window was not visible, had points, and is squeezed into an empty work area off screen; all checkable before the call |
| WindowBounds.Idempotent | emain/emain-util.ts:254-265 | with disjoint displays, each holding a work area that is not empty, placing is idempotent for every window |
| WindowBounds.EmptyWorkAreaMovesAgain | emain/emain-util.ts:254-265 | a display with an empty work area where it is not |
| WindowBounds.NewWindowInside | emain/emain-window.ts:93-111 | a new window lies inside its work area after rounding, and is at least the minimum size where the work area allows it |
| WindowBounds.NewWindowLength | emain/emain-window.ts:95-102 | the length along one side, by the size asked for, the window inherited from, the fallback, the minimum and the room |
| WindowBounds.NewWindowDefaults | emain/emain-window.ts:46-102 | 1280 by 800 by default, never below 800 by 500, where there is room |
| WindowBounds.NewWindowCentred | emain/emain-window.ts:104-108 | with nothing to inherit from, the two gaps are equal or differ by one pixel |
| WindowBounds.NewWindowCascades | emain/emain-window.ts:104-108 | otherwise it is as near to 32 pixels further as the work area allows |

## Left out

- JSON paths: the `force` option of `setPath` and its refusal of a value together with `remove`; no command uses either.
- JSON paths: `undefined`, missing, holes and `null` are one value; array indices from 2^32-1 on, prototype keys, key order, and objects shared between two places of one tree.
- FormatPath.FormatInjective: fractions, integers that the host prints in exponent form (1e21 and above), and segments that are neither strings nor numbers (all printed as `.*`) are not modelled; strings are sequences of characters without lone surrogates.
- Hosted runtime: `Journal`, the visual anchors and the clock are not part of this model; the journal's answer to each call is an argument.
- Delivery: the acknowledgement lane runs the same code as the data lane, without bytes; a pipe without metrics, which keeps neither the out-of-order counter nor the high-water mark; changing the target after the start; wrap-around of counters; skews whose doubled value overflows; the sleep of the loop.
- Verifier: wrap-around of the byte counters.
- Tool approvals: the registration of the close handler with the SSE connection, whose call is an update step.
- Tool round: posting messages, SSE traffic, metrics, tool descriptions and run times; calls without tool-use data, which the round never makes; inside `ToolRound.ProcessAllToolCalls` the decisions that others make during the round appear as the outcome of each wait, and `ToolRound.CallbackMeansRequestApproved` ties these outcomes to the steps of a registry run.
- Comment stripper: texts that are not derivations, apart from `JsoncScanner.NoCommentLeft`, which covers every text.
- HistoryUtil.GoHistoryBack: takes a path that is present. The blank check of `getParentDirectory` compares a truth value with null and never holds, so it has no branch here.
- Action queue: what the actions do; an action is one step from its first await to its end.
- Key descriptions: the adapter for browser events, upper case beyond ASCII, key maps, input-event tests; a null key is the empty string.
- MetaMerge.MergeMeta: without the prefix argument; the order of keys in the result.
- Window placement: the `window:dimensions` setting, and the placement of restored windows.
- Electron, React, processes, files, HTTP, the database and telemetry.
