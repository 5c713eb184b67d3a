# Verification model of acp-go

This project models the parts of acp-go whose correctness is not visible in any one body, and proves what their
documentation promises. `dafny verify dfyconfig.toml` checks all of it.

## What is modelled

**Connection** (`Connection.dfy`, `ConnectionDrain.dfy`, `ShutdownResults.dfy`, `ConnectionCalls.dfy`,
`CallOutcomes.dfy`, `ConnectionLifecycle.dfy`, `InitializeFates.dfy`, `InitializeAnswers.dfy`,
`LifecycleGuarantees.dfy`, `ClientLifecycle.dfy`). The JSON-RPC connection is a system of atomic steps, each one
access to shared state: any number of senders, calls, `Shutdown` and `Close` callers, the read loop with its EOF
flush, and the write loop share a bounded FIFO, a seal, a count of registered senders, a drain marker, a send
lock and a map of pending calls. Time-outs, ended contexts, guard verdicts and the peer are choices of a step,
so a theorem about every run is one about every interleaving. Installing the v2 client's guards makes the same
steps move its initialize flags. Some fields of the state are history (frames accepted and written, admission
tickets, initialize calls begun, outcomes recorded); no step reads them but `written`, which stands for a
write's own completion signal.

**JSON values** (`Json.dfy`, `JsonGrammar.dfy`, `JsonReading.dfy`, `JsonStrings.dfy`, `Numerals.dfy`,
`JsonText.dfy`, `JsonAccepted.dfy`, `JsonRoundTrip.dfy`, `JsonResults.dfy`, `JsonParser.dfy`,
`DecimalFloat.dfy`). The printer and what `Parse` computes are functions on bytes, UTF-8 included. A second,
declarative account describes JSON texts as trees of concrete syntax that keep every whitespace byte, escape and
form of a number, by the tables of RFC 8259 and the UTF-8 of RFC 3629; `Parse` is proved to accept exactly the
texts they spell. The cursor parser, with its depth counter, its fast path for strings without escapes and its
index for large objects, is a class proved to compute the same function. Number tokens are accumulated in
`uint64`, a Dafny type the verifier checks for overflow.

**Members** (`Members.dfy`, `MergeAlgorithms.dfy`, `MetaPatch.dfy`, `MetaObject.dfy`). Objects with repeated
keys have one normal form, which every algorithm that scans, hashes, indexes or compacts in place must reach;
metadata patches are folded over objects edited in place.

**Subagent sessions** (`Subagents.dfy`, `SubagentForest.dfy`, `SubagentTree.dfy`, `SubagentRuns.dfy`,
`SubagentHistory.dfy`). The tree is a class over maps, proved against steps on values; runs interleave updates,
overlapping restores, closes and disconnects.

**Update projections** (`GoSlices.dfy`, `Updates.dfy`, `UpdateHistory.dfy`, `UpdateProjection.dfy`,
`ActiveWork.dfy`). What a projection shows is told twice: as a fold over updates, and from the list alone. Go
slices are arrays with an offset, a length and a capacity, and `append` writes in place while capacity is left.
A ghost set records every slice an accessor returned or an update carried; `Isolated` says none of them changed.
An update may hand back a snapshot, whose array the projection can still append to: past every element the
snapshot reaches. Output of a terminal is kept where other entities keep their content.

**Searches and checks** (`Validator.dfy`, `NullSearch.dfy`, `Registry.dfy`, `PermissionRegistry.dfy`). The JSON
Schema subset validator, the search of a cyclic schema graph, and the cancellation registries.

In one place the code guarantees less than its description suggests, and the model follows the code: `Shutdown`
may return nil although a frame was lost, if the output stream itself fails with `io.EOF`.
`ConnectionDrain.NilShutdownLosesFrame` is such a run, and `ConnectionDrain.NilShutdownExactly` says that nil
means drained for all other streams and only for them.

## Model

| member | source | states |
|---|---|---|
| ConnectionDrain.OneMarkerLast | connection.go:288-336 | in every run at most one drain marker is ever queued and no frame is queued behind it |
| ConnectionDrain.DrainIsComplete | connection.go:583-603 | once the write loop reached the marker, the frames written are exactly those ever accepted into the queue, once each and in order |
| ConnectionDrain.NothingAfterMarker | connection.go:297-336 | after the marker is queued nothing more is accepted, and a completed drain stays complete whatever happens later |
| ConnectionDrain.NilShutdownDrained | connection.go:278-364 | a nil Shutdown means a completed drain, unless the output stream itself failed with io.EOF |
| ConnectionDrain.NilShutdownLosesFrame | connection.go:338-364 | the exception is real: a run with such a stream in which Shutdown returns nil and an accepted frame was never written |
| ConnectionDrain.NilShutdownExactly | connection.go:278-364 | nil means drained in every run exactly for output streams that never return io.EOF |
| ShutdownResults.DrainedSucceeds | connection.go:338-355 | the other direction: once the drain is complete, a Shutdown waiting for it returns nil after at most three steps of its own, whatever the other goroutines do and whenever its context ends, if its close does not fail |
| ShutdownResults.DrainedReturns | connection.go:345-356 | two steps of the caller alone return nil, or the close's error |
| ShutdownResults.ErrorIsExcused | connection.go:338-364 | in every run, a Shutdown that failed had its context ended before it began, or its close failed, or it stopped waiting and found the drain incomplete |
| ShutdownResults.DoomedFails | connection.go:338-356 | in every run, a context that had ended before Shutdown began, or a close that failed after the drain, makes it fail |
| ShutdownResults.ReturnedMeansStopped | connection.go:241-284 | once a Shutdown or Close has returned, the connection has stopped |
| ShutdownResults.CloseStops | connection.go:241-246 | Close stops the connection at once and changes nothing else in it |
| ShutdownResults.ReadErrorStops | connection.go:766-800 | so does an input that fails; only one that ends cleanly is flushed |
| ShutdownResults.ShutdownCanComplete | connection.go:278-364 | from every reachable state in which nothing is being queued and the write loop runs, a Shutdown can return nil, everything accepted having been written |
| ConnectionDrain.CountNeverNegative | connection.go:297-308 | the count of registered senders never goes below zero, and is zero exactly when no sender stands between admission and Done |
| ConnectionDrain.InvKept | connection.go:412-462 | every atomic step keeps lock ownership, the sender count, the seal's owner, the order of accepted and written frames, and the meaning of the stop reason |
| ConnectionCalls.AdmissionOrder | connection.go:392-462 | frames are accepted in the order the guards admitted them under the send lock |
| ConnectionCalls.ReplyNeverBlocks | connection.go:666-674 | a reply is sent at most once, so the send into the one-slot channel is always possible; a call passes the response guard at most once |
| ConnectionCalls.PendingAfterReturn | connection.go:683-763 | a returned call is still pending only if a response guard is installed and its context ended |
| CallOutcomes.CallsAreHonest | connection.go:683-763 | in every run a call waits for its reply only once its frame was written, and returns one only if one was sent past the response guard; the queue never holds more than 32 frames, and the write loop ends only once the connection has stopped or drained |
| CallOutcomes.ReplyWins | connection.go:712-748 | once its reply was sent, a call whose write failed or that waits for it returns it, even if the connection stops, unless its own context ends |
| CallOutcomes.ReplyReturns | connection.go:712-748 | and its next step returns it |
| CallOutcomes.WriteWins | connection.go:494-505 | a completed write wins over the connection's stop |
| CallOutcomes.AnswersPersist | connection.go:452-461 | responses and the read loop's own answers give up only when the connection stops |
| CallOutcomes.BadIsAnswered | connection.go:800-815 | a frame the read loop refuses is answered |
| CallOutcomes.SealedDiscards | connection.go:254-262 | once the queue is sealed the read loop delivers no further response, whatever happens later |
| CallOutcomes.SealedRefuses | connection.go:412-418 | a sealed queue refuses at once and touches nothing |
| CallOutcomes.SealedIsNotStopped | connection.go:481-488 | once the queue is sealed, a sender waiting for its write never stops the connection, however its context ends |
| CallOutcomes.GuardRefuses | connection.go:426-429 | an installed guard may refuse, and nothing has changed then |
| LifecycleGuarantees.InitializingIsOneOpen | v2/client.go:182-209 | in every run `initializing` holds exactly while one initialize is admitted and unsettled, never two; the recorded initialization is that of the last success |
| InitializeAnswers.RecordedIsAnswered | v2/client.go:156-209 | in every run the client is initialized exactly if a successful response to an initialize was taken by the read loop and settled, and it holds the initialization the last such response carried |
| InitializeAnswers.AnswerIsRecorded | connection.go:818-830 | in every reachable state the response to a pending initialize is taken, and the read loop's next step records its outcome |
| InitializeAnswers.HandshakeCanSucceed | v2/client.go:156-209 | for every initialization there is a run that records it |
| InitializeAnswers.NothingBeforeInitialize | v2/client.go:100-123 | in every run no request but initialize and no notification but a cancellation is queued before an initialize succeeded, and once such a request was queued no initialize can be repeated |
| InitializeAnswers.AdmittedExactly | v2/client.go:100-123 | which messages the outgoing guard refuses, spelled out on the flags |
| LifecycleGuarantees.OpenCanSettle | v2/client.go:156-180 | while the connection is open, the open initialize is pending or at the response guard, so it can still be settled |
| LifecycleGuarantees.OnlySettlingEnds | v2/client.go:100-122 | only settling the open initialize clears `initializing`: no refused or concurrent one does |
| LifecycleGuarantees.UnsendableIsSettled | connection.go:683-763 | in every run, an initialize admitted but never queued is settled, and so no longer open, by the time its call returns |
| LifecycleGuarantees.AbandonSettles | connection.go:666-674 | at the point where its caller abandons it, it is the open one and still pending, and the caller's own next two steps clear the flag |
| LifecycleGuarantees.WindowIsOpenUntilRequest | v2/client.go:182-198 | a repeat is admitted exactly when none is open and no other request was ever admitted |
| LifecycleGuarantees.FrozenForGood | v2/client.go:84-123 | once another request was admitted, no later initialize is, and the recorded initialization never changes |
| ClientLifecycle.Client.BeginInitialize | v2/client.go:182-198 | refuses a concurrent initialize and one after the window closed, leaving the flags alone |
| ClientLifecycle.Client.CompleteInitialize | v2/client.go:200-209 | a failure keeps a repeat possible exactly if there was a success before |
| ClientLifecycle.Client.Outgoing | v2/client.go:100-123 | the verdict on each kind of outgoing message and the flags it leaves |
| ClientLifecycle.Client.IncomingResponse | v2/client.go:156-180 | what a response delivers and records, errors and malformed results included |
| JsonAccepted.ParseDecides | jsonvalue/jsonvalue.go:590-605 | Parse accepts exactly the texts that a tree of concrete syntax no deeper than MaxDepth spells, whitespace, escapes and repeated keys included, and returns what the tree means: last values at first positions, integers in their class |
| JsonText.TextParses | jsonvalue/jsonvalue.go:590-605 | every such text is accepted with its meaning, and one that nests deeper is reported as too deep |
| JsonText.DocReads | jsonvalue/jsonvalue.go:635-663 | a text is read at any position, under any depth, up to its own end |
| JsonStrings.TextReads | jsonvalue/jsonvalue.go:798-858 | every legal spelling of a string, raw bytes, short escapes, code units and surrogate pairs mixed, is read as its bytes |
| JsonText.NumberMeans | jsonvalue/jsonvalue.go:924-943 | a number is its integer exactly if it has no fraction and no exponent, is not "-0" and fits int64 or uint64; every other is a float if that test accepts it |
| JsonStrings.TextSpelled | jsonvalue/jsonvalue.go:798-858 | whatever is read as a string is such a spelling |
| JsonStrings.RuneDecodes | jsonvalue/jsonvalue.go:815-850 | the bytes written for a code point decode to it by RFC 3629 |
| JsonStrings.DecodedOnce | jsonvalue/jsonvalue.go:815-850 | and no other bytes do |
| JsonAccepted.ValueSpelled | jsonvalue/jsonvalue.go:635-663 | whatever is read as a value is spelled by a tree with that meaning that fits under the depth |
| Numerals.TokenSpelled | jsonvalue/jsonvalue.go:882-923 | every token the scanner takes for a number has a sign, an integer part without leading zero, a fraction and an exponent |
| Numerals.NumeralReads | jsonvalue/jsonvalue.go:882-923 | and every number so spelled is taken whole, and classed as an integer exactly if it has neither of the last two |
| Numerals.RenderUnique | jsonvalue/jsonvalue.go:882-923 | in one way only |
| JsonRoundTrip.ParsePrint | jsonvalue/jsonvalue.go:590-605 | for every float-free value and any surrounding whitespace, parsing what was printed gives the value in normal form and consumes all input, or ErrTooDeep exactly when it nests deeper than MaxDepth |
| JsonRoundTrip.PrintDecidesNorm | jsonvalue/jsonvalue.go:492-522 | two float-free values, however deep, print alike exactly if they have the same normal form; normalizing twice changes nothing |
| JsonRoundTrip.PrintIsText | jsonvalue/jsonvalue.go:492-522 | what is printed for a value in normal form is one of the legal texts and means that value |
| JsonRoundTrip.ValueReads | jsonvalue/jsonvalue.go:635-663 | a printed value is read back at any position and depth, or reported too deep |
| JsonRoundTrip.CharsReads | internal/jsonline/jsonline.go:329-358 | every byte string valid as UTF-8 survives escaping and unescaping |
| JsonRoundTrip.Utf8Exactly | jsonvalue/jsonvalue.go:771-796 | a byte string is valid UTF-8 exactly if it is a sequence of characters by the decoding rule of RFC 3629 |
| JsonRoundTrip.EscapeIsShortest | internal/jsonline/jsonline.go:329-358 | each byte is escaped by its shortest spelling, in lower case |
| JsonRoundTrip.NumberReads | jsonvalue/jsonvalue.go:882-945 | every integer from the least int64 to the greatest uint64 is read back exactly and in its class |
| JsonRoundTrip.PrintNorm | jsonvalue/jsonvalue.go:395-415 | printing sees only the normal form: merged members, at every level |
| JsonResults.ParseIsProper | jsonvalue/jsonvalue.go:665-736 | whatever the text, a parsed value has no repeated key at any level, valid strings, integers in their own class, and bounded depth |
| JsonResults.ParsePrintParse | jsonvalue/jsonvalue.go:590-605 | a float-free value parsed from any text is parsed again from its own printed text |
| JsonParser.RunParse | jsonvalue/jsonvalue.go:590-605 | the cursor parser returns what the grammar says, on every input |
| JsonParser.Parser.ReadValue | jsonvalue/jsonvalue.go:635-663 | the value, the cursor and the depth counter after each value; a too deep value keeps the counter raised |
| JsonParser.Parser.ReadObject | jsonvalue/jsonvalue.go:665-736 | scanning and then indexing gives each key its first place and last value |
| JsonParser.PutMember | jsonvalue/jsonvalue.go:695-719 | one member read: inserted or replaced, the index staying exact, and at most sixteen members ever scanned |
| JsonParser.Parser.ReadString | jsonvalue/jsonvalue.go:771-796 | the fast path without escapes decodes like the general one, validity included |
| JsonParser.Parser.EscapedString | jsonvalue/jsonvalue.go:798-858 | escapes and surrogate pairs decoded, lone surrogates and control characters refused |
| JsonParser.ParseUnsigned | jsonvalue/jsonvalue.go:947-961 | accepts exactly the digits whose value fits u64, without ever wrapping |
| JsonParser.ParseNegative | jsonvalue/jsonvalue.go:963-969 | accepts exactly the negative integers that fit i64 |
| JsonParser.Quote | internal/jsonline/jsonline.go:329-358 | the loop writes the escaped string the parser reads back |
| DecimalFloat.ReadFloat | internal/jsonline/jsonline.go:135-215 | u64 accumulation never wraps; an integer that fits u64 is exact, and is so returned exactly then; otherwise the significand brackets the digits, the token's exponent is added and clamped to int32, and an exponent past int32 is accepted exactly for zero or a negative exponent |
| DecimalFloat.AccumulatedReal | internal/jsonline/jsonline.go:135-215 | with the token's exponent, significand S and exponent E satisfy S*10^E <= value < (S+10)*10^E over the reals, with S+1 instead of S+10 for all tokens but those that straddle, with equality if no digit was dropped, and within one part in 10^17 always |
| DecimalFloat.ExactRealMeans | internal/jsonline/jsonline.go:127-135 | the exact value: the digits, over ten for each one after the point, times or over ten for each unit of the exponent |
| DecimalFloat.TakenIsStraddling | internal/jsonline/jsonline.go:148-190 | a fraction digit is still taken after a dropped one exactly for integer parts that begin with 1844674407370955161 and a digit above 5, followed by a fraction digit of at most 5 |
| DecimalFloat.StraddlingToken | internal/jsonline/jsonline.go:175-190 | 18446744073709551616.0 is such a token: one unit in the last place is not enough for it |
| DecimalFloat.ParseFloat | internal/jsonline/jsonline.go:135-217 | for every token of the grammar, over the reals: accepted exactly if it is zero, its exponent is within the table, or an exponent past int32 is negative; the result has the token's sign, and the significand scaled as its absolute value, or is zero in that last case |
| DecimalFloat.RefusedIsLarge | internal/jsonline/jsonline.go:221-244 | a token refused for an exponent it could read is at least 10^309 |
| DecimalFloat.Bracketed | internal/jsonline/jsonline.go:148-190 | ten units bracket the digits, for any taken and dropped on either side of the point; one unit does exactly if no integer digit was dropped or no fraction digit taken |
| DecimalFloat.OneMore | internal/jsonline/jsonline.go:175-190 | a fraction digit taken after a dropped one keeps the lower bound because it is the smaller, and one unit is then never enough |
| DecimalFloat.FromParts | internal/jsonline/jsonline.go:221-244 | the scaling loop ends, and over the reals computes S*10^E or refuses a positive value past the table |
| Members.MergeIsNormal | jsonvalue/jsonvalue.go:239-251 | merging gives each key once, at its first position, with its last value |
| Members.NormalIsUnique | jsonvalue/jsonvalue.go:239-251 | there is only one such normal form, so any two algorithms that reach it agree |
| MergeAlgorithms.HasRepeats | jsonvalue/jsonvalue.go:192-225 | all three size regimes answer whether some key occurs twice, for any hash function |
| MergeAlgorithms.Merged | jsonvalue/jsonvalue.go:239-251 | the indexed merge computes the normal form |
| MergeAlgorithms.KeysOf | jsonvalue/jsonvalue.go:145-154 | the keys, each once, in order of first occurrence |
| MergeAlgorithms.Get | jsonvalue/jsonvalue.go:88-95 | the value of the last member with the key |
| MergeAlgorithms.MergeRepeated | cmd/acpgen/decode.go:933-961 | both in-place branches leave the normal form in the first n places |
| MetaPatch.FoldMeans | cmd/acpgen/emit.go:287-309 | folding patches from an empty entity is finite-map override with null removing keys; no key twice and no null is ever stored |
| MetaPatch.FoldKind | cmd/acpgen/emit.go:287-309 | whether the stored metadata is set, null or unset is what the last update that names it says |
| MetaPatch.SetMeans | jsonvalue/jsonvalue.go:100-114 | Set on any object, repeats included: its key has the new value, every other key keeps its own |
| MetaPatch.PatchMeans | cmd/acpgen/emit.go:299-307 | one patch on a stored object overrides it key by key |
| MetaPatch.RemoveShows | jsonvalue/jsonvalue.go:128-142 | the swap removal takes out exactly its key |
| MetaObject.ApplyMetaUpdate | cmd/acpgen/emit.go:287-309 | the patched object is new, and neither the stored object nor the update's is modified |
| MetaObject.Object.Set | jsonvalue/jsonvalue.go:100-114 | in place or appended, further members with the key dropped |
| MetaObject.Object.SwapDelete | jsonvalue/jsonvalue.go:128-142 | reports whether the key was there; repeats merged into a new array first, then the last member moved into the gap |
| SubagentForest.RunValid | unstable/subagent_tree.go:148-230 | after every run the nodes are an acyclic forest whose children lists hold each node once, under its parent |
| SubagentForest.RefusedExactly | unstable/subagent_tree.go:166-188 | an update is refused exactly if it names itself as parent, would reparent, or would close a cycle, and then the tree is unchanged |
| SubagentForest.NewChild | unstable/subagent_tree.go:175-188 | a new child keeps every chain ending exactly if its parent's root is not the child, and moves only the roots that were the child |
| SubagentForest.NotBelowItself | unstable/subagent_tree.go:285-294 | no session is its own ancestor |
| SubagentTree.SubagentTree.Observe | unstable/subagent_tree.go:166-230 | the climb for cycles ends; the answer and the new tree are those of the step the laws below are about |
| SubagentTree.SubagentTree.RootOf | unstable/subagent_tree.go:285-294 | the climb ends at the one root, which is no child |
| SubagentTree.SubagentTree.Descendants | unstable/subagent_tree.go:296-310 | the search ends with exactly the sessions that have s as proper ancestor, without repeats, parents before children |
| SubagentTree.AllFound | unstable/subagent_tree.go:296-310 | when nothing is left to expand, every descendant was met |
| SubagentTree.SubagentTree.BeginRestore | unstable/subagent_tree.go:563-582 | a child is refused; otherwise the attempt becomes current and every descendant is invalidated, none unknown |
| SubagentTree.SubagentTree.FinishRestore | unstable/subagent_tree.go:598-607 | only the current attempt still changes the tree, and invalidates again if it failed |
| SubagentTree.SubagentTree.Closed | unstable/subagent_tree.go:615-621 | returns the descendants, parents first, and invalidates exactly them |
| SubagentTree.SubagentTree.Snapshot | unstable/subagent_tree.go:320-331 | no capability shows while the child's root is being restored |
| SubagentRuns.EffectiveIsLastReport | unstable/subagent_tree.go:206-230 | after every run a child's effective capabilities and state are what the last event that invalidated it, or reported the field while its root had no unanswered replay, says: nothing after an invalidation or null, the value reported otherwise |
| SubagentHistory.AssociationIsLastPatch | unstable/subagent_tree.go:189-245 | after every run each of the seven stored fields is its last patch, replayed ones included, a relative directory not counting |
| SubagentHistory.RelativeIsReported | unstable/subagent_tree.go:189-230 | the answer names the relative directories that were not applied |
| SubagentHistory.AttemptIsItsHistory | unstable/subagent_tree.go:563-607 | a stored attempt has settled once it was responded to, is answered if the first response was a success, and is current exactly until it is replaced, completed or lost |
| SubagentHistory.HistoricalIsUnansweredReplay | unstable/subagent_tree.go:259-262 | an update is taken as replayed history exactly while a load of its root is in progress whose first response, if any, was no success |
| SubagentRuns.SupersededForGood | unstable/subagent_tree.go:583-607 | once an attempt was superseded, cleared by a disconnect or completed, neither its response nor its return ever changes the tree |
| Updates.TextAgrees | v2/update_projection.go:311-327 | on every list of updates the projection limited to Agent messages has the text of the full one |
| Updates.FoldTimeline | v2/update_projection.go:288-296 | every entity has exactly one place in the timeline, the one it first took |
| UpdateHistory.FoldIsAccounted | v2/update_projection.go:108-274 | on every list of updates, told from the list alone: the entities are those named, content is the last collection set and the chunks after it, every field, content mark, session info, usage report, cost and background list is what was said of it last, and notices are all kept in order |
| UpdateHistory.ContentIsLastSetAndChunks | v2/update_projection.go:108-157 | the content of one entity: the last collection or decodable snapshot, null setting it to nothing, then every chunk since |
| UpdateHistory.ShownIsLastSaid | v2/update_projection.go:158-274 | any other thing shown is what the last update that says something of it says |
| UpdateHistory.TextOfBlocks | v2/update_projection.go:312-327 | the text of a message is that of its text blocks in order |
| UpdateHistory.TextOfMessages | v2/update_projection.go:312-327 | the text of a session is that of its Agent messages in timeline order |
| UpdateHistory.TextStreams | v2/update_projection.go:312-327 | a chunk of the last Agent message extends the text by its own |
| UpdateProjection.Projection.Apply | v2/update_projection.go:108-174 | each update has its declared effect, and no slice returned or given before changes |
| UpdateProjection.Projection.ApplyAll | v2/update_projection.go:108-174 | any list of updates: the projection shows what the account of the list says, and no slice ever returned or given changes, spare capacity included, whatever arrays the updates share |
| UpdateProjection.Projection.Extend | v2/update_projection.go:306-309 | appending in place or into a new array touches no element that another slice reaches |
| UpdateProjection.Projection.Keep | v2/update_projection.go:300-302 | a collection taken from an update is clipped, so later appends leave its array alone |
| UpdateProjection.Projection.ApplyTerminal | v2/update_projection.go:234-248 | a snapshot replaces the output, null clears it, one that does not decode is ignored |
| UpdateProjection.Projection.Find | v2/update_projection.go:337-381 | a snapshot of an entity: its content, clipped and protected from then on |
| UpdateProjection.Projection.DrainNotices | v2/update_projection.go:413-419 | the notices are handed over with their spare capacity, which is never written again |
| UpdateProjection.Projection.BackgroundList | v2/update_projection.go:461-468 | the latest list reported, or none |
| UpdateProjection.Projection.Text | v2/update_projection.go:312-327 | the text of every Agent message in timeline order |
| GoSlices.Grow | v2/update_projection.go:306-309 | append keeps the elements of every slice that does not reach past the one appended to |
| ActiveWork.WorkIsItsSpec | v2/projection.go:85-119 | the work completes exactly at the first idle update after the first that is not idle, closes done once, its text is that of the updates strictly between, and nothing later changes the result |
| ActiveWork.BackgroundIsLatest | v2/projection.go:85-138 | the background work shown is what the last state update observed, from start to end, reports |
| ActiveWork.ActiveWork.Apply | v2/projection.go:85-119 | the object over its text projection follows the streaming step, and changes no slice it was given |
| ActiveWork.ActiveWork.CurrentResult | v2/projection.go:150-157 | the fixed result, or the text so far and no stop reason |
| Validator.ValidatorAgrees | internal/mcpserver/jsonschema.go:30-99 | a value the full schema allows is never rejected, whatever unenforced keywords ask; on a decidable schema acceptance is exact |
| Validator.OneAgrees | internal/mcpserver/jsonschema.go:80-97 | oneOf accepts every value that matches exactly one branch, and only those if all branches are decidable |
| Validator.CountOne | internal/mcpserver/jsonschema.go:82-90 | the match counter is one exactly if one branch matches and no other does |
| Validator.DecidableIgnoresExtra | internal/mcpserver/jsonschema.go:112-143 | what a decidable schema allows does not depend on unenforced keywords |
| Validator.DecidableExactly | internal/mcpserver/jsonschema.go:112-143 | decidable holds exactly of the schemas that apply, at any depth, only enforced keywords and annotations |
| Validator.JsonEqualIsSame | internal/mcpserver/jsonschema.go:252-291 | comparing sizes and looking up one side's keys decides equality of JSON values |
| NullSearch.AdmitsNull | cmd/acpgen/ir.go:1391-1414 | the search ends on cyclic definitions and answers true exactly if a null-admitting schema is reachable |
| NullSearch.Search.AdmitsNull | cmd/acpgen/ir.go:1391-1414 | with names already visited in other branches, a false answer leaves nothing reachable that is not settled or still open |
| NullSearch.DeadNeverReaches | cmd/acpgen/ir.go:1391-1414 | a closed set of settled schemas reaches no null, at any distance |
| NullSearch.ReachesMeans | cmd/acpgen/ir.go:1386-1414 | for schemas of the generator's shapes, cyclic definitions included, the search answers what JSON Schema says of null |
| Registry.ListsAreLive | v2/permissions.go:68-91 | in every run a list holds exactly the live registrations of its key, in order, and empty lists are gone |
| Registry.OneLess | v2/permissions.go:78-91 | unregistering takes out only its own generation, even after a cancel-all and new registrations |
| Registry.Increasing | v2/permissions.go:68-76 | the generations of a list increase, so each names one entry |
| PermissionRegistry.Permissions.Register | v2/permissions.go:68-76 | appends under a new generation; the lists being walked keep their elements |
| PermissionRegistry.Permissions.Unregister | v2/permissions.go:78-91 | closes the gap in place; the lists being walked keep their elements |
| PermissionRegistry.Permissions.CancelPermissionRequests | v2/permissions.go:52-61 | takes the whole list out, to be walked without the mutex; no later operation writes to it |
| PermissionRegistry.Permissions.CancelInbound | connection.go:1148-1159 | a copy of the cancel functions, in order, the list staying as it is |

## Left out

- Goroutine scheduling, fairness and liveness: a run may stop at any step, and the 250 ms waits and context ends are choices of a step.
- The connection's and the registries' mutexes as objects: each critical section is one step. The connection is modelled on values, so updating its maps and queue in place is not captured; the registries are objects over arrays.
- The `$/cancel_request` a `Call` sends when its context ends: any goroutine may send such a notification at any time instead.
- What `Notify`, a response and `Close` return to their callers: only what they do to the queue and the connection.
- Peers that answer a request they never received: a reply is possible only for a request whose write has begun.
- Inbound requests and notifications on the connection: dispatch, handlers, panics and the wait for them at close do not touch the queue and are not modelled; answers to requests are (`Respond`).
- ConnectionDrain.NilShutdownDrained: states the exception for an output stream that returns io.EOF, because the code cannot tell that error from its own finished flush.
- Floating point: tokens are kept, ParseFloat is followed up to its significand and exponent, and fromParts is computed over the reals, so rounding and infinity from rounding are not modelled.
- DecimalFloat.FromParts: refuses only by its exponent, because overflow of a float64 product to infinity is rounding.
- DecimalFloat.ParseFloat: computed over the reals for the same reason.
- Go values other than those Parse returns (`json.RawMessage`, structs, nil slices and nil Objects), `Equal`, `Clone` and `Delete`.
- The allocation sizes `append` picks: any spare capacity is allowed.
- Transcripts, directories and the client method check of the subagent tree. A node and a restore attempt are values in a map and a sequence; nothing else refers to a node, and an attempt is referred to by its number.
- Metadata inside the update projection: `_meta` is one of the patched fields there and is modelled by itself in `MetaPatch`.
- `ApplyPermissionRequest`, `Timeline`, `Notices`, `Compactions` and the background and capability queries of the projection: an upsert, copies and single lookups.
- `WorkResult.StopReasonFields`, `Wait` and the session tracker.
- Error texts and paths of the validator, `patternProperties`, `$ref`, `prefixItems` and other keywords that change the meaning of sibling keywords.
- How schemas are read from JSON by the generator, and every other classification it makes.
- Typed facades, routers, runners, terminals, files, the trace viewer and the v1 session projection.
