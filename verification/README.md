# Proofs about the whycodes agent

This project models the kernels of the `whycodes-agent` crate, and one of the CLI's build
script, and proves what they promise. `dafny verify dfyconfig.toml` checks all of it.

What is modelled, and the files that do it:

- **Background jobs.** `JobStates` says what each operation does to one job under its lock,
  `Registry` is the registry as classes updated in place, `RegistryRuns` interleaves any number
  of threads wherever a lock is free, `RegistrySafety` is about whole runs of it, and
  `RegistryAlone` shows the two models to agree. `Wakeups` is the waiting loop and its notifier,
  `LockOrder` the locks. `JobOutput` is the capped output buffer;
  `Utf8` and `PipeDecoder` are the decoding of a pipe over arbitrary reads.
- **Output schemas in YAML.** `Yaml` is the recursive-descent parser as functions of the lines
  still unread, `YamlParser` the same with its array, cursor and in-place rewriting. `YamlLayout`
  prints every layout of a value; `YamlRoundTrip`, `YamlText` and `YamlWritable` prove that the
  parser undoes it; `YamlNested` says what may stand on the line of a dash, `YamlScalars` how
  scalars are read, `YamlLeftover` and `YamlRefusals` what is refused. `YamlKey` compares key
  splitting with its documentation.
- **Typed results.** `Json` and `JsonPointer` (RFC 6901), `SchemaWalk` (the validator),
  `SchemaKeywords` (what each keyword admits), `SchemaPrepare` (strengthening a schema),
  `LastBlock` (the fenced block) and `StructuredResult` (the check with its one retry).
- **Swarm merge.** `ChangedPaths`, `SwarmMerge` (one worker) and `SwarmRuns` (many).
- **Workers.** `SteerInbox`, `Transcript`, `StreamReply`, `WorkerLoop` and `WorkerTranscript`
  (what its requests hold).
- **Scanners.** `MaskScanner` and `KeywordScan`, with `MaskDocument` and `KeywordText` for what they
  mean in terms of written texts, `EarlyField`, `EarlyEscapes` and `EarlyNumber`,
  `WireNames`.
- **Calendar.** `CivilDate`. `Text` holds strings counted in UTF-8 bytes and decimal numbers.

How outside behaviour enters: what JSON text means, file-system answers, git's listing, the
provider, the user, tool results and clocks are parameters or steps, and every result is for all
of them. In `WorkerLoop` a run is any function from step numbers to what happens around that
step. In `RegistryRuns` and `Wakeups` a run is any sequence of possible steps. The functions of
`JobStates` that the registry's methods are proved against are the ones its runs are made of.

## Findings

Where code and documentation differ the model follows the code, and a lemma says exactly when
the promise holds:

- `complete_utf8_len` looks at the first error only. A character cut by a read is lost when a
  malformed byte came earlier in the same buffer (`PipeDecoder.StreamingDecode`).
- A problem at the root is reported at `/`, which by RFC 6901 names the member `""`
  (`SchemaWalk.RootIsMisprinted`).
- `yaml_key` is documented to split at the first `:` followed by a space or the end. It looks at
  the first `:` alone (`YamlKey.KeyAgrees`).
- A list level with its key is recognized by `- ` only, so a bare `-` there is an error
  (`YamlRoundTrip.BareDashIsRefused`).
- A list on the line of a dash nests only if its first line reads as an entry: `- - k: v` nests,
  `- - a` is the string `- a` (`YamlNested.InlineListReads`).
- A fence inside a value's string ends the `json` block (`LastBlock.BlockIsFound`).
- A number field read early can still grow (`EarlyNumber.NumberIsFinal`).
- The early scan of a string reads `\b` and `\f` as letters and knows escapes that JSON does not
  (`EarlyEscapes.ReadsAsJson`).
- `SteerMode::Queue` is documented never to be read by a turn. Workers drain their whole inbox at
  each step, so a run reads exactly what was sent by its last request, whatever the mode
  (`WorkerLoop.RunReads`); the promise holds for `take_for_turn` (`SteerInbox.NothingIsLost`).
- A listener runs under its own lock. Threads can block for good if and only if some listener
  kills a running job, ends one or sets the listener (`LockOrder.ListenersDecide`).
- A capped buffer whose kept part begins with a genuine `…` gets no second one
  (`JobOutput.CappedShape` states both forms).

## Model

| member | source | states |
|---|---|---|
| JobStates.PruneIsExact | crates/agent/src/background.rs:524-551 | Pruning drops exactly the oldest finished, seen jobs beyond the newest sixteen; it keeps ids and map in step and never drops a job that runs or whose end has not been seen |
| Registry.Registry.ClaimJobLog | crates/agent/src/background.rs:763-782 | The id is the first from the counter on that no other session logs under; ids are never given twice, and there is a log exactly if opening that id's own succeeds, however many ids were skipped before |
| Registry.Registry.RunningCount | crates/agent/src/background.rs:232-237 | The number of listed jobs that run |
| Registry.Registry.StartShell | crates/agent/src/background.rs:338-358 | Refused exactly while as many jobs run as may, or when the command cannot be prepared, with that reason; a refusal leaves the jobs as they were |
| Registry.Registry.StartPrepared | crates/agent/src/background.rs:443-485 | A new running job under an unused id at the end of the order, then pruning, which never drops it; no event |
| Registry.Registry.PruneLocked | crates/agent/src/background.rs:524-551 | The map and order afterwards are those without the dropped jobs |
| Registry.Registry.FinalizeJob | crates/agent/src/background.rs:878-901 | The job's own task records how it ended and sends one event, unless the job was killed first; right also for a job that has left the map |
| Registry.Registry.Kill | crates/agent/src/background.rs:289-322 | An unknown id is an error, a finished job is left alone, a running one gets the status killed and counts as seen, nothing else of it changes, and one event goes out |
| Registry.Registry.Read | crates/agent/src/background.rs:262-287 | The answer shows the headline and below it the whole cleaned output, or exactly its newest characters as asked; reading a finished job, and only that, marks its end as seen |
| Registry.NewestReading | crates/agent/src/background.rs:277-286 | Of output longer than asked for exactly the newest characters are shown, whatever came before them |
| Registry.WholeReading | crates/agent/src/background.rs:277-281 | Output that is not longer, or not limited, is shown whole |
| Registry.HeadlineShows | crates/agent/src/background.rs:273-280 | Above it: the name, the state in words, the exit code if there is one, and the title |
| Registry.Registry.MarkDelivered | crates/agent/src/background.rs:435-440 | Marks exactly the named job, if it is listed |
| Registry.Registry.TakeCompletions | crates/agent/src/background.rs:398-420 | Returns exactly the finished jobs whose end was not seen, oldest first, each with its id, status, exit code and output, and marks just those |
| Registry.TakenOnce | crates/agent/src/background.rs:398-420 | After a take nothing is left to take |
| RegistryRuns.EndIsFinal | crates/agent/src/background.rs:289-322 | No step of any thread changes how a finished job ended or unmarks a seen end |
| RegistryRuns.StepKeepsIds | crates/agent/src/background.rs:473-485 | Every step, insertions out of the order of their numbers included, keeps the order free of repetitions and equal to the map's ids |
| RegistryRuns.StepKeepsClaims | crates/agent/src/background.rs:473-481 | Every step keeps each claimed number below the counter, held by one thread alone and not yet in the registry, so a number claimed without any lock is still unused when it is inserted |
| RegistryRuns.StepKeepsPruned | crates/agent/src/background.rs:524-551 | Every step keeps it true that a job outside the map had ended and been seen |
| RegistryRuns.StepKeepsTasks | crates/agent/src/background.rs:878-901 | Until its task finalizes it a job runs or was killed, whatever other threads do |
| RegistryRuns.StepKeepsSights | crates/agent/src/background.rs:398-440 | Every step keeps completion notices the first sight of an end, and the delivered flag equal to having been seen |
| RegistryRuns.StepKeepsEvents | crates/agent/src/background.rs:878-901 | Every step keeps one terminal event per finished job, sent or about to be sent by exactly one thread, with the status the job ended with |
| RegistrySafety.AnyRunIsSafe | crates/agent/src/background.rs:232-551 | All of these hold in every state that any number of threads can reach, interleaved at every lock |
| RegistrySafety.StartsMayOvertake | crates/agent/src/background.rs:457-481 | Of two racing starts the one with the larger number may insert first: job 2 then stands before job 1 in a state the results above cover |
| RegistrySafety.EndStays | crates/agent/src/background.rs:289-322 | A job leaves the running state once: its end stays the same for the rest of any run |
| RegistrySafety.CompletionDelivery | crates/agent/src/background.rs:398-551 | In every reachable state: at most one terminal event a job and none missing once no thread is about to send one; at most one completion notice, none after a kill, a finished read or a mark; no finished job with an unseen end has been pruned |
| RegistrySafety.TakeReaches | crates/agent/src/background.rs:398-420 | A take that is left to run returns every unseen end still ahead of it |
| RegistryAlone.StartAlone | crates/agent/src/background.rs:443-485 | In the interleaved model a start that is not interleaved does what the call does, pruning included |
| RegistryAlone.InsertAlone | crates/agent/src/background.rs:473-485 | The same from the claim of the number on, whatever other threads claimed or inserted since |
| RegistryAlone.KillAlone | crates/agent/src/background.rs:289-322 | The same for a kill and its event |
| RegistryAlone.TakeAlone | crates/agent/src/background.rs:398-420 | The same for a take: exactly the unseen ends, oldest first |
| Wakeups.StepLosesNone | crates/agent/src/background.rs:362-383 | No step leaves a waiter asleep whose job ended and whose notification was issued |
| Wakeups.RunLosesNone | crates/agent/src/background.rs:362-383 | The same over whole runs, for any number of waiters and unrelated jobs |
| Wakeups.OtherOrdersLose | crates/agent/src/background.rs:368-371 | With either choice made the other way a run of six steps loses a waiter |
| Wakeups.NoLostWakeUp | crates/agent/src/background.rs:362-383 | No run loses a wake-up if and only if waiters register before they look and ends are recorded before they are notified |
| LockOrder.OpRespects | crates/agent/src/background.rs:228-322 | Every operation whose listener, if it tells one, is tame takes its locks in the order listener, map, order, job and leaves nothing locked |
| LockOrder.EmitRespects | crates/agent/src/background.rs:512-517 | A tame listener, one that sets no listener, ends no job and kills none but finished ones, keeps the order under the listener lock |
| LockOrder.ListenerRespects | crates/agent/src/background.rs:512-517 | A listener, whatever sequence of operations it runs, keeps the order under its lock if and only if none of them takes that lock |
| LockOrder.SomeoneCanStep | crates/agent/src/background.rs:239-241 | Following who waits for whom ends at a thread that can go on |
| LockOrder.NoDeadlock | crates/agent/src/background.rs:228-322 | However any number of threads running any operations with tame listeners have been interleaved, while one is not done some thread can take a step |
| LockOrder.TameNeverBlocks | crates/agent/src/background.rs:228-322 | If all listeners told are tame, every unfinished thread can always still get on, in every interleaving |
| LockOrder.UntameBlocks | crates/agent/src/background.rs:512-517 | A thread that tells any listener that is not tame can come to wait for good for the listener lock it holds itself |
| LockOrder.ListenersDecide | crates/agent/src/background.rs:512-517 | For all programs of all threads: no thread is ever blocked for good if and only if every listener told is tame |
| LockOrder.KillingListenerBlocks | crates/agent/src/background.rs:512-517 | The smallest case with a kill: told of one, the listener kills another running job |
| LockOrder.SettingListenerBlocks | crates/agent/src/background.rs:512-517 | The smallest case with `set_listener` |
| LockOrder.ReverseOrderBlocks | crates/agent/src/background.rs:240-242 | Locking the order before the map beside a start can block for good, as the comment there says |
| JobOutput.CapJobOutput | crates/agent/src/background.rs:784-802 | The in-place cut yields the specified tail and never splits a character |
| JobOutput.TailIsLongest | crates/agent/src/background.rs:788-793 | What is kept is the longest end of the text, cut at a character, that fits |
| JobOutput.CappedShape | crates/agent/src/background.rs:784-802 | The buffer is the whole text, or starts with an ellipsis and ends with the longest fitting end of it, never over 64 KiB plus 3 bytes |
| JobOutput.CapAbsorbsCap | crates/agent/src/background.rs:732-739 | Capping, appending and capping again is appending and capping once |
| JobOutput.StreamingCap | crates/agent/src/background.rs:732-739 | Folding appends over any chunks gives the buffer of one cap of the whole text |
| JobOutput.JobBuffer.AppendOutput | crates/agent/src/background.rs:732-739 | The buffer stays the cap of everything ever appended |
| Utf8.LossyOfEncode | crates/agent/src/background.rs:846-867 | Lossy decoding of encoded text gives the text back, whatever follows it |
| Utf8.CheckOfEncode | crates/agent/src/background.rs:871-876 | Encoded text is valid UTF-8 |
| PipeDecoder.CompleteLen | crates/agent/src/background.rs:871-876 | At most three bytes are held back |
| PipeDecoder.StreamingDecode | crates/agent/src/background.rs:846-876 | For every byte stream and every split into reads: the chunks concatenate to the lossy decoding of the whole stream if and only if no read ends inside a character behind a malformed byte of the same buffer |
| PipeDecoder.UnbrokenIsClean | crates/agent/src/background.rs:846-876 | A stream without malformed bytes, up to a cut last character, meets that condition under every split |
| PipeDecoder.StreamedText | crates/agent/src/background.rs:846-867 | Text in UTF-8, up to a cut last character, arrives as that text under every split into reads |
| PipeDecoder.StreamedLength | crates/agent/src/background.rs:846-876 | When the condition fails the result is longer than the decoding of the whole: something became several replacement characters |
| PipeDecoder.MixedReadLosesACharacter | crates/agent/src/background.rs:871-876 | FF E2 then 82 AC: the euro sign is lost, which one read of the four bytes would keep |
| PipeDecoder.PipeToJob | crates/agent/src/background.rs:846-867 | The reading loop appends exactly the streamed decoding of what was read before the end or the first error |
| PipeDecoder.TextArrives | crates/agent/src/background.rs:846-867 | Text that a process writes arrives in its job's output however the reads cut it and whatever ends them |
| Yaml.Node | crates/agent/src/custom_agents.rs:345-390 | The parser always terminates, and a success takes at least one line |
| Yaml.Items | crates/agent/src/custom_agents.rs:351-373 | The list loop terminates under lines left and the length of the rewritten line |
| YamlParser.ParseNode | crates/agent/src/custom_agents.rs:345-390 | With the array and cursor: never past the end, at least one line taken on success, unread lines untouched, and the same result as the function of the unread lines |
| YamlParser.ParseList | crates/agent/src/custom_agents.rs:351-373 | The list loop in place |
| YamlParser.ParseItem | crates/agent/src/custom_agents.rs:356-371 | One item, with the dash line overwritten by the map line it stands for |
| YamlParser.ParseMap | crates/agent/src/custom_agents.rs:375-389 | The map loop in place |
| YamlParser.ParseEntry | crates/agent/src/custom_agents.rs:376-387 | One turn of the map loop in place: the rest of the map with this entry added reads as the whole did, or its error is the error of the whole |
| YamlParser.ParseChild | crates/agent/src/custom_agents.rs:394-410 | A deeper block, a list level with its key, or null |
| YamlParser.ParseText | crates/agent/src/custom_agents.rs:325-343 | With the array and cursor, the result of the function of the text: a flow value, or blocks that take every content line, or an error; what that function reads and refuses is the subject of the rows below |
| YamlRoundTrip.KeyReads | crates/agent/src/custom_agents.rs:413-423 | A key, plain or quoted, is split off exactly where it was written |
| YamlRoundTrip.ReopensAs | crates/agent/src/custom_agents.rs:363-367 | A dash line is reopened as the line printed behind its dash, at that column |
| YamlRoundTrip.NodeReads | crates/agent/src/custom_agents.rs:345-390 | Round trip: every legal layout of nested maps and lists, at any indentation and steps, in front of any lines that end it, is read as exactly its value with the cursor behind it |
| YamlRoundTrip.ChildReads | crates/agent/src/custom_agents.rs:394-410 | The same for the block or nothing under a key or dash |
| YamlRoundTrip.FieldsRead | crates/agent/src/custom_agents.rs:375-389 | The same for the entries of a map, a later one replacing an earlier one of the same name |
| YamlRoundTrip.ItemsRead | crates/agent/src/custom_agents.rs:351-373 | The same for the items of a list, on the dash line or below it |
| YamlNested.InlineListReads | crates/agent/src/custom_agents.rs:351-373 | A list on the line of a dash is read as that list if and only if its first line opens an entry |
| YamlNested.InlineScalarReads | crates/agent/src/custom_agents.rs:351-373 | A scalar on the line of a dash is read as that scalar if and only if it does not open an entry |
| YamlNested.NestedDashIsAString | crates/agent/src/custom_agents.rs:351-373 | `- - a` is the list of the one string `- a` |
| YamlRoundTrip.BareDashIsRefused | crates/agent/src/custom_agents.rs:403-408 | Level with its key, a list whose first line is a bare dash makes the whole map fail |
| YamlText.FlowListReads | crates/agent/src/custom_agents.rs:430-437 | A flow list that is not JSON is the list of its non-blank parts, each a scalar |
| YamlText.NoiseIsIgnored | crates/agent/src/custom_agents.rs:329-333 | Blank and comment lines may stand anywhere |
| YamlText.TextReads | crates/agent/src/custom_agents.rs:325-343 | Any text whose content lines are those of a legal layout is read as its value |
| YamlText.PrintedReads | crates/agent/src/custom_agents.rs:325-343 | The printed text of any legal layout is read as exactly its value |
| YamlWritable.ScalarReads | crates/agent/src/custom_agents.rs:425-452 | Null, booleans, numbers, quoted strings and empty collections are read back |
| YamlWritable.UnquoteUndoes | crates/agent/src/custom_agents.rs:529-539 | Unquoting undoes quoting, for either quote |
| YamlWritable.ValueIsWritten | crates/agent/src/custom_agents.rs:325-343 | Every map or list whose strings fit on a line, whose keys one of the quotes can hold and whose list strings do not pass for entries has a text, at any indentation, that is read as it |
| YamlScalars.JsonIsRead | crates/agent/src/custom_agents.rs:427-430 | A scalar that starts like JSON and is JSON is read as that |
| YamlScalars.FlowTextIsRead | crates/agent/src/custom_agents.rs:325-328 | So is a whole text that opens a flow value |
| YamlScalars.WordsAreRead | crates/agent/src/custom_agents.rs:442-445 | `true`, `false`, `null` and `~` |
| YamlScalars.BareIsRead | crates/agent/src/custom_agents.rs:425-451 | Every other scalar that is no inline map and no list in brackets is a number if it reads as one, otherwise a string without its quotes |
| YamlScalars.UnquotedIsKept | crates/agent/src/custom_agents.rs:529-539 | A string keeps its text unless the same quote stands at both its ends |
| YamlLeftover.ReadWhole | crates/agent/src/custom_agents.rs:329-343 | A block text is read as a value if and only if it has content lines and one block of that value takes them all |
| YamlLeftover.NodeStops | crates/agent/src/custom_agents.rs:345-390 | Behind any legal layout a line at no column at which the layout could go on is left over, whatever follows it |
| YamlLeftover.EndingLineStops | crates/agent/src/custom_agents.rs:345-390 | Shallower lines, and lines level with a list that are no dash, are such lines |
| YamlLeftover.ScalarDoesNotGoOn | crates/agent/src/custom_agents.rs:374-388 | So is any line at another column behind an entry with a scalar: no scalar goes on in a deeper line |
| YamlLeftover.LeftoverIsRefused | crates/agent/src/custom_agents.rs:338-342 | A text with such a line behind a legal layout is an error that names the line |
| YamlLeftover.DeeperLineIsRefused | crates/agent/src/custom_agents.rs:338-342 | The smallest such text: `a: 1` and below it, indented, `b: 2` |
| YamlLeftover.EmptyIsRefused | crates/agent/src/custom_agents.rs:334-336 | A text without content lines is an error |
| YamlLeftover.NoiseIs | crates/agent/src/custom_agents.rs:329-333 | Content lines are all but those that are blank or start with `#` behind their blanks |
| YamlRefusals.NoEntryIsRefused | crates/agent/src/custom_agents.rs:378-380 | A line among the entries of a map that is no entry is an error that names it |
| YamlRefusals.BadEntryIsRefused | crates/agent/src/custom_agents.rs:382-387 | An entry whose scalar is an error makes the map that error |
| YamlRefusals.BadItemIsRefused | crates/agent/src/custom_agents.rs:366-369 | An item whose scalar is an error makes the list that error |
| YamlRefusals.InlineMapIsRefused | crates/agent/src/custom_agents.rs:438-440 | What starts like an inline map and is not JSON is an error that names it |
| YamlRefusals.ErrorSurfaces | crates/agent/src/custom_agents.rs:345-410 | An error at any place of a document, under keys, under dashes and behind dashes, is the error of the document |
| YamlRefusals.ErrorIsReported | crates/agent/src/custom_agents.rs:325-343 | So it is the error of the text |
| YamlKey.KeyAgrees | crates/agent/src/custom_agents.rs:412-423 | The code splits where its documentation says if and only if the first colon splits or none does |
| YamlKey.ColonInsideAKey | crates/agent/src/custom_agents.rs:412-423 | `a:b: c` is an entry by the documentation and an error in the code |
| JsonPointer.UnescapeOfEscape | crates/agent/src/structured_output.rs:203-205 | Unescaping (RFC 6901, section 4) undoes `escape` |
| JsonPointer.ParseOfPathString | crates/agent/src/structured_output.rs:129-174 | A path built by the walk parses back to its tokens |
| SchemaWalk.ConformsIffNoProblem | crates/agent/src/structured_output.rs:129-174 | Conforming to the schema, read declaratively, is having no reportable problem anywhere |
| SchemaWalk.Walk | crates/agent/src/structured_output.rs:129-174 | The walk reports exactly the problems of the value below its path |
| SchemaWalk.Validate | crates/agent/src/structured_output.rs:123-174 | The findings are exactly the problems there are, and there are none if and only if the value conforms |
| SchemaWalk.PointerIsRight | crates/agent/src/structured_output.rs:123-205 | Every finding's path, evaluated by RFC 6901, reaches an existing sub-value that fails the sub-schema governing it in just the reported way |
| SchemaWalk.RootIsMisprinted | crates/agent/src/structured_output.rs:123-127 | The printed path is the right pointer if and only if the problem is not at the root, whose `/` names the member "" |
| SchemaKeywords.TypeNames | crates/agent/src/structured_output.rs:176-189 | Each of the seven type names by the values it admits; `integer` those numbers without a fractional part |
| SchemaKeywords.UnknownTypeAdmitsNothing | crates/agent/src/structured_output.rs:187-188 | Any other name admits nothing |
| SchemaKeywords.TypeListAdmits | crates/agent/src/structured_output.rs:131-140 | A list of types admits a value if and only if one of its names does |
| SchemaKeywords.OtherTypeAdmitsNothing | crates/agent/src/structured_output.rs:131-140 | A `type` that is neither a string nor a list admits nothing |
| SchemaKeywords.KindAdmits | crates/agent/src/structured_output.rs:191-200 | The kind reported with a wrong type is a type of the value |
| SchemaKeywords.EnumAdmits | crates/agent/src/structured_output.rs:141-148 | `enum` admits the listed values |
| SchemaKeywords.RequiredAdmits | crates/agent/src/structured_output.rs:149-160 | `required` admits the objects that have all the names, and whatever is no object |
| SchemaKeywords.PropertiesAdmit | crates/agent/src/structured_output.rs:161-167 | `properties` admits the objects whose members conform to the sub-schema of their name, and whatever is no object |
| SchemaKeywords.ItemsAdmit | crates/agent/src/structured_output.rs:169-173 | `items` admits the arrays whose elements all conform to it, and whatever is no array |
| SchemaKeywords.KeywordsCombine | crates/agent/src/structured_output.rs:129-174 | A schema admits what each of its five keywords admits on its own; nothing else in it matters |
| SchemaKeywords.WrongTypeIsAll | crates/agent/src/structured_output.rs:136-139 | A wrong type hides everything else there is to say about a value and what is in it |
| SchemaPrepare.Prepare | crates/agent/src/structured_output.rs:18-47 | The edits of the copied map yield the specified schema or refusal |
| SchemaPrepare.PreparedIsExact | crates/agent/src/structured_output.rs:18-47 | A value conforms to the prepared schema if and only if it conforms to the caller's, is an object and carries the unchecked-field, as strings unless the caller declared it |
| SchemaPrepare.PreparedIsIdempotent | crates/agent/src/structured_output.rs:18-47 | Preparing twice is preparing once |
| SchemaPrepare.AcceptedSchemas | crates/agent/src/structured_output.rs:18-47 | A schema is accepted if and only if it is an object whose `type`, `properties` and `required` are absent or `"object"`, an object and an array; otherwise the first that is not is the reason |
| SchemaPrepare.OthersAreKept | crates/agent/src/structured_output.rs:18-47 | Every other member of the schema stays as it was |
| LastBlock.BlockIsFound | crates/agent/src/structured_output.rs:85-90 | A block is found where it was written if and only if no later one opens and no fence stands in its body or across its end |
| LastBlock.BlockIsExtracted | crates/agent/src/structured_output.rs:85-105 | Then its trimmed body is extracted, and the rest is what remains without it |
| LastBlock.FenceInTheValueCutsIt | crates/agent/src/structured_output.rs:85-95 | A fence inside the value cuts the block short there |
| StructuredResult.Check | crates/agent/src/structured_output.rs:109-120 | A value exactly when the last block parses and conforms; otherwise the reason that holds |
| StructuredResult.RefusedIsNotDelivered | crates/agent/src/structured_output.rs:109-120 | A refused text delivers no value |
| StructuredResult.Settle | crates/agent/src/subagent.rs:447-509 | At most one more request, only when the text delivers nothing, and it holds the retry note; a value is returned only from a text that delivers it; the report is made of both texts as the outcome demands; the retry is paid for only if it finished |
| ChangedPaths.PorcelainPath | crates/agent/src/swarm_worktree.rs:117-130 | A listed path is never empty nor in quotes |
| ChangedPaths.PathIsNamed | crates/agent/src/swarm_worktree.rs:117-130 | A status line names the path behind its two letters and space, in any Unicode text |
| ChangedPaths.NewNameIsNamed | crates/agent/src/swarm_worktree.rs:117-130 | The line of a rename names the new path |
| ChangedPaths.QuotesGo | crates/agent/src/swarm_worktree.rs:117-130 | A path in quotes is named without them |
| ChangedPaths.ChangedRelativePaths | crates/agent/src/swarm_worktree.rs:100-114 | Every named path outside the scratch directory, once, in ascending order |
| ChangedPaths.BeforeMeans | crates/agent/src/swarm_worktree.rs:112-112 | The order is that of the first character in which two paths differ; a path comes before those it starts |
| SwarmMerge.MergeChangedPath | crates/agent/src/swarm_worktree.rs:169-242 | Main gets the worker's version exactly if it still had the base's and the file system lets it; the one list entry made says whether main now has that version, and a conflict says why not |
| SwarmMerge.MergeIntoMain | crates/agent/src/swarm_worktree.rs:140-167 | Each listed path is merged on its own, every other path untouched; the lists hold the paths by verdict in listing order |
| SwarmMerge.JudgedHas | crates/agent/src/swarm_worktree.rs:140-242 | A path is in the list of its verdict and in no other |
| SwarmRuns.ReportIsExact | crates/agent/src/swarm_worktree.rs:140-242 | Each listed path that base or worker has is in exactly one of applied, deleted and conflicts, once, and is a conflict exactly when main did not end with the worker's version |
| SwarmRuns.DivergedStays | crates/agent/src/swarm_worktree.rs:140-242 | Once main differs from the base at a path no later merge of any worker changes it there |
| SwarmRuns.FirstWins | crates/agent/src/swarm_worktree.rs:140-242 | The result of any sequence of merges, path by path: main's own change, else that of the first worker to change it |
| SwarmRuns.OrderDoesNotMatter | crates/agent/src/swarm_worktree.rs:140-242 | If no two workers changed the same path every merge order ends in the same main |
| SwarmRuns.OrderMattersOtherwise | crates/agent/src/swarm_worktree.rs:140-242 | Two workers that change one path differently: the first merged wins |
| SteerInbox.Inbox.PushMode | crates/agent/src/steer.rs:48-53 | The message joins the end of its session's queue; no other queue changes |
| SteerInbox.Inbox.HasPending | crates/agent/src/steer.rs:57-61 | Whether the session's queue holds anything |
| SteerInbox.Inbox.Drain | crates/agent/src/steer.rs:64-71 | Everything waiting for the session, oldest first; no other queue changes |
| SteerInbox.Inbox.TakeForTurn | crates/agent/src/steer.rs:75-85 | What the turn may read, oldest first; what is queued for its end stays, in order |
| SteerInbox.Inbox.HasUrgent | crates/agent/src/steer.rs:88-92 | Whether an urgent message waits |
| SteerInbox.ClassHas | crates/agent/src/steer.rs:75-85 | What stays for the end of the turn is exactly what was sent as queued; urgent messages are not |
| SteerInbox.NothingIsLost | crates/agent/src/steer.rs:44-92 | Over any mix of operations and sessions nothing is lost, duplicated, reordered within its class or moved between sessions, and no queued message is read by a turn |
| Transcript.WellFormedBoth | crates/session/src/session.rs:983-1076 | Well-formed transcripts join to a well-formed one |
| Transcript.ShapeKeepsForm | crates/session/src/session.rs:1261-1390 | Shrinking tool results keeps a transcript well-formed |
| StreamReply.ReadStream | crates/agent/src/subagent.rs:641-692 | The streaming loop's reply: its text is the pieces before the stop in the order they came; it is an error if and only if the stream broke off before its first stop, with the message of that break |
| StreamReply.TextIsInOrder | crates/agent/src/subagent.rs:641-692 | The text of a reply is the concatenation of its pieces before the stop |
| StreamReply.FailsAtTheBreak | crates/agent/src/subagent.rs:641-692 | A stream is an error exactly if a failure or broken read comes before any stop |
| StreamReply.CountsTheLargest | crates/core/src/types.rs:301-310 | However often running figures are repeated a step counts the largest of each of the four kinds once |
| StreamReply.KnownIsGiven | crates/core/src/types.rs:301-322 | A cache figure is known if and only if the provider sent one above zero |
| StreamReply.EmptyAddsNothing | crates/core/src/types.rs:281-340 | Skipping a reply whose total is zero changes no sum |
| WorkerLoop.PrepareStep | crates/agent/src/subagent.rs:602-625 | Before a request every waiting message joins the transcript in order; other sessions' queues are untouched |
| WorkerLoop.AddStep | crates/agent/src/subagent.rs:703-774 | A completed step adds nothing if the model said and called nothing, otherwise its message and at once one result for each call, under the same ids in the same order |
| WorkerLoop.RunSteps | crates/agent/src/subagent.rs:588-799 | The loop, against every provider and user: well-formed transcript, requests, outcome and messages as stated for the whole run |
| WorkerLoop.RunTurn | crates/agent/src/subagent.rs:536-815 | At most `max_turns` requests to the models of their steps, each the transcript so far, shrunk, with the note and the user's messages behind it, and well-formed; it ends for the reason it reports; its usage is the sum over the completed steps, its report the last words or the progress log; the transcript gains exactly the messages sent by the look of the last request, the unread note holds exactly those sent after it, and other sessions' queues are only added to |
| WorkerTranscript.RequestsGrow | crates/agent/src/subagent.rs:588-799 | A later request starts with every earlier one and what its step left, up to the texts of tool results |
| WorkerTranscript.NoteIsRead | crates/agent/src/subagent.rs:607-619 | The note of the other workers is in the request of its step, at the end of the transcript so far |
| WorkerTranscript.AnswerIsRead | crates/agent/src/subagent.rs:765-780 | What a tool answered is in the next request, under the id of its call and at its place behind the message that called it |
| WorkerTranscript.MessageOfStep | crates/agent/src/subagent.rs:706-730 | The message of a step is what the model said, if anything, and then its calls in order |
| WorkerTranscript.SentToHas | crates/agent/src/steer.rs:48-53 | A message sent to a session arrives there with its mode, and nothing else does |
| WorkerTranscript.SentToBoth | crates/agent/src/steer.rs:48-53 | What is sent later arrives behind what was sent before |
| WorkerTranscript.FirstModel | crates/agent/src/subagent.rs:782-798 | Up to the step that makes the first edit requests go to the first model |
| WorkerTranscript.SecondModel | crates/agent/src/subagent.rs:782-798 | Behind it they go to the other one, if there is one and its provider is known |
| WorkerTranscript.RunEnds | crates/agent/src/subagent.rs:588-601 | A run ends at the first step that is cancelled, fails or calls no tool, and says which; if there is none within the limit it makes as many requests as it may |
| WorkerTranscript.LastWords | crates/agent/src/subagent.rs:709-716 | A run's last words are those of the last of its steps that said anything |
| WorkerTranscript.Reports | crates/agent/src/subagent.rs:801-805 | A run that came to its end reports its last words, an unfinished one the log of the steps that called tools, unless that is empty |
| WorkerTranscript.SpentIsSum | crates/agent/src/subagent.rs:695-702 | Each of the four figures of a run's usage is the sum of that figure over the steps whose stream completed |
| WorkerTranscript.KnownIsFromAStep | crates/core/src/types.rs:281-299 | A cache figure of a run is known if and only if some step knew it |
| WorkerLoop.RequestReads | crates/agent/src/subagent.rs:602-625 | Whatever its mode, a message is in a request if and only if it was sent by that request's look |
| WorkerLoop.RunReads | crates/agent/src/subagent.rs:602-625 | Whatever its mode, a message is read by a run if and only if it was sent by the look of the last request, and is in the unread note if and only if it was sent later |
| WorkerLoop.QueuedIsReadByWorkers | crates/agent/src/subagent.rs:621-625 | A message queued for the end of a turn before a worker's run is read by any run that makes a request |
| WireNames.Fnv1a | crates/agent/src/mcp_load.rs:380-387 | The loop computes the folded hash |
| WireNames.StepIsInjective | crates/agent/src/mcp_load.rs:383-384 | One step is injective in the hash so far and in the byte, modulo 2^32 |
| WireNames.OneByteChangesHash | crates/agent/src/mcp_load.rs:380-387 | Byte strings that differ in one byte have different hashes |
| WireNames.KnownHashes | crates/agent/src/mcp_load.rs:380-387 | Two published hashes of the function |
| WireNames.HexIsInjective | crates/agent/src/mcp_load.rs:367-367 | Hexadecimal of a fixed width is injective |
| WireNames.HexReadsBack | crates/agent/src/mcp_load.rs:367-367 | The digits, read from the left, are those of the number |
| WireNames.BridgeToolName | crates/agent/src/mcp_load.rs:361-370 | 1 to 64 characters of `[A-Za-z0-9_-]`, and the raw name itself if and only if that was valid; otherwise every other character becomes an underscore, and past 64 characters the name is the first 55, an underscore and the hash in eight digits |
| WireNames.LongSiblingsStayDistinct | crates/agent/src/mcp_load.rs:361-387 | Over-long raw names that differ in one byte get different names |
| MaskScanner.MaskNonProse | crates/agent/src/magic_keywords.rs:100-163 | The nested loops compute the mask region by region |
| MaskScanner.MaskRegion | crates/agent/src/magic_keywords.rs:106-159 | One fenced block, inline span or tag is blanked up to its end |
| MaskScanner.MaskUntilCloseTag | crates/agent/src/magic_keywords.rs:165-182 | An element is blanked up to its closing tag or the end |
| MaskScanner.MaskAt | crates/agent/src/magic_keywords.rs:100-163 | Each character is kept if it is prose and blanked otherwise, newlines excepted |
| MaskScanner.MaskKeepsLines | crates/agent/src/magic_keywords.rs:100-163 | Length and newlines stay; every other character stays or becomes a space |
| MaskScanner.MaskedIsClean | crates/agent/src/magic_keywords.rs:100-163 | No backtick, `<` or triple tilde is left |
| MaskScanner.MaskIsIdempotent | crates/agent/src/magic_keywords.rs:100-163 | Masking twice is masking once, and exactly the texts without such characters are unchanged |
| MaskScanner.ProseBorders | crates/agent/src/magic_keywords.rs:100-163 | Prose meets masked regions only at their delimiters |
| MaskDocument.DocumentIsMasked | crates/agent/src/magic_keywords.rs:100-182 | A text written from prose, code spans, stray backticks, fences, elements and closing tags, broken off anywhere, is masked to its prose as it is and everything else blanked |
| MaskDocument.StrayIsMasked | crates/agent/src/magic_keywords.rs:131-143 | A stray backtick masks no further than its line |
| MaskDocument.FenceIsMasked | crates/agent/src/magic_keywords.rs:106-130 | A fence of any length, of backticks or tildes, is masked up to exactly its closing run |
| MaskDocument.ElementIsMasked | crates/agent/src/magic_keywords.rs:144-182 | An element is masked up to exactly the end of its first closing tag |
| MaskDocument.LineByLine | crates/agent/src/magic_keywords.rs:131-143 | Below lines without elements and fences a text is masked as if it stood alone |
| KeywordScan.ContainsKeyword | crates/agent/src/magic_keywords.rs:59-88 | Finds a standalone occurrence in the bytes if there is one |
| KeywordScan.HitMatches | crates/agent/src/magic_keywords.rs:59-98 | Byte hits are the character hits, at the matching offset, in any Unicode text |
| KeywordScan.HitIsInProse | crates/agent/src/magic_keywords.rs:48-194 | A hit in the mask is a standalone occurrence in the prose of the original, at the same position |
| KeywordScan.ScanFor | crates/agent/src/magic_keywords.rs:48-194 | A keyword is found if and only if the prose of the text holds it as a standalone word |
| KeywordScan.Scan | crates/agent/src/magic_keywords.rs:48-57 | Each keyword that is switched on is reported exactly then |
| KeywordText.HitMeans | crates/agent/src/magic_keywords.rs:69-98 | A hit is the keyword between neighbours that may stand there, character by character; a full stop may follow unless a letter or digit follows it |
| KeywordText.FoundMeans | crates/agent/src/magic_keywords.rs:48-98 | A keyword is found if and only if the prose holds it between such neighbours |
| KeywordText.FoundBelowAnyLine | crates/agent/src/magic_keywords.rs:48-194 | On a line of its own a keyword is found, whatever inline code the lines above leave open |
| EarlyField.ExtractJsonStringField | crates/agent/src/speculative_read.rs:53-90 | The scan computes the specified field |
| EarlyField.ScannedIsWritten | crates/agent/src/speculative_read.rs:66-90 | Whatever is scanned had been written with the simple escapes, and is its meaning |
| EarlyField.FieldIsStable | crates/agent/src/speculative_read.rs:53-90 | For every buffer with a value there is one closing quote: nothing on each prefix before it, the same value on each longer one |
| EarlyField.FieldStays | crates/agent/src/speculative_read.rs:53-90 | Whatever follows, the value stays |
| EarlyField.StreamedField | crates/agent/src/speculative_read.rs:53-90 | A field written in the ordinary way: nothing until its closing quote has arrived, then exactly the unescaped string |
| EarlyField.FieldWithUnicodeEscape | crates/agent/src/speculative_read.rs:77-80 | A string with a `\u` escape is never read early |
| EarlyEscapes.ReadsAsJson | crates/agent/src/speculative_read.rs:66-90 | The reading of a written string is that of RFC 8259, section 7, if and only if it holds none of `\b`, `\f` and the escapes JSON does not know, and no bare control character |
| EarlyEscapes.FieldIsJson | crates/agent/src/speculative_read.rs:53-90 | The same for every field that was read from a buffer |
| EarlyEscapes.BackspaceIsReadAsB | crates/agent/src/speculative_read.rs:66-90 | `\b` is read as the letter b |
| EarlyNumber.ExtractJsonU64Field | crates/agent/src/speculative_read.rs:92-112 | The digits behind the colon as a 64-bit number, if they are one |
| EarlyNumber.NumberIsFinal | crates/agent/src/speculative_read.rs:92-112 | A number read early is final if and only if something other than a digit stands behind it |
| EarlyNumber.WrittenNumber | crates/agent/src/speculative_read.rs:92-112 | A field written with digits is read as their number if 64 bits hold it, one written with anything else is not read, whatever stands before the key and behind the digits |
| EarlyNumber.DecimalIsRead | crates/agent/src/speculative_read.rs:92-112 | So every 64-bit number written in decimal is read back |
| EarlyNumber.TryParseReadArgs | crates/agent/src/speculative_read.rs:37-50 | A path that is not blank, and a window within the limits of a read |
| CivilDate.StaysInRange | crates/cli/build.rs:108-120 | No intermediate value leaves 64 bits for timestamps from i64::MIN + 86399 |
| CivilDate.DayNumberIsFloor | crates/cli/build.rs:109-114 | The day number is the floor, before the epoch too |
| CivilDate.YearOfEraIsRight | crates/cli/build.rs:118-119 | The closed form for the year of the era is right on every day of the 400 years |
| CivilDate.NextDayCounts | crates/cli/build.rs:115-126 | Counting days through the calendar, the next date is one day later |
| CivilDate.CivilOfCount | crates/cli/build.rs:115-126 | Every valid date is what the closed form makes of its own day count, in negative eras too |
| CivilDate.CountOfCivil | crates/cli/build.rs:115-126 | Every day number gives a valid date, of just that day count |
| CivilDate.EpochAndSuccessor | crates/cli/build.rs:108-127 | Day 0 is 1970-01-01, and each next day number is the next calendar day |
| CivilDate.StampReadsBack | crates/cli/build.rs:108-127 | The stamp of every timestamp in range reads back as the valid date of its day |
| CivilDate.LeapDayIsPrinted | crates/cli/build.rs:108-127 | A leap day is printed year first: `2000-02-29` |

## Left out

- Processes, process groups, sandbox preparation, exit-code extraction, timeouts and the drain
  grace: a job's end is a step with any status.
- The kill flag, read by a job's task without a lock: `kill` sets it and the status under one
  lock, so when a job is finalized as killed its status is set already and nothing changes.
- The cap on concurrent jobs under races: it is checked before the insertion, so
  `Registry.Registry.StartShell` states it for one call at a time.
- How a job's title is made from its label or command: a parameter.
- The scratch log, elapsed times, the terminal cleaning of output (a parameter of `read`) and the
  wording of notices.
- What a job's output becomes in an interleaved run: it may be anything at any moment; what it
  becomes is the subject of `JobOutput` and `PipeDecoder`.
- Progress under a fair scheduler: `LockOrder.NoDeadlock` and `Wakeups.NoLostWakeUp` are about
  states, not about when a thread is scheduled.
- How `serde_json` reads text and compares numbers: a parameter, and a number is its text with a
  flag for whole numbers. The order of object members is not kept, so `walk` visits them in any
  order and `SchemaWalk.Validate` fixes which findings there are, not their order.
- `from_arg`, and the wording of the instruction and of the retry note (a parameter of
  `StructuredResult.Settle`).
- The frontmatter parser, tool lists, agent discovery and the rest of `custom_agents.rs`.
- Git commands, worktree creation and removal, and paths that are a file here and a directory
  there. `SwarmMerge.MergeIntoMain` quantifies over the listed paths; of a staged rename git's
  listing keeps the new name. A failed write is taken to leave the file as it was.
- Model transport, hooks, redaction, memory, permissions, progress events and what the progress
  log says (a parameter of each step). A worker without a steering inbox is one to which nothing is
  sent.
- The assembler of tool calls: the calls of a step are arbitrary. It gives every call a non-empty
  id, which is why the fallback id for results without one is not modelled; a fallback id that
  clashes with one the provider chose would make two calls share an id.
- `paired_messages`, which repairs the request's copy of a transcript: `WorkerLoop.RunTurn` is about
  the transcript the request is built from.
- Integer overflow of token counts, and the byte widths of lengths and counters, except in
  `CivilDate` and the two 64-bit reads.
- `window_from_args`, matching a speculative read with its final arguments, and starting it.
- MCP connections, prompters, side turns, model routing, intent tables, notifications and the
  TUI-facing events: thin decisions or plumbing.
