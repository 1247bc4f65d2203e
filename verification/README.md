# Verified model of starlark-worker

starlark-worker runs Starlark scripts as Cadence or Temporal workflows. This project models the
parts of it whose correctness is hardest to see by reading, and proves what they promise.
`dafny verify dfyconfig.toml` checks everything.

| file | what it models |
|---|---|
| `BatchScheduler.dfy` | the batch future's coroutines, channels and wait groups as a step relation, and its inductive invariant |
| `BatchProperties.dfy` | what every run guarantees: concurrency bound, order, exactly once, termination, deadlock freedom, confluence |
| `BatchMakespan.dfy` | the same runs under virtual time, and the greedy scheduling bound |
| `BatchFuture.dfy` | the object a caller holds: construction, `IsReady`, `Get` with its slice resize |
| `ConcurrentModule.dfy` | `batch_run` |
| `ExitHooks.dfy` | exit hooks over an aliased backing array |
| `JsonText.dfy`, `Decimal.dfy`, `Base64.dfy` | the text layer: RFC 8259 sections 2 to 7 and RFC 4648 section 4 |
| `JsonForms.dfy` | every way to write a JSON document, and the parser measured against it |
| `Starlark.dfy` | script values, dataclasses, depth-limited equality, the pure form of reviving |
| `ReplaceDict.dfy` | the in-place rewrite of decoded documents, over a store of cells |
| `Codec.dfy` | `Encode` and `Decode` |
| `DecodeInPlace.dfy` | decoding into cells, with the in-place rewrite applied to them |
| `Converters.dfy` | the two backends' data converters and their framing |
| `Packager.dfy`, `Paths.dfy` | the load closure of the packager, its archive, and the file paths it compares |
| `JsonPath.dfy`, `Text.dfy` | the path language |
| `Wrappers.dfy` | result types and facts about cardinality |

## How the model is set up

**Scheduler.** A state holds the semaphore's occupancy, the program points of submitter, processor and
workers, the futures the factories returned in the order of the calls, the caller's settables, and both
wait-group counters. A step is what one coroutine does between two points where another could run; a run
takes enabled steps in any order. Each worker keeps its future as a local reference to the call list, so
that "settable i is chained to factory i's future" is something to prove. Wait groups are integers that
could go negative; that they never do is part of the invariant. A rendezvous on an empty semaphore is a
step of its own and is proved impossible. A factory whose future is already resolved is one whose
resolving step comes next.

**Virtual time.** Durations are natural numbers. The clock moves only when no step is enabled and never
past the moment a running task is due. A task resolves no earlier than its start plus its duration.

**Slices.** `Get` resizes the caller's slice by asking reflect for room for `n - cap` elements beyond
`len`. That is not enough for every slice: `ResizeUnsafeExample` shows one, and `ResizeSafe` proves that
the resize is safe whatever the allocator does if and only if `len == cap` or `cap >= n`. `Get` returns
`Panicked` in exactly the cases where setting the length would panic, and `Blocked` in exactly the cases
where its wait would never end: tasks to run and a batch size of 0. The in-repository caller passes a nil
slice, which is safe. A failed future leaves the element it was to fill as it found it, which may be an
old element from beyond the slice's length: a reallocation is taken to keep everything up to the old
capacity, as reflect's own does.

**Exit hooks.** What hooks and other coroutines do to the list during `Run` is a script: for each call, the
operations made while it lasts and its failure. Statements hold for every script. Hooks have addresses so
that two registrations of one function stay two hooks. `ExactlyOnceLifo` gives the exact condition for a
run to call every starting hook once, last registered first: no operation writes a slot of Run's array
that is still to be walked. Removing the last hook of the list writes none, wherever it lies.

**Codec.** Dictionaries compare without regard to order and are maps; `ReplaceDict.dfy` has the ordered
dictionaries the interpreter holds. Object members are written in key order, as the repository's tests
show. `UnsupportedTypeError` is an interface type that every error satisfies, so the converters fall back
to the Go JSON library on any failure; the model does the same, with that library as a parameter. Text is
a sequence of Unicode scalar values. The Starlark JSON library, which is not part of this model, quotes
printable ASCII text in one way and other text in another; the model takes printable to be space to
tilde, so text with a DEL character goes the second way. If that library counts DEL as printable, strings
with DEL are not covered by the round trips.

**JSON text.** The printer writes one text for a document; the parser is specified by a grammar of its
own in `JsonForms.dfy`, with the characters of RFC 8259 written out: white space between any two tokens,
any escape for any character, and surrogate pairs. `ParsesExactly` proves that the parser accepts the
texts of that grammar and no others, and `WrittenDecodes` carries this to `Decode`. A lone surrogate is
replaced by U+FFFD, as Go's decoder does. Numbers have no fraction and no exponent. The JSON libraries
themselves are not part of this model; their decoders are taken to follow the standard.

**Round trips that do not hold for everything.** A dictionary that carries `"__codec__": "dataclass"` comes
back as a dataclass, and a dataclass with another codec name comes back as a dictionary.
`ScriptRoundTrip` says what every value comes back as; `FaithfulRoundTrip` says when that is the value
itself with tuples as lists, if and only if no dictionary carries a registered codec and every dataclass
does. `DictTarget` gives the consequence for a dictionary target: it receives every dictionary but one
that carries a registered codec.

**Packager.** `filepath.Abs`, `filepath.Join` and `filepath.Rel` are written out lexically; on two clean
rooted paths `Rel` cannot fail. Recursion over a cyclic load graph terminates because each recursive call
has cached one more readable file. A comment in the source says that a file must be within the root
(`client/cadence_client/client.go:131`); the code tests that the root string is a prefix of the path, and
so does the model. That is not the same: `SiblingStrays` proves that every root but `/` has siblings that
pass the test, and `StrayExample` names one. `Package` says exactly when containment holds: every packed
file lies in the root, and no name in the archive leads out of it, if and only if no load on the way
resolves to the root string followed by a character other than `/`.

**Equality.** Map iteration order is arbitrary in the methods. Answers are compared with equality of the
values, so symmetry, transitivity and independence of the order follow whenever one value fits the depth.

## Model

| member | source | states |
|---|---|---|
| BatchScheduler.StepInv | internal/temporalbatch/batchfuture/batch_future.go:47-87 | the inductive invariant (control points, token and wait-group counts, one call per worker, settables mirroring their own futures) is kept by every step of every coroutine |
| BatchScheduler.RunInv | internal/temporalbatch/batchfuture/batch_future.go:47-87 | every state of every run satisfies it |
| BatchScheduler.ReleaseNeverBlocks | internal/temporalbatch/batchfuture/batch_future.go:82 | a worker's receive on the semaphore always finds its token |
| BatchProperties.BoundedConcurrency | internal/temporalbatch/batchfuture/batch_future.go:49-58 | the semaphore holds exactly one token for the index being handed over or spawned plus one per worker that has not released; unresolved tasks never exceed batchSize |
| BatchProperties.StepCounts | internal/temporalbatch/batchfuture/batch_future.go:55-83 | in a run each factory is called and each settable chained at most once, exactly when its worker is past that point, and hand-overs number the indices sent |
| BatchProperties.CompleteRunCallsEachOnce | internal/temporalbatch/batchfuture/batch_future.go:55-83 | in a complete run each of these happens exactly once per index |
| BatchProperties.HandOffInOrder | internal/temporalbatch/batchfuture/batch_future.go:55-58 | the c-th hand-over carries index c |
| BatchProperties.OneCallPerFactory | internal/temporalbatch/batchfuture/batch_future.go:77-78 | no two futures come from one factory, and settable i is chained only to factory i's future |
| BatchProperties.RunLength | internal/temporalbatch/batchfuture/batch_future.go:47-87 | every run has at most 9n + 5 steps and has that many exactly when it is complete |
| BatchProperties.DeadlockFree | internal/temporalbatch/batchfuture/batch_future.go:47-87 | no reachable non-final state is stuck, if and only if batchSize > 0 or there is nothing to run |
| BatchProperties.RunCompletes | internal/temporalbatch/batchfuture/batch_future.go:47-87 | every run extends to a complete one |
| BatchProperties.WaitGroupSound | internal/temporalbatch/batchfuture/batch_future.go:62-86 | when wg is zero both coordinators are gone and settable i holds outcome i |
| BatchProperties.ReadyIsStable | internal/temporalbatch/batchfuture/batch_future.go:78-96 | in every run a ready settable holds its factory's outcome from then on, so readiness never goes back |
| BatchProperties.Confluence | internal/temporalbatch/batchfuture/batch_future.go:47-87 | any two finished runs over the same tasks, with any interleavings and batch sizes, leave the same results in the same number of steps |
| BatchMakespan.QuietIsFull | internal/temporalbatch/batch.go:41-42 | when no coroutine can run and a task is still to be started, exactly batchSize tasks run |
| BatchMakespan.GreedyBound | internal/temporalbatch/batch.go:41-42 | batchSize * T <= sum of durations + (batchSize - 1) * longest, at every moment of every timed run |
| BatchMakespan.Makespan | test/testdata/concurrent_test.star:33-68 | a complete run lasts at least sum / batchSize and at least the longest task, and exactly the longest task when batchSize >= n |
| BatchMakespan.TimedProgress | internal/temporalbatch/batchfuture/batch_future.go:47-87 | a timed run is stuck only when complete |
| BatchMakespan.TimedRunLength | internal/temporalbatch/batchfuture/batch_future.go:47-87 | a timed run makes at most 9n + 5 steps besides at most T clock moves |
| BatchFutures.SliceVar.Grow | internal/temporalbatch/batchfuture/batch_future.go:121-123 | reflect's Grow: room for k elements beyond len, everything up to the old capacity kept and zeros after it, in place when the capacity suffices |
| BatchFutures.ResizeSafe | internal/temporalbatch/batchfuture/batch_future.go:121-124 | the resize never panics, whatever the allocator adds, if and only if len == cap or cap >= n |
| BatchFutures.ResizeUnsafeExample | internal/temporalbatch/batchfuture/batch_future.go:121-124 | a slice of capacity 2 and length 0 panics for three results |
| BatchFutures.ErrorsEmpty | internal/temporalbatch/batchfuture/batch_future.go:102-111 | Get reports no error exactly when every outcome is good |
| BatchFutures.BatchFuture.constructor | internal/temporalbatch/batchfuture/batch_future.go:22-41 | one fresh settable per factory, both coordinators started, invariant established |
| BatchFutures.BatchFuture.IsReady | internal/temporalbatch/batchfuture/batch_future.go:89-96 | true exactly when every future holds a result |
| BatchFutures.BatchFuture.Wait | internal/temporalbatch/batchfuture/batch_future.go:106-127 | waiting terminates under any scheduling, with every future resolved to its own outcome, unless there are tasks and batchSize is 0, and then nothing can ever run |
| BatchFutures.BatchFuture.Resize | internal/temporalbatch/batchfuture/batch_future.go:119-124 | the slice afterwards, including stale elements it exposes, and exactly when it panics |
| BatchFutures.BatchFuture.CollectErrors | internal/temporalbatch/batchfuture/batch_future.go:105-111 | the errors, in index order |
| BatchFutures.BatchFuture.CollectInto | internal/temporalbatch/batchfuture/batch_future.go:129-136 | good values in their own places beside untouched failures, and the errors in index order |
| BatchFutures.BatchFuture.Get | internal/temporalbatch/batchfuture/batch_future.go:103-137 | for every interleaving: one error for each failed future, its own, in index order; each good value in its own place and the old array's element or zero in the place of a failure; wrong pointer kinds are refused; panics exactly when the resize does; blocks exactly when there are tasks and batchSize is 0 |
| ConcurrentModule.BatchRun | plugin/concurrent/module.go:46-98 | one outcome per callable in list order, 0 becomes the number of callables and any other concurrency is passed on, the first non-callable is reported |
| ConcurrentModule.StartBatch | plugin/concurrent/module.go:46-98 | the batch that is started has the outcome of every callable in list order and the chosen concurrency, and it never gets stuck; the first element that is no callable is named |
| ExitHooks.ExitHookList.Register | service/exit_hook.go:18-25 | appends one hook, in place or into a new array; nil is ignored |
| ExitHooks.ExitHookList.Unregister | service/exit_hook.go:27-34 | removes the first hook of the function by shifting the same array |
| ExitHooks.ExitHookList.Run | service/exit_hook.go:36-46 | the calls are those of the reference run over the aliased array for every script of operations, as many as there were hooks; one error for each call that fails, that call's own, at the place given by the failing calls before it |
| ExitHooks.ApplyOpLive | service/exit_hook.go:18-34 | on the list itself the two operations are append and first-occurrence removal |
| ExitHooks.ApplyOpSlots | service/exit_hook.go:18-34 | which slots of the array each operation writes: an append the one behind the list, a removal those from the first match on, with the last slot left as it was |
| ExitHooks.StaysAddressed | service/exit_hook.go:23-30 | live hooks stay distinct, which every list keeps from its creation |
| ExitHooks.CallCount | service/exit_hook.go:37-45 | after k calls: k hooks called and the failures of the first k turns collected, whatever the hooks do |
| ExitHooks.RunCounts | service/exit_hook.go:36-46 | one call for each hook of the start, and exactly the failures of the calls that fail, each its own, in call order |
| ExitHooks.OpsKeepPending | service/exit_hook.go:24-30 | a hook still to be run stays below the running index under any operations that do not unregister it |
| ExitHooks.CalledOrPending | service/exit_hook.go:37-45 | after any number of calls, a starting hook whose function is never unregistered has been called or still lies ahead |
| ExitHooks.EveryStartingHookRuns | service/exit_hook.go:36-46 | every starting hook whose function is never unregistered during Run is called at least once |
| ExitHooks.BelowUntouched | service/exit_hook.go:24-40 | as long as no operation writes below the running index, the hooks still to be run are those of the start |
| ExitHooks.OpsKeepLeft | service/exit_hook.go:23-30 | a hook that has left its slot of Run's array never returns to it, under any operations |
| ExitHooks.BelowIsNotLifo | service/exit_hook.go:36-46 | one write below the running index, and some starting hook does not run in its turn |
| ExitHooks.ExactlyOnceLifo | service/exit_hook.go:36-46 | every starting hook runs exactly once, last registered first, if and only if no operation writes a slot still to be walked |
| ExitHooks.RemovalBelowRunsTwice | service/exit_hook.go:27-40 | a hook that removes the one registered before it is called twice |
| ExitHooks.QuietRun | service/exit_hook.go:36-46 | hooks that leave the list alone: the full reverse of the list, one error for each failing call in call order, list unchanged |
| JsonText.StringRoundTrip | star/codec.go:18-19 | an escaped string is read back and reading stops after its closing quote |
| JsonText.ValueRoundTrip | star/codec.go:18-19 | a printed document is read back whatever follows it |
| JsonText.RoundTrip | star/codec.go:18-19 | parsing undoes printing, for every document |
| JsonText.PrintNoControl | internal/internal_cadence.go:520-529 | printed text has no control character, so no raw newline |
| Decimal.Numerals | star/codec.go:18-64 | a number below ten is its digit, a larger one the digits of its tenth and its last digit |
| JsonText.PrintedScalars | star/codec.go:54-55 | null, true and false by name, and numbers in decimal with a minus sign when negative |
| JsonText.PrintedText | star/codec.go:18-64 | text without quotes, backslashes and characters outside space to tilde is quoted as it is |
| JsonText.PrintedArray | star/codec.go:35-53 | elements between brackets and commas without white space |
| JsonText.PrintedObject | star/codec.go:59-64 | members with a colon between braces and commas without white space |
| JsonForms.FormRead | star/codec.go:142-145 | a document written with any white space and any escapes is read as what it stands for, up to the text that follows |
| JsonForms.WrittenIsParsed | cmd/cadence_client_main/main.go:110-111 | a text that is such a document, with white space before and after it, parses to it |
| JsonForms.ParsesExactly | star/codec.go:142-145 | the parser accepts exactly the written documents and gives each its meaning |
| Base64.RoundTrip | star/codec.go:27-34 | decoding undoes encoding, and the encoding has exactly the announced length |
| Base64.Alphabet | star/codec.go:20 | the 64 digits |
| Base64.EncodedDigits | star/codec.go:27-34 | the i-th group of the encoding is the four digits of the i-th three bytes taken as one number of 24 bits, padded where the bytes end |
| Base64.KnownEncodings | star/codec.go:20 | encodings listed in section 10 of RFC 4648 |
| Base64.AcceptsExactly | star/codec.go:113-118 | text decodes if and only if it is whole quanta of digits of which at most the last two are padding instead |
| Base64.DecodedLength | star/codec.go:113-118 | the length of decoded text is that of an encoding of its result |
| Base64.BreaksIgnored | star/codec.go:113-118 | a line feed or carriage return anywhere changes nothing, and text without them is kept whole |
| Base64.Decode | star/codec.go:113-118 | the decoded count never exceeds the allocated length, for every input |
| Base64.EncodeQuoted | star/codec.go:29-34 | the buffer is filled exactly with the quoted encoding |
| Base64.ScanIsDecode | star/codec.go:99-118 | reading character by character, with line breaks anywhere, is decoding the text without its breaks |
| Base64.ScanInto | star/codec.go:113-118 | the loop over quanta writes each into the allocated buffer, never past its end, and stops at the first bad or padded one |
| Base64.DecodeBuffer | star/codec.go:99-118 | the written part of the buffer is the decoded text, its length that of the text, and whatever was encoded comes back |
| Starlark.KeywordsToStringDict | star/utils.go:77-85 | the entries of a keyword list, the last of several with one key winning |
| Starlark.KeywordsLookup | star/utils.go:77-85 | which keys appear and whose value they have |
| Starlark.Dataclass.constructor | star/dataclass.go:28-37 | a copy of the attributes with a codec |
| Starlark.Dataclass.SetField | star/dataclass.go:66-72 | sets an existing attribute and nothing else; refuses a new one |
| Starlark.ReviveIsComplete | star/codec.go:167-189 | the pure rewrite of any document value leaves no dictionary with a registered codec |
| Starlark.OnlyDataclassRevives | star/codec.go:169-181 | a dictionary is revived if and only if its codec is the string dataclass |
| Equality.EqualDepth | star/utils.go:68 | any answer is correct; there is one whenever either value nests less than the depth; equal values that do not nest less are the depth error |
| Equality.StringDictEqualDepth | star/utils.go:61-75 | the same for attribute tables, for every iteration order |
| Equality.CompareSameType | star/dataclass.go:52-64 | == and != answer accordingly; other operators are errors |
| ReplaceDict.NoDataIsJsonShaped | star/codec.go:226-234 | a tree of JSON cells holds a document value |
| ReplaceDict.RewrittenIsRevived | star/codec.go:167-189 | no tree of cells that has been rewritten holds a dictionary with a registered codec |
| ReplaceDict.Store.ReplaceDict | star/codec.go:187-235 | on a tree-shaped store the result holds the purely rewritten value, with no registered codec left in any dictionary; only the tree's own cells change; dictionaries keep key order and lists length; it fails exactly on trees that are not JSON data |
| ReplaceDict.Store.ReplaceInDict | star/codec.go:189-202 | the dictionary case |
| ReplaceDict.Store.ReplaceItself | star/codec.go:202 | the replacer's turn, once the items have been rewritten |
| ReplaceDict.Store.ReplaceInList | star/codec.go:204-224 | the list case |
| ReplaceDict.Store.Apply | star/codec.go:219-223 | the replacements of a list give the same list in any order |
| ReplaceDict.Store.CodecDictReplacer | star/codec.go:169-181 | a new dataclass cell exactly when the codec item is a registered string, else the dictionary itself |
| ReplaceDict.Store.NewDataclassFromDict | star/dataclass.go:39-42 | a new cell with a copy of the items |
| ReplaceDict.KidRewritten | star/codec.go:190-201 | rewriting one child leaves siblings, parent and the rest of the store alone |
| ReplaceDict.CodecItem | star/codec.go:170-177 | the codec item decides reviving |
| ReplaceDict.RevivedDict | star/codec.go:189-202 | rewriting children first and then the dictionary is the pure bottom-up rewrite |
| DecodeInPlace.ItemSet | star/codec.go:143-145 | setting a key of a dictionary under construction: a repeated key keeps its place and takes the later value |
| DecodeInPlace.Build | star/codec.go:143-145 | the cells of a parsed document: new, sharing nothing, and holding the document's value |
| DecodeInPlace.DecodeValue | star/codec.go:142-148 | parsing into cells and reviving in place gives the value of the pure reading, with no registered codec left in any dictionary, and never meets an unexpected type |
| Codec.SortedKeys | star/codec_test.go:49-55 | each key once, in order |
| Codec.LeqIsLexicographic | star/codec_test.go:49-55 | the key order: a prefix comes first, else the first character that differs decides |
| Codec.JsonRoundTrip | star/codec.go:59-64 | the document of a value reads back as the value with tuples as lists and dataclasses as dictionaries |
| Codec.DocumentOf | star/codec.go:59-64 | a list or tuple is the array of its elements in order; a dictionary or dataclass is an object with each key once, in key order |
| Codec.ValueOf | star/codec.go:142-145 | an array is the list of its elements in order; an object is a dictionary of its keys, the last of several members with one key winning |
| Codec.NormalIsFaithful | star/codec.go:169-181 | the wire changes only tuples if and only if no dictionary carries a registered codec and every dataclass does |
| Codec.Encode | star/codec.go:25-71 | the text for each kind of input, and the failures |
| Codec.EncodesExactly | star/codec.go:54-71 | lists, tuples and dictionaries are written if and only if what they hold is, dataclasses if and only if they also have their codec attribute, scalars always |
| Codec.EncodesOthers | star/codec.go:26-71 | keyword lists are written if and only if their tuples are, byte strings and nil always, other Go values never |
| Codec.Scalars | star/codec.go:36-64 | the text of nils, booleans, integers and strings |
| Codec.EncodeKeywords | star/codec.go:35-53 | the loop writes the array of the tuples |
| Codec.Decode | star/codec.go:73-165 | the result for each kind of output, and the failures, as the rows below describe it |
| Codec.WrittenDecodes | cmd/cadence_client_main/main.go:180-196 | a line that writes a document with any white space and any escapes has the value of the document, and goes into every target but raw bytes as the compact text does |
| Codec.OnlyWrittenDecodes | star/codec.go:142-148 | no other line has a value |
| Codec.TargetsExactly | star/codec.go:120-165 | for a line with a value: what each target receives, by the constructor of the value, and which failure it gives otherwise |
| Codec.ByteTargets | star/codec.go:99-119 | the byte targets: base64 text between quotes, or a JSON string of it, or null; which failure otherwise |
| Codec.KeywordsFromList | star/codec.go:237-244 | the tuples of a list of lists, or a panic on another element |
| Codec.TupleFromList | star/codec.go:246-252 | the elements in order |
| Codec.ScriptRoundTrip | star/codec.go:25-71 | every value that Encode accepts is decoded to its normal form |
| Codec.FaithfulRoundTrip | star/codec.go:25-181 | Decode(Encode(v)) is v with tuples as lists if and only if v is faithful to its codecs |
| Codec.RevivedOnTheWay | star/codec.go:169-181 | a dictionary with a registered codec comes back as a dataclass |
| Codec.NewDataclassSurvives | star/dataclass.go:28-37 | a new dataclass gets the codec attribute "dataclass" and comes back as itself when its attributes can be written and are faithful |
| Codec.UnfaithfulExample | star/codec.go:169-181 | the smallest such dictionary |
| Codec.TupleRoundTrip | star/codec.go:151-159 | decoding into a tuple restores the outer tuple |
| Codec.KeywordsRoundTrip | star/codec.go:120-133 | decoding into a keyword list restores its tuples |
| Codec.NilRoundTrip | star/codec.go:127-156 | null is the nil list, the nil tuple and None |
| Codec.BytesRoundTrip | star/codec.go:27-119 | every byte string survives, through either byte output |
| Codec.EncodedIsOneLine | internal/internal_cadence.go:528-529 | an encoded value contains no newline |
| Converters.ToData | internal/internal_cadence.go:509-532 | the framed lines of the vector or the first failure; a single byte value is its own bytes, in order |
| Converters.DeliverData | internal/internal_cadence.go:546-581 | frames go to targets in order; later targets stay untouched; failures and overruns as specified |
| Converters.FromData | internal/internal_cadence.go:534-582 | frames in order to the targets; a single byte target receives the data as it is |
| Converters.SingleBytes | internal/internal_cadence.go:510-541 | a single byte value through ToData and FromData leaves exactly its bytes in a byte target |
| Converters.ToPayloads | internal/internal_temporal.go:581-608 | one payload per value or the first failure; a single pointer to bytes is one payload of its bytes, in order |
| Converters.FromPayloads | internal/internal_temporal.go:610-622 | payloads go to targets in order; a missing payload is an end-of-file error |
| Converters.FramesStep | internal/internal_cadence.go:548-567 | reading one frame off the data |
| Converters.FramingRoundTrip | internal/internal_cadence.go:528-529 | framed lines come back, and without the last delimiter too if and only if the last line is not empty |
| Converters.CadenceFraming | internal/internal_cadence.go:534-582 | for any vector the decoder sees exactly the encoder's lines, one per value, without the last delimiter too when the last line is not empty |
| Converters.PanicsExactly | internal/internal_cadence.go:566 | the decoder indexes past its targets exactly when there are more frames than targets and every target could be filled |
| Converters.FirstFailure | internal/internal_cadence.go:546-581 | the first frame that cannot be decoded ends the delivery with its failure, and the targets before it are filled |
| Converters.PayloadsRunOut | internal/internal_temporal.go:610-622 | payloads that run out end the delivery, and the targets before are filled |
| Converters.FallbackDecodes | internal/internal_cadence.go:568-576 | whatever the script codec fails with, both decoders deliver the answer of the Go JSON library |
| Converters.FallbackEncodes | internal/internal_cadence.go:519-529 | whatever the script codec fails with, both encoders write the text of the Go JSON library or fail as it does |
| Converters.ValueCarried | star/codec.go:25-165 | the line of any value that suits a target is one line and delivers what the value is restored to |
| Converters.VectorRoundTrip | internal/internal_cadence.go:509-582 | any vector outside the raw-bytes shortcuts, of byte strings, keyword lists, tuples, script values, nils and Go values, is restored in as many targets that suit it, with or without the last delimiter |
| Converters.PayloadsRoundTrip | internal/internal_temporal.go:581-666 | the same through payloads |
| Converters.PayloadRoundTrip | internal/internal_temporal.go:624-666 | one value through one payload |
| Converters.DictTarget | star/codec.go:160-162 | a dictionary target takes every dictionary back but one with a registered codec, which is refused |
| Converters.StartVectorRoundTrip | client/cadence_client/client.go:40-55 | the vector that starts a workflow arrives whole unless its environment carries a registered codec |
| Converters.EncodersAgree | internal/internal_temporal.go:599-637 | both encoders fail alike, and Cadence's data is the concatenation of Temporal's payloads |
| Converters.DecodersAgree | internal/internal_temporal.go:610-666 | both decoders deliver the same to equally many targets |
| Paths.WithinIsPrefix | client/cadence_client/client.go:131-133 | a path lies in a directory if and only if the directory's components are its first components |
| Paths.EscapesExactly | client/cadence_client/client.go:90-100 | the relative name leads out of the root if and only if the file does not lie in it |
| Paths.RelRoundTrip | client/cadence_client/client.go:90-100 | joining the root and a file's relative name gives the file, so names are unique |
| Paths.AbsOfNames | client/cadence_client/client.go:127-129 | a relative path of names lies below the working directory, a rooted one is itself |
| Paths.DotsCancelled | client/cadence_client/client.go:123-129 | empty components and . are dropped, .. removes the name before it and nothing at the root |
| Packager.StraysExactly | client/cadence_client/client.go:131-133 | the prefix test lets a load out of the root if and only if it names the root string followed by a character other than / |
| Packager.SiblingStrays | client/cadence_client/client.go:123-133 | below every root but / there are such loads |
| Packager.StrayExample | client/cadence_client/client.go:123-133 | one of them |
| Packager.ResolveExactly | client/cadence_client/client.go:113-133 | a load after @ is a plug-in; one after // names a file below the root, a rooted one itself, another one a file below the working directory; refused exactly when the root string is no prefix |
| Packager.FollowsExactly | client/cadence_client/client.go:139-160 | the search follows the loads of the .star files that parse, and of no other file |
| Packager.BrokenExactly | client/cadence_client/client.go:131-160 | what cannot be packed: an unreadable file, a .star file that does not parse, a script that loads from outside the root |
| Packager.AllWithin | client/cadence_client/client.go:123-160 | all files reached lie in the root if and only if no load on the way strays |
| Packager.ArchiveHolds | client/cadence_client/client.go:86-102 | every packed file is in the archive with what the disk holds at it, under its relative name, and nothing else is |
| Packager.Packaging.OnLoad | client/cadence_client/client.go:88-103 | stores what the disk holds at a readable file under its name relative to the root, fails on another |
| Packager.Packaging.Load | client/cadence_client/client.go:111-163 | terminates on cyclic graphs; adds only reached files, each once; on success everything added is closed under loads; a failure has a reachable cause |
| Packager.Packaging.LoadAll | client/cadence_client/client.go:155-160 | the loop over the load statements of a script |
| Packager.ClosedHoldsChain | client/cadence_client/client.go:155-160 | a set closed under loads holds everything reachable from it |
| Packager.Package | client/cadence_client/client.go:79-109 | succeeds if and only if every reachable file can be packed, and then calls back once for each of them and no other; the archive holds, under the relative name of each, the text of the file or script on the disk, and nothing else; the files lie in the root if and only if no load on the way strays |
| Text.SplitJoin | ext/json_path.go:22 | splitting undoes joining |
| JsonPath.StepInto | ext/json_path.go:22-60 | one component, with no index out of range |
| JsonPath.JP | ext/json_path.go:9-65 | the result of following the components of the path |
| JsonPath.SegmentComponent | ext/json_path.go:31-43 | a rendered segment is read as its field and index |
| JsonPath.PathRoundTrip | ext/json_path.go:15-65 | printing any accepted segments and running the path is walking the structure, failures included |
| JsonPath.BarePathRoundTrip | ext/json_path_test.go:24-56 | the same for paths without the leading $., with a first field called $ taken for the root |
| JsonPath.TypedBy | ext/json_path.go:61-65 | what each type parameter accepts, by the constructor of the value found |
| JsonPath.RefusedExactly | ext/json_path.go:15-17 | a path is unsupported if and only if it has two dots in a row or one of ten characters |
| JsonPath.BadComponents | ext/json_path.go:32-43 | a closing bracket without an opening one, or without an integer between them, is a bad path |
| JsonPath.NegativeIndexIgnored | ext/json_path.go:31-60 | a negative index is read and ignored |

## Left out

- Codec.Encode: does not represent floats, byte strings inside values, non-string dictionary keys, cyclic values and functions, because values are finite trees of the modelled types.
- Codec.Decode: refuses a number with a fraction or an exponent, which the source decodes to a float, because floats are not modelled.
- ConcurrentModule.StartBatch: asks for a concurrency that is not negative, because the channel that a negative one would size belongs to the workflow SDK.
- The Cadence and Temporal SDK wrappers, workers, clients, reflection helpers, loggers, metrics and header propagators: thin calls into libraries that are not part of this model.
- Starlark evaluation: a callable is known by the outcome its future resolves with.
- Panicking factories, which skip the semaphore release.
- Nil tuples inside keyword lists.
- UTF-8: text is modelled as Unicode scalar values, raw data as characters below 256.
- Vectors that mix the two backends' raw-bytes shortcuts, which differ.
- The bytes of the compressed archive: it is a map from name to content.
- Symbolic links and volume names in paths: paths are lexical.
- The claim that `isCanceled` means cancelled: every custom error satisfies the interface it is tested against.
- Option mappings, HTTP activities, hashing, random numbers, UUIDs and command-line parsing: single calls and finite tables, with no state or protocol of their own.
