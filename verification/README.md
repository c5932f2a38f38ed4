# A verified model of the viewer's concurrent, wire, scripting and media code

Thirty-five Dafny modules model the parts of the repository whose correctness is hardest to see
from reading them, and prove what those parts are for.

* **Admission and single flight.** `Gate` is the priority admission gate, as a class over its locked
  state and as a transition system in which every task's lock, sleep, claim, release, cancellation
  and notification are steps of their own. `AssetStore` puts the weak-reference store with its
  per-asset fetch lock on top of it. Safety is proved of every interleaving, and liveness under every
  scheduler: without new work every run ends, and where it ends nobody is left waiting.
* **Wire codec.** `WireFields`, `WireCodec` and `WireGenerated` interpret a message template the way
  the generated `encode_body` and `decode_body` do, so that round trip, refusal, truncation,
  zero-tail and dispatch theorems hold of every template. `WireBytes` says, without the codec, which
  bytes a value of each type is, and that these are the bytes written and read.
* **Selectors.** `SelectorText`, `SelectorGrammar`, `SelectorScanner`, `Locators` and `WorldLocators`
  hold the printer and the parser of UI and world locators, the parser both as the scanner class and
  as the grammar the class refines, and prove that parsing inverts printing. `SelectorSpelling`,
  `SelectorMeaning` and `WorldMeaning` say, without printer or parser, how a criterion may be spelled and
  what a selector means, and that this is what the parser answers, or refuses at the key at fault.
* **Graph algorithms.** `CriticalPath` (Kahn order, longest-path schedule, walk back), `CycleDetection`
  (three-colour depth-first search) and `Roadmap` (the whole validator) over the notions of `Digraph`.
* **Animation.** `Blend` (joint blending), `Playback` (looping, easing, curve sampling), `MotionFormat`
  (the file format as a grammar), `MotionLayout` (which bytes of a file are which field of the motion, told
  without a reader; a file is accepted exactly as the motion it is laid out as),
  `MotionCursor` (the decoder that reads it) and `Quaternions` (what becomes of the rotations it decodes).
* **Bounded stores.** `DiskFiles` (the cache's files as inodes, temporary paths and writers that share
  them), `DiskIndex` (its least-recently-written index), `DiskBooks` (the index against the files while
  several tasks write and evict), `VoicePool` and `Mixer` (voice stealing, and the mixer's bookkeeping
  that must agree with the pool).
* **Small laws.** `JsonIncludes` (structural inclusion) and `AccountDirs` (account directories that
  follow an avatar through renames).

`Wrappers` holds `Option` and `Result`, `Vectors` the vectors and quaternions, `Sequences` a fact about
joining sequences; `Tally` sums a measure over the tasks of a transition system.

Code that updates state in place is modelled by classes, or by methods with loops, each proved against
a function or predicate; the theorems are lemmas about those. File operations, the audio graph, the
network and the scheduler are parameters or nondeterministic steps, so that the theorems hold whatever
they do.

Some promises turned out to hold only under a condition. For each of them the exact condition is proved,
and a lemma names an input at which the promise fails:

* a cache hit returns the last bytes written for its id as long as the writes of one id do not overlap.
  Writers of one id share a temporary file, and nothing keeps them apart: the store locks an asset by id
  and class, the cache files it by id alone. `DiskFiles.TornHit` is a run in which a hit is empty and then
  half written; `DiskFiles.MayBeginExactlyWhenFree` says that a write may begin, whatever its bytes,
  exactly if no other write of its id is under way;
* every recorded asset nobody is writing has its file as long as the work on one id does not overlap. What is
  purged is chosen inside other tasks' writes, so a file may be put in place, whatever its size, exactly if
  its id is not in the index and nobody is about to record it or to remove its old file
  (`DiskBooks.MayPlaceExactlyWhenClear`; failing for an indexed id in `DiskBooks.PurgeOvertakesRecord`), and
  victims may be chosen exactly if none of them is being written (`DiskBooks.MayChooseExactlyWhenSpared`);
* the cache's total counts right after a write exactly if the sizes fit in 64 bits
  (`DiskIndex.RecordedIsExact`, failing in `DiskIndex.SaturatesTooFar`), and after opening exactly if no
  file that holds anything shares its id with a later one (`DiskIndex.ScanIsExact`, failing in
  `DiskIndex.ShadowedIsCounted`);
* the reverse index of account directories stays injective exactly if an avatar first seen does not use a
  claimed name (`AccountDirs.InjectiveExactlyWhen`, failing in `AccountDirs.FirstSeenTakesOver`);
* logins keep the reverse index exactly if no avatar's entry names the index directory, `.by-uuid`, which is
  a name an avatar can be given: renaming that avatar's directory moves the whole index away
  (`AccountDirs.IndexSurvivesExactlyWhen`, `AccountDirs.DataFollowsAvatar` and
  `AccountDirs.OthersKeepTheirData` for one login; failing in `AccountDirs.LosingIndexLosesData`);
* after an interrupted rename the next login finds the data exactly unless removing the old index entry
  was what failed and the index still there (`AccountDirs.RecoversExactlyWhen`, failing in `AccountDirs.InterruptedRenameLosesData`);
* a finished animation is silent if it was stopped or loops; otherwise exactly if its ease-out is not
  negative, or its duration is no longer than that (`Playback.SilentExactlyWhen` for all times,
  `Playback.SilentFromTheStartExactlyWhen` for those from its start on; failing in
  `Playback.FinishedWithWeight`);
* a looping animation stays in its loop window exactly if the loop-in point lies before the loop-out point
  (`Playback.LoopStaysInWindow`, which also says where it is otherwise);
* a curve passes through a key, whatever its values, exactly if all keys before it are earlier, which nothing
  in a file ensures (`Playback.SampleHitsKeysExactlyWhen`);
* a rotation decoded from a new animation file is a unit quaternion exactly if the three numbers stored for
  it leave room for a fourth (`Quaternions.DecodedRotations`, failing in `Quaternions.LargestIsTooLong`);
* the mixer's voices and its pool agree after a voice starts exactly if the id it gets is not that of a voice
  still playing, which the 64-bit counter ensures until it wraps (`Mixer.Mixer.Play`, `Mixer.AddedAgrees`;
  failing in `Mixer.WrappedIdStaysInPool`);
* a decoded message comes back as the variant that was sent exactly if no earlier message of the template
  has its id (`WireCodec.DispatchInverts`, failing in `WireCodec.SecondComesBackAsFirst`).

## Model

| member | source | states |
|---|---|---|
| Gate.PriorityGate.constructor | sl-asset-sched/src/gate.rs:46-56 | a gate of capacity zero admits one; all slots free, nobody queued |
| Gate.PriorityGate.Push | sl-asset-sched/src/gate.rs:62-65 | queues the id; an id at the front stays there unless the newcomer outranks it |
| Gate.PriorityGate.TryClaim | sl-asset-sched/src/gate.rs:74-84 | takes a slot and leaves the queue if the id is at the front and a slot is free, else changes nothing |
| Gate.PriorityGate.SetPriority | sl-asset-sched/src/gate.rs:94-100 | changes the priority of a queued id only; the front is again an id of highest priority |
| Gate.PriorityGate.Remove | sl-asset-sched/src/gate.rs:105-109 | takes the id out of the queue, if it is in it |
| Gate.PriorityGate.Release | sl-asset-sched/src/gate.rs:130-134 | gives one slot back, never beyond capacity |
| Gate.PriorityGate.Stats | sl-asset-sched/src/gate.rs:116-127 | free slots and permits in flight add up to the capacity |
| Gate.AccountedStep | sl-asset-sched/src/gate.rs:61-136 | every step keeps free slots plus held permits equal to capacity and the queue equal to the waiting tasks, so the clamp in `release` never takes effect |
| Gate.FrontNotLostStep | sl-asset-sched/src/gate.rs:72-136 | every step keeps: if the front waiter sleeps un-notified, a permit is held or a notification is still to be sent |
| Gate.InvRun | sl-asset-sched/src/gate.rs:61-173 | both invariants hold at every point of every run, in every interleaving of acquire, cancel, re-prioritise and release |
| Gate.AdmissionByPriority | sl-asset-sched/src/gate.rs:76-88 | whoever is admitted is outranked by no waiter, and the permits held stay within capacity |
| Gate.SystemStepDecreases | sl-asset-sched/src/gate.rs:72-90 | every step that is not a new arrival, cancellation or re-prioritisation uses up a potential: tasks cannot wake each other for ever |
| Gate.StepExists | sl-asset-sched/src/gate.rs:61-136 | an enabled step of an invariant state has a successor, so the theorems are not about an empty system |
| Gate.QuiescentIsIdle | sl-asset-sched/src/gate.rs:61-136 | no stuck state: where no task can move, nobody waits, nobody holds a permit and all slots are free |
| Gate.EveryWaiterIsAdmitted | sl-asset-sched/src/gate.rs:58-91 | from every reachable state, under every scheduler, the run without new work is finite, and where it ends every task that waited has had its permit |
| AssetStore.SharedMap.ResolveEntry | sl-asset/src/store.rs:298-314 | the live entry of the asset, else a fresh one that the index now names |
| AssetStore.SharedMap.Peek | sl-asset/src/store.rs:128-133 | answers exactly where `resolve_entry` would create nothing, and with the entry it would answer |
| AssetStore.SharedMap.Sweep | sl-asset/src/store.rs:150-157 | exactly the dead references go, and as many are counted as collected |
| AssetStore.InvStep | sl-asset/src/store.rs:206-248 | every step of every `get` keeps the index, the locks, the data and the gate requests in agreement |
| AssetStore.InvRun | sl-asset/src/store.rs:206-314 | the agreement holds throughout every run with calls, sweeps, cancellations and dropped handles |
| AssetStore.StepExists | sl-asset/src/store.rs:206-314 | an enabled step of an invariant state has a successor, so the theorems are not about an empty system |
| AssetStore.OneLiveEntryPerAsset | sl-asset/src/store.rs:298-314 | two handles to one asset are handles to one entry |
| AssetStore.KeptRun | sl-asset/src/store.rs:235-240 | over every run entries keep their asset, and bytes once present stay as they are |
| AssetStore.AtMostOneLoad | sl-asset/src/store.rs:219-240 | single flight: an answered entry was loaded successfully exactly once, and every later holder sees the bytes of that load |
| AssetStore.ReferencedAssetIsNotRefetched | sl-asset/src/store.rs:211-217 | in every run, a `get` whose asset somebody holds when its entry is resolved is answered from memory with the same bytes, without the gate or a load, whatever other tasks do before it looks |
| AssetStore.EverySystemRunEnds | sl-asset/src/store.rs:206-248 | under every scheduler a run without new calls, drops or sweeps is finite |
| AssetStore.EveryGetIsAnswered | sl-asset/src/store.rs:219-292 | taking the fetch lock before the gate leaves no deadlock: where no task can move every `get` is answered; it is gone exactly if it was cancelled or has dropped its handle, or its static library, its disk and its network load all found nothing, and otherwise its caller holds an entry with the bytes present |
| AssetStore.LoadsGoInOrder | sl-asset/src/store.rs:255-292 | in every run a `get` asks the disk only after its static library load found nothing, and the network only after both did; bytes come from the library and the disk only where there are such; and after a load that found bytes no other source is asked |
| AssetStore.BytesAreThoseLoaded | sl-asset/src/store.rs:233-292 | in every run, what an entry holds are the bytes that a load of one of its holders found |
| AssetStore.AnsweredWithItsAsset | sl-asset/src/store.rs:206-314 | in every run, the entry a call works on and is answered with is one of the asset that call named |
| AssetStore.ProgressIsTrue | sl-asset/src/store.rs:235-292 | in every run, an entry whose bytes are present shows as ready with their number, but for the moment before its loader has announced it |
| AssetStore.EveryEntryIsAccounted | sl-asset/src/store.rs:150-314 | over every run the entries ever made are those in the index, those counted as collected, and those replaced at the next `get` after their last handle had gone |
| WireFields.LittleEndianRoundTrip | sl-wire/src/field.rs:257-300 | an integer that fits its width is what its little-endian bytes read as |
| WireFields.LittleEndianDigit | sl-wire/src/field.rs:448-470 | byte i on the wire is digit i of the number to the base 256, the lowest first |
| WireFields.Writer.PutChunk | sl-wire/src/field.rs:524-548 | appends the bytes with their length prefix, or refuses bytes too long for the prefix and appends nothing |
| WireFields.Reader.Take | sl-wire/src/field.rs:142-165 | yields the next bytes of a fixed array, filled up with zeros by a zero-tailed reader; a strict one fails at the end of the data and leaves the position |
| WireFields.Reader.TakeChunk | sl-wire/src/field.rs:142-222 | reads the bytes of a fixed array or a length-prefixed string, a zero-tailed reader filling up what is missing with zeros |
| WireFields.Reader.BlockCount | sl-wire/src/field.rs:170-177 | the count of an omittable block, zero at the end of the data |
| WireFields.ReadBackPrims | sl-wire/src/field.rs:142-222 | what the writer wrote for a sequence of primitives reads back, and exactly it is consumed |
| WireFields.CutPrims | sl-wire/src/field.rs:102-120 | a strict reader fails on encoded primitives that are cut anywhere before their end |
| WireFields.ZeroTailTake | sl-wire/src/field.rs:142-165 | a zero-tailed reader reads short data as a strict one reads the data followed by zeros |
| WireCodec.DecodeInvertsEncode | sl-wire/build.rs:180-239 | for every template and accepted body, with any bytes before and after, decoding yields the body as received and consumes exactly the encoded bytes |
| WireCodec.DecodeInvertsWhole | sl-wire/build.rs:180-239 | decoding a buffer that holds just an encoded body yields the body as received and consumes all of it |
| WireCodec.ReceivedIffFullyWritten | sl-wire/build.rs:527-573 | the receiver's value is the sender's exactly if every rotation's fourth component is the rebuilt one, the only part not written |
| WireCodec.FieldRefusal | sl-wire/build.rs:552-573 | a field is refused exactly if it is a byte string too long for its length prefix |
| WireCodec.FieldOccupies | sl-wire/build.rs:552-573 | every written field takes the number of bytes its type prescribes, and a byte string follows its little-endian length; which bytes they are is in `WireBytes.FieldIsWritten` |
| WireCodec.EncodeRefusal | sl-wire/build.rs:250-315 | a body is refused exactly for a `Multiple` block of another length, a `Variable` block of more than 255 items, or an over-long byte string |
| WireCodec.TrailingVariableRun | sl-wire/build.rs:241-247 | everything from the result on is `Variable`, and the block before it is not |
| WireCodec.CutBlock | sl-wire/build.rs:318-351 | a block cut anywhere but before an omittable count does not decode |
| WireCodec.OmittedFromIsBoundary | sl-wire/build.rs:229-247 | a cut can be taken as an omission at block k exactly if k is in the trailing run and the cut is where k starts |
| WireCodec.TruncationIsOmission | sl-wire/build.rs:229-247 | a proper prefix of an encoded body decodes if and only if it ends where a block of the trailing `Variable` run starts; it then yields the body with that block and all later ones empty |
| WireCodec.ZeroTailRestores | sl-wire/src/field.rs:60-70 | if zeros were cut from the end of an encoded body, a zero-tailed reader still yields the body as received |
| WireCodec.ZeroTailBodyNeverFails | sl-wire/src/field.rs:142-177 | a zero-tailed reader decodes any bytes for any template |
| WireCodec.DecodedBodyIsStable | sl-wire/build.rs:180-239 | whatever bytes a body was decoded from, the encoder accepts it and its encoding decodes to it again |
| WireCodec.DispatchInverts | sl-wire/build.rs:407-423 | a fully written message comes back under its id as the message it was, exactly if no earlier message has that id |
| WireCodec.SecondComesBackAsFirst | sl-wire/build.rs:407-423 | two messages with one id: the second comes back as the first |
| WireBytes.FieldIsWritten | sl-wire/build.rs:552-573 | for every field type, the bytes written: a `Bool` is one or zero, a number its digits to the base 256 from the lowest, a negative one its two's complement, floats of a vector or rotation one after the other in the order x, y, z, and raw bytes as they are, behind their length where they have one |
| WireBytes.FieldIsRead | sl-wire/build.rs:527-549 | for every field type and any bytes, what a reader makes of them and where it stops: every byte but zero is true, and a zero-tailed reader sees zeros behind the data |
| WireBytes.FieldsComeInOrder | sl-wire/build.rs:250-315 | a struct's fields stand one behind the other in the order of the template |
| WireBytes.ItemsComeInOrder | sl-wire/build.rs:262-315 | the items of a block stand one behind the other |
| WireBytes.BlocksComeInOrder | sl-wire/build.rs:195-212 | the blocks of a body stand one behind the other |
| WireBytes.CountComesFirst | sl-wire/build.rs:289-315 | a `Variable` block begins with the byte that is the number of its items; no other block has one |
| WireGenerated.WriteItem | sl-wire/build.rs:552-573 | writing a struct's fields one after another appends its encoding and stops at the first refusal |
| WireGenerated.WriteItems | sl-wire/build.rs:262-312 | the loop over a block's items appends their encoding |
| WireGenerated.WriteCount | sl-wire/build.rs:250-315 | the length check of a `Multiple` block, the limit of 255 items of a `Variable` one, and its count byte |
| WireGenerated.WriteBlock | sl-wire/build.rs:250-315 | the checks, the count byte and the items of a block, up to the first refusal |
| WireGenerated.WriteBody | sl-wire/build.rs:195-212 | the generated `encode_body` writes what the encoding function says |
| WireGenerated.TakeField | sl-wire/build.rs:527-549 | reads one field of the given type, with the error and the position that the decoding function says |
| WireGenerated.TakeItem | sl-wire/build.rs:341-351 | reads the fields of a struct in order, up to the first failure |
| WireGenerated.TakeBlock | sl-wire/build.rs:318-338 | reads as many items as the cardinality or the count byte demands, none for an omitted trailing block |
| WireGenerated.TakeBody | sl-wire/build.rs:214-236 | the generated `decode_body` reads what the decoding function says |
| SelectorText.NumeralReads | sl-automation-proto/src/selector.rs:352-360 | every number's numeral is plain text and reads as that number |
| SelectorText.ParsesUnsigned | sl-automation-proto/src/selector.rs:352-360 | numbers up to the type's largest print and parse back |
| SelectorGrammar.EscapedReads | sl-automation-proto/src/selector.rs:255-297 | an escaped text up to its closing quote reads as the text, whatever its characters |
| SelectorGrammar.WriteValueRenders | sl-automation-proto/src/selector.rs:539-564 | what is printed for a value, bare or quoted, reads as the value |
| SelectorGrammar.BracketedIsWritable | sl-automation-proto/src/selector.rs:212-252 | a printed attribute reads as its key, operator and value, whatever follows it |
| SelectorGrammar.ItemsRead | sl-automation-proto/src/selector.rs:196-203 | a run of printed attributes reads as those attributes |
| SelectorGrammar.StepReads | sl-automation-proto/src/selector.rs:188-208 | a printed step reads as its head and attributes and ends where it ends |
| SelectorGrammar.ReadStepsInside | sl-automation-proto/src/selector.rs:172-185 | every column remembered for later errors lies in the selector |
| SelectorScanner.Scanner.Bump | sl-automation-proto/src/selector.rs:117-121 | takes the next character, if there is one, and moves one place on |
| SelectorScanner.Scanner.Eat | sl-automation-proto/src/selector.rs:129-136 | takes a text exactly if it comes next |
| SelectorScanner.Scanner.SkipSpace | sl-automation-proto/src/selector.rs:139-143 | stops at the first character that is no space |
| SelectorScanner.Scanner.Ident | sl-automation-proto/src/selector.rs:146-155 | takes the longest run of identifier characters |
| SelectorScanner.Scanner.Escape | sl-automation-proto/src/selector.rs:270-297 | an escape reads as the grammar says, errors and their columns included |
| SelectorScanner.Scanner.Quoted | sl-automation-proto/src/selector.rs:255-267 | a quoted string reads as the grammar says, errors and their columns included |
| SelectorScanner.Scanner.Bare | sl-automation-proto/src/selector.rs:236-250 | an unquoted value reads as the grammar says, errors and their columns included |
| SelectorScanner.Scanner.Attribute | sl-automation-proto/src/selector.rs:212-252 | a key, an operator and a value read as the grammar says, errors and their columns included |
| SelectorScanner.Scanner.Attributes | sl-automation-proto/src/selector.rs:196-203 | a run of bracketed attributes reads as the grammar says, errors and their columns included |
| SelectorScanner.Scanner.OneStep | sl-automation-proto/src/selector.rs:188-208 | the head of a step and its attributes read as the grammar says, errors and their columns included |
| SelectorScanner.Scanner.Selector | sl-automation-proto/src/selector.rs:172-185 | a whole selector reads as the grammar says, errors and their columns included; the loops end on every input |
| SelectorScanner.FillLocator | sl-automation-proto/src/selector.rs:362-424 | filling the slots of a locator attribute by attribute, repeated and unknown keys refused |
| SelectorScanner.NestSteps | sl-automation-proto/src/selector.rs:303-316 | each step's locator is scoped to the one before |
| SelectorScanner.LocatorFromString | sl-automation-proto/src/selector.rs:300-316 | the imperative parser of UI locators computes the function that the theorems are about |
| SelectorScanner.FillWorld | sl-automation-proto/src/selector.rs:440-511 | filling the slots of a world locator attribute by attribute, repeated and unknown keys refused, and joining its anchor with its radius at the end |
| SelectorScanner.WorldLocatorFromString | sl-automation-proto/src/selector.rs:426-437 | the imperative parser of world locators, which takes exactly one step, computes the function that the theorems are about |
| Locators.RoleFound | sl-automation-proto/src/snapshot.rs:74-131 | every role is found by its own name |
| Locators.UiStepReads | sl-automation-proto/src/selector.rs:592-638 | one printed step fills exactly the slots of its locator |
| Locators.NestedReads | sl-automation-proto/src/selector.rs:303-316 | the printed steps nest back into the scopes they came from |
| Locators.PrintedLocatorParses | sl-automation-proto/src/selector.rs:592-638 | parsing the print of any locator, of any scope depth and with any characters in its strings, returns that locator |
| Locators.PrintingIsInjective | sl-automation-proto/src/selector.rs:592-638 | no two UI locators print alike |
| Locators.ErrorColumnIsInside | sl-automation-proto/src/selector.rs:158-169 | every refusal names a column from 1 to one past the end |
| SelectorSpelling.DigitsAre | sl-automation-proto/src/selector.rs:284-296 | each decimal and hexadecimal digit, of either case, has its own value |
| SelectorSpelling.PlaceValue | sl-automation-proto/src/selector.rs:284-296 | a numeral is worth its front times the base for each digit behind it, and what those digits are worth |
| SelectorSpelling.TrimIs | sl-automation-proto/src/selector.rs:247 | trimming takes off spaces at both ends, up to characters that are none, and nothing else |
| SelectorSpelling.PiecesRead | sl-automation-proto/src/selector.rs:255-297 | a quoted text is read character by character: as it is, or what the short escapes and the hexadecimal ones stand for |
| SelectorSpelling.SpelledRenders | sl-automation-proto/src/selector.rs:225-250 | a value in the open, trimmed, or in quotes is read as the text it spells, whatever spaces follow it |
| SelectorSpelling.CriterionReads | sl-automation-proto/src/selector.rs:212-252 | whatever the spaces around its parts and however its value is spelled, a criterion is read as its key, `=` or `~=`, and its value |
| SelectorMeaning.AttributesMean | sl-automation-proto/src/selector.rs:319-424 | applying attributes in turn yields what they all mean, or the fault of the first that has one, at the position of its key |
| SelectorMeaning.LookupFinds | sl-automation-proto/src/selector.rs:378-411 | a slot's attribute is one with that key, and is found if there is one |
| SelectorMeaning.UiApplies | sl-automation-proto/src/selector.rs:319-424 | one more attribute fills the slot of its key with what it says, or is refused as unknown, as taking `=` only, as a wrong value or as given twice |
| SelectorMeaning.SelectorMeans | sl-automation-proto/src/selector.rs:300-424 | however it is spelled, a selector of one step is read as the locator its criteria mean: for each key what the attribute with it says, `=` exactly the text and `~=` one that contains it; an unknown key, `~=` on any other key, a value the key does not take and a key given twice are refused at that key's column, the first one that is |
| SelectorMeaning.StepsMean | sl-automation-proto/src/selector.rs:172-424 | however it is spelled, a selector of any number of steps is read as the locator of its last step within that of the step before it, and so on, each with the role of its head and what its criteria mean; or it is refused at the column of the first key at fault in the first step with one |
| SelectorMeaning.NameMeans | sl-automation-proto/src/selector.rs:343-379 | for every text, `[name=...]` asks for exactly it and `[name~=...]` for a name that contains it |
| SelectorMeaning.NameKeyMeans | sl-automation-proto/src/selector.rs:333-383 | for every text, `[name_key=...]` asks for that key, and `[name_key~=...]` is refused at column two |
| SelectorMeaning.TestIdMeans | sl-automation-proto/src/selector.rs:333-387 | for every text, `[test_id=...]` asks for that id, and `[test_id~=...]` is refused at column two |
| SelectorMeaning.NthMeans | sl-automation-proto/src/selector.rs:408-411 | `[nth=...]` asks for that index, for every index |
| SelectorMeaning.EnabledMeans | sl-automation-proto/src/selector.rs:388-391 | `[enabled=true]` and `[enabled=false]` ask for that state |
| SelectorMeaning.CheckedMeans | sl-automation-proto/src/selector.rs:392-395 | `[checked=true]` and `[checked=false]` ask for that state |
| SelectorMeaning.SelectedMeans | sl-automation-proto/src/selector.rs:396-399 | `[selected=true]` and `[selected=false]` ask for that state |
| SelectorMeaning.ExpandedMeans | sl-automation-proto/src/selector.rs:400-403 | `[expanded=true]` and `[expanded=false]` ask for that state |
| SelectorMeaning.FocusedMeans | sl-automation-proto/src/selector.rs:404-407 | `[focused=true]` and `[focused=false]` ask for that state |
| SelectorMeaning.RoleMeans | sl-automation-proto/src/selector.rs:364-376 | each role is asked for by its own name |
| SelectorMeaning.UnknownHeadRefused | sl-automation-proto/src/selector.rs:364-376 | any other head is refused at the first column |
| SelectorMeaning.ScopeComesFirst | sl-automation-proto/src/selector.rs:303-316 | what stands before `>>` is the scope of what stands behind it |
| WorldLocators.AnchorReads | sl-automation-proto/src/selector.rs:514-536 | an anchor's text is plain and reads as the anchor |
| WorldLocators.PrintedWorldParses | sl-automation-proto/src/selector.rs:641-683 | parsing the print of any world locator without NaN returns it |
| WorldLocators.PrintingWorldsIsInjective | sl-automation-proto/src/selector.rs:641-683 | no two world locators without NaN print alike |
| WorldLocators.WorldErrorColumnIsInside | sl-automation-proto/src/selector.rs:426-511 | every refusal of a world selector names a column from 1 to one past the end |
| WorldMeaning.AllParse | sl-automation-proto/src/selector.rs:519-529 | the parts of a position are all numbers exactly if they parse, each as its own number |
| WorldMeaning.SplitIs | sl-automation-proto/src/selector.rs:520 | splitting at the commas leaves out the commas and nothing else |
| WorldMeaning.WorldApplies | sl-automation-proto/src/selector.rs:319-505 | one more attribute fills the slot of its key with what it says, or is refused as unknown, as taking `=` only, as a wrong value or position, or as given twice |
| WorldMeaning.WorldSelectorMeans | sl-automation-proto/src/selector.rs:426-536 | however it is spelled, a world selector is read as the locator its criteria mean, x, y and z in that order; a criterion at fault is refused at its key's column, the first one that is, and a radius without a position at the radius's |
| WorldMeaning.WorldNameMeans | sl-automation-proto/src/selector.rs:343-463 | for every text, `[name=...]` asks for exactly it and `[name~=...]` for a name that contains it |
| WorldMeaning.HoverTextMeans | sl-automation-proto/src/selector.rs:343-480 | for every text, `[hover_text=...]` asks for exactly it and `[hover_text~=...]` for one that contains it |
| WorldMeaning.UnknownKindRefused | sl-automation-proto/src/selector.rs:440-454 | a head other than the three kinds is refused at the first column |
| WorldMeaning.OneStepAllowed | sl-automation-proto/src/selector.rs:429-436 | a selector with a scope is refused |
| CriticalPath.BuildEdges | scripts/build-critical-path.py:83-102 | both adjacency lists hold every edge to a known unit as often as it is declared, in order |
| CriticalPath.TopologicalOrder | scripts/build-critical-path.py:105-119 | the order lists every unit once, every producer before its consumers; it exists exactly if the indices are distinct and the graph is acyclic |
| CriticalPath.StuckIsCyclic | scripts/build-critical-path.py:110-118 | an empty worklist with units left over means a cycle |
| CriticalPath.ReadClock | scripts/build-critical-path.py:138-146 | every unit's own or overriding times, its metadata time falling back to the full time |
| CriticalPath.Solve | scripts/build-critical-path.py:122-163 | exactly for an acyclic graph of distinct units, a schedule in which each start is the latest release among its producers and `best_pred` is a producer that attains it; on the units' own fields, a consumer in `unblocked` starts no earlier than its producer's start plus its duration, one in `unblocked_rmeta` no earlier than the start plus the metadata time, or the duration where that is missing or zero, and every start is zero or one of these |
| CriticalPath.EarliestIsLongestPath | scripts/build-critical-path.py:152-162 | the start of every unit bounds the weight of all paths to it and is the weight of one of them |
| CriticalPath.LastToFinish | scripts/build-critical-path.py:171 | a unit that no other finishes after |
| CriticalPath.WalkBack | scripts/build-critical-path.py:172-174 | the walk follows gating producers and ends at a unit without one |
| CriticalPath.FindCriticalPath | scripts/build-critical-path.py:166-176 | a gated chain whose last unit finishes last of all |
| CriticalPath.CriticalPathIsLongest | scripts/build-critical-path.py:166-176 | the chain starts at time zero, is a path of real edges, and no serial chain of the graph takes longer |
| CycleDetection.Detector.Visit | roadmap/index.py:301-316 | visiting a white task leaves it black, the path as it was and fewer tasks white, which is why the search ends |
| CycleDetection.Detector.Look | roadmap/index.py:304-314 | if no cycle was found, a task looked at is black afterwards |
| CycleDetection.Detector.Report | roadmap/index.py:307-312 | a link back to a grey task leaves at least one report |
| CycleDetection.CycleOnPath | roadmap/index.py:308 | the chain reported is a closed walk along the links that repeats no task on the way |
| CycleDetection.Detector.FinishedIsAcyclic | roadmap/index.py:315-320 | if every task is black and nothing was reported, the links have no cycle |
| CycleDetection.Detector.DetectCycles | roadmap/index.py:291-320 | a cycle is reported if and only if there is one; the class invariant says every chain is a genuine cycle and no two have the same tasks |
| Roadmap.BuildTable | roadmap/index.py:213-222 | the table and the errors for missing and repeated ids |
| Roadmap.CheckPlacement | roadmap/index.py:223-230 | an error for each task whose declared status is not that of its directory, and for each topic that is not known, task after task |
| Roadmap.ResolveBlockers | roadmap/index.py:252-265 | which blockers resolve, with an error for each that does not and a warning for each that is abandoned |
| Roadmap.ValidateLinks | roadmap/index.py:249-286 | all errors and warnings about one task's blockers |
| Roadmap.ValidateBlockedBy | roadmap/index.py:239-286 | the errors and warnings about the blockers of all tasks, task after task |
| Roadmap.Validate | roadmap/index.py:201-288 | no errors exactly if the roadmap is sound; every further error is a genuine cycle, and there is one exactly if the links are cyclic |
| Roadmap.TableErrorsMean | roadmap/index.py:214-222 | no table errors exactly if the ids are present and unique; the table holds exactly the ids of tasks |
| Roadmap.BlockedByMeans | roadmap/index.py:267-286 | no errors about a task's blockers exactly if all resolve to other tasks, a blocked task has an open one, and a startable, started or finished task has none |
| Roadmap.LocalErrorsMean | roadmap/index.py:201-286 | no error before the cycle search exactly if ids, placement and blockers of all tasks are right |
| Roadmap.ReportedIsDue | roadmap/index.py:213-286 | every error before the cycle search is one that some task, or a repeated id, gives cause for |
| Roadmap.DueIsReported | roadmap/index.py:213-286 | every cause there is for an error is reported, open blockers in one list that names all of them, each once |
| Roadmap.WarningsAre | roadmap/index.py:232-266 | exactly the references that lead nowhere and the blockers that will never be done are warned of |
| Roadmap.TransitiveBlockersAreDone | roadmap/index.py:281-286 | in a sound roadmap every transitive blocker of a ready, in-progress or done task is done |
| Roadmap.BlockedTasksWait | roadmap/index.py:267-280 | in a sound roadmap every blocked task waits, through blocked tasks, for an open task that is not blocked |
| Blend.Sink | sl-anim/src/blend.rs:107-111 | puts one contribution in its place among the ranked ones before it and leaves the others alone |
| Blend.SortByRank | sl-anim/src/blend.rs:107-111 | leaves the array in slot order, those of equal rank as they came |
| Blend.RankedIsSorted | sl-anim/src/blend.rs:107-111 | slot order is a permutation in which the higher priority comes first, and of equal ones the more recent |
| Blend.RankedIsStable | sl-anim/src/blend.rs:107-111 | contributions of equal rank keep their order |
| Blend.RankedIgnoresOrder | sl-anim/src/blend.rs:107-111 | with distinct ranks the slot order does not depend on the order given |
| Blend.BlendJoint | sl-anim/src/blend.rs:103-158 | the position and the rotation of the first four contributions in slot order, each folded until the budget is full |
| Blend.PositionIsBudgetAverage | sl-anim/src/blend.rs:141-154 | the folded position times the filled budget is the sum of the positions, each times the part of the budget it fills |
| Blend.PositionIsConvex | sl-anim/src/blend.rs:141-154 | on every axis the position lies between the contributed ones |
| Blend.FullBudgetHidesTheRest | sl-anim/src/blend.rs:141-154 | once the budget is full nothing that follows shows |
| Blend.RotationBudget | sl-anim/src/blend.rs:124-140 | the rotations fill a budget of their own: the weights of the contributions that have one, up to one |
| Blend.RotationFollows | sl-anim/src/blend.rs:120-140 | the first rotation is taken as it is, and each later one mixed with it by the part of the budget filled before over the part filled after; a contribution without rotation or weight changes nothing |
| Blend.BlendIgnoresOrder | sl-anim/src/blend.rs:103-158 | for distinct ranks neither channel depends on the order given |
| Blend.FifthIsDropped | sl-anim/src/blend.rs:112-114 | a contribution behind four others has no effect |
| Playback.LoopStaysInWindow | sl-anim/src/sample.rs:41-59 | past the loop-out point the time stays at or above the loop-in and below the loop-out point exactly if the loop-in point lies before the loop-out point, or, for a motion of no duration, exactly if zero lies between them; where it is otherwise |
| Playback.LoopIsPeriodic | sl-anim/src/sample.rs:41-59 | one span later the motion is at the same time, whichever way its loop points lie |
| Playback.TimeBeforeTheLoop | sl-anim/src/sample.rs:41-52 | no time passes before the start; a motion that does not loop is at the time elapsed, and so is a loop up to its loop-out point, if it has a duration |
| Playback.TimeInTheLoop | sl-anim/src/sample.rs:53-59 | after any number of whole spans behind the loop-out point and a part of another, a loop is that part behind its loop-in point |
| Playback.StepIsGentle | sl-anim/src/sample.rs:92-107 | the ramp rises no faster than three times the square at its start, and ends as it starts |
| Playback.WeightInUnit | sl-anim/src/sample.rs:92-107 | the weight is between zero and one for every motion and time |
| Playback.WeightRises | sl-anim/src/sample.rs:92-99 | until the ease-out starts the weight only rises |
| Playback.WeightFalls | sl-anim/src/sample.rs:100-107 | from the start of the ease-out on the weight only falls, no faster than the ramp |
| Playback.EaseOutStartsWhereEaseInEnds | sl-anim/src/sample.rs:103-106 | a positive ease-out starts from the weight the ease-in had reached |
| Playback.WeightNeverJumps | sl-anim/src/sample.rs:92-107 | with a positive ease-out the weight changes by no more than the steepest ramp allows, across its start too |
| Playback.FinishedIsSilent | sl-anim/src/sample.rs:149-154 | with an ease-out that is not negative, a finished motion stays finished at weight zero |
| Playback.FinishedWithWeight | sl-anim/src/sample.rs:92-168 | a one-shot with a negative ease-out that nobody stopped is finished at full weight |
| Playback.StoppedIsSilent | sl-anim/src/sample.rs:92-168 | a stopped motion is silent once finished, whatever its ease-out |
| Playback.StopEnds | sl-anim/src/sample.rs:92-168 | a stop ends the motion after one ease-out, and changes nothing before it, or at all if the motion's own end comes first |
| Playback.SilentExactlyWhen | sl-anim/src/sample.rs:92-168 | over all times not before the stop, a motion is silent whenever it is finished exactly if it was stopped, loops, or has an ease-out that is not negative, or an ease-in and a duration no longer than its ease-out |
| Playback.SilentFromTheStartExactlyWhen | sl-anim/src/sample.rs:92-168 | an unstopped motion is silent at every time from zero on at which it is finished exactly if it loops, or its ease-out is not negative or no shorter than its duration |
| Playback.FinishesAtDuration | sl-anim/src/sample.rs:149-168 | left alone, a one-shot finishes at its duration or once a longer ease-out is over |
| Playback.DecodedOneShotEnds | sl-anim/src/sample.rs:149-168 | every decoded one-shot is over after a minute, unless its own ease-out is longer, and silent then if its ease-out is not negative or no shorter than its duration |
| Playback.LoopingNeverFinishes | sl-anim/src/sample.rs:149-168 | an unstopped loop never finishes and reaches full weight |
| Playback.SampleHoldsEnds | sl-anim/src/sample.rs:246-257 | up to its first key and once all keys are past a curve holds the end values |
| Playback.SampleMixesNeighbours | sl-anim/src/sample.rs:258-266 | between two neighbouring keys a curve mixes just those two, by the fraction of the way gone |
| Playback.SampleHitsKeys | sl-anim/src/sample.rs:252-266 | a curve passes through every key that all keys before it are earlier than |
| Playback.SampleHitsKeysExactlyWhen | sl-anim/src/sample.rs:252-266 | for keys at given times a curve passes through one of them, whatever the values and the way of mixing, exactly if all keys before it are earlier |
| Playback.MaxPriority | sl-anim/src/sample.rs:131-143 | the highest explicit joint priority, or the additive base |
| DiskFiles.HitsAreLastWritten | sl-asset/src/disk.rs:97-139 | in every interleaving of creating, writing, renaming, failing and removing in which writes of one id do not overlap, a hit reads the last bytes written for its id |
| DiskFiles.OpenFilesStayWhole | sl-asset/src/disk.rs:97-139 | in such a run a file once opened in place keeps its bytes, whatever is written or evicted meanwhile |
| DiskFiles.WholeWriteReplacesHit | sl-asset/src/disk.rs:124-139 | a write that runs by itself replaces the hit for its id and no other |
| DiskFiles.TornHit | sl-asset/src/disk.rs:124-139 | two overlapping writes of one id make a hit empty, and then half written |
| DiskFiles.MayBeginExactlyWhenFree | sl-asset/src/disk.rs:124-139 | a write may begin without ever letting a hit go wrong, whatever its bytes, exactly if no other write of its id is under way |
| DiskIndex.DiskCache.Record | sl-asset/src/disk.rs:142-155 | replaces the entry and adjusts the running total, saturating |
| DiskIndex.DiskCache.TakeVictims | sl-asset/src/disk.rs:167-199 | the shortest prefix of the eviction order that suffices, and nothing under the ceilings |
| DiskIndex.DiskCache.Purge | sl-asset/src/disk.rs:158-163 | the victims' files go, but for those that cannot be removed |
| DiskIndex.DiskCache.Write | sl-asset/src/disk.rs:108-114 | file, record and purge, or nothing if the file cannot be written; afterwards the bytes are there unless the id was among the victims |
| DiskIndex.EvictionOrder | sl-asset/src/disk.rs:180-185 | lists every recorded id once, by the time of its last write and then by id |
| DiskIndex.ScanIndex | sl-asset/src/disk.rs:204-221 | the index that the files found leave, a later file of an id replacing the entry of an earlier one |
| DiskIndex.RecordedIsExact | sl-asset/src/disk.rs:142-155 | recording keeps the total equal to the sum of the sizes exactly while that sum fits in 64 bits |
| DiskIndex.TargetIsFourFifths | sl-asset/src/disk.rs:174-180 | the target is four fifths of the ceiling, rounded down, unless eighty times the ceiling is beyond 64 bits |
| DiskIndex.SaturatesTooFar | sl-asset/src/disk.rs:142-155 | two files of the largest size make the total too small |
| DiskIndex.PurgeMeetsCeilings | sl-asset/src/disk.rs:167-199 | under both ceilings a purge evicts nothing; otherwise it leaves the total within the target and the number of entries within its ceiling, and one victim fewer would not |
| DiskIndex.VictimsAreOldest | sl-asset/src/disk.rs:180-196 | every victim was written before everything kept, or at the same time with a lower id |
| DiskIndex.EvictionOrderIsUnique | sl-asset/src/disk.rs:180-185 | there is only one eviction order of an index, so only one choice of victims |
| DiskIndex.ScanIsExact | sl-asset/src/disk.rs:204-221 | opening the cache counts right exactly if no file with content shares its id with a later one, and beyond 64 bits exactly if the files kept come to the largest number |
| DiskIndex.ShadowedIsCounted | sl-asset/src/disk.rs:204-221 | two files of one id make the total too large |
| DiskIndex.HitsAreLastWritten | sl-asset/src/disk.rs:97-199 | while writes of one id do not overlap, a hit reads the last bytes written, whatever is recorded, chosen or removed in between |
| DiskIndex.TotalStaysExact | sl-asset/src/disk.rs:142-199 | in every interleaving the total stays exact, and every choice of victims leaves both ceilings met |
| DiskIndex.WriteKeepsHealthy | sl-asset/src/disk.rs:108-114 | a write keeps the index exact, within its ceilings and backed by files of the recorded sizes |
| DiskIndex.JustWrittenSurvives | sl-asset/src/disk.rs:108-199 | the newest asset survives its own purge if it alone fits the target |
| DiskBooks.BooksBalance | sl-asset/src/disk.rs:108-199 | in every interleaving in which no file is put in place over work under way and no victim is chosen that is being written, every recorded asset nobody is writing has a file of the recorded size, and once all work is done the files are those of the index and those that could not be removed |
| DiskBooks.MayChooseExactlyWhenSpared | sl-asset/src/disk.rs:167-199 | victims may be chosen without ever leaving an entry without its file exactly if none of them is being written |
| DiskBooks.ClearRunsBalance | sl-asset/src/disk.rs:108-199 | in every interleaving in which files are put in place only for ids that are neither in the index nor to be recorded or removed, whatever is purged, no purge chooses an id being written and every recorded asset has its file |
| DiskBooks.MayPlaceExactlyWhenClear | sl-asset/src/disk.rs:108-199 | a file may be put in place without ever leaving an entry without its file, whatever its size and whatever other tasks write and purge, exactly if its id is not in the index and nobody is about to record it or to remove its file |
| DiskBooks.PurgeOvertakesRecord | sl-asset/src/disk.rs:108-199 | a run on a cached id that nobody is at work on: another task's purge chooses the old entry before the new file is recorded, and the new entry loses its file |
| VoicePool.TierDominates | sl-audio/src/eviction.rs:31-82 | a higher tier outscores a lower one at any gain and distance |
| VoicePool.LouderAndNearerWins | sl-audio/src/eviction.rs:77-82 | within a tier louder and nearer scores no lower, and strictly nearer strictly higher |
| VoicePool.Pool.Weakest | sl-audio/src/eviction.rs:146-153 | the first voice of lowest score |
| VoicePool.Pool.Consider | sl-audio/src/eviction.rs:158-168 | a full pool gives up its weakest for a strictly higher score only |
| VoicePool.Pool.Insert | sl-audio/src/eviction.rs:171-180 | appends the voice, the weakest leaving a full pool first |
| VoicePool.Pool.Remove | sl-audio/src/eviction.rs:182-190 | swaps the voice out and says whether it was there |
| VoicePool.Pool.Reprioritize | sl-audio/src/eviction.rs:193-197 | gives the voice of that id another score and no other |
| VoicePool.Pool.Offer | sl-audio/src/eviction.rs:158-190 | the scores after considering, stopping the displaced voice and inserting |
| VoicePool.OfferKeepsHighest | sl-audio/src/eviction.rs:158-190 | an offer keeps the pool's scores the highest of all offered |
| VoicePool.PoolKeepsHighest | sl-audio/src/eviction.rs:158-190 | after any sequence of offers the scores are the capacity-many largest offered |
| VoicePool.HighestIsUnique | sl-audio/src/eviction.rs:158-190 | there is only one multiset of capacity-many largest scores |
| Mixer.Mixer.Start | sl-audio/src/mixer.rs:377-393 | a device that does not open leaves the mixer as it was |
| Mixer.Mixer.Play | sl-audio/src/mixer.rs:499-598 | when a voice starts, whom it displaces, and the voices and pool entries that result; an evicted voice is gone even if the graph then fails; map and pool stay in agreement exactly if no voice starts or the id it gets is not that of a voice still playing |
| Mixer.Mixer.Record | sl-audio/src/mixer.rs:581-597 | the voice takes the next id, in the map and in the pool, which stay in agreement exactly if no voice playing has that id |
| Mixer.Mixer.RemoveVoice | sl-audio/src/mixer.rs:838-844 | the voice leaves the map, and the pool by a swap removal, which are otherwise unchanged |
| Mixer.Mixer.StopVoice | sl-audio/src/mixer.rs:899-901 | a voice stopped by its owner leaves the map, map and pool staying in agreement |
| Mixer.Mixer.SetVoicePosition | sl-audio/src/mixer.rs:903-907 | only that voice's position changes |
| Mixer.Mixer.SetVoiceGain | sl-audio/src/mixer.rs:909-939 | only that voice's gain changes, clamped, and not for a negligible difference |
| Mixer.Mixer.ReapFinished | sl-audio/src/mixer.rs:820-835 | exactly the committed one-shots that finished go |
| Mixer.Mixer.UpdateSpatial | sl-audio/src/mixer.rs:764-793 | every placed voice is rescored from where it is heard, whatever the order, and every other keeps its score |
| Mixer.Mixer.RebuildAndRestart | sl-audio/src/mixer.rs:682-708 | all voices go, the cap stays; a graph that cannot be built changes nothing |
| Mixer.Mixer.Update | sl-audio/src/mixer.rs:945-962 | a frame: starting over on a lost device, rescoring, reaping, committing |
| Mixer.Mixer.VoicesAreCapped | sl-audio/src/mixer.rs:499-598 | voices and pool ids agree after every operation, so the voices never exceed the cap |
| Mixer.Mixer.IdsAreFresh | sl-audio/src/mixer.rs:479-483 | until the counter wraps the next id is unused |
| Mixer.ScoreIs | sl-audio/src/mixer.rs:505-519 | a voice scores a hundred for each tier, its gain up to one, and one at the ear, a half at ten metres and less further away; without a place it is heard at the ear |
| Mixer.RegainedMeans | sl-audio/src/mixer.rs:909-939 | the gain becomes the nearest from zero to one, or stays if it is that already but for one part in 8388608; nothing else changes |
| Mixer.AddedAgrees | sl-audio/src/mixer.rs:581-597 | map and pool agree after a voice is added exactly if its id is not that of a voice still playing |
| Mixer.WrappedIdStaysInPool | sl-audio/src/mixer.rs:479-483 | the counter back at the id of a voice still playing: map and pool no longer agree, and stopping the new voice leaves an entry in the pool |
| AccountDirs.GridDir.Reconcile | sl-account-dirs/src/lib.rs:151-205 | one login, with the state it leaves at whichever file operation fails; where none is made to fail it fails exactly if it has renamed the index away |
| AccountDirs.GridDir.WriteIndex | sl-account-dirs/src/lib.rs:236-244 | removes an old entry before writing the new one, and fails where the index directory is gone |
| AccountDirs.GridDir.NameClaimedByOther | sl-account-dirs/src/lib.rs:211-223 | whether another avatar's entry has the name |
| AccountDirs.DataFollowsAvatar | sl-account-dirs/src/lib.rs:165-204 | a known avatar's data is under the returned path after a rename, a refused rename or none, exactly unless the login renames the index directory away |
| AccountDirs.NothingIsOverwritten | sl-account-dirs/src/lib.rs:167-187 | every directory keeps its data, in place or moved to a name that was free |
| AccountDirs.LoginIsIdempotent | sl-account-dirs/src/lib.rs:151-205 | logging in again changes nothing and returns the same path, exactly unless the login renames the index directory away |
| AccountDirs.InjectiveExactlyWhen | sl-account-dirs/src/lib.rs:165-196 | a login keeps the index injective exactly if the avatar is known or its name unclaimed |
| AccountDirs.FirstSeenTakesOver | sl-account-dirs/src/lib.rs:191-195 | a login that makes the index no longer injective: an avatar first seen under another's name is given the other's data |
| AccountDirs.NamesStayDistinct | sl-account-dirs/src/lib.rs:151-205 | over every run of logins in which newcomers use unclaimed names the index stays injective |
| AccountDirs.OthersKeepTheirData | sl-account-dirs/src/lib.rs:165-187 | a login leaves other avatars' names and data alone, exactly unless it renames the index directory away |
| AccountDirs.DataSurvivesLogins | sl-account-dirs/src/lib.rs:151-205 | over every run of logins in which newcomers use unclaimed names and none renames the index directory away, every avatar keeps its data under its entry's name |
| AccountDirs.IndexSurvivesExactlyWhen | sl-account-dirs/src/lib.rs:165-187 | no run of logins under other names than `.by-uuid` makes the index forget an avatar, exactly if no entry names that directory |
| AccountDirs.LosingIndexLosesData | sl-account-dirs/src/lib.rs:165-204 | a run that loses the index: an avatar seen as `.by-uuid` changes its name, and the next to change theirs is given an empty directory |
| AccountDirs.IndexDirIsASegment | sl-account-dirs/src/lib.rs:294-311 | `.by-uuid` is its own sanitized form, so an avatar called so is given that directory |
| AccountDirs.RecoversExactlyWhen | sl-account-dirs/src/lib.rs:174-187 | after an interrupted rename the next login finds the data exactly unless removing the old entry failed while the index was still there |
| AccountDirs.InterruptedRenameLosesData | sl-account-dirs/src/lib.rs:174-187 | a rename whose entry could not be removed: the next login is given an empty directory |
| AccountDirs.SegmentIsSafe | sl-account-dirs/src/lib.rs:294-311 | a directory name is one harmless path component, and its own sanitized form |
| AccountDirs.SegmentSpells | sl-account-dirs/src/lib.rs:294-311 | a directory name is the trimmed name with an underscore for each character that is not allowed, or `unknown` for nothing but dots |
| JsonIncludes.IncludesItself | sl-automation-proto/src/state.rs:183-200 | inclusion is reflexive on all values |
| JsonIncludes.IncludesThrough | sl-automation-proto/src/state.rs:183-200 | inclusion is transitive on all values, arrays mixed with others included |
| JsonIncludes.OnlyArraysIncludeArrays | sl-automation-proto/src/state.rs:183-200 | nothing but an array includes an array |
| JsonIncludes.InclusionIsLawful | sl-automation-proto/src/state.rs:172-200 | inclusion obeys its documented laws: a value includes itself, a text its parts, an object one with fewer keys and included values, an array what an element of it includes, and an array each element of which one of its own includes |
| JsonIncludes.InclusionIsLeast | sl-automation-proto/src/state.rs:172-200 | inclusion relates nothing but what those laws make any relation that obeys them relate |
| JsonIncludes.EqualsIsStronger | sl-automation-proto/src/state.rs:150-158 | what passes as equal passes as including |
| JsonIncludes.WeakerWantedStillHolds | sl-automation-proto/src/state.rs:150-200 | asking for less never makes a passing test fail |
| JsonIncludes.RicherReadoutStillHolds | sl-automation-proto/src/state.rs:150-200 | a readout that says more passes whatever the poorer one passes |
| JsonIncludes.HoldingMeansPresent | sl-automation-proto/src/state.rs:150-158 | every test but the one for absence shows a value that is not null |
| MotionFormat.MotionIgnoresWhatFollows | sl-anim/src/decode.rs:328-396 | any outcome but an early end of the data is unchanged by appending bytes |
| MotionFormat.JointsStable | sl-anim/src/decode.rs:436-464 | any outcome of reading a number of joints from any position, but an early end, is unchanged by appending bytes |
| MotionFormat.ConstraintListStable | sl-anim/src/decode.rs:550-618 | any outcome of reading a number of constraints from any position, but an early end, is unchanged by appending bytes |
| MotionFormat.PositionKeyFits | sl-anim/src/decode.rs:507-547 | an accepted position is within five on every axis, in both file versions |
| MotionFormat.AllJointsFit | sl-anim/src/decode.rs:436-464 | as many joints as declared, with modern rotation times within the duration and priorities and positions in range |
| MotionFormat.RotationKeyFits | sl-anim/src/decode.rs:475-505 | an accepted rotation is that of three angles in an old file, and of three stored 16-bit numbers, each spread between minus one and one, in a new file, at a time within the duration |
| MotionFormat.ChainFits | sl-anim/src/decode.rs:567-618 | a constraint's chain is no longer than the joint count |
| MotionFormat.AcceptedIsWellFormed | sl-anim/src/decode.rs:328-396 | every accepted motion has 1 to 216 joints, at most 10 constraints, and all values in range |
| MotionLayout.HeaderIs | sl-anim/src/decode.rs:328-355 | a header is read exactly as the version, the base priority, the duration and the emote's name that stand at bytes 0, 4, 8 and 12 |
| MotionLayout.TimingIs | sl-anim/src/decode.rs:357-365 | a timing is read exactly as the loop-in and loop-out points, the loop flag, the ease-in and ease-out durations and the hand pose that stand 0, 4, 8, 12, 16 and 20 bytes behind its start |
| MotionLayout.RotationKeysAre | sl-anim/src/decode.rs:475-505 | a track of rotation keys is read exactly as the keys that stand 16 or 8 bytes from each other |
| MotionLayout.PositionKeysAre | sl-anim/src/decode.rs:507-547 | a track of position keys is read exactly as the keys that stand 16 or 8 bytes from each other, axis by axis, kept within five |
| MotionLayout.JointsAre | sl-anim/src/decode.rs:436-464 | joints are read exactly as the names, priorities and tracks that stand there, each joint beginning where the one before it ends |
| MotionLayout.ConstraintsAre | sl-anim/src/decode.rs:550-618 | constraints are read exactly as those that stand 86 bytes from each other: chain length, type, both ends with volume and offset, direction and four easing times |
| MotionLayout.WidenIsPortion | sl-anim/src/decode.rs:632-644 | a 16-bit number is its part of the way through its range, and zero where less than one part from it |
| MotionLayout.MotionIsLaidOut | sl-anim/src/decode.rs:328-396 | a file is accepted as a motion exactly if every field of the motion is what stands at its place in the file and is within the format's limits |
| MotionLayout.RotationKeysAreInPlace | sl-anim/src/decode.rs:436-505 | every rotation key of an accepted motion is what the bytes at its place say: header, timing and the joints before it, then 16 or 8 bytes a key |
| MotionLayout.KeyIsCompleted | sl-anim/src/decode.rs:486-505 | a rotation of a new file is completed from the three little-endian 16-bit numbers behind the time of its key |
| Quaternions.NormOfProduct | sl-anim/src/decode.rs:676-684 | the product's norm is the product of the norms |
| Quaternions.ProductTurnsLeftFirst | sl-anim/src/decode.rs:673-684 | a product of quaternions turns a vector by its left factor first |
| Quaternions.AboutXTurns | sl-anim/src/decode.rs:664-671 | an angle about x turns y towards z by that angle |
| Quaternions.AboutYTurns | sl-anim/src/decode.rs:664-671 | an angle about y turns z towards x by that angle |
| Quaternions.AboutZTurns | sl-anim/src/decode.rs:664-671 | an angle about z turns x towards y by that angle |
| Quaternions.EulerTurns | sl-anim/src/decode.rs:654-662 | three angles turn a vector about z first, then about y and then about x |
| Quaternions.EulerIsUnit | sl-anim/src/decode.rs:657-674 | any three angles make a unit quaternion |
| Quaternions.CompletedNorm | sl-anim/src/decode.rs:648-652 | completion keeps the three components and adds a fourth; the result is a unit exactly if the three are no longer than one, and as long as they are otherwise |
| Quaternions.DecodedRotations | sl-anim/src/decode.rs:475-505 | every rotation of an accepted old file is a unit quaternion; one of a new file is completed from the three 16-bit numbers at its key's place in the file, and a unit exactly if they leave room for a fourth |
| Quaternions.LargestIsTooLong | sl-anim/src/decode.rs:648-652 | the largest stored numbers complete to a quaternion of norm three |
| MotionCursor.Cursor.TakeBytes | sl-anim/src/decode.rs:705-716 | the next bytes, or the early end with the cursor unmoved; the cursor stays in bounds |
| MotionCursor.Cursor.ReadCString | sl-anim/src/decode.rs:778-796 | the bytes up to a zero byte, which is taken too |
| MotionCursor.Cursor.ReadRotationKey | sl-anim/src/decode.rs:475-505 | reads the time and the three angles of an old file's rotation key, or the four 16-bit numbers of a new one's, with the format's errors |
| MotionCursor.Cursor.ReadPositionKey | sl-anim/src/decode.rs:507-547 | reads the time and the position of an old file's key, clamped, or the four 16-bit numbers of a new one's, with the format's errors |
| MotionCursor.Cursor.ReadJoint | sl-anim/src/decode.rs:436-464 | reads a joint's name, priority and both tracks, with the format's errors |
| MotionCursor.Cursor.ReadConstraint | sl-anim/src/decode.rs:567-618 | reads a constraint's chain length, type, ends and easing, with the format's errors |
| MotionCursor.Cursor.ReadConstraints | sl-anim/src/decode.rs:550-565 | reads the constraints, none where their number is negative or above ten |
| MotionCursor.FromBytes | sl-anim/src/decode.rs:328-396 | the decoder computes what the format says, accepts exactly the motion that the file begins with, if it begins with one, ends on every input, and but for an early end decodes alike with any bytes behind the file |

## Left out

- Gate: the hand-over of a notification that a dropped, already notified listener passes on is not modelled; it only adds wake-ups, and the theorems hold without it.
- Gate: request ids are distinct by assumption, as the store's counter supplies them; the counter is unbounded where the program's wraps at 64 bits.
- AssetStore: the fetch lock is a lock that some waiter gets when it is free; its own queue, the statistics by progress and the contents of the static library and the disk are not modelled, and a load succeeds or fails as the environment decides.
- WireCodec: a quaternion's rebuilt component is a parameter, and floating-point numbers are bit patterns that survive transport.
- WireCodec: names of generated types and fields, derived traits and the frequency-specific id bytes are not modelled.
- WorldLocators.PrintedWorldParses: how numbers with a fraction and UUIDs are spelled is a parameter, required to print plainly and to parse back, because their printers are the standard library's and the `uuid` crate's.
- Locators: error texts are kinds with a column, not wording; matching a locator against nodes is not modelled.
- SelectorMeaning.StepsMean: the criteria of a step stand one directly behind the other, and one space on either side of `>>`; other spaces there are read as the grammar says.
- CriticalPath: times are reals; loading the report and printing the segments of a path are not modelled.
- Roadmap: reading front matter, finding references in the text, and rendering the index are not modelled.
- Blend: weights and positions are reals; the rotation channel is folded with a parameter in place of the normalised interpolation, whose trigonometry is not modelled.
- Playback: times and weights are reals, so rounding is not modelled; neither are `is_expired` and `effective_priority`, one comparison each.
- MotionFormat: how 32-bit floats decode is a parameter; names stay bytes where the program decodes them as text; the memory reserved ahead of a loop is not modelled.
- Quaternions: numbers are reals; sine, cosine and square root are parameters of which only their laws are assumed, those of the double angle included.
- DiskFiles: one process writes, as the temporary name holds its id; directories, syncing to the device and crashes in the middle of a step are not modelled.
- DiskBooks: a write counts from the moment its file is in place; what comes before is in `DiskFiles`.
- DiskIndex.DiskCache.Write: describes one writer at a time, whose file steps nothing interrupts; overlapping writes are in `DiskFiles` and `DiskBooks`.
- Mixer: graph nodes, buses and pushed streams are not modelled; the graph takes a voice or does not, as the environment decides.
- VoicePool: scores are reals, so two voices whose float scores round to one value are told apart.
- AccountDirs: the encoding of an index entry as a link is not modelled, nor that the entries of an index renamed away lie on as links in the directory it became.
- AccountDirs.SegmentIsSafe: which characters are letters and digits is a parameter.
- JsonIncludes: a number is its token, compared as such; `accepts_entry` is a conjunction of comparisons and is not modelled.
