# Verified model of the testbed packages

The repository publishes `testprotocols` (capability protocols of test devices) and
`testoperations` (operations over them), together with the scripts that guard their release.
Most of it is declarations. This project models the parts that compute, and proves in Dafny what
their documentation promises, or exactly when they keep the promise.

`dafny verify dfyconfig.toml` checks everything. There are five groups of modules.

**The contract-surface differ** (`ContractSurface`, `CallBinding`, `SignatureSoundness`,
`ConstructorSoundness`, `SurfaceSoundness`, `RenameMatching`, `EmptyDiff`, `ChangeAccounting`,
`ReportAccounting`, `Differ`).
`ContractSurface` holds the surfaces of two source trees and what each generator of the differ
yields; `Differ` holds the generators' loops, over dictionaries and lists as the script walks them,
and the sorted report. `CallBinding` is an independent definition of how Python binds a call (any
positional arguments, any keywords, `*args`, `**kwargs`, defaults). The main results say that a
report in which nothing needs a changelog entry leaves every call of every function, method and
generated constructor bound as before, parameters taking every type they took and results of no
type they were not, and that no protocol asks its implementers for a member or a base more. Five gaps
of the differ come with an input and the exact condition:

- arguments that an old `*args` or `**kwargs` collected and a new parameter captures: calls are kept
  if and only if there is no such parameter (`CallerSoundness`, `CaptureIsNotReported`);
- a plain class that gains an `__init__`, or parameters of it: calls are kept if and only if nothing
  is captured and nothing added has to be given (`QuietInit`, `GainedConstructorBreaks`);
- a class body that annotates one field twice, which can hide a shift of positions: calls are kept
  if and only if the fields the body ends up with keep places and defaults (`QuietFieldsServeIff`,
  `RepeatedFieldHidesShift`);
- a keyword-only field that becomes positional, which is no difference at all to the differ: with
  unrepeated names it cannot have happened if and only if both classes have equally many positional
  fields (`EmptyFieldMarksIff`, `LostMarkIsNoChange`);
- a protocol's parameter that widens: implementers annotated as before take every type it admits if
  and only if none did (`ImplementerTypesIff`, `WidenedProtocolIsNotReported`).

What a report says is accounted for topic by topic (`Accounted`): for every symbol, member,
parameter and classification it holds exactly the changes that the two trees' difference calls for,
with place, direction, texts and needs, stated without the generators.

An empty diff forces the same shape, protocol bases included and the keyword-only marks of fields
excepted, and a tree differs from itself exactly when a class body repeats a name with different
content.

**The throughput engine** (`JsonScanner`, `JsonText`, `SessionLog`, `Throughput`, `Testbed`,
`ConcurrentMeasurement`, `RoundLog`, `RoundEngine`, `RoundProtocol`). The scanner is proved against
the grammar of RFC 8259 (sections 2 to 7, whitespace and escapes included), also for a log whose
last document is cut off anywhere, and for one cut off in the middle: what follows a cut between
strings is returned again from the point where the text between documents has closed every brace
left open, and all of it if and only if that is at once (`CutInMiddle`, `AllReturnedIff`). Drivers,
clocks and callbacks are functions of the whole history so far, so that their answers may depend on
everything that happened; exceptions are results; every run leaves a trace of events, each the
answer of its driver or callback to the history before it. The concurrent measurement stops every
process it put on record exactly once, whatever raises; the documented "no iperf process outlives
the call" fails in one case, a receiver whose baseline log read raises: `Lifecycle` states the
equivalence, and `LeakingCall` is such a call. The trace of a call is known look by look: every
reported rate is that of a text read from the data-receiving side's log, RTT and loss those of the
data-sending side's, and a failed measurement ends with the look at a log that left the first flow
without a result, past the deadline or with the driver's own error. The round loop's events are
followed by a monitor, and its clock draws, resources, reports and backoffs are counted, for every
run, however it ends; stop_when is asked about every round so far; on a fresh engine whose clock
advances with every backoff and round, a run ticks at most once more than its budget, rounded up.
The documentation of the retry mechanic says that the clock is drawn once per absorbed
non-completion; the code also draws it for the one that propagates, so the documented count holds if
and only if no non-completion ends the run (`DocumentedDrawsIff`, `RefusedProbeCall`).

**Overlay homing** (`Homing`, `OverlayNetwork`). A class holds the appliances and records the world
after each write. The final state of a run has a closed form for any plan (the last assignment of a
VLAN id or subnet wins) and a simpler one for plans without repetitions; a second run changes
nothing, list order included, on appliances inside and outside the list; no single write of a run
gives an assigned VLAN or subnet a second home; and an assignment verifies afterwards if and only if
the last word on its VLAN id and on its subnet keep them on its target.

**Text grammars** (`TextOps`, `LineText`, `PortText`, `QosText`, `QosGrammar`). Parsers against
declarative grammars, both directions, and round trips with their printers.

**Line readers and registers** (`DiffReader`, `DiffRendering`, `HunkGrammar`, `TripleQuotes`,
`Changelog`, `ChangelogFacts`, `ChangelogRendering`, `Matching`, `Register`, `Intervals`). Each
reader is a loop proved against a fold, and the fold against an independent description: rendered
diffs, rendered changelog sections, counts per key, coverage of the time line. The diff reader is
exact if and only if no removed line beginning `-- ` stands directly above an added line beginning
`++ ` (`ClashIsMisread` is such a diff). The interval reader's gaps are true holes if and only if no
earlier row outlasts the row before the gap; a record without gaps covers the run that the summary
states if and only if the reports begin with it and reach its end. Its documentation excludes the
end-of-run summary from all figures: reports together with summaries of their span read as the
reports alone if and only if no report itself spans the run, so a run of one report counts twice
(`OneReportCountsTwice`), and a summary with a later end makes an earlier one count as a report
(`TwoSummariesCountOne`).

`Common`, `Sorting` and `Permutations` hold list comprehensions, the stable sort and facts about
rearrangements.

## Model

| member | source | states |
|---|---|---|
| `ContractSurface.LookupFinds` | scripts/contract_surface.py:726-727 | the dictionary built from a list holds an element of the list with that name, or none exactly when the list has none |
| `ContractSurface.LookupDistinct` | scripts/contract_surface.py:726-727 | with unique names the dictionary gives each element back |
| `CallBinding.CompatibleServes` | scripts/contract_surface.py:723-829 | if the old positional slots come first, every old parameter is replaced and nothing added is required, and nothing captures, then every call that bound before binds, with the same argument or default for each old parameter and the untouched value for each added one |
| `CallBinding.NewSlotCaptures` | scripts/contract_surface.py:740-753 | next to an old `*args`, a new positional slot always changes the meaning of some call |
| `CallBinding.NewNameCaptures` | scripts/contract_surface.py:740-753 | next to an old `**kwargs`, a new keyword name always changes the meaning of some call |
| `CallBinding.CompatibleServesIff` | scripts/contract_surface.py:723-829 | a compatible signature keeps every call if and only if nothing can be captured |
| `CallBinding.StarlessServesIff` | scripts/contract_surface.py:900-966 | between signatures without `*args` and `**kwargs`, whose every parameter has a keyword, calls are kept if and only if the new one is compatible |
| `SignatureSoundness.QuietIsCompatible` | scripts/contract_surface.py:630-668 | a signature diff with no change that needs an entry makes the new signature compatible with the old: slots in order, replacements of fitting kind with the same defaults, additions optional |
| `SignatureSoundness.CallerSoundness` | scripts/contract_surface.py:723-829 | nothing reported means every old call is kept if and only if no added parameter captures; outright when the old signature has neither `*args` nor `**kwargs` |
| `SignatureSoundness.CaptureIsNotReported` | scripts/contract_surface.py:740-753 | `(a, *args)` to `(a, x=1, *args)` is reported as needing no entry, and breaks a call |
| `SignatureSoundness.ImplementerSoundness` | scripts/contract_surface.py:630-668 | for a protocol method nothing reported means calls bind the same way in both directions, so implementers are not broken either |
| `SignatureSoundness.WidensIff` | scripts/contract_surface.py:557-575 | every type an annotation admitted is still admitted if and only if the direction is equal or widened, or everything is admitted now |
| `SignatureSoundness.AnnotationSoundness` | scripts/contract_surface.py:651-660 | nothing reported means each kept parameter admits every type it admitted and the result none it did not; a protocol's result stays equal |
| `SignatureSoundness.ImplementerTypesIff` | scripts/contract_surface.py:653-656 | when nothing is reported, the old annotations admit every type the new ones do if and only if each parameter's annotation is equal or admitted everything before |
| `SignatureSoundness.WidenedProtocolIsNotReported` | scripts/contract_surface.py:653-656 | a protocol's `f(a: int)` that comes to take `str` as well needs no entry, and an implementer annotated as before does not admit the new type |
| `ConstructorSoundness.QuietFieldPrefix` | scripts/contract_surface.py:919-936 | with unrepeated names, nothing reported means the base's positional fields are the first positional fields of the head, in order |
| `ConstructorSoundness.ConstructorKept` | scripts/contract_surface.py:900-966 | with unrepeated names, nothing reported keeps every call of the generated constructor, with its bindings and defaults, also when a keyword-only field became positional |
| `ConstructorSoundness.ConstructorKeptIff` | scripts/contract_surface.py:900-966 | whatever names the two bodies repeat, constructor calls are kept if and only if the fields they end up with are compatible: old positions first, old fields replaced, additions with defaults |
| `ConstructorSoundness.QuietFieldsServeIff` | scripts/contract_surface.py:900-966 | nothing reported keeps the constructor's calls, whatever names the bodies repeat, if and only if the old positional fields come first and every old default is still there |
| `ConstructorSoundness.RepeatedFieldHidesShift` | scripts/contract_surface.py:919-936 | a body `x, x, y` becoming `x, z, y` is reported as needing no entry, and a positional call changes its meaning |
| `SurfaceSoundness.SymbolSoundness` | scripts/contract_surface.py:987-1038 | a symbol whose diff needs no entry keeps its kind and serves its users: members, calls (exactly when nothing captures), parameter, result and field types, no member or base more of a protocol, generated and plain constructors with their exact conditions, enum values, mutability |
| `SurfaceSoundness.QuietProtocolMember` | scripts/contract_surface.py:638-639 | a protocol whose members need no entry has no member the base lacks |
| `SurfaceSoundness.QuietBases` | scripts/contract_surface.py:1030-1035 | a protocol whose bases need no entry has the same set of bases |
| `SurfaceSoundness.QuietInit` | scripts/contract_surface.py:832-897 | a plain class whose members need no entry keeps its constructor calls if and only if nothing is captured and no added parameter has to be given |
| `SurfaceSoundness.GainedConstructorBreaks` | scripts/contract_surface.py:864-866 | a plain class that gains `__init__(self, x)` needs no entry, and the call without arguments breaks |
| `SurfaceSoundness.QuietDiffServes` | scripts/contract_surface.py:1041-1060 | a whole diff in which nothing needs an entry leaves every public symbol in place, serving its users in that sense |
| `RenameMatching.RenameForm` | scripts/contract_surface.py:834-840 | the rename map without its history: a removed member is paired exactly when one single added member has its signature text and no earlier removed member does |
| `RenameMatching.RenamesInjective` | scripts/contract_surface.py:836-840 | no two removed members share a target, and a pair has equal signature text |
| `RenameMatching.MemberAccounting` | scripts/contract_surface.py:841-866 | each base-only member gives exactly one removed or renamed change, each head-only member is one rename target or one added change, and the count is removed plus added minus renamed |
| `RenameMatching.SignatureTextsApart` | scripts/contract_surface.py:718-720 | members whose parameters hold no comma and no closing parenthesis share a signature text if and only if their parameters' texts and results' texts agree |
| `ChangeAccounting.SignatureAccounting` | scripts/contract_surface.py:723-829 | for every classification, member and parameter name, the report of a signature holds exactly what the two sides' difference calls for: a kept parameter's kind or place, annotation and default, each once and with both texts and its needs; a removed one; an added one under its classification; the result; the marker; and nothing else |
| `ChangeAccounting.AnnotationReported` | scripts/contract_surface.py:777-793 | a kept parameter's annotation is reported, once, with its direction, both texts and its needs, if and only if the direction is not equal, whatever else changed |
| `ReportAccounting.MemberTopics` | scripts/contract_surface.py:832-897 | topic by topic, what the report says of a class's members: removed, renamed, added, of another kind, or with another signature or type, and nothing else |
| `ReportAccounting.FieldTopics` | scripts/contract_surface.py:900-966 | topic by topic, what the report says of fields, for bodies with or without repeated names: removed, added, moved with both places, type and default with both texts |
| `ReportAccounting.EnumTopics` | scripts/contract_surface.py:969-984 | topic by topic, what the report says of enum members: removed, added, or with another value |
| `ReportAccounting.SymbolTopics` | scripts/contract_surface.py:987-1038 | topic by topic, what the report says of a symbol of both trees: alias, function, or class with its kind, mutability, marker, bases, members, fields and enum members |
| `ReportAccounting.SortedMinusHolds` | scripts/contract_surface.py:1031-1035 | the bases one side has and the other lacks: each once, in text order |
| `ReportAccounting.SurfaceTopics` | scripts/contract_surface.py:1041-1058 | on every topic the differ collects what the two trees' difference calls for and nothing else; a symbol of one tree only is one change |
| `ReportAccounting.ReportAccounts` | scripts/contract_surface.py:1041-1060 | the same holds of the sorted report |
| `EmptyDiff.EmptySignature` | scripts/contract_surface.py:723-829 | an empty signature diff forces the same names, positional order, kinds, annotations and defaults |
| `EmptyDiff.EmptyDiffSameShape` | scripts/contract_surface.py:1041-1060 | an empty diff forces the same symbols, kinds, protocol bases, members, signatures, enum values and mutability, the same fields in name, type, default and old position, and no new deprecation of a class |
| `EmptyDiff.EmptyFieldMarksIff` | scripts/contract_surface.py:919-926 | with unrepeated names, an empty field diff means equal keyword-only marks if and only if both classes have equally many positional fields |
| `EmptyDiff.LostMarkIsNoChange` | scripts/contract_surface.py:919-926 | a keyword-only field that becomes positional is no change |
| `EmptyDiff.SelfDiffEmptyIff` | scripts/contract_surface.py:1041-1060 | a tree compared with itself is empty if and only if no class body repeats a field or enum member with different content |
| `EmptyDiff.RepeatedFieldDiffers` | scripts/contract_surface.py:900-966 | a dataclass annotating one name twice, differently, differs from itself |
| `Differ.YieldFrom` | scripts/contract_surface.py:728-739 | a generator loop yields the concatenation of what each element contributes |
| `Differ.FindRenames` | scripts/contract_surface.py:836-840 | the greedy loop fills the rename map |
| `Differ.ByName` | scripts/contract_surface.py:726-727 | the dictionary filled in a loop answers as looking the list up does |
| `Differ.DiffParams` | scripts/contract_surface.py:723-829 | the three loops over parameters, then result and marker, yield the specified changes in order; which changes those are is `ChangeAccounting.SignatureAccounting` |
| `Differ.DiffFields` | scripts/contract_surface.py:900-966 | the three loops over fields yield the specified changes in order |
| `Differ.DiffEnum` | scripts/contract_surface.py:969-984 | the two loops over enum members yield the specified changes in order |
| `Differ.DiffBases` | scripts/contract_surface.py:1030-1035 | the two loops over protocol bases yield the specified changes in order |
| `Differ.DiffMembers` | scripts/contract_surface.py:832-897 | the member loops yield the specified changes in order |
| `Differ.DiffSymbol` | scripts/contract_surface.py:987-1038 | the branches and the generators they run, one after the other, yield the specified changes in order |
| `Differ.DiffHeadSymbols` | scripts/contract_surface.py:1051-1058 | the loop over the head's symbols yields the specified changes in order |
| `Differ.ReportOrder` | scripts/contract_surface.py:1059-1059 | the report is sorted by file, line, symbol and classification, is a rearrangement of what was collected, and keeps changes of one key in the order they were collected |
| `Differ.KeyOrder` | scripts/contract_surface.py:1059-1059 | a change stands strictly before another exactly when its file does in text order, or in one file its line is smaller, or on one line its symbol stands before, or for one symbol its classification does |
| `Differ.SymbolsApart` | scripts/contract_surface.py:609-612 | within one path, the symbol's text tells members without a parenthesis, and all parameters, apart |
| `Sorting.TextOrder` | scripts/contract_surface.py:1059-1059 | texts are ordered by the first characters that differ, and a text stands before its extensions |
| `Differ.Diff` | scripts/contract_surface.py:1041-1060 | the report is a sorted rearrangement of all changes, stable for each key; on every topic it says what the two trees' difference calls for and nothing else; when none of it needs an entry every user of the base is served |
| `JsonScanner.IterJsonDocs` | packages/testoperations/src/testoperations/throughput.py:167-204 | the scanning loop returns the documents of the spans the scanner finds, in order, skipping those that do not parse |
| `JsonScanner.CountSessions` | packages/testoperations/src/testoperations/throughput.py:207-209 | the number of completed documents |
| `JsonScanner.SpansGrow` | packages/testoperations/src/testoperations/throughput.py:180-204 | when a log grows, spans already found stay, and every new one ends beyond the old text |
| `JsonScanner.DocumentsGrow` | packages/testoperations/src/testoperations/throughput.py:167-204 | the documents of a log are a prefix of the documents of any longer log |
| `JsonText.StringPasses` | packages/testoperations/src/testoperations/throughput.py:184-193 | a JSON string, whatever quotes, braces and backslashes it escapes, leaves the scanner where it was |
| `JsonText.ValuePasses` | packages/testoperations/src/testoperations/throughput.py:183-204 | a JSON value inside a document, whatever it nests, leaves the scanner where it was |
| `JsonText.TruncatedNotFound` | packages/testoperations/src/testoperations/throughput.py:167-204 | a document cut off anywhere before its closing brace adds nothing |
| `JsonText.ScannerRoundTrip` | packages/testoperations/src/testoperations/throughput.py:167-204 | a log of printed objects, any separators free of quotes and opening braces, and a cut-off last object: exactly the printed objects are found, in order |
| `JsonText.LoggedDocumentsReturned` | packages/testoperations/src/testoperations/throughput.py:167-204 | when the JSON parser accepts each printed object, the result is what it made of each, in order |
| `JsonText.CutInMiddle` | packages/testoperations/src/testoperations/throughput.py:167-204 | after a document cut off between strings in the middle of a log: everything before it, the later documents read once the open braces are closed, and between them at most one piece that is no document |
| `JsonText.AllReturnedIff` | packages/testoperations/src/testoperations/throughput.py:194-204 | later documents are all returned if and only if the text before the first of them closes every brace the cut left open |
| `JsonText.CutLeavesOpen` | packages/testoperations/src/testoperations/throughput.py:194-204 | a cut leaves a brace open if and only if it comes after the first character |
| `JsonText.CutInString` | packages/testoperations/src/testoperations/throughput.py:183-193 | after a document cut off inside a string, text whose strings hold no braces and no quotes of their own adds nothing |
| `SessionLog.LastSpanLoads` | packages/testoperations/src/testoperations/throughput.py:264-279 | the last document comes from the last span that parses |
| `SessionLog.FreshSession` | packages/testoperations/src/testoperations/throughput.py:297-302 | on a growing log, more sessions than the baseline had means the last document was completed after the baseline |
| `Testbed.Bench.LookOnce` | packages/testoperations/src/testoperations/throughput.py:298-303 | one look: a rate when there is a new session that carries one, else the clock is drawn |
| `Testbed.Bench.AwaitSession` | packages/testoperations/src/testoperations/throughput.py:282-305 | every look before the last was incomplete and before the deadline; the result is a new session with its rate, nothing at a time at or past the deadline, or the log's exception |
| `ConcurrentMeasurement.UniquePorts` | packages/testoperations/src/testoperations/throughput.py:350-352 | true exactly when no two flows share a port |
| `ConcurrentMeasurement.StartReceivers` | packages/testoperations/src/testoperations/throughput.py:357-361 | the events of the receiver loop, what is on record when it ends or raises, and the driver's own error |
| `ConcurrentMeasurement.StartSenders` | packages/testoperations/src/testoperations/throughput.py:363-379 | the events of the sender loop, what is on record when it ends or raises, and the driver's own error |
| `ConcurrentMeasurement.MeasureFlow` | packages/testoperations/src/testoperations/throughput.py:386-450 | exactly these events: the wait on the receiver's own log on its device, and once that showed a rate the wait on the sender's own log on its device; each wait's looks were incomplete and in time but for the last; the result is that of the two last looks |
| `ConcurrentMeasurement.Gather` | packages/testoperations/src/testoperations/throughput.py:384-451 | exactly the flows' waits, in flow order, all held to one deadline; one result per flow, or the failure of the first flow whose last looks give none, where the waiting stops |
| `ConcurrentMeasurement.StopAll` | packages/testoperations/src/testoperations/throughput.py:452-462 | each target is stopped once, in order, whatever the stops raise |
| `ConcurrentMeasurement.MeasureBody` | packages/testoperations/src/testoperations/throughput.py:356-451 | the events of the guarded body for every way it can be left; a window as long as the longest flow with its omitted seconds, one draw of the clock, then the flows' waits; and which error leaves it |
| `ConcurrentMeasurement.MeasureConcurrentThroughput` | packages/testoperations/src/testoperations/throughput.py:308-462 | duplicate ports are refused before any event; any other exit leaves a valid run's trace, its wait spelled out look by look; success gives each flow, in order and on its port, what its own two logs showed; a failure is the driver's own error or the first failing flow's, against the deadline drawn after the window |
| `ConcurrentMeasurement.Lifecycle` | packages/testoperations/src/testoperations/throughput.py:354-462 | on every exit each process on record is stopped exactly once, senders before receivers; all that was started is stopped if and only if no baseline log read raised |
| `ConcurrentMeasurement.OneFlowLeaks` | packages/testoperations/src/testoperations/throughput.py:357-361 | where every start succeeds and every log read raises, a run of one flow starts its receiver and stops nothing |
| `ConcurrentMeasurement.LeakingCall` | packages/testoperations/src/testoperations/throughput.py:357-361 | a call on such a bench: it raises the read's error and leaves its receiver running |
| `ConcurrentMeasurement.RunOrder` | packages/testoperations/src/testoperations/throughput.py:356-462 | every receiver start precedes every sender start, which precedes every sleep and clock draw, which precede every stop of a sender, which precede every stop of a receiver |
| `ConcurrentMeasurement.BaselineRead` | packages/testoperations/src/testoperations/throughput.py:357-361 | the k-th receiver is started on its own device and at once its own log is read there for the baseline |
| `ConcurrentMeasurement.WatchShape` | packages/testoperations/src/testoperations/throughput.py:297-305 | look by look: every look but the last reads the log, draws the clock and sleeps; the last reads, and draws the clock when it found nothing |
| `ConcurrentMeasurement.FlowReads` | packages/testoperations/src/testoperations/throughput.py:386-420 | a flow's events hold the read of every log its result rests on, from the device whose log it is, no read of any other log, and end with the last look |
| `ConcurrentMeasurement.SidesOfResult` | packages/testoperations/src/testoperations/throughput.py:337-345 | the rate is read from the data-receiving side's log, RTT and retransmits from the data-sending side's, missing when it showed nothing; a flow fails exactly when a look raised, the receiver's log showed no new session, or a reverse flow's sender showed none |
| `ConcurrentMeasurement.RatesAreRead` | packages/testoperations/src/testoperations/throughput.py:384-451 | every reported rate is that of a text read, during the wait, from the data-receiving device's log |
| `ConcurrentMeasurement.FailureIsLate` | packages/testoperations/src/testoperations/throughput.py:384-431 | a failure for want of a session ends with a log read and a clock drawn at or past the window's end plus the timeout |
| `ConcurrentMeasurement.EvidenceIsFresh` | packages/testoperations/src/testoperations/throughput.py:337-345 | on a log that only grows, the reported rate is that of a document completed after what the log held before the flow: the receiver's baseline, or the empty log a reverse flow's launch leaves |
| `RoundEngine.Engine.AskRetry` | packages/testoperations/src/testoperations/throughput.py:495-497 | the clock is drawn first; past the deadline nothing is asked; the callback's verdict decides |
| `RoundEngine.Engine.ReportRetry` | packages/testoperations/src/testoperations/throughput.py:498-500 | an absorbed non-completion is reported once, with its port, and then backed off from |
| `RoundEngine.Engine.AttemptOnce` | packages/testoperations/src/testoperations/throughput.py:491-500 | one pass of the retry loop: absorbed, or ended in one of eight ways, with exactly these events |
| `RoundEngine.Engine.AttemptFlow` | packages/testoperations/src/testoperations/throughput.py:468-500 | the whole retry loop: its absorbed non-completions, then its end, and the caller sees that end |
| `RoundEngine.Engine.MeasureRound` | packages/testoperations/src/testoperations/throughput.py:1002-1008 | probe first, then each direction in order; the facts are those of the attempts, or the first failing attempt's exception |
| `RoundEngine.Engine.AfterRound` | packages/testoperations/src/testoperations/throughput.py:1009-1013 | report, then ask to stop about every round so far, the one just measured included, then draw the clock only when not satisfied; how the run goes on or ends |
| `RoundEngine.Engine.MeasureRounds` | packages/testoperations/src/testoperations/throughput.py:948-1013 | the trace is that of a valid run against the deadline, the caller sees its findings or its exception, and the run ends within the ticks the deadline allows; on a fresh engine whose clock advances a tick with every backoff and round, within the budget rounded up and one more |
| `RoundEngine.StopsExactly` | packages/testoperations/src/testoperations/throughput.py:1009-1013 | when stop_when answers yes exactly at n findings or more, a run that ends satisfied has n findings exactly, and one that ends out of time fewer |
| `RoundLog.RunAsks` | packages/testoperations/src/testoperations/throughput.py:1009-1012 | the k-th question to stop_when is about the facts of the first k rounds, and there is one for every round that came to it |
| `RoundLog.RoundFacts` | packages/testoperations/src/testoperations/throughput.py:1002-1008 | a round's facts are the minimum and mean RTT of its probe and, for each direction's name and no other, the flow of the last direction of that name |
| `RoundProtocol.RunFollows` | packages/testoperations/src/testoperations/throughput.py:491-500 | a monitor that sees the events one by one follows every run to its end: each resource used once and on the right spec, the budget checked before the caller is asked, the non-completion just seen asked and told about with its resource, a backoff only after a yes and the report, stop_when after the round's report, the clock only on its no |
| `RoundEngine.TickingClock` | packages/testoperations/src/testoperations/throughput.py:975-982 | a clock that advances a tick with every backoff and every round reaches a deadline within the ticks up to it |
| `RoundEngine.Engine.Ticking` | packages/testoperations/src/testoperations/throughput.py:975-982 | an engine on such a clock, whose patience for a deadline is the ticks from its first draw up to it |
| `RoundLog.AttemptCount` | packages/testoperations/src/testoperations/throughput.py:491-500 | how often each kind of event occurs in one attempt |
| `RoundLog.RunCount` | packages/testoperations/src/testoperations/throughput.py:984-1013 | how often each kind of event occurs in any valid run, as a formula of its absorbed non-completions, attempts and rounds |
| `RoundLog.RunAccounting` | packages/testoperations/src/testoperations/throughput.py:975-1013 | however a run ends, the clock is drawn once, plus once per non-completion raised, plus once per round that did not satisfy; one resource per measurement; one backoff per non-completion but one that ended the run; one report per backoff, besides one that itself raised |
| `RoundLog.DocumentedDrawsIff` | packages/testoperations/src/testoperations/throughput.py:975-982 | the documented draws, one per absorbed non-completion, are those of the run if and only if no non-completion ended it |
| `RoundLog.RefusedProbeDrawsTwice` | packages/testoperations/src/testoperations/throughput.py:491-500 | the record of a probe that does not complete, never retried: two draws with nothing absorbed |
| `RoundEngine.RefusedProbe` | packages/testoperations/src/testoperations/throughput.py:491-500 | on an engine whose flows never complete and that has no retry_when, every run ends with its probe |
| `RoundEngine.RefusedProbeCall` | packages/testoperations/src/testoperations/throughput.py:975-982 | a call on such an engine: it raises the non-completion, and drew the clock twice with nothing absorbed |
| `Homing.SettledForm` | packages/testoperations/src/testoperations/homing.py:227-244 | for any plan: role and hubs unchanged, unassigned VLANs and entries kept in order, each id's and each subnet's last assignment wins |
| `Homing.DistinctPlanForm` | packages/testoperations/src/testoperations/homing.py:227-244 | for distinct ids and subnets: original minus assigned, then exactly the appliance's own assignments in plan order, advertised |
| `Homing.SettleIdempotent` | packages/testoperations/src/testoperations/homing.py:233-236 | applying a plan to its own result changes nothing, list order included, for an appliance inside or outside the list |
| `Homing.DefineAfterWithdraw` | packages/testoperations/src/testoperations/homing.py:206-216 | withdrawing first does not change what defining leaves |
| `OverlayNetwork.RealizeStates` | packages/testoperations/src/testoperations/homing.py:237-244 | the nested loops leave each appliance with its own share of the plan |
| `OverlayNetwork.RealizeIdempotent` | packages/testoperations/src/testoperations/homing.py:227-244 | a second run leaves the identical world, targets outside the listed appliances included |
| `OverlayNetwork.RealizeKeepsSingle` | packages/testoperations/src/testoperations/homing.py:227-244 | if each assigned VLAN and subnet starts with at most one home, it has at most one after every single write |
| `OverlayNetwork.HomeStates` | packages/testoperations/src/testoperations/homing.py:196-216 | where homing one client ends on each appliance, with different or no previous and target capabilities |
| `OverlayNetwork.RealizedIsVerified` | packages/testoperations/src/testoperations/homing.py:227-244 | after a run an assignment reads as defined and advertised on its target if and only if, among the assignments its target sees, the last of its VLAN id and the last of its subnet keep them there |
| `OverlayNetwork.DistinctPlanIsVerified` | packages/testoperations/src/testoperations/homing.py:153-193 | in a plan that names each VLAN and subnet once, every assignment verifies |
| `OverlayNetwork.HomedClientIsVerified` | packages/testoperations/src/testoperations/homing.py:153-216 | homing a client leaves what verifying it reads, whichever appliances its capabilities belong to |
| `OverlayNetwork.HomeClientIsRealize` | packages/testoperations/src/testoperations/homing.py:196-216 | homing one client ends where realizing that single assignment over its appliances ends, with or without a previous one, also when it already lives on its target |
| `OverlayNetwork.ReflaggedFacts` | packages/testoperations/src/testoperations/homing.py:114-150 | setting a subnet's flag keeps role, hubs, positions and all other entries, and appends only when advertising an absent subnet |
| `OverlayNetwork.ReflaggedConverges` | packages/testoperations/src/testoperations/homing.py:130-133 | asking again rebuilds the same configuration, so nothing is written |
| `OverlayNetwork.Network.DeleteIfPresent` | packages/testoperations/src/testoperations/homing.py:85-91 | the VLAN is gone; an absent one causes no write |
| `OverlayNetwork.Network.SetAdvertise` | packages/testoperations/src/testoperations/homing.py:94-111 | the filtered list, with the entry appended when advertising, is written once |
| `OverlayNetwork.Network.SetSubnetAdvertised` | packages/testoperations/src/testoperations/homing.py:114-150 | the rebuilt configuration is written exactly when it differs from the one read |
| `OverlayNetwork.Network.VerifyHome` | packages/testoperations/src/testoperations/homing.py:153-193 | each fact of the verification, both ways; no peers means not reachable; each peer's state is that of the last status that names it, and no others are listed |
| `OverlayNetwork.Network.HomeClient` | packages/testoperations/src/testoperations/homing.py:196-216 | the exact sequence of writes: withdrawals where given, then definition and advertisement |
| `OverlayNetwork.Network.RealizeOne` | packages/testoperations/src/testoperations/homing.py:238-244 | one assignment's writes: withdrawn from every other listed appliance, then defined |
| `OverlayNetwork.Network.Realize` | packages/testoperations/src/testoperations/homing.py:227-244 | the world after each write of a run, and the last one |
| `PortText.ParsePortRanges` | packages/testoperations/src/testoperations/pairs.py:70-89 | the loop returns the items' ranges or the error of the first malformed item |
| `PortText.BareSpells` | packages/testoperations/src/testoperations/pairs.py:55-67 | an item is accepted exactly when it spells one in-bound port or two in order, with that range |
| `PortText.ParserAccepts` | packages/testoperations/src/testoperations/pairs.py:70-89 | a text is accepted exactly when it is `any` or every comma item spells a range; all ranges are within bounds |
| `PortText.PortRoundTrip` | packages/testprotocols/src/testprotocols/models/ports.py:13-30 | parsing the comma-joined text of any in-bound ranges gives them back, and `any` is the empty tuple |
| `PortText.RenderNormalises` | packages/testoperations/src/testoperations/pairs.py:70-89 | any accepted text can be replaced by the printed form of what it parses to |
| `PortText.EitherFormReadsSame` | packages/testoperations/src/testoperations/pairs.py:92-120 | a record reads the same whichever of the two forms was filled, for rules and for NAT rules |
| `QosText.ParseQosClassifier` | packages/testoperations/src/testoperations/pairs.py:253-288 | the loops compute the specified outcome |
| `QosText.ParseIsTerms` | packages/testoperations/src/testoperations/pairs.py:266-274 | stripping the whole text does not matter: the outcome is what its comma terms say |
| `QosText.TermsUnordered` | packages/testoperations/src/testoperations/pairs.py:269-288 | what terms say does not depend on their order |
| `QosText.OrderInsensitive` | packages/testoperations/src/testoperations/pairs.py:253-288 | permuting the comma terms of a text never changes classifier, none or error |
| `QosText.ErrorIff` | packages/testoperations/src/testoperations/pairs.py:270-280 | the error arises exactly when every term has a known key and some group repeats |
| `QosGrammar.SpelledIff` | packages/testoperations/src/testoperations/pairs.py:253-288 | a text has a given classifier if and only if every comma term has a known key, no group is given twice, and each field is set exactly when a term has one of its keys and then to what its value spells: a VLAN id from 1 to 4094, a protocol's name in any letter case, one port or two in order |
| `QosGrammar.TermIff` | packages/testoperations/src/testoperations/pairs.py:269-274 | a term gives a key and a value exactly when its stripped text is a known key, an equals sign and the value with blanks around it |
| `QosText.QosRoundTrip` | packages/testprotocols/src/testprotocols/models/switch.py:300-306 | the neutral spelling of any in-bound classifier with a field set, its terms in any order, parses back to it |
| `LineText.SplitUnlinesIff` | scripts/neutrality_scan.py:61-61 | lines written with a newline each are split back if and only if none holds a line break of its own |
| `DiffReader.AddedLines` | scripts/neutrality_scan.py:50-86 | the loop over path, line number, string flag and previous line yields the specified lines |
| `DiffRendering.HeaderRead` | scripts/neutrality_scan.py:47-75 | a rendered hunk header, with or without the counts of one-line ranges, gives the number of the hunk's first post-image line |
| `DiffRendering.FileRead` | scripts/neutrality_scan.py:57-86 | whatever came before, a file of the diff adds exactly its own added lines |
| `DiffRendering.DiffBound` | scripts/neutrality_scan.py:65-69 | a clash always costs at least one line, and nothing is ever invented |
| `DiffRendering.ReaderAgrees` | scripts/neutrality_scan.py:50-86 | the added lines, in order, with path, post-image number and string flag, if and only if no removed `-- ` line is directly above an added `++ ` line |
| `DiffRendering.TextReaderAgrees` | scripts/neutrality_scan.py:50-86 | the same for the diff as one text |
| `DiffRendering.ClashIsMisread` | scripts/neutrality_scan.py:65-69 | a removed `-- x` above an added `++ y`: the added line is not read |
| `DiffRendering.AddedLinesPlaced` | scripts/neutrality_scan.py:35-43 | each added line stands in its file's post-image at its number |
| `HunkGrammar.HunkHeaderIff` | scripts/neutrality_scan.py:47-47 | a line is a hunk header with a given start exactly when it spells two ranges between the marks, the second beginning with it, whatever follows |
| `TripleQuotes.TripleCounted` | scripts/neutrality_scan.py:81-81 | behind a text without quotes, three quotes of one kind, of either, count once, and the rest as it would alone |
| `TripleQuotes.RunBetween` | scripts/neutrality_scan.py:81-81 | a maximal run of n quotes of one kind counts n / 3, and what stands around it as it would alone |
| `TripleQuotes.StringIsMarked` | scripts/neutrality_scan.py:81-86 | in a hunk with one triple-quoted string, of either kind, the added lines from the opening to the closing line are flagged and no others; removed lines do not matter |
| `TripleQuotes.StringIsRead` | scripts/neutrality_scan.py:50-86 | the same of what is read from such a hunk as it is rendered |
| `Changelog.Reader.FlushCurrent` | scripts/changelog_entries.py:105-108 | the open bullet becomes an entry under the labels in force, and nothing is open |
| `Changelog.Reader.ReadLine` | scripts/changelog_entries.py:111-125 | one line's effect on labels, open bullet and entries |
| `Changelog.ReadUnreleased` | scripts/changelog_entries.py:94-127 | the loop returns the section's entries and the heading's line, or neither |
| `Changelog.UnreleasedRecovers` | scripts/changelog_entries.py:94-127 | for every text: one entry per bullet of the section, in order, with its line, nearest labels (a package heading resets the subsection) and its own lines up to the first that does not continue it |
| `Changelog.BlockForEachBullet` | scripts/changelog_entries.py:114-119 | the blocks are those of the bullet lines and nothing else |
| `Changelog.UnreleasedIsLocal` | scripts/changelog_entries.py:112-113 | lines from the next release heading on never affect the result |
| `ChangelogFacts.ContinuationIff` | scripts/changelog_entries.py:118-118 | a line continues the bullet above it exactly when it begins with two blanks and is not all blank |
| `ChangelogFacts.HeadingIff` | scripts/changelog_entries.py:97-99 | the section begins at the first line that starts with its heading, whatever follows on it |
| `ChangelogFacts.LabelsTrimmed` | scripts/changelog_entries.py:121-125 | no label of an entry has blanks at its ends |
| `ChangelogRendering.WordsOfJoin` | scripts/changelog_entries.py:90-91 | collapsing gives back words that were joined by blanks |
| `ChangelogRendering.PageRoundTrip` | scripts/changelog_entries.py:94-127 | a structured section (packages, subsections, wrapped bullets) between any other text reads back: every entry with its line, package, subsection and words |
| `ChangelogRendering.TextRoundTrip` | scripts/changelog_entries.py:94-127 | the same for the file as one text |
| `Matching.LeftOverCount` | scripts/changelog_entries.py:238-256 | for every key the items left are exactly the excess over the other list |
| `Matching.OneMoreOther` | scripts/changelog_entries.py:240-250 | one more row takes the first unmatched entry of its key, if any |
| `Matching.MatchedInPairs` | scripts/changelog_entries.py:238-256 | both lists lose the same number, so matched rows and entries come in pairs |
| `Matching.NothingLeftIff` | scripts/changelog_entries.py:225-256 | nothing is left on either side if and only if the keys agree as multisets |
| `Register.MatchRow` | scripts/changelog_entries.py:241-250 | one step of the greedy loop against both leftover lists |
| `Register.MatchRows` | scripts/changelog_entries.py:238-256 | the greedy loop reports the rows without an entry, then the entries without a row |
| `Register.RegisterProblems` | scripts/changelog_entries.py:225-256 | the parity report of the rows due next release and the deprecations of the section |
| `Register.ParityPerKey` | scripts/changelog_entries.py:225-256 | for each key exactly max(0, rows - entries) row problems and max(0, entries - rows) entry problems |
| `Register.RegisterPerKey` | scripts/changelog_entries.py:225-256 | the same of a whole changelog and register: rows marked for the next release against entries under Deprecated that are no placeholders |
| `Register.ParityCleanIff` | scripts/changelog_entries.py:12-17 | no problem if and only if rows and entries have equal key multisets |
| `Register.KindlessNeverMatches` | scripts/changelog_entries.py:241-242 | an entry with no kind is always reported |
| `Register.CountIdentities` | scripts/changelog_entries.py:184-184 | the counter holds the number of entries of each identity |
| `Register.NumberProblems` | scripts/changelog_entries.py:185-198 | the counting loop reports a wrong number at a line exactly when, for a positive number, an entry stands there that main has no entry left for and that does not cite it |
| `Register.EntryProblems` | scripts/changelog_entries.py:171-198 | a missing heading alone; otherwise each lack of each entry that is no placeholder, at its line and no other, and each wrong number in that sense |
| `Register.NumbersCleanIff` | scripts/changelog_entries.py:185-198 | no number is reported wrong if and only if there is no heading, no positive number, or every entry held to the number cites it |
| `Register.AddedPerIdentity` | scripts/changelog_entries.py:174-176 | for each identity exactly max(0, head - main) entries are held to this change's number |
| `Register.EditsKeepTheirNumbers` | scripts/changelog_entries.py:175-176 | editing or reordering entries main already has is held to no number |
| `Intervals.ScanGaps` | packages/testoperations/src/testoperations/iperf_client.py:164-167 | the pairwise loop collects the gaps |
| `Intervals.SenderLifeRecord` | packages/testoperations/src/testoperations/iperf_client.py:154-173 | the record of the parsed rows |
| `Intervals.NoGapsCovers` | packages/testoperations/src/testoperations/iperf_client.py:164-167 | no gap means every instant up to the latest end is covered within the tolerance, even when rows overlap |
| `Intervals.GapIsHoleIff` | packages/testoperations/src/testoperations/iperf_client.py:164-167 | a reported gap is free of rows if and only if no earlier row outlasts the row before it |
| `Intervals.NestedRowsReportFalseGap` | packages/testoperations/src/testoperations/iperf_client.py:164-167 | nested rows make the reader report a gap that a row covers |
| `Intervals.RecordCovers` | packages/testoperations/src/testoperations/iperf_client.py:157-167 | for rows in any order without a recorded gap, the periodic rows alone cover every instant from their first start to their last end |
| `Intervals.NoGapsRunIff` | packages/testoperations/src/testoperations/iperf_client.py:157-167 | a record without gaps covers the whole run, summary included in its bounds, if and only if the periodic rows start with it and reach its end within the tolerance |
| `Intervals.SilentTailIsNoGap` | packages/testoperations/src/testoperations/iperf_client.py:157-167 | reports that stop long before the summary's end: no gap is recorded |
| `Intervals.RecordGapsExact` | packages/testoperations/src/testoperations/iperf_client.py:137-141 | with disjoint periodic rows each gap is wider than the tolerance and entered by no periodic row, and there is none exactly when all is covered |
| `Intervals.SummaryExcludedIff` | packages/testoperations/src/testoperations/iperf_client.py:157-162 | interval reports with summaries of their span, in any order, give the record of the reports alone if and only if no report itself spans the run |
| `Intervals.OneReportCountsTwice` | packages/testoperations/src/testoperations/iperf_client.py:157-162 | one report and its summary: two intervals and twice the bytes |
| `Intervals.LaterSummaryHidesEarlier` | packages/testoperations/src/testoperations/iperf_client.py:157-162 | a summary that ends after every other row is the only row left out; an earlier summary is counted like a report |
| `Intervals.TwoSummariesCountOne` | packages/testoperations/src/testoperations/iperf_client.py:157-162 | two reports and two summaries with different ends: three intervals and twice the bytes |
| `Intervals.RecordIgnoresOrder` | packages/testoperations/src/testoperations/iperf_client.py:157-173 | the whole record is independent of the order of the rows |
| `Sorting.StableSortSorts` | scripts/contract_surface.py:1059-1059 | sorting by a total key order rearranges and orders |
| `Sorting.StableSortStable` | packages/testoperations/src/testoperations/iperf_client.py:157-157 | elements the key does not tell apart keep their order |

## Left out

- Source reading in `scripts/contract_surface.py` (AST, annotations, re-export paths): an annotation carries the set of its union members, a default its text and whether it is a literal, a symbol its key.
- Change detail texts and summaries: a change keeps its classification, site, direction, needs and old and new text.
- `RenameMatching.SignatureTextsApart`: stated for members whose parameter texts hold no comma and no closing parenthesis; annotations such as `dict[str, int]` hold commas, and texts of such members are compared as they stand.
- `Differ.Diff`: arguments captured from an old `*args` or `**kwargs` are not part of the promise, because the code does not report them; see `CallerSoundness`.
- `SignatureSoundness.CallerSoundness`: binding compares which parameter an argument reaches and default texts; annotations are compared apart (`AnnotationSoundness`), as sets of type names without subtyping.
- `ConstructorSoundness.ConstructorKept`: outright only for bodies without repeated field names, since the code misses a shift behind a repeated one; `ConstructorKeptIff` gives the condition for all bodies, where a repeated field keeps the keyword-only mark of its first annotation.
- `SurfaceSoundness.QuietInit`: an `__init__` inherited from another class is not part of a class's own members, and is not considered.
- Dataclass inheritance, `field(init=False)` and generated methods other than the constructor: the differ does not reason about them.
- `check_changelog`, `enum_param_problems`, `new_protocol_members` and the Markdown and JSON output of the differ: name matching and formatting.
- `JsonScanner.IterJsonDocs`: `json.loads` is a function from text to an optional document; the round trip with a parser is an assumption of `LoggedDocumentsReturned` only.
- `JsonText.CutInString`: later strings that hold braces or quotes of their own may open, close or end anything, and are not characterised further.
- The figures inside a session document (`last_session_mbps`, RTT, retransmits, and `_obj`, `_seq`, `_num`): a document carries them already read.
- `Testbed.Bench.AwaitSession`: termination assumes that sleeping brings the clock to any deadline after some number of sleeps; a sleep or a clock that raises, and interrupts that are no ordinary exceptions, are not modelled.
- `ConcurrentMeasurement.MeasureConcurrentThroughput`: bandwidth, window, parallel streams and the omitted seconds of a start are not part of the events beyond the wait's length.
- `RoundEngine.Engine.MeasureRounds`: termination assumes that backoffs and rounds bring the clock to any deadline; callbacks that change the caller's own state are functions of the history.
- `measure_concurrent_throughput_with_retry`, `measure_path_rtt`, `measure_one_direction`, `measure_external_flow` and the two `*_until` entry points: one-line compositions of the modelled engine or single-flow variants.
- VLAN records keep id, subnet and appliance address; their DHCP fields pass through unchanged and are not modelled. A driver call that raises anything but the absent VLAN is not modelled.
- `OverlayNetwork.Network.SetSubnetAdvertised`: the list comprehension is the function `Reflagged` rather than a loop.
- `PortText.ParsePortRanges`: the wording of errors is one value, and the interpreter's limit on the length of decimal texts is not modelled.
- `QosText.ParseQosClassifier`: the protocol is lower-cased letter by letter in ASCII.
- `parse_timestamp` and the record readers that only forward to it.
- `DiffReader.AddedLines`: digits of hunk headers are ASCII; quoted file names, file names followed by a tab, and hunks with blank context lines stripped of their blank are read as the code reads them but are not rendered.
- The rules of the neutrality scan (addresses, host names, e-mails, tickets) over the added lines.
- `Register.RegisterProblems`: what the regular expressions read from entries and rows (kind, code spans, citations, missing fields) are functions of the text; the table reader `register_rows` is left out.
- `Intervals.SenderLifeRecord`: stamps are reals, so rounding of floating point subtraction is not modelled; the regular expression and unit scaling come before the rows.
- Protocol declarations, records without logic, capture, selection, segmentation, waiting and the deprecated accessors: they would add only easy members.
