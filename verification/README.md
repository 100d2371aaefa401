# Rainfall live evidence, and three smaller cores

A Dafny model of the Rainfall host protocol (`fine/`), with proofs about every run of it, and of
three independent algorithms of the same repository: the `CheckSmall` minimiser, the header-rule
and component registry of the makefile generator, and the profile diff.

**The protocol.** A host directory holds one document, its displayed source, one *generation*
(solver request) per revision, and annotations: evidence about the source, shown as `current`,
`transported` or `unplaced`. An edit transaction advances the revision, moves the annotations and
issues the next generation. A solver runs without the lock and hands in a trace; `complete` checks
it between two lock sections and admits or discards it against whatever is displayed by then.

**How it is modelled.** A lock section is a function from the disk to a `Plan`: the writes it
performs, in order, and its outcome (module `Host`). The class `RainHost.Directory` is the host's
code in its own imperative form; each method is proved to perform exactly the writes of its plan, in
their order, recorded in a ghost journal. A run (module `Runs`) is any sequence of lock sections by
any number of editors, solvers and failure reports. A `complete` contributes two separate steps, so
anything may happen between them, and each step may crash after any number of whole writes and in
the middle of the next. Two auxiliary variables record the transactions since the last admission and
how often each generation was settled.

| module | models |
|---|---|
| `Utf8`, `Edits`, `Transport`, `History` | bytes, edit transactions, moving a range through one transaction and through a history of them |
| `Traces`, `Replay`, `Validator`, `Projection` | trace events, what a valid trace is, the one-pass validator, the catalogue and the annotations built from it |
| `Snapshots`, `Generation` | source identities, requests, admission |
| `Host`, `RainHost`, `Integrity`, `Runs`, `Safety`, `Markers`, `Completion`, `Materialization`, `Foreign` | the host: plans, code, invariant, runs, and what holds over every run |
| `Live`, `ByteOptimality` | `minimal_edit` and `replace_source` |
| `Samples`, `Exhibits` | concrete traces and runs that show where a promise ends |
| `Words`, `Bisection`, `CheckSmall`, `SmallModel` | bisection in wrapping 32-bit arithmetic, the search of `CheckSmall` for any exact solver, and the code with its solver scopes |
| `HeaderRules`, `Registry` | include-graph traversal, component dependencies and link order |
| `ProfileDiff` | merge, comparator and ordering of the profile report |

**Promises that do not hold, and exactly when they do.**

- A saved state can always be loaded again, *unless* a run has admitted a trace with evidence about
  an empty source node. The validator accepts such nodes, the loader refuses such spans. After that
  no operation ever changes the directory again (`RunsLoadExactly`, `UnloadableIsFinal`,
  `EmptyEvidenceBricksTheHost`).
- An honest trace of the current generation is admitted *unless* it carries `internal_z3` evidence,
  which the validator accepts and the projection cannot look up (`LookupsSucceed`,
  `RunsDecideByCurrency`, `InternalEvidenceIsNeverAdmitted`).
- A completion interrupted by a crash can be retried *unless* its trace file was left half written;
  then that generation can never be completed with that trace (`RetryExactly`, `TornTraceIsFinal`,
  `TornTraceBlocksRetry`).
- `complete` does not compare the trace's run with the generation it is told to complete. A
  superseded generation is recorded as admitted exactly by a trace of the current one
  (`ForeignCompletion`). Then current evidence is shown although the current generation is not
  admitted. At the end of a run that is so exactly when the last step that replaced the annotations
  was such a completion (`NotAdmittedExactly`), and throughout a run it never is exactly when there
  is no such completion (`ShownIsAdmittedExactly`). Which completions those are can be read off the
  directory and the trace beforehand (`UsurpsExactly`, `TraceUsurpsAnotherGeneration`).
- `materialize` is refused for producing invalid UTF-8 exactly when a hole ends inside a character
  (`MaterializeExactly`, `HoleEndsInsideCharacter`).
- `fine/README.md` and the comment on `transport_range` say that a deleted range becomes unplaced.
  The code does that for non-empty ranges, exactly when each byte is deleted outright
  (`TransportExact`). An empty range strictly inside a replacement becomes placed on the whole
  insertion (`TransportOfEmpty`, `EmptyNodeBecomesPlaced`). The model follows the code.
- `CheckSmall` computes its midpoint in 32 bits, so its lower bounds can fall back. It always stops
  exactly on the satisfiable constraint sets where bisection from zero, wrapping included, closes the
  bracket or gets past the least value of each component it can come to bisect (`StopsExactly`). A
  set on which no sum wraps is such a set (`RoomyStops`), among them the repository's own call
  (`ExampleStops`); a uniform bound on the values suffices exactly up to 2^31 (`HalfIsTheLimit`).
- `minimal_edit` is optimal among replacements of whole characters (`MinimalEditIsOptimal`). Among
  all edits the host accepts it is smallest *unless* the bytes of the new text can be got by deleting
  one run of bytes, but the new text not by deleting one run of characters (`SmallestExactly`,
  `SplittingCanBeSmaller`).

## Model

| member | source | states |
|---|---|---|
| `Utf8.DecodeOfEncode` | fine/rainfall_host.py:97-97 | Encoding a text and decoding it strictly gives the text back. |
| `Utf8.EncodeOfDecode` | fine/rainfall_host.py:188-192 | Bytes that decode are the encoding of what they decode to: overlong forms, surrogates and stray continuation bytes are refused. |
| `Utf8.EncodeConcat` | fine/rainfall_live.py:40-44 | Encoding distributes over concatenation, so byte offsets of a text prefix are lengths of its encoding. |
| `Utf8.DecodePrefix` | fine/rainfall_host.py:233-237 | After encoded text, decoding succeeds exactly when the rest decodes, and yields the two texts one after the other. |
| `Utf8.SplitAtBoundary` | fine/rainfall_host.py:233-237 | Encoded text cut at a character boundary falls into two encoded texts. |
| `Edits.LoadEdits` | fine/rainfall_projection.py:34-60 | Accepts a transaction exactly when every edit is in bounds and every pair, not only neighbours, is ordered, disjoint and unambiguous; a refusal names the first offending edit. |
| `Edits.AcceptableIsOrdered` | fine/rainfall_projection.py:52-57 | The pairwise condition on a transaction gives the in-order condition that application and transport consume edit by edit. |
| `Edits.ApplyEdits` | fine/rainfall_projection.py:63-70 | The cursor loop computes the edited document that the per-byte meaning below is about. |
| `Edits.ImageMeaning` | fine/rainfall_projection.py:63-70 | At the place of an uncovered byte the edited document holds that byte, and at the place of a covered one the covering edit's insertion. |
| `Edits.ImageBounds` | fine/rainfall_projection.py:63-70 | The places of bytes lie inside the edited document, and a place is empty exactly for a byte deleted outright. |
| `Transport.MapRange` | fine/rainfall_projection.py:73-96 | The three-variable loop computes the range whose meaning `TransportExact` gives. |
| `Transport.TransportExact` | fine/rainfall_projection.py:73-96 | Through any accepted transaction a non-empty range maps to the hull of its bytes' places, from the first byte not deleted to the last; it is unplaced exactly when every byte was deleted outright. |
| `Transport.TransportInBounds` | fine/rainfall_projection.py:94-96 | A placed range is non-empty and inside the edited document. |
| `Transport.TransportKeepsSurvivors` | fine/rainfall_projection.py:73-96 | A byte no edit covers is inside the moved range exactly when it was inside the range before. |
| `Transport.TransportMonotone` | fine/rainfall_projection.py:73-96 | Both ends move monotonically, so nested ranges that stay placed stay nested. |
| `Transport.Collapsed` | fine/rainfall_projection.py:87-96 | A range that has collapsed is never placed again by the rest of the transaction. |
| `Transport.ImageOrder` | fine/rainfall_projection.py:63-70 | Bytes' places keep the bytes' order, and a surviving byte shares its place with no other. |
| `Transport.TransportOfEmpty` | fine/rainfall_projection.py:73-96 | Exactly what happens to an empty range: placed on the insertion if strictly inside a replacement, unplaced otherwise. |
| `History.CarriedInBounds` | fine/rainfall_host.py:211-227 | Over any history a range that is still placed is non-empty and inside the document of that moment. |
| `History.CarriedIsFaithful` | fine/rainfall_host.py:211-227 | Over any history an untouched byte stands inside the carried range exactly when it lay inside the original one. |
| `History.StandingValue` | fine/rainfall_host.py:230-240 | Over any history an untouched byte keeps its value. |
| `History.StandingOrder` | fine/rainfall_host.py:230-240 | Over any history untouched bytes keep their order. |
| `History.StandingIsProvenance` | fine/rainfall_host.py:230-240 | Running the same edits on bytes tagged with their origin finds the byte of offset i at position j exactly when the place arithmetic says so. |
| `History.UnplacedStays` | fine/rainfall_host.py:217-220 | A range once unplaced is unplaced after every longer history. |
| `Validator.Validate` | fine/rainfall_replay.py:34-335 | The one-pass loop accepts exactly the traces that satisfy the declarative specification (unique ids, earlier references, one document and snapshot, every term lifted, exact match witness, edges over the whole trace); a refusal names the first event out of order, the first edge out of order, or says that the orderly events do not conclude. |
| `Validator.CheckEvents` | fine/rainfall_replay.py:56-302 | The first loop stops at the first event that the events before it do not justify; if there is none it has collected the whole trace's declarations. |
| `Validator.CheckEdges` | fine/rainfall_replay.py:313-328 | The second loop finds the first edge that the collected declarations do not justify, or none if there is none. |
| `Validator.OperationAgrees` | fine/rainfall_replay.py:75-296 | For every kind of event, the check against the accumulated sets and maps is the check against the events that came before. |
| `Validator.CheckOperation` | fine/rainfall_replay.py:75-296 | The executable check of one event decides the check against the ledger. |
| `Validator.WitnessAgrees` | fine/rainfall_replay.py:224-259 | A match witness passes exactly when its replacements are the verified bodies of declared holes on the holes' own spans, disjoint and in order, naming every hole declared before it once. |
| `Replay.CheckReplacements` | fine/rainfall_replay.py:233-259 | The loop with its name set and range list decides the conditions on replacements. |
| `Replay.CheckOrder` | fine/rainfall_replay.py:253-255 | Sorted order plus a check of neighbours decides that all pairs of ranges are disjoint and in order. |
| `Validator.ConclusionAgrees` | fine/rainfall_replay.py:304-311 | The checks after the loop hold of the ledger exactly when the trace has one document, one snapshot, a close at the end only, a lift for each term, and a witness if it is a match run. |
| `Validator.EdgeAgrees` | fine/rainfall_replay.py:313-328 | An evidence edge is checked against the declarations of the whole trace, before and after it. |
| `Validator.PriorDistinct` | fine/rainfall_replay.py:56-223 | Orderly events never declare a document, snapshot, node, term, lift, hole, arm or event id twice. |
| `Projection.PrefixFree` | fine/rainfall_replay.py:72-73 | No proper extension of an accepted trace is accepted, for this or any other source. |
| `Projection.LiftedOnce` | fine/rainfall_replay.py:190-198 | In an accepted trace every term has exactly one lift validation, later than its declaration and under the same hash. |
| `Projection.CatalogueHeads` | fine/rainfall_replay.py:338-348 | The first document and snapshot found are the only ones, and the snapshot identifies the validated source. |
| `Projection.CatalogueIsLedger` | fine/rainfall_replay.py:349-358 | The catalogue's node and term dictionaries are the validator's own, and hold each declaration unchanged. |
| `Projection.PositionOrder` | fine/rainfall_projection.py:99-102 | Line and column order offsets lexicographically; in particular they determine the offset. |
| `Projection.BuildAnnotations` | fine/rainfall_projection.py:169-193 | The loop builds one annotation per evidence event in trace order, or stops at a failed lookup. |
| `Projection.LookupsSucceed` | fine/rainfall_projection.py:170-173 | On an accepted trace every lookup succeeds exactly when no evidence is about an internal solver term. |
| `Generation.Decide` | fine/rainfall_generation.py:93-122 | The executable decision is the one that `AdmitExactly` and `AdmittedIsExact` characterise. |
| `Generation.AdmittedIsExact` | fine/rainfall_generation.py:93-122 | An admitted trace was made for the requested generation and snapshot and validates against the displayed bytes; its annotations are all current, in bounds and on the span they claim. |
| `Generation.AdmitExactly` | fine/rainfall_generation.py:93-122 | For a valid trace: discarded exactly when display, run or snapshot differ from the request; otherwise a failed lookup exactly with internal evidence, and admitted exactly without. |
| `Integrity.LoadsExactly` | fine/rainfall_host.py:80-137 | A state that meets the invariant passes every check of the loader exactly when no current annotation has an empty span. |
| `Integrity.GrowthKeepsSound` | fine/rainfall_host.py:63-73 | Orphaned artifacts, whole or torn, leave the invariant alone. |
| `Integrity.NameIsNew` | fine/rainfall_host.py:145-148 | A fresh token gives a generation name that no record has. |
| `Integrity.IssuedIsSound` | fine/rainfall_host.py:145-163 | Issuing a generation for an edited or initial state re-establishes the whole invariant, with its two artifacts on disk under the right contents. |
| `Integrity.EditedIsIssuable` | fine/rainfall_host.py:230-245 | A transaction on a sound state moves every annotation in bounds, retires all current ones and leaves one superseded-or-settled generation per older revision. |
| `Integrity.RecordedIsSound` | fine/rainfall_host.py:292-307 | Recording an admission or a discard keeps the invariant: annotations shown as current are the evidence of the retained trace of the current generation. |
| `Integrity.FailedIsSound` | fine/rainfall_host.py:333-349 | Recording a failure keeps the invariant. |
| `Runs.CrashSafe` | fine/rainfall_host.py:45-73 | Stopped after any writes and anywhere inside the next, a lock section leaves the old durable state or the new one, and every earlier artifact as it was. |
| `Runs.PlanIsGood` | fine/rainfall_host.py:188-349 | Every lock section creates only new artifacts, then saves once, a sound state that follows the old one. |
| `Runs.StepDisk` | fine/rainfall_host.py:188-349 | Every step, whole or cut short, keeps the disk sound, keeps all artifacts, and keeps or follows the state. |
| `Runs.StepPending` | fine/rainfall_host.py:310-320 | Whatever steps come between, what the first lock section of a completion read is still true at its second. |
| `Runs.PlanSettles` | fine/rainfall_host.py:292-349 | A saved step closes exactly the generation it is about, and only if that was open; edits close none. |
| `Safety.EveryRunIsSound` | fine/rainfall_host.py:188-349 | The invariant of disk, pending completions, settlement counts and marker log holds after every run. |
| `Safety.CurrentMeansEvidenced` | fine/rainfall_host.py:211-330 | In every run, if one annotation is current then all are, and they are exactly the evidence of a retained trace that validates against the displayed bytes, whose run is the current generation and whose snapshot is the displayed one. |
| `Safety.RecordedAtMostOnce` | fine/rainfall_host.py:310-349 | In every run a generation has been recorded as completed or failed at most once, and once exactly if its status is final. |
| `Safety.OneGenerationPerRevision` | fine/rainfall_host.py:145-163 | In every run each revision so far has exactly one generation, there are revision + 1 of them, and only the current one can still be plainly requested. |
| `Safety.LaterFollows` | fine/rainfall_host.py:188-349 | However a run goes on, the document stays, the revision does not fall, no generation or artifact disappears and none changes its request. |
| `Safety.SettledForever` | fine/rainfall_host.py:310-349 | Admitted, discarded and failed records never change again, however the run goes on. |
| `Safety.MarkersAreFaithful` | fine/rainfall_host.py:211-247 | In every run, a byte of the last admitted source that no transaction covered is displayed unchanged, and lies inside a marker's display span exactly when it lay inside the span the marker claims. |
| `Markers.UnplacedUntilAdmission` | fine/rainfall_host.py:211-247 | Until the next admission, through any edits, late completions, failures and crashes, the markers are the same ones in the same order; unplaced ones stay unplaced and retired ones never become current. |
| `Completion.SavedStatesLoad` | fine/rainfall_host.py:188-349 | What a step saves loads again, except exactly when it admits a trace with empty evidence. |
| `Completion.RunsLoadExactly` | fine/rainfall_host.py:80-137 | The durable state of a run fails to load exactly when some step of the run saved the admission of a trace with empty evidence. |
| `Completion.UnloadableIsFinal` | fine/rainfall_host.py:80-137 | Once the state does not load, no continuation of the run changes the disk. |
| `Completion.EmptyAnnotation` | fine/rainfall_replay.py:125-127 | An accepted trace yields an annotation on an empty span exactly when it has evidence about an empty source node. |
| `Completion.HonestCompletion` | fine/rainfall_host.py:321-330 | What `complete` answers a trace with the run, document and revision it was requested with: settled already, internal evidence, another trace on file; otherwise it is recorded as admitted if its generation is current and as discarded for being late if not. No other reason can arise. |
| `Completion.RunsDecideByCurrency` | fine/rainfall_host.py:310-330 | In every run the previous row holds of every completion between its two lock sections. |
| `Completion.AdmissionExactly` | fine/rainfall_host.py:321-330 | A completion of an open generation is admitted exactly when its trace is of the current run and the displayed snapshot, has no internal evidence, and no other trace is on file; the generation named plays no other part. |
| `Completion.ForeignCompletion` | fine/rainfall_host.py:310-330 | For a generation other than the current one the same condition is exact; it is then a superseded generation of the displayed bytes, it alone changes its record, and all annotations are current. |
| `Foreign.ShownIsAdmittedExactly` | fine/rainfall_host.py:292-330 | Throughout a run current annotations come with an admitted current generation, exactly if no step saves evidence of the current run under another generation while the current one is not admitted. |
| `Foreign.NotAdmittedExactly` | fine/rainfall_host.py:292-330 | At the end of a run current annotations stand beside a current generation that is not admitted exactly if a step saved them that way and no edit or admission has replaced the annotations since. |
| `Foreign.UsurpsExactly` | fine/rainfall_host.py:292-330 | After any run a completion is such a step exactly if it records, for another generation that is still open, a trace with evidence, none of it internal, about the displayed snapshot and the current run, while the current generation is not admitted and any trace file of that name agrees. |
| `Foreign.AdmissionShows` | fine/rainfall_host.py:306-307 | An admission shows annotations exactly if its trace has evidence, and they are all current. |
| `Completion.CrashDuringRecord` | fine/rainfall_host.py:292-307 | A crash during recording leaves the state as it was and the trace file absent, whole or cut off. |
| `Completion.RetryExactly` | fine/rainfall_host.py:292-330 | Repeated from its beginning after such a crash, the completion passes its first lock section again, and has the same outcome exactly when the trace file is absent or whole; a torn one makes it fail. |
| `Completion.TornTraceIsFinal` | fine/rainfall_host.py:298-302 | A trace file with other contents blocks the completion in every continuation of the run. |
| `Materialization.AdmittedTraceStands` | fine/rainfall_host.py:262-271 | The retained trace of an admitted current generation is on disk and still validates against the display. |
| `Materialization.HolesAreAcceptable` | fine/rainfall_host.py:277-285 | The replacements of a validated witness over holes that still hold their text are always an acceptable transaction. |
| `Materialization.AlignedEdits` | fine/rainfall_host.py:233-237 | Edits that begin on character boundaries leave valid UTF-8 exactly when they all end on character boundaries. |
| `Materialization.MaterializeExactly` | fine/rainfall_host.py:257-289 | With something to write, `materialize` passes validation and edit loading and advances by exactly the verified bodies on the holes' own spans; it is refused exactly when a hole ends inside a character. |
| `Materialization.RunsMaterialize` | fine/rainfall_host.py:257-289 | In every run whose current generation is admitted, the trace is still there and valid, and the previous row holds. |
| `Materialization.RunsFillHoles` | fine/rainfall_host.py:257-289 | One more step of any such run: each hole holds its verified body, every other byte is kept in order, the revision is the next and no annotation is current; with a hole that ends inside a character nothing changes at all. |
| `Materialization.HolesHoldBodies` | fine/rainfall_projection.py:63-70 | Applying acceptable replacements puts each body where its hole stood and keeps every byte outside the holes, in order. |
| `Materialization.AdvanceRetiresEvidence` | fine/rainfall_host.py:211-247 | After any transaction, materialised or not, no annotation is current. |
| `RainHost.Directory.CreateArtifact` | fine/rainfall_host.py:63-73 | Creates one file that did not exist and changes nothing else. |
| `RainHost.Directory.SaveState` | fine/rainfall_host.py:140-142 | Replaces the state and touches no artifact. |
| `RainHost.Directory.Launch` | fine/rainfall_host.py:145-163 | Writes source, request and state, in that order, for the next generation name. |
| `RainHost.Directory.Initialize` | fine/rainfall_host.py:188-208 | Does the writes of the initialisation plan, in order: refused on invalid UTF-8 or an existing state, otherwise revision 0 with its first generation. |
| `RainHost.Directory.AdvanceLocked` | fine/rainfall_host.py:230-247 | Does the writes of the advance plan, in order: refused on an empty transaction or a non-UTF-8 result, otherwise the next revision and its generation. |
| `RainHost.Directory.Advance` | fine/rainfall_host.py:250-254 | Does the writes of the advance plan of a loaded state and an accepted transaction, in order; refused otherwise with nothing written. |
| `RainHost.Directory.Materialize` | fine/rainfall_host.py:257-289 | Does the writes of the materialisation plan, in order; `RunsFillHoles` says what they amount to. |
| `RainHost.Directory.BeginComplete` | fine/rainfall_host.py:310-320 | Reads the generation's own source and validates the trace, writing nothing. |
| `RainHost.Directory.FinishComplete` | fine/rainfall_host.py:321-330 | Does the writes of the completion plan, in order, on whatever state it finds. |
| `RainHost.Directory.RecordCompletion` | fine/rainfall_host.py:292-307 | Writes the trace, or checks the one already there, and only then saves the record and, if admitted, its annotations. |
| `RainHost.Directory.MarkFailed` | fine/rainfall_host.py:333-349 | Saves once, and only for an open generation of a loaded state. |
| `Live.CommonPrefix` | fine/rainfall_live.py:29-32 | The first loop stops at a common prefix that is followed by a difference or the end of the shorter text. |
| `Live.PrefixIsLongest` | fine/rainfall_live.py:29-32 | No common prefix is longer. |
| `Live.CommonSuffix` | fine/rainfall_live.py:33-37 | The second loop stops at a common suffix, apart from the prefix, that is preceded by a difference or uses up the shorter text. |
| `Live.SuffixIsLongest` | fine/rainfall_live.py:33-37 | No common suffix of what the prefix leaves is longer. |
| `Live.MinimalEdit` | fine/rainfall_live.py:25-44 | The code yields an acceptable transaction that turns the bytes of the old text into the bytes of the new. |
| `Live.MinimalEditApplies` | fine/rainfall_live.py:25-44 | The edit is empty exactly for equal texts, always accepted, and turns the bytes of the old text into the bytes of the new. |
| `Live.MinimalEditIsOptimal` | fine/rainfall_live.py:25-44 | No replacement between a common prefix and a common suffix removes or inserts fewer characters, or fewer bytes. |
| `ByteOptimality.InsertingIsMiddle` | fine/rainfall_live.py:25-44 | An acceptable edit that inserts something and yields the new text replaces whole characters between a common prefix and a common suffix, although nothing requires it to. |
| `ByteOptimality.SmallestExactly` | fine/rainfall_live.py:25-44 | The edit returned removes and inserts the fewest bytes of all acceptable single edits, split characters included, exactly if a change that deletes one run of bytes also deletes one run of characters. |
| `ByteOptimality.SplittingCanBeSmaller` | fine/rainfall_live.py:25-44 | U+00E9 U+0128 to U+00E8 is such a change: deleting two bytes does it, the edit returned removes four and inserts two. |
| `Live.ReplaceSource` | fine/rainfall_live.py:73-89 | A source within the size limit ends up displayed; too large or unchanged ones write nothing. |
| `Live.ReplaceSourceLands` | fine/rainfall_live.py:73-89 | With a single editor the text ends up displayed whatever completions, failures and crashes of them come between reading the display and advancing it, as long as the host still loads: the whole run, advance included, ends with that text. |
| `Live.SolvingRunKeepsText` | fine/rainfall_host.py:292-349 | No sequence of completions and failures changes the displayed text. |
| `Samples.TraceIsValid` | fine/rainfall_replay.py:34-335 | For any source, run and revision there is an accepted trace with one node, term and edge, also with an empty node or an internal edge. |
| `Samples.SynthesisIsValid` | fine/rainfall_replay.py:199-259 | For any source, run and revision there is an accepted synthesis trace with one hole, arm and witness. |
| `Exhibits.EmptyEvidenceBricksTheHost` | fine/rainfall_host.py:126-136 | On any source, a run of three steps ends in a state that does not load and that no continuation changes. |
| `Exhibits.InternalEvidenceIsNeverAdmitted` | fine/rainfall_projection.py:172-172 | On any source, an honest, current completion with internal evidence is refused by a failed lookup. |
| `Exhibits.TornTraceBlocksRetry` | fine/rainfall_host.py:298-302 | On any source, a completion would be recorded, and after a crash inside its trace write begins again and is refused. |
| `Exhibits.TraceUsurpsAnotherGeneration` | fine/rainfall_host.py:310-330 | A concrete run, edited to another text and back, in which the first generation is recorded as admitted by a trace of the third: evidence is current, the third is still requested, and nothing can be materialised. |
| `Exhibits.EmptyNodeBecomesPlaced` | fine/rainfall_projection.py:169-193 | A concrete empty node inside a replacement is projected as transported onto the inserted text. |
| `Exhibits.HoleIsFilled` | fine/rainfall_host.py:257-289 | A concrete run from `?` through admission and materialisation displays the verified body at revision 1. |
| `Exhibits.HoleEndsInsideCharacter` | fine/rainfall_host.py:233-237 | A concrete admitted hole that ends inside a character cannot be materialised, and the attempt changes nothing. |
| `Bisection.MidBisects` | examples/dotnet/Program.cs:1884-1884 | The 32-bit midpoint is below the upper bound, and not below the lower one exactly when the sum of the bounds does not wrap. |
| `Bisection.SettlesFromAnywhere` | examples/dotnet/Program.cs:1857-1884 | If wrapping bisection under an upper bound reaches it or gets past a value from zero, it does so within 2^32 midpoints from every lower bound an earlier upper bound can have left. |
| `Bisection.CycleTraps` | examples/dotnet/Program.cs:1857-1884 | If it is caught in a cycle from anywhere, then bisection from zero never gets past the value either. |
| `CheckSmall.StepIsSound` | examples/dotnet/Program.cs:1846-1891 | Wrapping or not, every exact answer keeps the bracket around all feasible points below `upper`, and the search stops at minimal points only. |
| `CheckSmall.StepProgresses` | examples/dotnet/Program.cs:1846-1891 | On a bisectable set every exact answer also decreases a natural measure. |
| `CheckSmall.StopsExactly` | examples/dotnet/Program.cs:1825-1894 | All runs of exact answers stop within a bound exactly when the set is satisfiable and wherever the search can come to bisect, bisection from zero closes the bracket or gets past the least value there. |
| `CheckSmall.StopsAtMinimal` | examples/dotnet/Program.cs:1825-1894 | Where a run on any satisfiable set stops, `upper` is a feasible point with no other feasible point componentwise below it. |
| `CheckSmall.RoomyStops` | examples/dotnet/Program.cs:1884-1884 | If no sum of bounds can wrap, every run stops. |
| `CheckSmall.ExampleStops` | examples/dotnet/Program.cs:1899-1911 | On the repository's own call every run stops, at zero, although its models go up to the largest word. |
| `CheckSmall.HalfIsTheLimit` | examples/dotnet/Program.cs:1825-1894 | A bound on the values guarantees stopping for all satisfiable sets exactly when it is at most 2^31. |
| `CheckSmall.LargeNeverStops` | examples/dotnet/Program.cs:1884-1884 | For every value above 2^31 the set with that one value in each component has runs of every length. |
| `CheckSmall.UnsatisfiableNeverStops` | examples/dotnet/Program.cs:1854-1862 | Without a model the search repeats its first question for ever. |
| `SmallModel.Solver.Check` | examples/dotnet/Program.cs:1854-1854 | The solver answers with any model of the constraints and asserted bounds, or none exactly if there is none. |
| `SmallModel.AssertBounds` | examples/dotnet/Program.cs:1848-1852 | Adds all upper bounds to the innermost scope and to no other. |
| `SmallModel.Narrow` | examples/dotnet/Program.cs:1865-1875 | Lowers each bound in place to the model's value where that is smaller. |
| `SmallModel.Pick` | examples/dotnet/Program.cs:1877-1890 | Finds the first component whose bracket is open. |
| `SmallModel.AnswerIsExact` | examples/dotnet/Program.cs:1846-1854 | An answer under the accumulated scope is an exact answer to the question the search asks, although older bounds are still asserted. |
| `SmallModel.Turn` | examples/dotnet/Program.cs:1848-1890 | One turn of the inner loop keeps the search on its track, and lowers the measure or ends at a minimal point. |
| `SmallModel.Descend` | examples/dotnet/Program.cs:1843-1892 | The inner loop in its scope ends with a smaller measure or at a minimal point, and its scope is popped. |
| `SmallModel.Minimise` | examples/dotnet/Program.cs:1825-1894 | On every constraint set where it must terminate the code restores the solver's scopes, and its bounds are a model with no other model componentwise below. |
| `SmallModel.SmallExample` | examples/dotnet/Program.cs:1899-1911 | The repository's own call leaves the bounds at zero, whatever models the solver picks. |
| `HeaderRules.Generator.AddHeaderRule` | scripts/mk_util.py:1135-1145 | Terminates on any include graph, cyclic or not, and extends the rules by the headers reached that had none, each once and after the headers it includes, except around a cycle. |
| `HeaderRules.Generator.AddRuleForEachInclude` | scripts/mk_util.py:1123-1128 | The same for everything one file includes. |
| `HeaderRules.Generator.AddCppRules` | scripts/mk_util.py:1147-1153 | After each compiled file the rules' targets are the earlier ones plus every reachable header, each once, and every header any rule or the object depends on is a target. |
| `HeaderRules.TopLevel` | scripts/mk_util.py:1123-1145 | A top-level call adds a rule for exactly the reachable headers that had none. |
| `HeaderRules.RulesInOrder` | scripts/mk_util.py:1135-1145 | Without include cycles a header's rule comes after the rules of everything it includes. |
| `HeaderRules.Settled` | scripts/mk_util.py:1135-1145 | Between top-level calls the processed headers are exactly the rules' targets, and closed under inclusion. |
| `Registry.FindAllDeps` | scripts/mk_util.py:1030-1041 | The nested loops return, without duplicates, the declared components and their lists' members; an unknown one is refused by name. |
| `Registry.OneLevelSuffices` | scripts/mk_util.py:1030-1053 | One level of union gives the full transitive closure, because older components' lists are already closed. |
| `Registry.Catalogue.Define` | scripts/mk_util.py:2462-2470 | A definition succeeds exactly for a new name with known dependencies; its list is then the transitive closure, and earlier components are unchanged. |
| `Registry.DependenciesAreOlder` | scripts/mk_util.py:2462-2467 | Dependencies were defined earlier, so there is no cycle. |
| `Registry.SortedNewestFirst` | scripts/mk_util.py:1303-1304 | The sorted names are in descending definition order. |
| `Registry.SortComponents` | scripts/mk_util.py:1303-1304 | Sorting loses and adds no name. |
| `Registry.LinkOrder` | scripts/mk_util.py:1303-1304 | In a sorted link line every library stands before everything it depends on, directly or not. |
| `ProfileDiff.Signed` | contrib/qprofdiff/main.cpp:170-172 | A stored difference is the signed 32-bit value congruent to the true one. |
| `ProfileDiff.Merge` | contrib/qprofdiff/main.cpp:155-199 | The two loops give one entry per identifier of either profile. |
| `ProfileDiff.Flatten` | contrib/qprofdiff/main.cpp:201-208 | The list holds every entry once, in identifier order. |
| `ProfileDiff.LtIsBefore` | contrib/qprofdiff/main.cpp:113-126 | The comparator is the order by class, difference and identifier, minus the tie-break between two-sided entries. |
| `ProfileDiff.LtIsStrictWeak` | contrib/qprofdiff/main.cpp:113-126 | The comparator is irreflexive and transitive, and being tied is transitive. |
| `ProfileDiff.StableSortOrders` | contrib/qprofdiff/main.cpp:210-214 | Any stable sort of the identifier-ordered list is strictly ordered by class, difference and identifier. |
| `ProfileDiff.Diff` | contrib/qprofdiff/main.cpp:155-214 | Each identifier appears exactly once with the right entry, in the class of the profiles it occurs in, and every stable sort of the result is strictly ordered, for each of the three sort keys. |

## Left out

- `SmallModel.Minimise`: requires exactly the condition of `StopsExactly`, because on every other constraint set some solver keeps the code running for ever. A solver answer of "unknown" is not modelled.
- `Live.ReplaceSource`: runs its two lock sections back to back; `ReplaceSourceLands` has the interleavings. Starting the worker thread is not modelled.
- `Completion.RetryExactly`: is about retrying with the same trace; a retry with another trace meets the same file comparison.
- JSON: documents are typed values, so shape and bool-versus-int checks disappear. Reading a trace is an arbitrary function from bytes to events, so nothing depends on the parser; `read_text` and `decode` followed by `splitlines` are taken to read the same events.
- SHA-256 is an ideal, collision-free digest. Tokens are fresh when drawn.
- Text is a sequence of Unicode scalar values; Python strings with lone surrogates are not modelled.
- Real locking, fsync and directory entries: a lock section is atomic with respect to others, replacing the state is atomic, and creating an artifact can be cut off anywhere.
- The output of `project` besides annotations, and the bisimulation activity attached to them (fine/rainfall_projection.py:122-167): it reads event fields that the validator does not check, and is taken not to fail.
- `_launch_description`, annotation counts and other reports returned to callers.
- `run_generation`, the subprocess, the HTTP server, the browser page, HTML rendering and the command lines.
- The Fine compiler, the Z3 solver, and whether a trace's evidence is true of the program.
- `find_file` of the makefile generator: include resolution is a total function over a finite set of headers. The text of the makefile, the Windows parallel-build branch and the rest of `mk_util.py`.
- Parsing and printing of profiles. `stable_sort` is any stable sort of the list, not an algorithm. Negating the least 32-bit integer, which C++ leaves undefined, is taken to wrap.
- All other examples and scripts of the repository.
