# analysis_utils: variations, calculables and cutflows in Dafny

A model of the event-loop core of the `analysis_utils` package. An analysis
runs several *variations* of the same selection (a nominal one and systematic
shifts) over one stream of records. Each variation owns a table of named
*calculables*, discovered from its `_get_xxx` methods, and a per-record cache
of their values. Reading a name on a variation returns the cached value, or
computes and caches a registered calculable, or, when the computation
*defers*, asks the variation's *fallback* (normally the nominal variation).
Any other name is read from the variation's *source* (the input tree). A
computation can also apply a *cut*, which either counts a pass in the
variation's cutflow or skips the record for that variation. The driver `run`
wires all variations to the input and to the nominal variation. For each
record it resets every variation, runs every process function, and, if at
least one variation passed, calls `accept_entry` on all of them.

The model is functional:

- `values.dfy` (`Values`): field values (`Null`, booleans, integers,
  strings, lists), a record as a map from field name to value, and `Option`.
- `decimal.dfy` (`Decimal`): the `%d` rendering of a count and its inverse.
- `cutflow.dfy` (`Cutflows`): ordered pass counters, `cut_if`, chains of
  cuts over many records, and the textual report.
- `variation.dfy` (`Variations`): the resolution engine. All objects live
  in a `World`: the variations, the current field view of every source, and
  a trace of the computations started so far. A source or fallback is an
  index into the world. A computation is a small program (`Calc`) made of
  the engine operations it performs: read a name, read a source field, one
  of the three defer helpers, a cut, return, or raise. Reads return a value
  to a continuation. The two exceptions of the implementation
  (`CalculationFallback`, `SkipEvent`) become tagged outcomes
  (`DeferSignal`, `SkipSignal`). `Resolve` is `__getattr__` and `Exec` runs a
  computation.
- `resolution_facts.dfy` (`ResolutionFacts`): memoisation, routing to the
  source and to the fallback, the defer helpers, cuts inside computations,
  `reset`, and a frame property: given a ranking in which every fallback
  ranks below its variation, a read changes no variation ranked above the
  one read.
- `variation_loop.dfy` (`VariationLoop`): `run` — setup, the reset, process
  and accept phases of one record, the entry limit, and the whole loop,
  which computes exactly a reference run (`RunFrom`) defined record by
  record.
- `scenarios.dfy` (`Scenarios`): small concrete runs, among them a whole
  `run` of one variation over three records.

Points where the code is easy to misread, and what the model follows:

- The comments on `accept_entry` and `reject_entry`
  (analysis_utils/variation.py:80-95) say that accept is for valid
  variations and reject for the others. The driver calls `accept_entry` on
  every variation of a kept record, valid or not, and never calls
  `reject_entry` (analysis_utils/variation_loop.py:48-51). The model follows
  the driver.
- The status interval is fixed at 5000, and the entry limit is checked only
  at those records (analysis_utils/variation_loop.py:26-30). With an entry
  limit of 2, a stream of 10 records is processed completely
  (`Scenarios.EntryLimitScenario`).
- A name that is not a registered calculable goes to the source, not to the
  fallback. A `KeyError` raised inside a computation goes to the source too,
  because the same `except` clause catches it
  (analysis_utils/variation.py:143-147).
- Cycles in the fallback graph are not rejected. Only self-assignment is
  ignored (analysis_utils/variation.py:59-62). The frame lemmas take an
  acyclic ranking as a hypothesis. They do not assume that this ranking is
  checked at setup.

## Model

| member | source | states |
|---|---|---|
| Decimal.Render | analysis_utils/cutflow.py:37 | a count is printed as a non-empty string of decimal digits with no leading zero |
| Decimal.ParseRender | analysis_utils/cutflow.py:37 | reading the printed digits back gives the count: printing loses nothing |
| Cutflows.Empty | analysis_utils/cutflow.py:15-17 | a new cutflow has no names, every count is zero, and it satisfies the cutflow invariant |
| Cutflows.CutIf | analysis_utils/cutflow.py:19-27 | a true expression skips and changes nothing; a false one adds exactly one to that cut's count and nothing else, appends an unseen name at the end and keeps the list of a seen name; the invariant (no duplicate names, names are exactly the counted keys, counts at least 1) is preserved |
| Cutflows.Passed | analysis_utils/cutflow.py:19-21 | the position of the first failing cut in a chain: every earlier cut passes |
| Cutflows.ChainCounts | analysis_utils/cutflow.py:19-27 | a chain of distinct cuts applied to one record skips iff some cut fails; exactly the cuts before the first failure gain one count, and all other counters are unchanged |
| Cutflows.ChainKeepsOrder | analysis_utils/cutflow.py:19-27 | one record through a fixed chain keeps the counts non-increasing along the chain |
| Cutflows.CountsNonIncreasing | analysis_utils/cutflow.py:19-27 | over any number of records, an earlier cut of the chain has a count at least that of any later cut |
| Cutflows.MaxWidth | analysis_utils/cutflow.py:34 | the padding width is the length of the longest cut name |
| Cutflows.LineLayout | analysis_utils/cutflow.py:36-37 | a report line (built by `Line` from `Spaces`, the padding of exactly the requested number of spaces) is the name, a colon, spaces up to the common width, a tab, the count's digits (which read back as the count) and a newline |
| Cutflows.ConcatEndsWithNewline | analysis_utils/cutflow.py:33-38 | joining newline-terminated lines gives a newline-terminated text |
| Cutflows.ReportIsSentinelIffEmpty | analysis_utils/cutflow.py:29-38 | `Report` (`__repr__`) is the sentinel "(no cuts)" exactly when no cut has been recorded |
| Cutflows.ReportEntries | analysis_utils/cutflow.py:33-38 | a non-empty `Report` is the concatenation of `Lines`, one line per recorded cut in first-seen order, and line k carries cut k's name and its count at the common column |
| Variations.Discover | analysis_utils/variation.py:53-54 | the calculable `xxx` is registered exactly when a member `_get_xxx` exists, and it runs that member |
| Variations.NewVariation | analysis_utils/variation.py:34-54 | a new variation has the given name and process function, exactly the discovered calculables (each running its `_get_` member), the given source and fallback, an empty cache, is not valid, and has an empty cutflow |
| Variations.SetSource | analysis_utils/variation.py:56-57 | the source is always replaced and nothing else changes |
| Variations.SetFallback | analysis_utils/variation.py:59-62 | making a variation its own fallback changes nothing; any other argument, absent included, replaces the fallback and nothing else |
| Variations.SetValid | analysis_utils/variation.py:131-132 | only the validity flag of that variation changes |
| Variations.Reset | analysis_utils/variation.py:101-111 | the cache of the variation becomes empty and it becomes invalid; source, fallback, calculables, cutflow and all other variations are untouched |
| Variations.LookupSource | analysis_utils/variation.py:147 | a source field read succeeds iff the variation has a source holding that field, and returns the field's value; otherwise it is a missing attribute |
| Variations.Resolve | analysis_utils/variation.py:134-150 | a read keeps the world well formed and only grows it: caches only gain entries, wiring and flags do not change, and the trace gains only computations of names that were not cached |
| Variations.Exec | analysis_utils/variation.py:113-126 | running a computation keeps the world well formed and only grows it, and it can end in a defer signal only when the variation has a fallback |
| Variations.ExecRead | analysis_utils/variation.py:134-150 | a read inside a computation only grows the world, and a defer signal needs a fallback |
| Variations.ExecCut | analysis_utils/variation.py:113-114 | a cut inside a computation only grows the world (the cutflow invariant included) |
| ResolutionFacts.CachedReadIsStable | analysis_utils/variation.py:134-142 | a cached name is answered from the cache, and the world is left exactly as it was |
| ResolutionFacts.ComputedValueIsCached | analysis_utils/variation.py:140-142 | a computed value, `Null` included, is returned and cached, and every later read of it returns the identical value with nothing run and nothing changed |
| ResolutionFacts.NeverRecomputedOnceCached | analysis_utils/variation.py:137-142 | no read of any name on any variation starts the computation of a name that is already cached |
| ResolutionFacts.UnregisteredNameReadsSource | analysis_utils/variation.py:143-147 | a name with no calculable is the source's field of that name, is not cached, and fails as a missing attribute when absent |
| ResolutionFacts.KeyErrorReadsSource | analysis_utils/variation.py:143-147 | a computation raising KeyError is answered by the source and nothing is cached |
| ResolutionFacts.ResolveFrame | analysis_utils/variation.py:134-150 | with an acyclic fallback ranking, a read changes no variation ranked above the one read |
| ResolutionFacts.ExecFrame | analysis_utils/variation.py:113-150 | running a computation changes no variation ranked above the running one |
| ResolutionFacts.ExecReadFrame | analysis_utils/variation.py:134-150 | a read inside a computation changes no variation ranked above the running one |
| ResolutionFacts.ExecCutFrame | analysis_utils/variation.py:113-114 | a cut inside a computation changes no variation ranked above the running one |
| ResolutionFacts.DeferredReadIsFallbacksAnswer | analysis_utils/variation.py:148-150 | a computation that defers is answered by the fallback's resolution of the same name, and the deferring variation stores nothing after deferring |
| ResolutionFacts.AlwaysDeferringReadsFallback | analysis_utils/variation.py:116-118 | a calculable that starts with `defer()` reads as its fallback's value |
| ResolutionFacts.NoFallbackNeverDefers | analysis_utils/variation.py:116-126 | without a fallback, none of the three defer helpers signals and the computation goes on locally |
| ResolutionFacts.FallbackDefers | analysis_utils/variation.py:116-126 | with a fallback, `defer` (`SignalsDefer`) signals, `defer_if(c)` (`SignalsDeferIf`) signals iff `c` and `defer_unless(c)` (`SignalsDeferUnless`) iff not `c` |
| ResolutionFacts.DeferHelpersAgree | analysis_utils/variation.py:116-129 | with a fallback `defer_if` and `defer_unless` are complements; without one neither signals; `can_defer` (`CanDefer`) holds iff `defer` would signal |
| ResolutionFacts.NoFallbackNoDeferSignal | analysis_utils/variation.py:116-126 | a variation without a fallback never ends a computation with a defer signal |
| ResolutionFacts.CutInComputation | analysis_utils/variation.py:113-114 | a failed cut skips with every counter unchanged; a passed one counts on that variation's cutflow and the computation goes on |
| ResolutionFacts.ChainInComputation | analysis_utils/variation.py:113-114 | a computation made of a run of `cut_if` calls (ending in a return) leaves on its variation exactly the cutflow that the same chain of cuts gives (cutflow.py:19-27), ends with a skip iff some cut failed and returns its value otherwise; nothing else in the world changes |
| ResolutionFacts.ReadAfterResetRecomputes | analysis_utils/variation.py:101-111 | after `reset` the next read of a calculable runs its computation again |
| VariationLoop.Wire | analysis_utils/variation_loop.py:8-10 | every listed variation gets the input as source and the nominal as fallback, the nominal itself keeps its fallback, and unlisted variations are untouched |
| VariationLoop.Setup | analysis_utils/variation_loop.py:8-15 | after setup every variation of the final list reads the input, the listed non-nominal ones fall back on the nominal, the nominal's fallback is unchanged, and a missing nominal is appended at the end |
| VariationLoop.ResetAll | analysis_utils/variation_loop.py:32-36 | every listed variation is emptied and made invalid and the others are untouched |
| VariationLoop.ProcessOne | analysis_utils/variation_loop.py:39-46 | a missing process function aborts and changes nothing; otherwise the world is the one the process function left, which completes iff it returned, is skipped iff it ended in a cut, and aborts with an escaped defer signal, KeyError or its own error |
| VariationLoop.ProcessAll | analysis_utils/variation_loop.py:38-46 | a skipped variation does not stop the later ones: without an error every listed variation gets a pass flag, and an error stops the phase before the end of the list |
| VariationLoop.AdvanceValidity | analysis_utils/variation_loop.py:41-43 | `Advance` (`p(v)`, then `v.set_valid(True)` if it returned): only that variation can have become valid, and it has iff its process function completed |
| VariationLoop.ProcessAllValidity | analysis_utils/variation_loop.py:38-46 | after the process phase a variation is valid iff it was before or some position holding it completed |
| VariationLoop.ProcessAllPositions | analysis_utils/variation_loop.py:38-46 | pass flag p is the verdict of the p-th process function run in the world the earlier ones left: it is true iff that function completed, and none of them aborted |
| VariationLoop.ProcessAllFinishes | analysis_utils/variation_loop.py:38-46 | a phase without an error ends in the world left after every listed process function ran |
| VariationLoop.ProcessAllAborts | analysis_utils/variation_loop.py:38-46 | a phase with an error ends where the first aborting process function left the world, with that function's error |
| VariationLoop.RecordStep | analysis_utils/variation_loop.py:25-46 | one record (loaded into the input by `Feed`, then all variations reset and processed) gives a pass flag to every listed variation unless an error escapes first |
| VariationLoop.RecordStepValidity | analysis_utils/variation_loop.py:32-46 | after a record step each listed variation is valid exactly when it passed, whatever its flag was before, because all were reset first |
| VariationLoop.StaleStateInvisible | analysis_utils/variation_loop.py:32-36 | since all variations are reset before any processes, caches and flags left from the previous record cannot change the outcome of the next |
| VariationLoop.AcceptFromWorld | analysis_utils/variation_loop.py:48-51 | the accept calls made from the variations' flags after processing are `AcceptCalls` of the pass flags: if some variation passed, one `accept_entry` per listed variation in order, valid or not, and otherwise none |
| VariationLoop.AcceptIffSomeValid | analysis_utils/variation_loop.py:38-51 | a record is kept, and `accept_entry` called, exactly when some listed variation is valid after the process phase |
| VariationLoop.FirstBoundary | analysis_utils/variation_loop.py:26-30 | the first multiple of 5000 at or beyond the limit; every earlier multiple is below the limit |
| VariationLoop.StopIndex | analysis_utils/variation_loop.py:23-30 | the number of records processed never exceeds the number available |
| VariationLoop.StopIndexBounds | analysis_utils/variation_loop.py:24-30 | the default limit processes everything; an explicit one stops at a multiple of 5000 that has reached the limit and overshoots it by less than 5000 |
| VariationLoop.LoopExitIsStopIndex | analysis_utils/variation_loop.py:25-30 | the loop's two ways out, end of input or a boundary at the limit, both stop at the stopping index |
| VariationLoop.ContinuingIsBeforeStopIndex | analysis_utils/variation_loop.py:26-30 | a record the loop goes on to process lies before the stopping index |
| VariationLoop.Entry | analysis_utils/variation_loop.py:48-51 | the log entry of a finished record holds one pass flag per variation and the accept calls those flags call for |
| VariationLoop.Continue | analysis_utils/variation_loop.py:25-51 | one more record: an aborted run stays as it is; otherwise either the run aborts with the log unchanged, or exactly one entry is appended |
| VariationLoop.ContinueLogged | analysis_utils/variation_loop.py:48-51 | one more record adds only well-formed log entries |
| VariationLoop.RunFrom | analysis_utils/variation_loop.py:25-51 | the reference run, one record step after the other, stopping at the first error: the log only grows, by one entry per record when nothing aborts and by fewer otherwise |
| VariationLoop.RunFromFirst | analysis_utils/variation_loop.py:38-51 | in the reference run, the first record's step either aborts the whole run with its error and the log unchanged, or gives the next log entry |
| VariationLoop.RunFromRecord | analysis_utils/variation_loop.py:25-51 | the reference run over records i up to the stop is record i's step followed, unless it aborted, by the run over the records after it |
| VariationLoop.RunFromLogged | analysis_utils/variation_loop.py:48-51 | every entry the reference run adds to a log is well formed |
| VariationLoop.ProcessRecord | analysis_utils/variation_loop.py:32-51 | the body of the record loop: processing record i either aborts with exactly the reference run's result, or adds one well-formed entry and leaves the reference run over the later records unchanged |
| VariationLoop.RunRecords | analysis_utils/variation_loop.py:25-51 | the record loop returns exactly the reference run over the records before the stopping index: the same final world, log and error; it logs one entry per record before that index unless an error escapes, and each entry is well formed |
| VariationLoop.Run | analysis_utils/variation_loop.py:6-51 | `run` with no variations returns the set-up world and processes nothing; otherwise its world, log and error are exactly the reference run of the set-up world over the records before the stopping index, where `Limit` gives `total_entries+1` when no entry limit is passed |
| Scenarios.SingleCutScenario | analysis_utils/cutflow.py:19-38 | records n = 1, 3, 2 with the cut "min2" on n < 2 leave one cut "min2" with count 2, reported as one line |
| Scenarios.EntryLimitScenario | analysis_utils/variation_loop.py:24-30 | a limit of 2 over 10 records processes all 10; over 12000 records it stops after 5000 |
| Scenarios.DeferralScenario | analysis_utils/variation.py:116-150 | a systematic variation deferring `met` reads the nominal's 100, which the nominal caches |
| Scenarios.MinTwoRunFrom | analysis_utils/variation_loop.py:32-51 | for any sequence of records, one variation whose process function cuts "min2" when n < 2 makes the run log every record: a record with n < 2 calls `accept_entry` on nothing, any other calls it once on the variation, which is valid |
| Scenarios.RunMinTwo | analysis_utils/variation_loop.py:24-51 | the driver itself, with no nominal variation and no entry limit, over records n = 1, 3, 2: no error, no accept call for the first record, one accept call on the valid variation for each of the other two |

## Left out

- The ROOT output layer (ntuple branches, backfilling, `Fill`), the lazy
  object wrappers, the regular-expression branch filters, the luminosity
  weights, the branch-access profiler, the command-line scripts and the
  examples: foreign-library I/O, floating point and file parsing.
- The older top-level copies of `variation.py`, `variation_loop.py`,
  `cutflow.py` and `calc.py`: they are superseded by the package and
  disagree with it.
- Progress and warning printing, the base `accept_entry` warning and
  `__str__`: they only print. Accept calls are returned as a log instead.
- `process_entry`, which calls the process function and swallows only the
  `'NoneType' object is not callable` TypeError
  (analysis_utils/variation.py:67-78), and `reject_entry`, a bare `pass`
  (analysis_utils/variation.py:94-95): `run` never calls either
  (analysis_utils/variation_loop.py:32-51).
- `CalculationError`'s message attribute: a computation's own error is
  modelled as `CalculationError(message)` and aborts the run.
- Reflection: `inspect.getmembers` and attribute magic become an explicit
  map from member names to computations (`Variations.Discover`).
- Python truthiness and equality of variation objects: `if self._fallback`,
  `if nominal`, `nominal in variations` and `fallback == self` are modelled
  as presence of a reference and equality of indices. `AnalysisVariation` is
  an old-style class, so these look up `__nonzero__`, `__len__` and `__eq__`
  through `__getattr__`, which falls through to the source
  (analysis_utils/variation.py:143-147); a source that answers those names
  could change the outcome, and that is not modelled.
- `input_tree.GetEntries()` and iteration over the tree: the records are a
  sequence, and the input's field view is replaced before each record.
- Variations.Resolve: reads are bounded by a `fuel` argument. A
  computation that reads its own name, or deferrals that actually go round a
  cycle of fallbacks, recurse in Python until the stack overflows; here they
  end with the `Exhausted` error instead. Enough fuel gives the unbounded
  behaviour on every terminating input.
- Variations.Exec: computations are modelled as sequences of engine
  operations over the values read. Arbitrary Python code between those
  operations (arithmetic on floats, ROOT objects) is represented only by
  the continuation's choice of the next step.
- VariationLoop.RunRecords: the mutable default argument `variations=[]`,
  which `run` extends in place with the nominal variation, is not modelled
  as shared between calls; the list is returned instead.
- Cutflows.MaxWidth: widths are counted in characters. Python 2's `len` on
  a byte string counts bytes, so for cut names with non-ASCII characters the
  padding differs (analysis_utils/cutflow.py:34,36).
- VariationLoop.AcceptFromWorld: the accept phase is a log of calls and has
  no effect on the world. An overriding `accept_entry` may read calculables
  or count cuts, and a `SkipEvent` raised there escapes and aborts the run
  (analysis_utils/variation_loop.py:50-51); none of this is modelled.
- VariationLoop.Limit: an explicit `entry_limit=None` is treated like an
  absent one. In Python 2, `0 >= None` is true, so the code as written stops
  at the first record instead (analysis_utils/variation_loop.py:24,28).
