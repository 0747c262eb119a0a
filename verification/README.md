# Copy elision in Halide: finding pointwise copies

This project models the analysis in Halide's `src/CopyElision.cpp` that finds
pairs of Functions in a pipeline where one Function (the *consumer*) is
nothing but a pointwise copy of another (the *producer*). For such a pair
the consumer could store straight into the producer's buffer, so the copy
could be elided. The analysis works in two parts.

- `get_pointwise_copy_producer` classifies one Function. It returns the
  name of the Function it copies, or the empty string when it is not a copy.
  - A Function with an update definition is never a copy.
  - A Function whose extern definition calls `halide_buffer_copy` copies the
    single Function that appears among its extern arguments.
  - For any other Function, the scan walks the tuple components of the pure
    definition. Every component that calls a Halide Function must read:
    - the same producer;
    - which has at most one caller;
    - with the same dimensionality;
    - at its own tuple index;
    - with matching definition variables: the producer's definition
      arguments are compared with the consumer's, not the arguments the
      call passes (see Findings).

    No plain, non-call expression may follow the first such call. Plain
    components before it, and the producer's number of tuple components,
    are not checked (see Findings).
- `get_pointwise_copies` runs over the whole environment, a map from name to
  Function. First it counts how many Functions call each Function. Then, in
  key order, it classifies every Function that is not scheduled inline. It
  returns the list of `CopyPair(prod, cons)` results.

The model has four modules:

| file | module | what it holds |
|---|---|---|
| `ir.dfy` | `HalideIR` | The part of the IR the analysis reads: expressions with their Call nodes, extern arguments, and Functions. |
| `classifier.dfy` | `CopyProducer` | The per-Function classifier in two variants: as written, and corrected (call arguments compared, whole tuple required). It also holds independent declarative definitions of "is a copy of `p`", and the proofs that connect the two. |
| `collector.dfy` | `PointwiseCopies` | The environment as a key-ordered list of entries, the caller count, the collector, and their properties. |
| `scenarios.dfy` | `CopyScenarios` | Two pipelines from the source's own test, plus corner cases, each worked out by proof. |

The classifier returns the empty string, `NoProducer`, for "not a copy",
just as the source does. The characterizing lemmas assume that Function
names are non-empty, which Halide always ensures. Without that assumption
the empty sentinel would be ambiguous.

A Call node records both sets of arguments:
- the call's own arguments, `callArgs`;
- the definition arguments of the Function it calls, `calleeArgs`.

It also records how many tuple components the called Function has,
`calleeOutputs`.

`Function(call->func)` only looks those up. `Dimensions()` is the number
of pure-definition arguments, as in Halide.

The environment is a `std::map`, so it is modelled as a sequence of
entries whose keys strictly ascend in lexicographic order (`ValidEnv`).
That is the map's iteration order, and it fixes the order of the output.

Behaviours of the code worth noting:
- **Caller counts.** `num_callers` counts each *calling Function* once, not
  each call site. `find_direct_calls` returns a map keyed by callee, so a
  Function that calls `g` several times adds one to `g`'s count
  (`NumCallers`, `PlainPairHasSingleReader`).
- **The transposition pipeline.** In the source's commented-out test,
  `g` is called by both `h` and `tile`, so `h` is never a copy of `g`.
  The reported pairs are `h -> in` and, because of the Finding below,
  `tile -> output` (`TransposePipelineCopies`).
- **Inlining.** Every Function defaults to being inlined. If nothing is
  scheduled, that test reports no pairs at all (`AllInlinedNoCopies`).
  The scenarios therefore assume that every Function is computed at root.

## Model

| member | source | states |
|---|---|---|
| CopyProducer.Producer | src/CopyElision.cpp:27-29 | A Function with an update definition is never reported as a copy of anything. |
| CopyProducer.CorrectedProducer | src/CopyElision.cpp:27-29 | The corrected classifier also never reports a Function that has an update definition. |
| CopyProducer.ExternScanSpec | src/CopyElision.cpp:36-52 | The scan over the extern arguments yields a name exactly when the Function arguments name one single Function, and then yields that Function. |
| CopyProducer.BufferCopyCharacterization | src/CopyElision.cpp:31-52 | A `halide_buffer_copy` extern copies `g` exactly when `g` is the only Function among its arguments. It copies nothing when there is no Function argument or there are two distinct ones. |
| CopyProducer.ArgsMatchIsPrefix | src/CopyElision.cpp:93-104 | The per-dimension argument loop succeeds exactly when the consumer's argument list is a prefix of the compared list, and exactly when the two are equal if they have the same length. |
| CopyProducer.PlainScanSound | src/CopyElision.cpp:55-117 | From any scan state that satisfies the scan invariant, a non-empty answer is a producer that every Halide-call component copies and that has at most one caller. |
| CopyProducer.PlainScanComplete | src/CopyElision.cpp:55-117 | When `p` satisfies the declarative copy criteria, the scan from any consistent intermediate state answers `p`. |
| CopyProducer.PlainPathCharacterization | src/CopyElision.cpp:55-117 | For a Function without update or buffer-copy extern, the classifier answers `p` if and only if `p` satisfies the independent declarative definition of a pointwise copy. |
| CopyProducer.PlainPathSound | src/CopyElision.cpp:55-117 | With either argument comparison, any producer the classifier names satisfies the declarative copy definition, including the single-caller condition. |
| CopyProducer.DifferentCalleesReject | src/CopyElision.cpp:62-67 | If two tuple components call two different Halide Functions, the Function is not a copy. |
| CopyProducer.MultipleCallersReject | src/CopyElision.cpp:70-76 | If any called producer has more than one caller, the Function is not a copy. |
| CopyProducer.NonCallAfterProducerRejects | src/CopyElision.cpp:106-111 | If a plain expression follows a Halide call among the tuple components, the Function is not a copy. |
| CopyProducer.NoHalideCallRejects | src/CopyElision.cpp:55-117 | A Function with no Halide call in its values is not a copy. This includes an extern Function other than `halide_buffer_copy` with no pure values. |
| CopyProducer.PlainProducerFacts | src/CopyElision.cpp:78-104 | Every Halide-call component of a reported copy calls the producer, at its own value index, with matching dimensionality and definition arguments. The producer has at most one caller. This lemma does not constrain components that are not Halide calls (see Findings). |
| CopyProducer.CorrectedIsIndexPreserving | src/CopyElision.cpp:93-104 | Under the corrected classifier, the call arguments of each Halide-call component of a reported copy begin with the consumer's index variables. They are exactly those variables when the call passes one argument per producer dimension. |
| CopyProducer.CorrectedIsWholeTuple | src/CopyElision.cpp:18-22 | Under the corrected classifier, every tuple component of a reported copy is a Halide call into the producer at its own index, and the producer has exactly as many components. |
| CopyProducer.PartialTupleAccepted | src/CopyElision.cpp:55-117 | As written, a Function whose leading components compute and whose remaining components read `p` at their own indices is reported as a copy of `p`. The corrected classifier rejects it. |
| CopyProducer.PlainScanAgrees | src/CopyElision.cpp:55-112 | From any scan state, two Functions that agree on everything except their call arguments and their callees' component counts get the same result from the scan as written. |
| CopyProducer.ProducerAgrees | src/CopyElision.cpp:25-118 | The classifier as written gives the same answer for two Functions that differ only in call arguments and callees' component counts. |
| CopyProducer.ProducerIgnoresOutputCount | src/CopyElision.cpp:79-84 | The classifier as written gives the same answer for two Functions that differ only in how many components their callees have. Reading one component of a wider tuple is therefore a copy exactly when reading a one-component Function is. |
| CopyProducer.ProducerIgnoresCallArgs | src/CopyElision.cpp:93-104 | The classifier as written gives the same answer for two Functions that differ only in their call arguments. A read at shifted or permuted coordinates is therefore a copy exactly when the read at the consumer's own coordinates is one. |
| PointwiseCopies.KeysUnique | src/CopyElision.cpp:195 | The keys of a valid environment are pairwise distinct, as in a map. |
| PointwiseCopies.NumCallers | src/CopyElision.cpp:197-202 | A name is counted if and only if some Function calls it. Its count is the number of distinct calling Functions. |
| PointwiseCopies.CollectPairsSound | src/CopyElision.cpp:207-219 | Every collected pair comes from an entry that is not inlined, whose key is the consumer, and whose classification is the producer. |
| PointwiseCopies.CollectPairsComplete | src/CopyElision.cpp:207-219 | Every entry that is not inlined and is classified as a copy contributes its pair. |
| PointwiseCopies.CollectPairsSorted | src/CopyElision.cpp:207-219 | Collected pairs are strictly ascending by consumer in a valid environment. |
| PointwiseCopies.GetPointwiseCopies | src/CopyElision.cpp:195-221 | The result never has more pairs than the environment has Functions, and no pair has an empty producer. |
| PointwiseCopies.CopiesSoundAndComplete | src/CopyElision.cpp:195-221 | A pair is reported if and only if its consumer is a Function in the environment that is not inlined and is classified, with the environment's caller counts, as a copy of its producer. |
| PointwiseCopies.CorrectedPointwiseCopies | src/CopyElision.cpp:195-221 | The corrected collector likewise never has more pairs than Functions, and no pair has an empty producer. |
| PointwiseCopies.CorrectedCopiesSoundAndComplete | src/CopyElision.cpp:195-221 | The same if-and-only-if holds for the corrected collector, with the corrected classifier. |
| PointwiseCopies.CopiesSortedByConsumer | src/CopyElision.cpp:207-219 | Both collectors list pairs in strictly ascending consumer order, the map's iteration order. |
| PointwiseCopies.ConsumerAtMostOnce | src/CopyElision.cpp:207-219 | No Function appears as a consumer in two pairs. |
| PointwiseCopies.InlinedNeverConsumer | src/CopyElision.cpp:209-214 | An inlined Function is never a consumer. |
| PointwiseCopies.AllInlinedNoCopies | src/CopyElision.cpp:209-214 | If every Function is inlined, no pair is reported. |
| PointwiseCopies.UpdateNeverConsumer | src/CopyElision.cpp:27-29 | A Function with an update definition is never a consumer. |
| PointwiseCopies.OnlyCallerIsConsumer | src/CopyElision.cpp:70-76 | When calls are recorded faithfully, a plain-path copy is the only Function that calls its producer. |
| PointwiseCopies.PlainPairHasSingleReader | src/CopyElision.cpp:70-76 | For every reported pair that is not a buffer copy, the consumer is the one and only caller of the producer. |
| CopyScenarios.TransposeSharedProducer | src/CopyElision.cpp:197-202 | In the transposition pipeline, `g` is counted with two callers, `h` and `tile`. |
| CopyScenarios.TransposePipelineCopies | src/CopyElision.cpp:224-251 | The transposition pipeline yields exactly `h -> in` and `tile -> output`. |
| CopyScenarios.CorrectedTransposePipelineCopies | src/CopyElision.cpp:224-251 | With the corrected comparison, the same pipeline yields only `h -> in`. |
| CopyScenarios.DeviceCopyCopies | src/CopyElision.cpp:31-52 | A Function turned into a `halide_buffer_copy` extern by `copy_to_device` is a copy of its source. |
| CopyScenarios.CopyChainCopies | src/CopyElision.cpp:253-280 | The copy-chain pipeline, with `output` a device copy of `work`, yields exactly `input -> input_copy`, `work -> output` and `output -> output_copy`, in that order. |
| CopyScenarios.ComputedComponentAccepted | src/CopyElision.cpp:55-117 | `c(x, y) = {x + y, p(x, y)[1]}` is reported as a copy of `p` as written, but rejected by the corrected classifier. |
| CopyScenarios.FirstComponentAccepted | src/CopyElision.cpp:79-84 | `c(x, y) = tile(x, y)[0]` over a two-component `tile` is reported as a copy of `tile` as written, but rejected by the corrected classifier. |
| CopyScenarios.TransposedTupleAccepted | src/CopyElision.cpp:93-104 | A transposed tuple read `output(x, y) = tile(y, x)` is accepted as a copy of `tile` as written, but rejected by the corrected comparison. |
| CopyScenarios.ShiftedCopyAccepted | src/CopyElision.cpp:93-104 | A shifted read `c(x, y) = p(x + 1, y)` is accepted as a copy of `p` as written, but rejected by the corrected comparison. |
| CopyScenarios.RenamedCopyRejected | src/CopyElision.cpp:93-104 | `c(x, y) = p(x, y)` with `p` defined over `(i, j)` is rejected as written, although it is a genuine copy. The corrected classifier accepts it. |
| CopyScenarios.ComputationRejects | src/CopyElision.cpp:106-111 | A Function with a single tuple component that is a computation rather than a call is not a copy. |
| CopyScenarios.SharedProducerRejects | src/CopyElision.cpp:70-76 | A read of a producer with two callers is not a copy. |
| CopyScenarios.TwoProducersReject | src/CopyElision.cpp:62-67 | A tuple that reads two different Functions is not a copy. |
| CopyScenarios.OtherExternUsesSlots | src/CopyElision.cpp:31-32 | An extern other than `halide_buffer_copy` is classified by its tuple components, like a plain Function. |
| CopyScenarios.OtherCallSkipped | src/CopyElision.cpp:58-59 | A non-Halide call after the producer's call neither rejects nor changes the producer. |
| CopyScenarios.BufferCopyUnchecked | src/CopyElision.cpp:31-52 | A buffer-copy extern reports its argument even when that argument has three callers and the tuple component is a constant. |
| CopyScenarios.BufferCopyOfTwoRejects | src/CopyElision.cpp:40-45 | A buffer-copy extern over two different Functions is not a copy. |

## Left out

- `print_function` (lines 122-190) and the `debug(0)` messages are not modelled. Their operands are evaluated whether or not anything is printed, and the model does not reproduce these side effects:
  - The message at line 99 evaluates `f.args()[i]`, indexed by the value index `i` rather than `j`. When the comparison at line 97 fails at a value index `i` of at least `f.dimensions()`, this reads past the end of `f.args()`. One input that reaches it is `f(x) = {x, p(x)[1]}` with `p` defined over `(u)`. The source's behaviour there is undefined; the model simply answers "not a copy".
  - `print_function`, evaluated at lines 50 and 115 for every reported copy, calls `lock()` on the schedule levels of a buffer copy's source (lines 141-142). It can also stop with an internal error at line 170. The model has no schedules or errors, and takes every reported copy to return normally.
- `copy_elision_test` (lines 223-283): its body is commented out and only prints. Its two pipelines are restated as `TransposeEnv` and `CopyChainEnv`, with every Function computed at root.
- `output.copy_to_device()` (line 263) is modelled by its effect on the definition: `output` becomes a `halide_buffer_copy` extern over `work` (`DeviceCopy`). The device API constant and the values the extern definition keeps play no part and are not modelled.
- The device TODO (lines 204-205): the analysis does not check that producer and consumer live on the same device, and neither does the model.
- `find_direct_calls` is not part of this model. Each Function carries the set of names it calls directly (`directCalls`), supplied from outside. `CallsRecorded` states the one assumption used about it: every Halide call in a Function's values is in that set.
- The schedule's "compute level is inlined" test is a boolean input (`inlined`).
- `equal` on expressions is structural equality (`==`). Resolving `call->func` to a Function is replaced by the `calleeArgs` carried on the Call node.
- Extern definitions are not checked to be real buffer copies (the TODO at lines 33-35). The model keeps that behaviour rather than adding a check.
- Key order compares characters by code point. `std::string` compares `char` values, and the two orders agree on the ASCII names Halide uses.
- Caller counts are unbounded integers. A 32-bit `int` could only overflow with more than 2^31 callers.
- PlainPathCharacterization: stated for non-empty callee names only. An empty name would be confused with the "not a copy" sentinel, and Halide never creates such a Function.
- BufferCopyCharacterization: stated for non-empty Function-argument names only, for the same reason.
- PlainProducerFacts: constrains only the components that are Halide calls. The code as written does not keep the whole-tuple promise of lines 18-22, so the whole-tuple property is proved only for the corrected classifier (`CorrectedIsWholeTuple`; see Findings).

## Findings

| source | as written | input that shows it | evidently intended | confidence | as-written member | corrected member |
|---|---|---|---|---|---|---|
| src/CopyElision.cpp:97 | Compares `f.args()[j]` with `prod_f.args()[j]`. These are the definition variables of the two Functions, so the arguments the call actually passes are never looked at. | `c(x, y) = p(x + 1, y)` with `p(x, y)` defined over the same variables is reported as a copy. The source's own test line `output(x, y) = tile(y, x)` is reported as well. Conversely, the genuine copy `c(x, y) = p(x, y)` with `p` defined over `(i, j)` is rejected. | Compare the call's own arguments `call->args[j]` with `f.args()[j]`, so that only index-preserving reads count. The comment at lines 94-96 and the TODO about index shifting say shifted and permuted reads are not handled. | medium, not executed | CopyProducer.ProducerIgnoresCallArgs | CopyProducer.CorrectedIsIndexPreserving |
| src/CopyElision.cpp:79-84 | Compares the dimensionality of `f` and the producer, under a message about the whole tuple. The number of tuple components is never compared. Plain components before the first Halide call are skipped, because line 106 rejects only after a producer is seen. | `c(x, y) = {x + y, p(x, y)[1]}` over a two-component `p`, and `c(x, y) = tile(x, y)[0]` over a two-component `tile`, are both reported as copies. | The comment at lines 18-22 says a copy of a tuple must copy the whole tuple, otherwise it is not a pointwise copy. So every component must read the producer, and the producer must have as many components as `f`. | medium, not executed | CopyProducer.PartialTupleAccepted | CopyProducer.CorrectedIsWholeTuple |

The first row:
- `ProducerIgnoresCallArgs` shows the discrepancy in general.
- `ShiftedCopyAccepted` and `TransposedTupleAccepted` show it on the two accepted inputs above.
- `RenamedCopyRejected` shows it on the rejected one.

The second row:
- `PartialTupleAccepted` and `ProducerIgnoresOutputCount` show the discrepancy in general.
- `ComputedComponentAccepted` and `FirstComponentAccepted` show it on the two inputs above.

`Producer` and `GetPointwiseCopies` model the code as written.
`CorrectedProducer` and `CorrectedPointwiseCopies` use the corrected
classifier, which fixes both rows. Soundness, completeness and ordering
are proved for both. For the corrected pair:
- `CorrectedIsIndexPreserving` adds that every reported copy reads its
  producer at the consumer's index variables;
- `CorrectedIsWholeTuple` adds that the copy covers the producer's whole
  tuple.
`CorrectedTransposePipelineCopies` shows that the corrected collector drops
`tile -> output` from the transposition pipeline.
