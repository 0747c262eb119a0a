/** Concrete pipelines worked out by proof: the two pipelines of the
    source's self-test (which is commented out there), an index-shifted read,
    and the corner cases the classifier treats in ways a reader might not
    expect. Every Function here is scheduled (not inlined); under Halide's
    default inline schedule the analysis would skip them all
    (`PointwiseCopies.AllInlinedNoCopies`). */
module CopyScenarios {
  import opened HalideIR
  import opened CopyProducer
  import opened PointwiseCopies

  const X: Expr := Var("x")
  const Y: Expr := Var("y")
  const XY: seq<Expr> := [X, Y]

  /** A pure Function over (x, y) with the given tuple slots. */
  function Pure(name: string, values: seq<Expr>, calls: set<string>): Function {
    Function(name, XY, values, false, None, false, calls)
  }

  /** `name(x, y)`, reading tuple component `index`, of a Function defined
      over (x, y) with `outputs` tuple components. */
  function CallXY(name: string, index: int, outputs: nat): Expr {
    Call(Halide, name, XY, index, XY, outputs)
  }

  /** `name(y, x)`, reading tuple component `index`, of a Function defined
      over (x, y) with `outputs` tuple components: a transposed read. */
  function CallYX(name: string, index: int, outputs: nat): Expr {
    Call(Halide, name, [Y, X], index, XY, outputs)
  }

  // ---------------------------------------------------------------------
  // First pipeline: f(x,y) = x+y; g(x,y) = x-y; h(x,y) = g(x,y);
  // in(x,y) = h(x,y); tile(x,y) = {f(x,y), g(x,y)}; output(x,y) = tile(y,x)
  // ---------------------------------------------------------------------

  function TransposeEnv(): seq<Entry> {
    [ Entry("f", Pure("f", [Binary(Add, X, Y)], {})),
      Entry("g", Pure("g", [Binary(Sub, X, Y)], {})),
      Entry("h", Pure("h", [CallXY("g", 0, 1)], {"g"})),
      Entry("in", Pure("in", [CallXY("h", 0, 1)], {"h"})),
      Entry("output", Pure("output", [CallYX("tile", 0, 2), CallYX("tile", 1, 2)], {"tile"})),
      Entry("tile", Pure("tile", [CallXY("f", 0, 1), CallXY("g", 0, 1)], {"f", "g"})) ]
  }

  lemma {:induction false} TransposeEnvValid(env: seq<Entry>)
    requires env == TransposeEnv()
    ensures ValidEnv(env)
  {
    assert FirstDifference("f", "g", 0) && FirstDifference("f", "h", 0) && FirstDifference("f", "in", 0);
    assert FirstDifference("f", "output", 0) && FirstDifference("f", "tile", 0);
    assert FirstDifference("g", "h", 0) && FirstDifference("g", "in", 0) && FirstDifference("g", "output", 0);
    assert FirstDifference("g", "tile", 0) && FirstDifference("h", "in", 0) && FirstDifference("h", "output", 0);
    assert FirstDifference("h", "tile", 0) && FirstDifference("in", "output", 0) && FirstDifference("in", "tile", 0);
    assert FirstDifference("output", "tile", 0);
    forall i, j | 0 <= i < j < |env| ensures KeyLess(env[i].key, env[j].key) {
    }
  }

  /** `g` is read by `h` and by `tile`. */
  lemma {:induction false} TransposeSharedProducer(env: seq<Entry>)
    requires env == TransposeEnv()
    ensures "g" in NumCallers(env) && NumCallers(env)["g"] == 2
  {
    assert CallersOf(env, "g") == {2, 5} by {
      forall i: nat | i < |env| ensures "g" in env[i].fn.directCalls <==> i == 2 || i == 5 {
      }
    }
  }

  /** `h` is read only by `in`, and `tile` only by `output`. */
  lemma {:induction false} TransposeSingleReaders(env: seq<Entry>)
    requires env == TransposeEnv()
    ensures SingleReader(NumCallers(env), "h") && SingleReader(NumCallers(env), "tile")
  {
    assert CallersOf(env, "h") == {3} by {
      forall i: nat | i < |env| ensures "h" in env[i].fn.directCalls <==> i == 3 {
      }
    }
    assert CallersOf(env, "tile") == {4} by {
      forall i: nat | i < |env| ensures "tile" in env[i].fn.directCalls <==> i == 4 {
      }
    }
  }

  /** What each entry of the first pipeline contributes, given the caller
      counts that matter. */
  lemma {:induction false} TransposeEntries(env: seq<Entry>, nc: map<string, int>, variant: Variant)
    requires env == TransposeEnv()
    requires "g" in nc && nc["g"] == 2 && SingleReader(nc, "h") && SingleReader(nc, "tile")
    ensures Emitted(env[0], nc, variant) == [] && Emitted(env[1], nc, variant) == []
    ensures Emitted(env[2], nc, variant) == [] && Emitted(env[3], nc, variant) == [CopyPair("h", "in")]
    ensures Emitted(env[4], nc, variant) == if variant == AsWritten then [CopyPair("tile", "output")] else []
    ensures Emitted(env[5], nc, variant) == []
  {
    ComputationRejects(env[0].fn, nc, variant);
    ComputationRejects(env[1].fn, nc, variant);
    SharedProducerRejects(env[2].fn, nc, variant);
    SingleCallCopies(env[3].fn, nc, variant, "h");
    TransposedTupleAccepted(env[4].fn, nc);
    TwoProducersReject(env[5].fn, nc, variant);
  }

  /** The collection loop over the first pipeline, as written. The caller
      counts are a parameter so that only the facts about them that matter
      are in view. */
  lemma {:induction false} TransposeCollected(env: seq<Entry>, nc: map<string, int>)
    requires env == TransposeEnv()
    requires "g" in nc && nc["g"] == 2 && SingleReader(nc, "h") && SingleReader(nc, "tile")
    ensures CollectPairs(env, nc, AsWritten) == [CopyPair("h", "in"), CopyPair("tile", "output")]
  {
    TransposeEntries(env, nc, AsWritten);
    CollectSix(env, nc, AsWritten, [[], [], [], [CopyPair("h", "in")], [CopyPair("tile", "output")], []]);
  }

  /** The collection loop over the first pipeline, corrected. */
  lemma {:induction false} CorrectedTransposeCollected(env: seq<Entry>, nc: map<string, int>)
    requires env == TransposeEnv()
    requires "g" in nc && nc["g"] == 2 && SingleReader(nc, "h") && SingleReader(nc, "tile")
    ensures CollectPairs(env, nc, Corrected) == [CopyPair("h", "in")]
  {
    TransposeEntries(env, nc, Corrected);
    CollectSix(env, nc, Corrected, [[], [], [], [CopyPair("h", "in")], [], []]);
  }

  /** As written: `in` copies `h`, and `output` is taken for a copy of
      `tile` although it transposes it. `h` is no copy because `g` has a
      second reader, `tile` reads two Functions, `f` and `g` compute. */
  lemma {:induction false} TransposePipelineCopies(env: seq<Entry>)
    requires env == TransposeEnv()
    ensures ValidEnv(env)
    ensures GetPointwiseCopies(env) == [CopyPair("h", "in"), CopyPair("tile", "output")]
  {
    TransposeEnvValid(env);
    TransposeSharedProducer(env);
    TransposeSingleReaders(env);
    TransposeCollected(env, NumCallers(env));
  }

  /** With the corrected classifier only `in` is a copy. */
  lemma {:induction false} CorrectedTransposePipelineCopies(env: seq<Entry>)
    requires env == TransposeEnv()
    ensures ValidEnv(env)
    ensures CorrectedPointwiseCopies(env) == [CopyPair("h", "in")]
  {
    TransposeEnvValid(env);
    TransposeSharedProducer(env);
    TransposeSingleReaders(env);
    CorrectedTransposeCollected(env, NumCallers(env));
  }

  /** A single slot that is not a call is a computation, not a copy. */
  lemma {:induction false} ComputationRejects(f: Function, nc: map<string, int>, variant: Variant)
    requires !f.hasUpdate && f.extern.None? && |f.values| == 1 && !f.values[0].Call?
    ensures ClassifyWith(f, nc, variant) == NoProducer
  {
    assert !HasHalideCall(f, |f.values|);
    PlainPathSound(f, nc, variant);
  }

  lemma {:induction false} SharedProducerRejects(f: Function, nc: map<string, int>, variant: Variant)
    requires f == Pure("h", [CallXY("g", 0, 1)], {"g"})
    requires "g" in nc && nc["g"] == 2
    ensures ClassifyWith(f, nc, variant) == NoProducer
  {
    PlainPathSound(f, nc, variant);
  }

  lemma {:induction false} TwoProducersReject(f: Function, nc: map<string, int>, variant: Variant)
    requires f == Pure("tile", [CallXY("f", 0, 1), CallXY("g", 0, 1)], {"f", "g"})
    ensures ClassifyWith(f, nc, variant) == NoProducer
  {
    PlainPathSound(f, nc, variant);
  }

  /** A single-slot Function over (x, y) whose slot is `name(x, y)` copies
      `name` when `name` has at most one caller, under either variant. */
  lemma {:induction false} SingleCallCopies(f: Function, nc: map<string, int>, variant: Variant, name: string)
    requires f.args == XY && f.values == [CallXY(name, 0, 1)] && !f.hasUpdate && f.extern.None?
    requires name != NoProducer && SingleReader(nc, name)
    ensures ClassifyWith(f, nc, variant) == name
  {
    SingleCallAccepted(f, nc, variant);
  }

  /** `output(x, y) = tile(y, x)` over a two-component `tile`: the classifier
      as written accepts it as a whole-tuple copy; the corrected one sees the
      swapped coordinates and rejects. */
  lemma {:induction false} TransposedTupleAccepted(f: Function, nc: map<string, int>)
    requires f == Pure("output", [CallYX("tile", 0, 2), CallYX("tile", 1, 2)], {"tile"})
    requires SingleReader(nc, "tile")
    ensures f.values[0].callArgs != f.args
    ensures Producer(f, nc) == "tile"
    ensures CorrectedProducer(f, nc) == NoProducer
  {
    assert f.values[0].callArgs[0] != f.args[0];
    assert IsHalideCall(f.values[0]) && IsHalideCall(f.values[1]);
    assert HasHalideCall(f, 2);
    assert SlotCopies(f, AsWritten, 0, "tile") && SlotCopies(f, AsWritten, 1, "tile");
    assert PlainCopyOf(f, nc, AsWritten, "tile");
    PlainPathCharacterization(f, nc, "tile");
    PlainPathSound(f, nc, Corrected);
  }

  // ---------------------------------------------------------------------
  // Second pipeline: input(x,y) = x+y; input_copy(x,y) = input(x,y);
  // work(x,y) = input_copy(x,y)*2; output(x,y) = work(x,y);
  // output_copy(x,y) = output(x,y); output.copy_to_device()
  // ---------------------------------------------------------------------

  /** Halide's `copy_to_device` turns `name(x, y) = source(x, y)` into an
      extern definition calling `halide_buffer_copy`. Its extern arguments
      are the source Function and the target device API, an integer
      constant whose value plays no part here. The pure definition's values
      play no part on the buffer-copy path, so none are kept. */
  function DeviceCopy(name: string, source: string): Function {
    Function(name, XY, [], false, Some(ExternDefinition(BufferCopyExtern, [FuncArg(source), ExprArg(IntImm(0))])), false, {source})
  }

  /** A device copy is a copy of its source. */
  lemma {:induction false} DeviceCopyCopies(f: Function, nc: map<string, int>, name: string, source: string)
    requires f == DeviceCopy(name, source) && source != NoProducer
    ensures Producer(f, nc) == source
  {
    var xs := f.extern.value.externArgs;
    assert FuncArgNames(xs) == {source} by {
      forall h | h in FuncArgNames(xs) ensures h == source {
      }
      assert xs[0].FuncArg?;
    }
    BufferCopyCharacterization(f, nc, source);
  }

  function CopyChainEnv(): seq<Entry> {
    [ Entry("input", Pure("input", [Binary(Add, X, Y)], {})),
      Entry("input_copy", Pure("input_copy", [CallXY("input", 0, 1)], {"input"})),
      Entry("output", DeviceCopy("output", "work")),
      Entry("output_copy", Pure("output_copy", [CallXY("output", 0, 1)], {"output"})),
      Entry("work", Pure("work", [Binary(Mul, CallXY("input_copy", 0, 1), IntImm(2))], {"input_copy"})) ]
  }

  lemma {:induction false} CopyChainEnvValid(env: seq<Entry>)
    requires env == CopyChainEnv()
    ensures ValidEnv(env)
  {
    assert FirstDifference("input", "input_copy", 5) && FirstDifference("input", "output", 0);
    assert FirstDifference("input", "output_copy", 0) && FirstDifference("input", "work", 0);
    assert FirstDifference("input_copy", "output", 0) && FirstDifference("input_copy", "output_copy", 0);
    assert FirstDifference("input_copy", "work", 0) && FirstDifference("output", "output_copy", 6);
    assert FirstDifference("output", "work", 0) && FirstDifference("output_copy", "work", 0);
    forall i, j | 0 <= i < j < |env| ensures KeyLess(env[i].key, env[j].key) {
    }
  }

  lemma {:induction false} CopyChainCallers(env: seq<Entry>)
    requires env == CopyChainEnv()
    ensures SingleReader(NumCallers(env), "input") && SingleReader(NumCallers(env), "work")
    ensures SingleReader(NumCallers(env), "output")
  {
    assert CallersOf(env, "input") == {1} by {
      forall i: nat | i < |env| ensures "input" in env[i].fn.directCalls <==> i == 1 {
      }
    }
    assert CallersOf(env, "work") == {2} by {
      forall i: nat | i < |env| ensures "work" in env[i].fn.directCalls <==> i == 2 {
      }
    }
    assert CallersOf(env, "output") == {3} by {
      forall i: nat | i < |env| ensures "output" in env[i].fn.directCalls <==> i == 3 {
      }
    }
  }

  /** What each entry of the second pipeline contributes, given the caller
      counts that matter. */
  lemma {:induction false} CopyChainCollected(env: seq<Entry>, nc: map<string, int>)
    requires env == CopyChainEnv()
    requires SingleReader(nc, "input") && SingleReader(nc, "work") && SingleReader(nc, "output")
    ensures CollectPairs(env, nc, AsWritten) ==
      [CopyPair("input", "input_copy"), CopyPair("work", "output"), CopyPair("output", "output_copy")]
  {
    ComputationRejects(env[0].fn, nc, AsWritten);
    SingleCallCopies(env[1].fn, nc, AsWritten, "input");
    DeviceCopyCopies(env[2].fn, nc, "output", "work");
    SingleCallCopies(env[3].fn, nc, AsWritten, "output");
    ComputationRejects(env[4].fn, nc, AsWritten);
    CollectFive(env, nc, AsWritten,
      [[], [CopyPair("input", "input_copy")], [CopyPair("work", "output")], [CopyPair("output", "output_copy")], []]);
  }

  /** Every link of the chain that is a plain read is a copy, and so is the
      device copy `output` of `work`; `work` multiplies, so it is none. */
  lemma {:induction false} CopyChainCopies(env: seq<Entry>)
    requires env == CopyChainEnv()
    ensures ValidEnv(env)
    ensures GetPointwiseCopies(env) ==
      [CopyPair("input", "input_copy"), CopyPair("work", "output"), CopyPair("output", "output_copy")]
  {
    CopyChainEnvValid(env);
    CopyChainCallers(env);
    CopyChainCollected(env, NumCallers(env));
  }

  // ---------------------------------------------------------------------
  // c(x,y) = p(x+1,y): a shifted read, not a copy
  // ---------------------------------------------------------------------

  function ShiftedRead(): Expr {
    Call(Halide, "p", [Binary(Add, X, IntImm(1)), Y], 0, XY, 1)
  }

  /** The classifier as written names `p` as the producer of `c` although
      `c` reads `p` one step to the right: it compares `p`'s definition
      arguments, not the call's, with `c`'s. The corrected classifier rejects. */
  lemma {:induction false} ShiftedCopyAccepted(f: Function, nc: map<string, int>)
    requires f == Pure("c", [ShiftedRead()], {"p"}) && SingleReader(nc, "p")
    ensures f.values[0].callArgs != f.args
    ensures Producer(f, nc) == "p"
    ensures CorrectedProducer(f, nc) == NoProducer
  {
    assert f.values[0].callArgs[0] != f.args[0];
    SingleCallAccepted(f, nc, AsWritten);
    PlainPathSound(f, nc, Corrected);
  }

  /** `c(x, y) = p(x, y)` where `p` is defined over `(i, j)`: a genuine
      copy, which the classifier as written rejects because it compares
      the two definitions' variable names; the corrected classifier
      accepts it. */
  lemma {:induction false} RenamedCopyRejected(f: Function, nc: map<string, int>)
    requires f == Pure("c", [Call(Halide, "p", XY, 0, [Var("i"), Var("j")], 1)], {"p"})
    requires SingleReader(nc, "p")
    ensures f.values[0].callArgs == f.args
    ensures Producer(f, nc) == NoProducer
    ensures CorrectedProducer(f, nc) == "p"
  {
    assert f.values[0].calleeArgs[0] != f.args[0];
    PlainPathSound(f, nc, AsWritten);
    SingleCallAccepted(f, nc, Corrected);
  }

  /** A one-slot Function whose slot is a Halide call satisfying the
      variant's argument comparison is a copy of the callee when the callee has one
      reader. */
  lemma {:induction false} SingleCallAccepted(f: Function, nc: map<string, int>, variant: Variant)
    requires !f.hasUpdate && !IsBufferCopy(f) && |f.values| == 1 && IsHalideCall(f.values[0])
    requires f.values[0].name != NoProducer && SlotCopies(f, variant, 0, f.values[0].name)
    requires SingleReader(nc, f.values[0].name)
    requires variant == Corrected ==> f.values[0].calleeOutputs == 1
    ensures ClassifyWith(f, nc, variant) == f.values[0].name
  {
    if variant == Corrected {
      assert WholeTuple(f);
    }
    var p := f.values[0].name;
    assert HasHalideCall(f, 1);
    assert PlainCopyOf(f, nc, variant, p);
    PlainScanComplete(f, nc, variant, 0, NoProducer, p);
  }

  // ---------------------------------------------------------------------
  // Partial tuples
  // ---------------------------------------------------------------------

  /** `c(x, y) = {x + y, p(x, y)[1]}` over a two-component `p`: as written,
      `c` is taken for a copy of `p` although its first component computes;
      the corrected classifier rejects it. */
  lemma {:induction false} ComputedComponentAccepted(f: Function, nc: map<string, int>)
    requires f == Pure("c", [Binary(Add, X, Y), CallXY("p", 1, 2)], {"p"}) && SingleReader(nc, "p")
    ensures !f.values[0].Call?
    ensures Producer(f, nc) == "p"
    ensures CorrectedProducer(f, nc) == NoProducer
  {
    PartialTupleAccepted(f, nc, 1, "p");
  }

  /** `c(x, y) = tile(x, y)[0]` over a two-component `tile`: as written, `c`
      is taken for a copy of `tile` although it drops a component; the
      corrected classifier rejects it. */
  lemma {:induction false} FirstComponentAccepted(f: Function, nc: map<string, int>)
    requires f == Pure("c", [CallXY("tile", 0, 2)], {"tile"}) && SingleReader(nc, "tile")
    ensures |f.values| < f.values[0].calleeOutputs
    ensures Producer(f, nc) == "tile"
    ensures CorrectedProducer(f, nc) == NoProducer
  {
    var whole := Pure("c", [CallXY("tile", 0, 1)], {"tile"});
    assert WithoutOutputCount(f.values[0]) == WithoutOutputCount(whole.values[0]);
    ProducerIgnoresOutputCount(f, whole, nc);
    SingleCallCopies(whole, nc, AsWritten, "tile");
    assert !WholeTuple(f);
  }

  // ---------------------------------------------------------------------
  // Corner cases of the classifier
  // ---------------------------------------------------------------------

  /** An extern other than the buffer copy is classified by its tuple
      slots, whatever its extern arguments name. */
  lemma {:induction false} OtherExternUsesSlots(f: Function, nc: map<string, int>)
    requires f == Function("e", XY, [CallXY("p", 0, 1)], false, Some(ExternDefinition("my_extern", [FuncArg("q")])), false, {"p"})
    requires SingleReader(nc, "p")
    ensures Producer(f, nc) == "p"
  {
    SingleCallAccepted(f, nc, AsWritten);
  }

  /** A slot holding a call of another kind (here a pure extern) neither
      rejects nor names a producer, even after the producer's slot. */
  lemma {:induction false} OtherCallSkipped(f: Function, nc: map<string, int>)
    requires f == Pure("s", [CallXY("p", 0, 1), Call(PureExtern, "sin", [X], 1, [], 0)], {"p"})
    requires SingleReader(nc, "p")
    ensures Producer(f, nc) == "p"
  {
    var p := "p";
    assert IsHalideCall(f.values[0]) && !IsHalideCall(f.values[1]);
    assert HasHalideCall(f, 2);
    assert PlainCopyOf(f, nc, AsWritten, p);
    PlainPathCharacterization(f, nc, p);
  }

  /** A buffer-copy extern names the one Function among its extern
      arguments, even when that Function has several callers and the
      consumer's tuple slots compute something else. */
  lemma {:induction false} BufferCopyUnchecked(f: Function, nc: map<string, int>)
    requires f == Function("b", XY, [IntImm(0)], false, Some(ExternDefinition(BufferCopyExtern, [FuncArg("p"), ExprArg(X)])), false, {"p"})
    requires "p" in nc && nc["p"] == 3
    ensures Producer(f, nc) == "p"
  {
    var xs := f.extern.value.externArgs;
    assert FuncArgNames(xs) == {"p"} by {
      forall h | h in FuncArgNames(xs) ensures h == "p" {
      }
      assert xs[0].FuncArg?;
    }
    BufferCopyCharacterization(f, nc, "p");
  }

  /** A buffer-copy extern naming two Functions is no copy. */
  lemma {:induction false} BufferCopyOfTwoRejects(f: Function, nc: map<string, int>)
    requires f == Function("b", XY, [], false, Some(ExternDefinition(BufferCopyExtern, [FuncArg("p"), FuncArg("q")])), false, {"p", "q"})
    ensures Producer(f, nc) == NoProducer
  {
    var xs := f.extern.value.externArgs;
    assert xs[0].FuncArg? && xs[1].FuncArg?;
    assert "p" in FuncArgNames(xs) && "q" in FuncArgNames(xs);
    BufferCopyCharacterization(f, nc, "p");
  }

  /** The collection loop over six entries concatenates what each emits. */
  lemma {:induction false} CollectSix(env: seq<Entry>, nc: map<string, int>, variant: Variant, outs: seq<seq<CopyPair>>)
    requires |env| == 6 && |outs| == 6
    requires Emitted(env[0], nc, variant) == outs[0] && Emitted(env[1], nc, variant) == outs[1]
    requires Emitted(env[2], nc, variant) == outs[2] && Emitted(env[3], nc, variant) == outs[3]
    requires Emitted(env[4], nc, variant) == outs[4] && Emitted(env[5], nc, variant) == outs[5]
    ensures CollectPairs(env, nc, variant) == Concat(outs)
  {
    forall i | 0 <= i < |env| ensures Emitted(env[i], nc, variant) == outs[i] {
    }
    CollectIsConcat(env, nc, variant, outs);
  }

  /** The collection loop over five entries concatenates what each emits. */
  lemma {:induction false} CollectFive(env: seq<Entry>, nc: map<string, int>, variant: Variant, outs: seq<seq<CopyPair>>)
    requires |env| == 5 && |outs| == 5
    requires Emitted(env[0], nc, variant) == outs[0] && Emitted(env[1], nc, variant) == outs[1]
    requires Emitted(env[2], nc, variant) == outs[2] && Emitted(env[3], nc, variant) == outs[3]
    requires Emitted(env[4], nc, variant) == outs[4]
    ensures CollectPairs(env, nc, variant) == Concat(outs)
  {
    forall i | 0 <= i < |env| ensures Emitted(env[i], nc, variant) == outs[i] {
    }
    CollectIsConcat(env, nc, variant, outs);
  }
}
