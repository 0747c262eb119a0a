/** The copy classifier: decides whether one Function is a pointwise copy of
    exactly one other Function, and names that producer. As in the source,
    the empty name "" means "not a copy". */
module CopyProducer {
  import opened HalideIR

  const NoProducer: string := ""

  /** The two classifiers of the model:
      - `AsWritten`: the plain path compares the producer's definition
        arguments with the consumer's, dimension by dimension, and the
        tuple is not required to be whole (the analysis as written);
      - `Corrected`: the plain path compares the call's own argument
        expressions with the consumer's definition arguments, and every
        tuple component must be a Halide call into a producer with exactly
        as many components (what an index-preserving, whole-tuple copy
        needs). */
  datatype Variant = AsWritten | Corrected

  /** The argument list of Halide call `e` that `variant` compares. */
  function ComparedArgs(e: Expr, variant: Variant): seq<Expr>
    requires e.Call?
  {
    match variant
    case AsWritten => e.calleeArgs
    case Corrected => e.callArgs
  }

  predicate IsBufferCopy(f: Function) {
    f.extern.Some? && f.extern.value.externName == BufferCopyExtern
  }

  // ---------------------------------------------------------------------
  // The classifier, as written
  // ---------------------------------------------------------------------

  /** `equal(a[j], b[j])` for every `j` in `[j0, |a|)`, stopping at the first
      mismatch. */
  function ArgsMatch(a: seq<Expr>, b: seq<Expr>, j0: nat): bool
    decreases |a| - j0
  {
    j0 >= |a| || (j0 < |b| && a[j0] == b[j0] && ArgsMatch(a, b, j0 + 1))
  }

  /** The extern path: scans the extern arguments from index `i`, carrying
      the function-argument name seen so far; a second, different function
      name rejects. */
  function ExternScan(xs: seq<ExternArg>, i: nat, prod: string): string
    requires i <= |xs|
    decreases |xs| - i
  {
    if i == |xs| then prod
    else match xs[i]
      case FuncArg(g) =>
        if prod != NoProducer && prod != g then NoProducer
        else ExternScan(xs, i + 1, g)
      case _ => ExternScan(xs, i + 1, prod)
  }

  /** The plain path: a fold over the tuple slots of `f` from slot `i`,
      carrying the producer seen so far. */
  function PlainScan(f: Function, numCallers: map<string, int>, variant: Variant, i: nat, prod: string): string
    requires i <= |f.values|
    decreases |f.values| - i
  {
    if i == |f.values| then prod
    else match f.values[i]
      case Call(callType, name, _, valueIndex, calleeArgs, _) =>
        if callType != Halide then PlainScan(f, numCallers, variant, i + 1, prod)
        else if prod != NoProducer && prod != name then NoProducer
        else if name in numCallers && numCallers[name] > 1 then NoProducer
        else if f.Dimensions() != |calleeArgs| then NoProducer
        else if i != valueIndex then NoProducer
        else if !ArgsMatch(f.args, ComparedArgs(f.values[i], variant), 0) then NoProducer
        else PlainScan(f, numCallers, variant, i + 1, name)
      case _ =>
        if prod != NoProducer then NoProducer
        else PlainScan(f, numCallers, variant, i + 1, prod)
  }

  /** Every tuple component of `f` is a Halide call into a Function with
      exactly as many components as `f`. */
  predicate WholeTuple(f: Function) {
    forall i :: 0 <= i < |f.values| ==>
      IsHalideCall(f.values[i]) && f.values[i].calleeOutputs == |f.values|
  }

  /** The classifier of the given variant. */
  function ClassifyWith(f: Function, numCallers: map<string, int>, variant: Variant): (r: string)
    ensures f.hasUpdate ==> r == NoProducer
  {
    if f.hasUpdate then NoProducer
    else if IsBufferCopy(f) then ExternScan(f.extern.value.externArgs, 0, NoProducer)
    else if variant == Corrected && !WholeTuple(f) then NoProducer
    else PlainScan(f, numCallers, variant, 0, NoProducer)
  }

  /** `get_pointwise_copy_producer` as written. */
  function Producer(f: Function, numCallers: map<string, int>): (r: string)
    ensures f.hasUpdate ==> r == NoProducer
  {
    ClassifyWith(f, numCallers, AsWritten)
  }

  /** The corrected classifier: the call's own arguments are compared
      with the consumer's definition arguments, and the tuple must be
      copied whole. */
  function CorrectedProducer(f: Function, numCallers: map<string, int>): (r: string)
    ensures f.hasUpdate ==> r == NoProducer
  {
    ClassifyWith(f, numCallers, Corrected)
  }

  // ---------------------------------------------------------------------
  // Reference definitions
  // ---------------------------------------------------------------------

  /** The names of the Functions among extern arguments. */
  function FuncArgNames(xs: seq<ExternArg>): set<string> {
    set k | 0 <= k < |xs| && xs[k].FuncArg? :: xs[k].funcName
  }

  predicate FuncArgNamesNonEmpty(xs: seq<ExternArg>) {
    forall k :: 0 <= k < |xs| && xs[k].FuncArg? ==> xs[k].funcName != NoProducer
  }

  predicate HalideNamesNonEmpty(f: Function) {
    forall i :: 0 <= i < |f.values| && IsHalideCall(f.values[i]) ==> f.values[i].name != NoProducer
  }

  /** Some slot among the first `n` is a Halide call. */
  predicate HasHalideCall(f: Function, n: nat)
    requires n <= |f.values|
  {
    exists i :: 0 <= i < n && IsHalideCall(f.values[i])
  }

  /** Slot `i` is a Halide call that copies tuple component `i` of `p`
      through with matching arguments. */
  predicate SlotCopies(f: Function, variant: Variant, i: nat, p: string)
    requires i < |f.values| && IsHalideCall(f.values[i])
  {
    var e := f.values[i];
    && e.name == p
    && |e.calleeArgs| == |f.args|
    && e.valueIndex == i
    && f.args <= ComparedArgs(e, variant)
  }

  /** Everything the plain path demands of `f`'s first `n` slots for `p` to
      be the producer (the single-reader check apart). */
  predicate PrefixCopies(f: Function, variant: Variant, n: nat, p: string)
    requires n <= |f.values|
  {
    && HasHalideCall(f, n)
    && (forall i :: 0 <= i < n && IsHalideCall(f.values[i]) ==> SlotCopies(f, variant, i, p))
    && (forall k, i :: 0 <= k < i < n && IsHalideCall(f.values[k]) ==> f.values[i].Call?)
  }

  predicate SingleReader(numCallers: map<string, int>, p: string) {
    !(p in numCallers && numCallers[p] > 1)
  }

  /** `f` is a pointwise copy of `p` by the plain path's criteria: some slot
      is a Halide call; every Halide-call slot reads `p` at its own tuple
      index with identical arguments; no slot after the first Halide call is
      a non-call expression; and `p` has at most one caller. Calls of other
      kinds are allowed anywhere. */
  predicate PlainCopyOf(f: Function, numCallers: map<string, int>, variant: Variant, p: string) {
    PrefixCopies(f, variant, |f.values|, p) && SingleReader(numCallers, p)
  }

  // ---------------------------------------------------------------------
  // Lemmas
  // ---------------------------------------------------------------------

  lemma {:induction false} ArgsMatchFrom(a: seq<Expr>, b: seq<Expr>, j0: nat)
    requires j0 <= |a|
    ensures ArgsMatch(a, b, j0) <==> j0 == |a| || (|a| <= |b| && a[j0..] == b[j0..|a|])
    decreases |a| - j0
  {
    if j0 < |a| {
      ArgsMatchFrom(a, b, j0 + 1);
      if |a| <= |b| {
        assert a[j0..] == [a[j0]] + a[j0 + 1..];
        assert b[j0..|a|] == [b[j0]] + b[j0 + 1..|a|];
      }
    }
  }

  /** The per-dimension argument loop succeeds exactly when `a` is a prefix
      of `b`; for lists of equal length, exactly when they are equal. */
  lemma ArgsMatchIsPrefix(a: seq<Expr>, b: seq<Expr>)
    ensures ArgsMatch(a, b, 0) <==> a <= b
    ensures |a| == |b| ==> (ArgsMatch(a, b, 0) <==> a == b)
  {
    ArgsMatchFrom(a, b, 0);
    assert a[0..] == a;
  }

  lemma NotSingleton<T>(s: set<T>, a: T, b: T)
    requires a in s && b in s && a != b
    ensures !exists h :: s == {h}
  {
  }

  /** Extending a prefix of extern arguments by one adds at most its name. */
  lemma FuncArgNamesSnoc(xs: seq<ExternArg>, i: nat)
    requires i < |xs|
    ensures FuncArgNames(xs[..i + 1])
      == FuncArgNames(xs[..i]) + (if xs[i].FuncArg? then {xs[i].funcName} else {})
  {
    var pre, ext := xs[..i], xs[..i + 1];
    forall h | h in FuncArgNames(ext)
      ensures h in FuncArgNames(pre) || (xs[i].FuncArg? && h == xs[i].funcName)
    {
      var k :| 0 <= k < i + 1 && ext[k].FuncArg? && ext[k].funcName == h;
      if k < i {
        assert ext[k] == pre[k];
      }
    }
    forall h | h in FuncArgNames(pre) ensures h in FuncArgNames(ext) {
      var k :| 0 <= k < i && pre[k].FuncArg? && pre[k].funcName == h;
      assert ext[k] == pre[k];
    }
    if xs[i].FuncArg? {
      assert ext[i] == xs[i];
    }
  }

  lemma {:induction false} ExternScanSpec(xs: seq<ExternArg>, i: nat, prod: string)
    requires i <= |xs| && FuncArgNamesNonEmpty(xs)
    requires prod == NoProducer ==> FuncArgNames(xs[..i]) == {}
    requires prod != NoProducer ==> FuncArgNames(xs[..i]) == {prod}
    ensures var r := ExternScan(xs, i, prod);
      && (r != NoProducer <==> exists g :: FuncArgNames(xs) == {g})
      && (r != NoProducer ==> FuncArgNames(xs) == {r})
    decreases |xs| - i
  {
    if i == |xs| {
      assert xs[..i] == xs;
    } else {
      FuncArgNamesSnoc(xs, i);
      match xs[i]
      case FuncArg(g) =>
        assert g != NoProducer;
        if prod != NoProducer && prod != g {
          FuncArgNamesMonotone(xs, i + 1);
          NotSingleton(FuncArgNames(xs), prod, g);
        } else {
          ExternScanSpec(xs, i + 1, g);
        }
      case _ =>
        ExternScanSpec(xs, i + 1, prod);
    }
  }

  lemma FuncArgNamesMonotone(xs: seq<ExternArg>, n: nat)
    requires n <= |xs|
    ensures FuncArgNames(xs[..n]) <= FuncArgNames(xs)
  {
    forall h | h in FuncArgNames(xs[..n]) ensures h in FuncArgNames(xs) {
      var k :| 0 <= k < n && xs[..n][k].FuncArg? && xs[..n][k].funcName == h;
      assert xs[k] == xs[..n][k];
    }
  }

  /** What the plain fold knows after slot `i - 1` with `prod` carried: no
      Halide call yet when `prod` is empty, otherwise a copying prefix of a
      Function with at most one caller. */
  predicate ScanInvariant(f: Function, nc: map<string, int>, variant: Variant, i: nat, prod: string)
    requires i <= |f.values|
  {
    && (prod == NoProducer ==> !HasHalideCall(f, i))
    && (prod != NoProducer ==> PrefixCopies(f, variant, i, prod) && SingleReader(nc, prod))
  }

  /** The plain fold only ever answers a name `p` for which `f` is a plain
      copy of `p`. */
  lemma {:induction false} PlainScanSound(f: Function, nc: map<string, int>, variant: Variant, i: nat, prod: string)
    requires i <= |f.values| && HalideNamesNonEmpty(f)
    requires ScanInvariant(f, nc, variant, i, prod)
    ensures var r := PlainScan(f, nc, variant, i, prod);
      r != NoProducer ==> PlainCopyOf(f, nc, variant, r)
    decreases |f.values| - i
  {
    if i < |f.values| && PlainScan(f, nc, variant, i, prod) != NoProducer {
      var next := PlainScanStep(f, nc, variant, i, prod);
      PlainScanSound(f, nc, variant, i + 1, next);
    }
  }

  /** One slot of the plain fold either rejects or moves on with a carried
      name for which the invariant still holds. */
  lemma PlainScanStep(f: Function, nc: map<string, int>, variant: Variant, i: nat, prod: string) returns (next: string)
    requires i < |f.values| && HalideNamesNonEmpty(f)
    requires ScanInvariant(f, nc, variant, i, prod)
    requires PlainScan(f, nc, variant, i, prod) != NoProducer
    ensures PlainScan(f, nc, variant, i, prod) == PlainScan(f, nc, variant, i + 1, next)
    ensures ScanInvariant(f, nc, variant, i + 1, next)
  {
    var e := f.values[i];
    if e.Call? && e.callType != Halide {
      next := prod;
      if prod != NoProducer {
        PrefixExtendNonHalide(f, variant, i, prod);
      } else {
        NoHalideExtend(f, i);
      }
    } else if e.Call? {
      next := e.name;
      assert ArgsMatch(f.args, ComparedArgs(e, variant), 0);
      ArgsMatchIsPrefix(f.args, ComparedArgs(e, variant));
      assert SlotCopies(f, variant, i, next);
      PrefixExtendHalide(f, variant, i, prod, next);
    } else {
      next := prod;
      NoHalideExtend(f, i);
    }
  }

  lemma NoHalideExtend(f: Function, i: nat)
    requires i < |f.values| && !IsHalideCall(f.values[i]) && !HasHalideCall(f, i)
    ensures !HasHalideCall(f, i + 1)
  {
    forall k | 0 <= k < i + 1 ensures !IsHalideCall(f.values[k]) {
      if k < i {
        assert !HasHalideCall(f, i);
      }
    }
  }

  /** A Halide-call slot that passes every check keeps the prefix a copy. */
  lemma PrefixExtendHalide(f: Function, variant: Variant, i: nat, prod: string, n: string)
    requires i < |f.values| && IsHalideCall(f.values[i]) && SlotCopies(f, variant, i, n)
    requires prod == NoProducer || prod == n
    requires prod == NoProducer ==> !HasHalideCall(f, i)
    requires prod != NoProducer ==> PrefixCopies(f, variant, i, prod)
    ensures PrefixCopies(f, variant, i + 1, n)
  {
    assert HasHalideCall(f, i + 1) by {
      assert 0 <= i < i + 1 && IsHalideCall(f.values[i]);
    }
    forall k | 0 <= k < i + 1 && IsHalideCall(f.values[k]) ensures SlotCopies(f, variant, k, n) {
      if k < i {
        assert HasHalideCall(f, i) by {
          assert 0 <= k < i && IsHalideCall(f.values[k]);
        }
      }
    }
    forall k, j | 0 <= k < j < i + 1 && IsHalideCall(f.values[k]) ensures f.values[j].Call? {
      if j == i {
      } else {
        assert HasHalideCall(f, i) by {
          assert 0 <= k < i && IsHalideCall(f.values[k]);
        }
      }
    }
  }

  /** A call of another kind keeps the prefix a copy. */
  lemma PrefixExtendNonHalide(f: Function, variant: Variant, i: nat, p: string)
    requires i < |f.values| && f.values[i].Call? && !IsHalideCall(f.values[i])
    requires PrefixCopies(f, variant, i, p)
    ensures PrefixCopies(f, variant, i + 1, p)
  {
    assert HasHalideCall(f, i + 1) by {
      var k :| 0 <= k < i && IsHalideCall(f.values[k]);
      assert 0 <= k < i + 1;
    }
  }

  /** The plain fold answers `p` whenever `f` is a plain copy of `p`. */
  lemma {:induction false} PlainScanComplete(f: Function, nc: map<string, int>, variant: Variant, i: nat, prod: string, p: string)
    requires i <= |f.values| && HalideNamesNonEmpty(f)
    requires PlainCopyOf(f, nc, variant, p)
    requires prod == NoProducer ==> !HasHalideCall(f, i)
    requires prod != NoProducer ==> prod == p && HasHalideCall(f, i)
    ensures PlainScan(f, nc, variant, i, prod) == p
    decreases |f.values| - i
  {
    if i < |f.values| {
      var next := PlainScanCompleteStep(f, nc, variant, i, prod, p);
      PlainScanComplete(f, nc, variant, i + 1, next, p);
    }
  }

  /** On a plain copy of `p`, each slot passes and carries either nothing
      (before the first Halide call) or `p`. */
  lemma PlainScanCompleteStep(f: Function, nc: map<string, int>, variant: Variant, i: nat, prod: string, p: string) returns (next: string)
    requires i < |f.values| && HalideNamesNonEmpty(f)
    requires PlainCopyOf(f, nc, variant, p)
    requires prod == NoProducer ==> !HasHalideCall(f, i)
    requires prod != NoProducer ==> prod == p && HasHalideCall(f, i)
    ensures PlainScan(f, nc, variant, i, prod) == PlainScan(f, nc, variant, i + 1, next)
    ensures next == NoProducer ==> !HasHalideCall(f, i + 1)
    ensures next != NoProducer ==> next == p && HasHalideCall(f, i + 1)
  {
    var e := f.values[i];
    if prod != NoProducer {
      CallAfterHalide(f, variant, p, i);
    }
    if e.Call? && e.callType != Halide {
      next := prod;
      if prod != NoProducer {
        assert HasHalideCall(f, i + 1) by {
          var k :| 0 <= k < i && IsHalideCall(f.values[k]);
          assert 0 <= k < i + 1;
        }
      } else {
        NoHalideExtend(f, i);
      }
    } else if e.Call? {
      next := p;
      assert SlotCopies(f, variant, i, p);
      ArgsMatchIsPrefix(f.args, ComparedArgs(e, variant));
      assert HasHalideCall(f, i + 1) by {
        assert 0 <= i < i + 1 && IsHalideCall(f.values[i]);
      }
    } else {
      next := prod;
      NoHalideExtend(f, i);
    }
  }

  /** In a plain copy, every slot after a Halide call is a call. */
  lemma CallAfterHalide(f: Function, variant: Variant, p: string, i: nat)
    requires i < |f.values| && PrefixCopies(f, variant, |f.values|, p) && HasHalideCall(f, i)
    ensures f.values[i].Call?
  {
    var k :| 0 <= k < i && IsHalideCall(f.values[k]);
    assert 0 <= k < i < |f.values|;
  }

  // ---------------------------------------------------------------------
  // The classifier's decision procedure, stated against the reference
  // definitions
  // ---------------------------------------------------------------------

  /** Plain path, as written: the classifier names `p` exactly when `f` is a
      plain copy of `p`, comparing definition arguments. This covers every
      extern other than the buffer copy, which falls through to the tuple
      slots. */
  lemma PlainPathCharacterization(f: Function, nc: map<string, int>, p: string)
    requires !f.hasUpdate && !IsBufferCopy(f) && HalideNamesNonEmpty(f)
    requires p != NoProducer
    ensures Producer(f, nc) == p <==> PlainCopyOf(f, nc, AsWritten, p)
  {
    assert ScanInvariant(f, nc, AsWritten, 0, NoProducer);
    PlainScanSound(f, nc, AsWritten, 0, NoProducer);
    if PlainCopyOf(f, nc, AsWritten, p) {
      PlainScanComplete(f, nc, AsWritten, 0, NoProducer, p);
    }
  }

  /** Plain path of either argument variant: a named producer satisfies the
      plain-copy criteria. */
  lemma PlainPathSound(f: Function, nc: map<string, int>, variant: Variant)
    requires !f.hasUpdate && !IsBufferCopy(f) && HalideNamesNonEmpty(f)
    ensures var r := ClassifyWith(f, nc, variant);
      r != NoProducer ==> PlainCopyOf(f, nc, variant, r)
  {
    assert ScanInvariant(f, nc, variant, 0, NoProducer);
    PlainScanSound(f, nc, variant, 0, NoProducer);
  }

  /** Buffer-copy extern path: the classifier names `g` exactly when `g` is
      the only Function among the extern arguments, and answers "" when
      there are none or several. Tuple slots, dimensions, value indices,
      arguments and caller counts play no part. */
  lemma BufferCopyCharacterization(f: Function, nc: map<string, int>, g: string)
    requires !f.hasUpdate && IsBufferCopy(f)
    requires FuncArgNamesNonEmpty(f.extern.value.externArgs)
    ensures var names := FuncArgNames(f.extern.value.externArgs);
      && (Producer(f, nc) != NoProducer ==> names == {Producer(f, nc)})
      && (names == {g} ==> Producer(f, nc) == g)
      && (Producer(f, nc) == NoProducer <==> (names == {} || exists a, b :: a in names && b in names && a != b))
  {
    var xs := f.extern.value.externArgs;
    assert xs[..0] == [];
    ExternScanSpec(xs, 0, NoProducer);
    var names := FuncArgNames(xs);
    if names != {} && Producer(f, nc) == NoProducer {
      var a :| a in names;
      assert names != {a};
    }
  }

  /** Two Halide-call slots naming different Functions make the plain path
      reject. */
  lemma DifferentCalleesReject(f: Function, nc: map<string, int>, i: nat, k: nat)
    requires !f.hasUpdate && !IsBufferCopy(f) && HalideNamesNonEmpty(f)
    requires i < |f.values| && k < |f.values|
    requires IsHalideCall(f.values[i]) && IsHalideCall(f.values[k])
    requires f.values[i].name != f.values[k].name
    ensures Producer(f, nc) == NoProducer
  {
    PlainPathSound(f, nc, AsWritten);
  }

  /** A slot that is not a call, placed after a Halide-call slot, makes the
      plain path reject (a partial-tuple copy). */
  lemma NonCallAfterProducerRejects(f: Function, nc: map<string, int>, k: nat, i: nat)
    requires !f.hasUpdate && !IsBufferCopy(f) && HalideNamesNonEmpty(f)
    requires k < i < |f.values|
    requires IsHalideCall(f.values[k]) && !f.values[i].Call?
    ensures Producer(f, nc) == NoProducer
  {
    PlainPathSound(f, nc, AsWritten);
  }

  /** Without any Halide-call slot the plain path names no producer. */
  lemma NoHalideCallRejects(f: Function, nc: map<string, int>)
    requires !f.hasUpdate && !IsBufferCopy(f)
    requires !HasHalideCall(f, |f.values|)
    ensures Producer(f, nc) == NoProducer
  {
    PlainPathSound(f, nc, AsWritten);
  }

  /** A called Function with more than one recorded caller makes the plain
      path reject; one absent from the count map is not rejected for it. */
  lemma MultipleCallersReject(f: Function, nc: map<string, int>, i: nat)
    requires !f.hasUpdate && !IsBufferCopy(f) && HalideNamesNonEmpty(f)
    requires i < |f.values| && IsHalideCall(f.values[i])
    requires f.values[i].name in nc && nc[f.values[i].name] > 1
    ensures Producer(f, nc) == NoProducer
  {
    PlainPathSound(f, nc, AsWritten);
  }

  /** What a named producer on the plain path guarantees of every Halide-call
      slot `i`: the producer's dimensionality is the consumer's, the call
      reads tuple component `i`, and the definition arguments agree
      dimension by dimension. */
  lemma PlainProducerFacts(f: Function, nc: map<string, int>)
    requires !f.hasUpdate && !IsBufferCopy(f) && HalideNamesNonEmpty(f)
    ensures var r := Producer(f, nc);
      r != NoProducer ==>
        && HasHalideCall(f, |f.values|)
        && SingleReader(nc, r)
        && forall i :: 0 <= i < |f.values| && IsHalideCall(f.values[i]) ==>
          && f.values[i].name == r
          && |f.values[i].calleeArgs| == f.Dimensions()
          && f.values[i].valueIndex == i
          && forall j :: 0 <= j < f.Dimensions() ==> f.args[j] == f.values[i].calleeArgs[j]
  {
    PlainPathSound(f, nc, AsWritten);
    var r := Producer(f, nc);
    if r != NoProducer {
      forall i | 0 <= i < |f.values| && IsHalideCall(f.values[i])
        ensures f.values[i].calleeArgs == f.args
      {
        assert SlotCopies(f, AsWritten, i, r);
      }
    }
  }

  /** With the corrected argument variant, a named producer is read at the
      consumer's own coordinates: every Halide call's arguments begin with
      the consumer's definition arguments, and are exactly them when the
      call has one argument per producer dimension. */
  lemma CorrectedIsIndexPreserving(f: Function, nc: map<string, int>)
    requires !f.hasUpdate && !IsBufferCopy(f) && HalideNamesNonEmpty(f)
    ensures var r := CorrectedProducer(f, nc);
      r != NoProducer ==>
        forall i :: 0 <= i < |f.values| && IsHalideCall(f.values[i]) ==>
          && f.values[i].name == r
          && f.values[i].valueIndex == i
          && f.args <= f.values[i].callArgs
          && (|f.values[i].callArgs| == |f.values[i].calleeArgs| ==> f.values[i].callArgs == f.args)
  {
    PlainPathSound(f, nc, Corrected);
    var r := CorrectedProducer(f, nc);
    if r != NoProducer {
      forall i | 0 <= i < |f.values| && IsHalideCall(f.values[i])
        ensures f.args <= f.values[i].callArgs
      {
        assert SlotCopies(f, Corrected, i, r);
      }
    }
  }

  /** With the corrected classifier a named producer is copied whole: every
      tuple component is a Halide call into it, at the component's own
      index, and the producer has exactly as many components as `f`. */
  lemma CorrectedIsWholeTuple(f: Function, nc: map<string, int>)
    requires !f.hasUpdate && !IsBufferCopy(f) && HalideNamesNonEmpty(f)
    ensures var r := CorrectedProducer(f, nc);
      r != NoProducer ==>
        && |f.values| > 0
        && forall i :: 0 <= i < |f.values| ==>
          && IsHalideCall(f.values[i])
          && f.values[i].name == r
          && f.values[i].valueIndex == i
          && f.values[i].calleeOutputs == |f.values|
  {
    PlainPathSound(f, nc, Corrected);
    var r := CorrectedProducer(f, nc);
    if r != NoProducer {
      assert WholeTuple(f);
      forall i | 0 <= i < |f.values|
        ensures IsHalideCall(f.values[i]) && f.values[i].name == r && f.values[i].valueIndex == i
      {
        assert SlotCopies(f, Corrected, i, r);
      }
    }
  }

  /** As written, the tuple need not be copied whole: plain components may
      come before the first Halide call, and the producer's number of
      components is never compared. Such a Function is reported as a copy
      of `p`; the corrected classifier rejects it. */
  lemma PartialTupleAccepted(f: Function, nc: map<string, int>, k: nat, p: string)
    requires !f.hasUpdate && !IsBufferCopy(f)
    requires 0 < k < |f.values| && p != NoProducer && SingleReader(nc, p)
    requires forall i :: 0 <= i < k ==> !f.values[i].Call?
    requires forall i :: k <= i < |f.values| ==>
      && IsHalideCall(f.values[i])
      && f.values[i].name == p
      && f.values[i].valueIndex == i
      && f.values[i].calleeArgs == f.args
    ensures Producer(f, nc) == p
    ensures CorrectedProducer(f, nc) == NoProducer
  {
    assert HalideNamesNonEmpty(f);
    assert IsHalideCall(f.values[k]);
    assert PlainCopyOf(f, nc, AsWritten, p);
    PlainPathCharacterization(f, nc, p);
    assert !WholeTuple(f) by {
      assert !f.values[0].Call?;
    }
  }

  // ---------------------------------------------------------------------
  // What the classifier as written does not read
  // ---------------------------------------------------------------------

  /** `e` with the parts of a call that the classifier as written never
      reads erased: the call's own arguments and the callee's number of
      tuple components. */
  function ReadPart(e: Expr): Expr {
    if e.Call? then e.(callArgs := [], calleeOutputs := 0) else e
  }

  /** `f` and `g` agree on their definition arguments, update flag, extern
      definition and number of tuple components. */
  predicate SameFrame(f: Function, g: Function) {
    f.args == g.args && f.hasUpdate == g.hasUpdate && f.extern == g.extern && |f.values| == |g.values|
  }

  /** `f` and `g` agree on everything the classifier as written reads. */
  predicate AgreeOnReadParts(f: Function, g: Function) {
    && SameFrame(f, g)
    && forall i :: 0 <= i < |f.values| ==> ReadPart(f.values[i]) == ReadPart(g.values[i])
  }

  lemma {:induction false} PlainScanAgrees(f: Function, g: Function, nc: map<string, int>, i: nat, prod: string)
    requires i <= |f.values| && AgreeOnReadParts(f, g)
    ensures PlainScan(f, nc, AsWritten, i, prod) == PlainScan(g, nc, AsWritten, i, prod)
    decreases |f.values| - i
  {
    if i < |f.values| {
      assert ReadPart(f.values[i]) == ReadPart(g.values[i]);
      PlainScanAgrees(f, g, nc, i + 1, prod);
      if f.values[i].Call? {
        PlainScanAgrees(f, g, nc, i + 1, f.values[i].name);
      }
    }
  }

  /** Two Functions that agree on what the classifier as written reads get
      the same answer from it. */
  lemma ProducerAgrees(f: Function, g: Function, nc: map<string, int>)
    requires AgreeOnReadParts(f, g)
    ensures Producer(f, nc) == Producer(g, nc)
  {
    if !f.hasUpdate && !IsBufferCopy(f) {
      PlainScanAgrees(f, g, nc, 0, NoProducer);
    }
  }

  /** `e` with the argument expressions of a call erased. */
  function WithoutCallArgs(e: Expr): Expr {
    if e.Call? then e.(callArgs := []) else e
  }

  /** `f` and `g` are the same Function except for the argument expressions
      written at their call sites. */
  predicate DifferOnlyInCallArgs(f: Function, g: Function) {
    && SameFrame(f, g)
    && forall i :: 0 <= i < |f.values| ==> WithoutCallArgs(f.values[i]) == WithoutCallArgs(g.values[i])
  }

  /** The classifier as written never looks at the arguments a call passes:
      two Functions that differ only there get the same answer, so a read at
      shifted or permuted coordinates passes as a copy exactly when the
      read at the consumer's own coordinates does. */
  lemma ProducerIgnoresCallArgs(f: Function, g: Function, nc: map<string, int>)
    requires DifferOnlyInCallArgs(f, g)
    ensures Producer(f, nc) == Producer(g, nc)
  {
    forall i | 0 <= i < |f.values| ensures ReadPart(f.values[i]) == ReadPart(g.values[i]) {
      assert WithoutCallArgs(f.values[i]) == WithoutCallArgs(g.values[i]);
    }
    ProducerAgrees(f, g, nc);
  }

  /** `e` with the callee's number of tuple components erased. */
  function WithoutOutputCount(e: Expr): Expr {
    if e.Call? then e.(calleeOutputs := 0) else e
  }

  /** `f` and `g` are the same Function except for how many tuple
      components the Functions they call have. */
  predicate DifferOnlyInOutputCounts(f: Function, g: Function) {
    && SameFrame(f, g)
    && forall i :: 0 <= i < |f.values| ==> WithoutOutputCount(f.values[i]) == WithoutOutputCount(g.values[i])
  }

  /** The classifier as written never looks at how many tuple components
      the producer has: reading one component of a wider tuple passes
      exactly when reading the whole of a one-component Function does. */
  lemma ProducerIgnoresOutputCount(f: Function, g: Function, nc: map<string, int>)
    requires DifferOnlyInOutputCounts(f, g)
    ensures Producer(f, nc) == Producer(g, nc)
  {
    forall i | 0 <= i < |f.values| ensures ReadPart(f.values[i]) == ReadPart(g.values[i]) {
      assert WithoutOutputCount(f.values[i]) == WithoutOutputCount(g.values[i]);
    }
    ProducerAgrees(f, g, nc);
  }
}
