/** The caller-count builder and the pair collector: over a whole
    environment of Functions, count the callers of every Function, then
    classify every Function that is not inlined and collect the
    (producer, consumer) pairs. */
module PointwiseCopies {
  import opened HalideIR
  import opened CopyProducer

  /** One entry of the environment: a Function under its key. */
  datatype Entry = Entry(key: string, fn: Function)

  /** A copy pair: `cons` may store into the buffer of `prod`. */
  datatype CopyPair = CopyPair(prod: string, cons: string)

  // ---------------------------------------------------------------------
  // The environment: entries in the iteration order of an ordered map
  // ---------------------------------------------------------------------

  /** Lexicographic order on keys: at the first position where the keys
      differ, `a` has the smaller character, or `a` is a proper prefix of
      `b`. */
  predicate KeyLess(a: string, b: string) {
    exists k :: 0 <= k <= |a| && FirstDifference(a, b, k)
  }

  /** `a` and `b` agree before position `k`, and at `k` either `a` ends
      while `b` goes on or `a` has the smaller character. */
  predicate FirstDifference(a: string, b: string, k: nat) {
    k <= |a| && k < |b| && a[..k] == b[..k] && (k == |a| || a[k] < b[k])
  }

  lemma {:induction false} KeyLessIrreflexive(a: string)
    ensures !KeyLess(a, a)
  {
  }

  /** Keys strictly ascending: the shape of an ordered map's iteration. */
  predicate ValidEnv(env: seq<Entry>) {
    forall i, j :: 0 <= i < j < |env| ==> KeyLess(env[i].key, env[j].key)
  }

  lemma {:induction false} KeysUnique(env: seq<Entry>, i: nat, j: nat)
    requires ValidEnv(env) && i < |env| && j < |env| && env[i].key == env[j].key
    ensures i == j
  {
    KeyLessIrreflexive(env[i].key);
  }

  // ---------------------------------------------------------------------
  // Caller counting
  // ---------------------------------------------------------------------

  /** The positions of the entries whose Functions call `g` directly. */
  function CallersOf(env: seq<Entry>, g: string): set<nat> {
    set i: nat | i < |env| && g in env[i].fn.directCalls
  }

  /** One caller's contribution: every name it calls gains one. */
  function AddCallees(m: map<string, int>, callees: set<string>): map<string, int> {
    map g | g in m.Keys + callees :: (if g in m then m[g] else 0) + (if g in callees then 1 else 0)
  }

  lemma {:induction false} CallersOfSnoc(env: seq<Entry>, g: string)
    requires |env| > 0
    ensures var n := |env| - 1;
      CallersOf(env, g) == CallersOf(env[..n], g) + (if g in env[n].fn.directCalls then {n} else {})
  {
    var n := |env| - 1;
    forall i: nat | i < n ensures env[..n][i] == env[i] {}
  }

  /** `num_callers`: a name is present exactly when some Function calls it,
      and then maps to the number of Functions that call it (each caller
      counts once, however many call sites it has). */
  function NumCallers(env: seq<Entry>): (r: map<string, int>)
    ensures forall g :: g in r <==> CallersOf(env, g) != {}
    ensures forall g :: g in r ==> r[g] == |CallersOf(env, g)|
    decreases |env|
  {
    if |env| == 0 then map[]
    else
      var n := |env| - 1;
      var prev := NumCallers(env[..n]);
      var r := AddCallees(prev, env[n].fn.directCalls);
      assert forall g :: g in r <==> CallersOf(env, g) != {} by {
        forall g ensures g in r <==> CallersOf(env, g) != {} {
          CallersOfSnoc(env, g);
        }
      }
      assert forall g :: g in r ==> r[g] == |CallersOf(env, g)| by {
        forall g | g in r ensures r[g] == |CallersOf(env, g)| {
          CallersOfSnoc(env, g);
          assert n !in CallersOf(env[..n], g);
        }
      }
      r
  }

  // ---------------------------------------------------------------------
  // Pair collection
  // ---------------------------------------------------------------------

  /** Entry `e` is classified (it is not inlined) and names a producer. */
  predicate Emits(e: Entry, nc: map<string, int>, variant: Variant) {
    !e.fn.inlined && ClassifyWith(e.fn, nc, variant) != NoProducer
  }

  /** The pair entry `e` contributes, if any. */
  function Emitted(e: Entry, nc: map<string, int>, variant: Variant): seq<CopyPair> {
    if Emits(e, nc, variant) then [CopyPair(ClassifyWith(e.fn, nc, variant), e.key)] else []
  }

  /** The collection loop over the entries, in order. */
  function CollectPairs(env: seq<Entry>, nc: map<string, int>, variant: Variant): (pairs: seq<CopyPair>)
    ensures |pairs| <= |env|
    ensures forall q :: q in pairs ==> q.prod != NoProducer
    decreases |env|
  {
    if |env| == 0 then []
    else Emitted(env[0], nc, variant) + CollectPairs(env[1..], nc, variant)
  }

  /** Entry `i` is where pair `q` came from. */
  predicate PairFrom(env: seq<Entry>, nc: map<string, int>, variant: Variant, q: CopyPair, i: int) {
    && 0 <= i < |env|
    && env[i].key == q.cons
    && Emits(env[i], nc, variant)
    && q.prod == ClassifyWith(env[i].fn, nc, variant)
  }

  /** Every collected pair comes from an entry that is not inlined, under
      that entry's key, with the producer the classifier names for it. */
  lemma {:induction false} CollectPairsSound(env: seq<Entry>, nc: map<string, int>, variant: Variant)
    ensures forall q :: q in CollectPairs(env, nc, variant) ==> exists i :: PairFrom(env, nc, variant, q, i)
    decreases |env|
  {
    if |env| > 0 {
      CollectPairsSound(env[1..], nc, variant);
      forall q | q in CollectPairs(env, nc, variant) ensures exists i :: PairFrom(env, nc, variant, q, i) {
        if q in CollectPairs(env[1..], nc, variant) {
          var i :| PairFrom(env[1..], nc, variant, q, i);
          assert env[1..][i] == env[i + 1];
          assert PairFrom(env, nc, variant, q, i + 1);
        } else {
          assert PairFrom(env, nc, variant, q, 0);
        }
      }
    }
  }

  /** Every entry that is not inlined and is classified as a copy yields its
      pair. */
  lemma {:induction false} CollectPairsComplete(env: seq<Entry>, nc: map<string, int>, variant: Variant)
    ensures forall i :: 0 <= i < |env| && Emits(env[i], nc, variant) ==>
      CopyPair(ClassifyWith(env[i].fn, nc, variant), env[i].key) in CollectPairs(env, nc, variant)
    decreases |env|
  {
    if |env| > 0 {
      CollectPairsComplete(env[1..], nc, variant);
      forall i | 0 < i < |env| && Emits(env[i], nc, variant)
        ensures CopyPair(ClassifyWith(env[i].fn, nc, variant), env[i].key) in CollectPairs(env, nc, variant)
      {
        assert env[1..][i - 1] == env[i];
      }
    }
  }

  /** The sequences of `outs`, one after another. */
  function Concat(outs: seq<seq<CopyPair>>): seq<CopyPair> {
    if |outs| == 0 then [] else outs[0] + Concat(outs[1..])
  }

  /** The collection loop is the concatenation, in entry order, of what each
      entry contributes on its own. */
  lemma {:induction false} CollectIsConcat(env: seq<Entry>, nc: map<string, int>, variant: Variant, outs: seq<seq<CopyPair>>)
    requires |outs| == |env|
    requires forall i :: 0 <= i < |env| ==> Emitted(env[i], nc, variant) == outs[i]
    ensures CollectPairs(env, nc, variant) == Concat(outs)
    decreases |env|
  {
    if |env| > 0 {
      forall i | 0 <= i < |env| - 1 ensures Emitted(env[1..][i], nc, variant) == outs[1..][i] {
        assert env[1..][i] == env[i + 1] && outs[1..][i] == outs[i + 1];
      }
      CollectIsConcat(env[1..], nc, variant, outs[1..]);
    }
  }

  /** Consumers strictly ascending by key. */
  predicate SortedByConsumer(pairs: seq<CopyPair>) {
    forall a, b :: 0 <= a < b < |pairs| ==> KeyLess(pairs[a].cons, pairs[b].cons)
  }

  /** Over a valid environment the consumers come out in strictly ascending
      key order, hence each at most once. */
  lemma {:induction false} CollectPairsSorted(env: seq<Entry>, nc: map<string, int>, variant: Variant)
    requires ValidEnv(env)
    ensures SortedByConsumer(CollectPairs(env, nc, variant))
    decreases |env|
  {
    if |env| > 0 {
      var e := env[0];
      var rest := CollectPairs(env[1..], nc, variant);
      var pairs := CollectPairs(env, nc, variant);
      var head := Emitted(e, nc, variant);
      assert pairs == head + rest;
      assert ValidEnv(env[1..]) by {
        forall i, j | 0 <= i < j < |env[1..]| ensures KeyLess(env[1..][i].key, env[1..][j].key) {
          assert env[1..][i] == env[i + 1] && env[1..][j] == env[j + 1];
        }
      }
      CollectPairsSorted(env[1..], nc, variant);
      CollectPairsSound(env[1..], nc, variant);
      forall a, b | 0 <= a < b < |pairs| ensures KeyLess(pairs[a].cons, pairs[b].cons) {
        if a < |head| {
          assert pairs[b] == rest[b - |head|];
          assert rest[b - |head|] in rest;
          var i :| PairFrom(env[1..], nc, variant, rest[b - |head|], i);
          assert env[1..][i] == env[i + 1];
          assert pairs[a].cons == env[0].key && pairs[b].cons == env[i + 1].key;
          assert 0 < i + 1 < |env|;
        } else {
          assert pairs[a] == rest[a - |head|] && pairs[b] == rest[b - |head|];
          assert 0 <= a - |head| < b - |head| < |rest|;
          assert KeyLess(rest[a - |head|].cons, rest[b - |head|].cons);
        }
      }
    }
  }

  /** `get_pointwise_copies`: caller counts over the whole environment, then
      one pair per Function that is not inlined and that the classifier
      finds to be a copy, in key order. */
  function GetPointwiseCopies(env: seq<Entry>): (pairs: seq<CopyPair>)
    requires ValidEnv(env)
    ensures |pairs| <= |env|
    ensures forall q :: q in pairs ==> q.prod != NoProducer
  {
    CollectPairs(env, NumCallers(env), AsWritten)
  }

  /** The collector with the corrected classifier. */
  function CorrectedPointwiseCopies(env: seq<Entry>): (pairs: seq<CopyPair>)
    requires ValidEnv(env)
    ensures |pairs| <= |env|
    ensures forall q :: q in pairs ==> q.prod != NoProducer
  {
    CollectPairs(env, NumCallers(env), Corrected)
  }

  /** A pair is reported exactly when some entry that is not inlined is
      classified as a copy: its key is the consumer and the classifier's
      answer, with caller counts over the whole environment, the producer. */
  lemma {:induction false} CopiesSoundAndComplete(env: seq<Entry>)
    requires ValidEnv(env)
    ensures forall q :: q in GetPointwiseCopies(env) ==>
      exists i :: 0 <= i < |env| && env[i].key == q.cons && !env[i].fn.inlined
        && q.prod == Producer(env[i].fn, NumCallers(env))
    ensures forall i :: 0 <= i < |env| && !env[i].fn.inlined && Producer(env[i].fn, NumCallers(env)) != NoProducer ==>
      CopyPair(Producer(env[i].fn, NumCallers(env)), env[i].key) in GetPointwiseCopies(env)
  {
    var nc := NumCallers(env);
    CollectPairsSound(env, nc, AsWritten);
    CollectPairsComplete(env, nc, AsWritten);
    forall q | q in GetPointwiseCopies(env)
      ensures exists i :: 0 <= i < |env| && env[i].key == q.cons && !env[i].fn.inlined && q.prod == Producer(env[i].fn, nc)
    {
      var i :| PairFrom(env, nc, AsWritten, q, i);
    }
  }

  /** The same characterization with the corrected classifier. */
  lemma {:induction false} CorrectedCopiesSoundAndComplete(env: seq<Entry>)
    requires ValidEnv(env)
    ensures forall q :: q in CorrectedPointwiseCopies(env) ==>
      exists i :: 0 <= i < |env| && env[i].key == q.cons && !env[i].fn.inlined
        && q.prod == CorrectedProducer(env[i].fn, NumCallers(env))
    ensures forall i :: 0 <= i < |env| && !env[i].fn.inlined && CorrectedProducer(env[i].fn, NumCallers(env)) != NoProducer ==>
      CopyPair(CorrectedProducer(env[i].fn, NumCallers(env)), env[i].key) in CorrectedPointwiseCopies(env)
  {
    var nc := NumCallers(env);
    CollectPairsSound(env, nc, Corrected);
    CollectPairsComplete(env, nc, Corrected);
    forall q | q in CorrectedPointwiseCopies(env)
      ensures exists i :: 0 <= i < |env| && env[i].key == q.cons && !env[i].fn.inlined && q.prod == CorrectedProducer(env[i].fn, nc)
    {
      var i :| PairFrom(env, nc, Corrected, q, i);
    }
  }

  /** The pairs come out in ascending order of consumer name, for either
      classifier. */
  lemma {:induction false} CopiesSortedByConsumer(env: seq<Entry>)
    requires ValidEnv(env)
    ensures SortedByConsumer(GetPointwiseCopies(env))
    ensures SortedByConsumer(CorrectedPointwiseCopies(env))
  {
    CollectPairsSorted(env, NumCallers(env), AsWritten);
    CollectPairsSorted(env, NumCallers(env), Corrected);
  }

  // ---------------------------------------------------------------------
  // Properties of the collected pairs
  // ---------------------------------------------------------------------

  /** No Function appears as a consumer twice. */
  lemma {:induction false} ConsumerAtMostOnce(env: seq<Entry>)
    requires ValidEnv(env)
    ensures var pairs := GetPointwiseCopies(env);
      forall a, b :: 0 <= a < b < |pairs| ==> pairs[a].cons != pairs[b].cons
  {
    var pairs := GetPointwiseCopies(env);
    CopiesSortedByConsumer(env);
    forall a, b | 0 <= a < b < |pairs| ensures pairs[a].cons != pairs[b].cons {
      KeyLessIrreflexive(pairs[a].cons);
    }
  }

  /** An inlined Function is never a consumer. */
  lemma {:induction false} InlinedNeverConsumer(env: seq<Entry>, i: nat)
    requires ValidEnv(env) && i < |env| && env[i].fn.inlined
    ensures forall q :: q in GetPointwiseCopies(env) ==> q.cons != env[i].key
  {
    CopiesSoundAndComplete(env);
    forall q | q in GetPointwiseCopies(env) ensures q.cons != env[i].key {
      var j :| 0 <= j < |env| && env[j].key == q.cons && !env[j].fn.inlined
        && q.prod == Producer(env[j].fn, NumCallers(env));
      if q.cons == env[i].key {
        KeysUnique(env, i, j);
      }
    }
  }

  /** With every Function inlined (Halide's default schedule) the analysis
      reports nothing. */
  lemma {:induction false} AllInlinedNoCopies(env: seq<Entry>)
    requires ValidEnv(env)
    requires forall i :: 0 <= i < |env| ==> env[i].fn.inlined
    ensures GetPointwiseCopies(env) == []
  {
    var pairs := GetPointwiseCopies(env);
    CopiesSoundAndComplete(env);
    if pairs != [] {
      FirstIsMember(pairs);
    }
  }

  lemma FirstIsMember<T>(s: seq<T>)
    requires |s| > 0
    ensures s[0] in s
  {
  }

  /** A Function with an update definition is never a consumer. */
  lemma {:induction false} UpdateNeverConsumer(env: seq<Entry>, i: nat)
    requires ValidEnv(env) && i < |env| && env[i].fn.hasUpdate
    ensures forall q :: q in GetPointwiseCopies(env) ==> q.cons != env[i].key
  {
    CopiesSoundAndComplete(env);
    forall q | q in GetPointwiseCopies(env) ensures q.cons != env[i].key {
      var j :| 0 <= j < |env| && env[j].key == q.cons && !env[j].fn.inlined
        && q.prod == Producer(env[j].fn, NumCallers(env));
      if q.cons == env[i].key {
        KeysUnique(env, i, j);
      }
    }
  }

  /** The direct-call sets include every Halide call of the tuple slots, and
      those calls name non-empty Functions. */
  predicate CallsRecorded(env: seq<Entry>) {
    forall i :: 0 <= i < |env| ==>
      && HalideNamesNonEmpty(env[i].fn)
      && forall s :: 0 <= s < |env[i].fn.values| && IsHalideCall(env[i].fn.values[s]) ==>
        env[i].fn.values[s].name in env[i].fn.directCalls
  }

  /** A pair whose consumer took the plain path copies from a Function with
      exactly one caller: the consumer itself. */
  lemma {:induction false} PlainPairHasSingleReader(env: seq<Entry>, q: CopyPair)
    requires ValidEnv(env) && CallsRecorded(env)
    requires q in GetPointwiseCopies(env)
    requires forall i :: 0 <= i < |env| && env[i].key == q.cons ==> !IsBufferCopy(env[i].fn)
    ensures CallersOf(env, q.prod) == set i: nat | i < |env| && env[i].key == q.cons
    ensures |CallersOf(env, q.prod)| == 1
  {
    var i := PairSource(env, q);
    OnlyCallerIsConsumer(env, i);
    forall k: nat | k < |env| && env[k].key == q.cons ensures k == i {
      KeysUnique(env, i, k);
    }
  }

  /** The entry a collected pair came from. */
  lemma {:induction false} PairSource(env: seq<Entry>, q: CopyPair) returns (i: nat)
    requires ValidEnv(env) && q in GetPointwiseCopies(env)
    ensures i < |env| && env[i].key == q.cons && !env[i].fn.inlined
    ensures q.prod == Producer(env[i].fn, NumCallers(env))
  {
    CopiesSoundAndComplete(env);
    i :| 0 <= i < |env| && env[i].key == q.cons && !env[i].fn.inlined
      && q.prod == Producer(env[i].fn, NumCallers(env));
  }

  /** When the plain path names a producer for entry `i`, entry `i` is the
      only entry that calls it. */
  lemma {:induction false} OnlyCallerIsConsumer(env: seq<Entry>, i: nat)
    requires CallsRecorded(env) && i < |env| && !IsBufferCopy(env[i].fn)
    requires Producer(env[i].fn, NumCallers(env)) != NoProducer
    ensures CallersOf(env, Producer(env[i].fn, NumCallers(env))) == {i}
  {
    var nc := NumCallers(env);
    var f := env[i].fn;
    var p := Producer(f, nc);
    PlainProducerFacts(f, nc);
    var s :| 0 <= s < |f.values| && IsHalideCall(f.values[s]);
    assert i in CallersOf(env, p);
    forall k | k in CallersOf(env, p) ensures k == i {
      if k != i {
        assert {i, k} <= CallersOf(env, p);
        assert |{i, k}| == 2;
        CardinalityMonotone({i, k}, CallersOf(env, p));
      }
    }
  }

  lemma {:induction false} CardinalityMonotone<T>(a: set<T>, b: set<T>)
    requires a <= b
    ensures |a| <= |b|
  {
    assert b == a + (b - a);
  }
}
