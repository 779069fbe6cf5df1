/** The prime generator of inf19-1/main.c: a thread that finds primes by trial division and sends them
    through a pipe, and a main thread that prints the first `N` of them, waiting on a counter that the
    two threads change without a common lock. */
module PrimePipe {
  import opened Sums

  newtype int32 = x: int | -0x8000_0000 <= x < 0x8000_0000
  newtype uint64 = x: int | 0 <= x < 0x1_0000_0000_0000_0000

  /** The first number whose trial division overflows the `int` square. */
  const LIMIT: int := 46340 * 46340

  // ---------------------------------------------------------------- primes

  predicate IsPrime(n: nat) {
    2 <= n && forall d :: 2 <= d < n ==> n % d != 0
  }

  /** What trial division lets through: the primes, and 0 and 1, for which its loop does not run. */
  predicate Passes(n: nat) { n < 2 || IsPrime(n) }

  /** The numbers of [from, to) that trial division lets through, in increasing order. */
  function Passing(from: nat, to: nat): (r: seq<nat>) {
    if to <= from then [] else Passing(from, to - 1) + if Passes(to - 1) then [to - 1] else []
  }

  /** The primes of [from, to), in increasing order. */
  function Primes(from: nat, to: nat): (r: seq<nat>) {
    if to <= from then [] else Primes(from, to - 1) + if IsPrime(to - 1) then [to - 1] else []
  }

  /** `Primes` is the list it is named after: strictly increasing, and complete. */
  lemma {:induction false} PrimesSpec(from: nat, to: nat)
    ensures forall x :: x in Primes(from, to) <==> from <= x < to && IsPrime(x)
    ensures forall i, j :: 0 <= i < j < |Primes(from, to)| ==> Primes(from, to)[i] < Primes(from, to)[j]
  {
    if from < to {
      PrimesSpec(from, to - 1);
      var r := Primes(from, to - 1);
      assert forall i :: 0 <= i < |r| ==> r[i] in r;
    }
  }

  lemma {:induction false} PassingIsPrimes(from: nat, to: nat)
    requires 2 <= from
    ensures Passing(from, to) == Primes(from, to)
  {
    if from < to {
      PassingIsPrimes(from, to - 1);
    }
  }

  lemma {:induction false} PrimesFromOne(to: nat)
    ensures Primes(1, to) == Primes(2, to)
  {
    if 2 < to {
      PrimesFromOne(to - 1);
    } else if to == 2 {
      assert Primes(1, 1) == [] && Primes(1, 2) == Primes(1, 1) + [];
    }
  }

  lemma {:induction false} ZeroPasses(to: nat)
    requires 0 < to
    ensures 0 in Passing(0, to)
  {
    if 1 < to {
      ZeroPasses(to - 1);
    } else {
      assert Passing(0, 1) == Passing(0, 0) + [0];
    }
  }

  /** Where the generator starts: 1 is skipped, 0 is not. */
  function Start(A: nat): nat { if A == 1 then 2 else A }

  /** What is sent for [A, B] is the list of its primes exactly when A is not 0. */
  lemma SentArePrimesIff(A: nat, B: nat)
    ensures Passing(Start(A), B + 1) == Primes(A, B + 1) <==> A != 0
  {
    if A == 0 {
      ZeroPasses(B + 1);
      PrimesSpec(0, B + 1);
    } else {
      PassingIsPrimes(Start(A), B + 1);
      PrimesFromOne(B + 1);
    }
  }

  // ---------------------------------------------------------------- trial division

  lemma ProductsGrow(d: nat, e: nat)
    ensures d * e >= d * d || d * e >= e * e
  {
    if d <= e {
      assert d * (e - d) >= 0;
    } else {
      assert e * (d - e) >= 0;
    }
  }

  lemma MultipleMod(d: nat, e: nat)
    requires 0 < e
    ensures (d * e) % e == 0
  {
    var n := d * e;
    var q, r := n / e, n % e;
    assert n == e * q + r;
    assert r == e * (d - q);
    FarMultiple(e, d - q);
  }

  /** A divisor and its cofactor are not both above the square root. */
  lemma Cofactor(n: nat, d: nat) returns (e: nat)
    requires 2 <= d < n && n % d == 0
    ensures 2 <= e && n % e == 0 && (d * d <= n || e * e <= n)
  {
    e := n / d;
    assert n == d * e;
    assert n % e == 0 by {
      assert e != 0;
      MultipleMod(d, e);
    }
    if n < d * d && n < e * e {
      ProductsGrow(d, e);
      assert false;
    }
  }

  predicate Divisor(d: nat, n: nat) { 2 <= d && n % d == 0 }

  /** Some divisor below `i` is no larger than the square root of `n`. */
  ghost predicate DivisorBelow(n: nat, i: nat) {
    exists d: nat :: Divisor(d, n) && d < i && d * d <= n
  }

  lemma DivisorBelowNext(n: nat, i: nat)
    requires 2 <= i && i * i <= n
    ensures DivisorBelow(n, i + 1) <==> DivisorBelow(n, i) || n % i == 0
  {
    if n % i == 0 {
      assert Divisor(i, n);
    }
  }

  lemma SmallDivisorIsProper(n: nat, i: nat)
    requires DivisorBelow(n, i)
    ensures !Passes(n)
  {
    var d: nat :| Divisor(d, n) && d < i && d * d <= n;
    assert 2 * d <= d * d;
    assert 2 <= d < n;
  }

  lemma SquareMonotone(i: nat, j: nat)
    requires i <= j
    ensures i * i <= j * j
  {
    assert j * j - i * i == (j - i) * (j + i);
  }

  lemma SmallDivisorExists(n: nat, i: nat)
    requires n < i * i && !Passes(n)
    ensures DivisorBelow(n, i)
  {
    var d :| 2 <= d < n && n % d == 0;
    var e := Cofactor(n, d);
    var x := if d * d <= n then d else e;
    assert Divisor(x, n);
    if i <= x {
      SquareMonotone(i, x);
    }
  }

  /** Once the loop ends, the number passes exactly if no divisor was met. */
  lemma NoSmallDivisor(n: nat, i: nat)
    requires n < i * i
    ensures DivisorBelow(n, i) <==> !Passes(n)
  {
    if DivisorBelow(n, i) {
      SmallDivisorIsProper(n, i);
    } else if !Passes(n) {
      SmallDivisorExists(n, i);
    }
  }

  /** The loop test squares every `i` up to the first whose square is above `A`. */
  predicate Squared(A: nat, i: nat) {
    i == 2 || (2 < i && (i - 1) * (i - 1) <= A)
  }

  /** No square overflows exactly below the limit. */
  lemma SquaresFitIff(A: nat)
    ensures (forall i: nat :: Squared(A, i) ==> i * i < 0x8000_0000) <==> A < LIMIT
  {
    if A < LIMIT {
      forall i: nat | Squared(A, i) ensures i * i < 0x8000_0000 {
        if 46340 < i {
          SquareMonotone(46340, i - 1);
          assert false;
        }
        SquareMonotone(i, 46340);
      }
    } else {
      assert Squared(A, 46341);
    }
  }

  method TrialDivision(A: uint64) returns (flag: uint64)
    requires A as int < LIMIT
    ensures flag == if Passes(A as int) then 1 else 0
  {
    flag := 1;
    var i: int32 := 2;
    while (i * i) as uint64 <= A
      invariant 2 <= i <= 46340 && i as int * i as int <= LIMIT
      invariant flag == if DivisorBelow(A as int, i as int) then 0 else 1
      decreases 46341 - i as int
    {
      DivisorBelowNext(A as int, i as int);
      if A % (i as uint64) == 0 {
        flag := 0;
      }
      SquareMonotone(i as int + 1, 46340);
      i := i + 1;
    }
    NoSmallDivisor(A as int, i as int);
  }

  /** The generator on its own, with a pipe that never fills. */
  method GeneratePrimes(A: uint64, B: uint64) returns (pipe: seq<nat>)
    requires B as int < LIMIT
    ensures pipe == Passing(Start(A as int), B as int + 1)
    ensures pipe == Primes(A as int, B as int + 1) <==> A != 0
  {
    var a := A;
    if a == 1 {
      a := a + 1;
    }
    pipe := [];
    while a <= B
      invariant a <= B + 1 || a as int == Start(A as int)
      invariant Start(A as int) <= a as int && pipe == Passing(Start(A as int), a as int)
    {
      var flag := TrialDivision(a);
      if flag != 0 {
        pipe := pipe + [a as int];
      }
      a := a + 1;
    }
    SentArePrimesIff(A as int, B as int);
  }

  // ---------------------------------------------------------------- the two threads

  /** The generator: find the next number, write it, load `ready`, store it back, signal. */
  datatype ProducerPc = Next | Send | LoadUp | StoreUp(tmp: int) | Signal | Finished

  /** The main thread: the loop test, the test of `ready`, the call of `pthread_cond_wait` and the sleep
      inside it, the two halves of `ready--`, the read and the print. */
  datatype ConsumerPc =
    For | Check | Wait | Asleep | LoadDown | StoreDown(tmp: int) | Read | Print(value: nat) | Returned

  datatype State = State(A: nat, B: nat, N: nat, capacity: nat,
                         a: nat, i: nat, ready: int, pipe: seq<nat>, out: seq<nat>,
                         producer: ProducerPc, consumer: ConsumerPc)

  /** `Spurious` is a wakeup of the sleeper that no signal caused. */
  datatype Actor = Producer | Consumer | Spurious

  function Init(A: nat, B: nat, N: nat, capacity: nat): State {
    State(A, B, N, capacity, Start(A), 0, 0, [], [], Next, For)
  }

  predicate Enabled(s: State, actor: Actor) {
    match actor
    case Producer => !s.producer.Finished? && (s.producer.Send? ==> |s.pipe| < s.capacity)
    case Consumer => !s.consumer.Returned? && !s.consumer.Asleep? && (s.consumer.Read? ==> s.pipe != [])
    case Spurious => s.consumer.Asleep?
  }

  function ProducerStep(s: State): State
    requires Enabled(s, Producer)
  {
    match s.producer
    case Next =>
      if s.B < s.a then s.(producer := Finished)
      else if Passes(s.a) then s.(producer := Send)
      else s.(a := s.a + 1)
    case Send => s.(pipe := s.pipe + [s.a], producer := LoadUp)
    case LoadUp => s.(producer := StoreUp(s.ready))
    case StoreUp(tmp) => s.(ready := tmp + 1, producer := Signal)
    case Signal =>
      s.(consumer := if s.consumer.Asleep? then Check else s.consumer, a := s.a + 1, producer := Next)
    case Finished => s
  }

  function ConsumerStep(s: State): State
    requires Enabled(s, Consumer)
  {
    match s.consumer
    case For => s.(consumer := if s.i < s.N then Check else Returned)
    case Check => s.(consumer := if s.ready == 0 then Wait else LoadDown)
    case Wait => s.(consumer := Asleep)
    case LoadDown => s.(consumer := StoreDown(s.ready))
    case StoreDown(tmp) => s.(ready := tmp - 1, consumer := Read)
    case Read => s.(pipe := s.pipe[1..], consumer := Print(s.pipe[0]))
    case Print(value) => s.(out := s.out + [value], i := s.i + 1, consumer := For)
    case Asleep => s
    case Returned => s
  }

  function Step(s: State, actor: Actor): State
    requires Enabled(s, actor)
  {
    match actor
    case Producer => ProducerStep(s)
    case Consumer => ConsumerStep(s)
    case Spurious => s.(consumer := Check)
  }

  predicate ValidRun(s: State, schedule: seq<Actor>)
    decreases |schedule|
  {
    schedule == [] || (Enabled(s, schedule[0]) && ValidRun(Step(s, schedule[0]), schedule[1..]))
  }

  function Exec(s: State, schedule: seq<Actor>): State
    requires ValidRun(s, schedule)
    decreases |schedule|
  {
    if schedule == [] then s else Exec(Step(s, schedule[0]), schedule[1..])
  }

  // ---------------------------------------------------------------- what every step keeps

  /** Whether the number under test is already in the pipe. */
  predicate Sent(pc: ProducerPc) { pc.LoadUp? || pc.StoreUp? || pc.Signal? }

  /** All that has been written into the pipe so far. */
  function SentList(s: State): seq<nat> {
    Passing(Start(s.A), if Sent(s.producer) then s.a + 1 else s.a)
  }

  /** The number that the main thread has read and not yet printed. */
  function InHand(s: State): seq<nat> {
    if s.consumer.Print? then [s.consumer.value] else []
  }

  /** Printed, in hand and in the pipe together are what was sent, in order. */
  ghost predicate PipeInv(s: State) {
    && Start(s.A) <= s.a
    && (s.a <= s.B || (!Sent(s.producer) && !s.producer.Send? && (s.a == s.B + 1 || s.a == Start(s.A))))
    && (s.producer.Finished? ==> s.B < s.a)
    && (Sent(s.producer) || s.producer.Send? ==> Passes(s.a))
    && s.out + InHand(s) + s.pipe == SentList(s)
    && |s.pipe| <= s.capacity
  }

  ghost predicate LoopInv(s: State) {
    && |s.out| == s.i <= s.N
    && (s.consumer.Returned? ==> s.i == s.N)
    && (!s.consumer.Returned? && !s.consumer.For? ==> s.i < s.N)
  }

  /** The racy counter: it never goes negative and never exceeds the numbers sent before the current one. */
  ghost predicate CounterInv(s: State) {
    && 0 <= s.ready
    && (s.consumer.LoadDown? ==> 1 <= s.ready)
    && (s.consumer.StoreDown? ==> 1 <= s.consumer.tmp)
    && (s.producer.StoreUp? ==> 0 <= s.producer.tmp)
    && var before := |Passing(Start(s.A), s.a)|;
       && s.ready <= before + (if s.producer.Signal? then 1 else 0)
       && (s.producer.StoreUp? ==> s.producer.tmp <= before)
       && (s.consumer.StoreDown? ==> s.consumer.tmp <= before + (if s.producer.Signal? then 1 else 0))
       && (s.consumer.Read? ==> 1 <= before + (if s.producer.Signal? then 1 else 0))
  }

  ghost predicate Inv(s: State) { PipeInv(s) && LoopInv(s) && CounterInv(s) }

  lemma PassingNext(from: nat, a: nat)
    requires from <= a
    ensures Passing(from, a + 1) == Passing(from, a) + if Passes(a) then [a] else []
  {
  }

  lemma ProducerPipeInv(s: State)
    requires PipeInv(s) && Enabled(s, Producer)
    ensures PipeInv(ProducerStep(s))
  {
    PassingNext(Start(s.A), s.a);
    var s' := ProducerStep(s);
    assert InHand(s') == InHand(s);
    if s.producer.Send? {
      assert s'.out + InHand(s') + s'.pipe == (s.out + InHand(s) + s.pipe) + [s.a];
    }
  }

  lemma FirstMoves(out: seq<nat>, pipe: seq<nat>)
    requires pipe != []
    ensures out + [] + pipe == out + [pipe[0]] + pipe[1..]
  {
    assert pipe == [pipe[0]] + pipe[1..];
  }

  /** Reading and printing move a number along. */
  lemma ConsumerMoves(s: State)
    requires Enabled(s, Consumer)
    ensures var s' := ConsumerStep(s); s'.out + InHand(s') + s'.pipe == s.out + InHand(s) + s.pipe
  {
    var s' := ConsumerStep(s);
    if s.consumer.Read? {
      FirstMoves(s.out, s.pipe);
    } else if s.consumer.Print? {
      assert s'.out + [] == s.out + InHand(s);
    }
  }

  lemma ConsumerPipeInv(s: State)
    requires PipeInv(s) && Enabled(s, Consumer)
    ensures PipeInv(ConsumerStep(s))
  {
    ConsumerMoves(s);
    assert SentList(ConsumerStep(s)) == SentList(s);
  }

  lemma ProducerCounterInv(s: State)
    requires PipeInv(s) && CounterInv(s) && Enabled(s, Producer)
    ensures CounterInv(ProducerStep(s))
  {
    PassingNext(Start(s.A), s.a);
  }

  lemma ConsumerCounterInv(s: State)
    requires CounterInv(s) && Enabled(s, Consumer)
    ensures CounterInv(ConsumerStep(s))
  {
  }

  lemma StepLoopInv(s: State, actor: Actor)
    requires LoopInv(s) && Enabled(s, actor)
    ensures LoopInv(Step(s, actor))
  {
  }

  lemma SpuriousInv(s: State)
    requires PipeInv(s) && CounterInv(s) && Enabled(s, Spurious)
    ensures PipeInv(Step(s, Spurious)) && CounterInv(Step(s, Spurious))
  {
  }

  lemma StepInv(s: State, actor: Actor)
    requires Inv(s) && Enabled(s, actor)
    ensures Inv(Step(s, actor))
  {
    StepLoopInv(s, actor);
    match actor
    case Producer =>
      ProducerPipeInv(s);
      ProducerCounterInv(s);
    case Consumer =>
      ConsumerPipeInv(s);
      ConsumerCounterInv(s);
    case Spurious =>
      SpuriousInv(s);
  }

  lemma {:induction false} RunInv(s: State, schedule: seq<Actor>)
    requires Inv(s) && ValidRun(s, schedule)
    ensures var s' := Exec(s, schedule);
            Inv(s') && s'.A == s.A && s'.B == s.B && s'.N == s.N && s'.capacity == s.capacity
    decreases |schedule|
  {
    if schedule != [] {
      StepInv(s, schedule[0]);
      RunInv(Step(s, schedule[0]), schedule[1..]);
    }
  }

  lemma {:induction false} PassingPrefix(from: nat, mid: nat, to: nat)
    requires mid <= to
    ensures Passing(from, mid) <= Passing(from, to)
  {
    if mid < to {
      PassingPrefix(from, mid, to - 1);
    }
  }

  lemma SentIsPrefix(s: State)
    requires PipeInv(s)
    ensures SentList(s) <= Passing(Start(s.A), s.B + 1)
    ensures |Passing(Start(s.A), s.a)| + (if Sent(s.producer) then 1 else 0) <= |Passing(Start(s.A), s.B + 1)|
    ensures s.producer.Finished? ==> SentList(s) == Passing(Start(s.A), s.B + 1)
  {
    if Start(s.A) <= s.B + 1 {
      PassingPrefix(Start(s.A), if Sent(s.producer) then s.a + 1 else s.a, s.B + 1);
    }
    if Sent(s.producer) {
      PassingNext(Start(s.A), s.a);
    }
  }

  lemma OutputLength(s: State)
    requires LoopInv(s)
    ensures |s.out| == s.N <==> s.consumer.Returned? || (Enabled(s, Consumer) && ConsumerStep(s).consumer.Returned?)
  {
  }

  lemma OutputIsPrefix(s: State)
    requires PipeInv(s)
    ensures s.out <= Passing(Start(s.A), s.B + 1)
    ensures s.producer.Finished? ==> s.out + InHand(s) + s.pipe == Passing(Start(s.A), s.B + 1)
  {
    SentIsPrefix(s);
    assert s.out <= s.out + (InHand(s) + s.pipe) == SentList(s);
  }

  lemma CounterBound(s: State)
    requires PipeInv(s) && CounterInv(s)
    ensures 0 <= s.ready <= |Passing(Start(s.A), s.B + 1)|
  {
    SentIsPrefix(s);
  }

  /** In every interleaving, and however `ready` is lost track of, the printed numbers are a prefix of the
      increasing list of the primes in [A, B], nothing is printed twice or out of order, and there are `N`
      of them exactly if the main thread has returned or returns with its next statement. */
  lemma OutputIsPrimes(A: nat, B: nat, N: nat, capacity: nat, schedule: seq<Actor>)
    requires 1 <= A && B < LIMIT
    requires ValidRun(Init(A, B, N, capacity), schedule)
    ensures var s := Exec(Init(A, B, N, capacity), schedule);
            && s.out <= Primes(A, B + 1)
            && |s.out| <= N
            && (|s.out| == N <==>
                s.consumer.Returned? || (Enabled(s, Consumer) && ConsumerStep(s).consumer.Returned?))
            && (s.consumer.Returned? ==> N <= |Primes(A, B + 1)| && s.out == Primes(A, B + 1)[..N])
            && (s.producer.Finished? ==> s.out + InHand(s) + s.pipe == Primes(A, B + 1))
            && 0 <= s.ready <= |Primes(A, B + 1)|
  {
    var s0 := Init(A, B, N, capacity);
    var s := Exec(s0, schedule);
    assert Passing(Start(A), Start(A)) == [];
    RunInv(s0, schedule);
    SentArePrimesIff(A, B);
    OutputIsPrefix(s);
    OutputLength(s);
    CounterBound(s);
  }

  // ---------------------------------------------------------------- lost wakeups

  /** The main thread has not returned, and nothing but a spurious wakeup can move either thread. */
  predicate Stuck(s: State) {
    !s.consumer.Returned? && !Enabled(s, Producer) && !Enabled(s, Consumer)
  }

  predicate GetsStuck(A: nat, B: nat, N: nat, capacity: nat, schedule: seq<Actor>) {
    ValidRun(Init(A, B, N, capacity), schedule) && Stuck(Exec(Init(A, B, N, capacity), schedule))
  }

  /** The statements that the producer has still to run. */
  function ProducerRemaining(s: State): nat {
    (if s.a <= s.B then 6 * (s.B + 1 - s.a) else 0)
    + match s.producer
      case Next => 6
      case Send => 5
      case LoadUp => 4
      case StoreUp(_) => 3
      case Signal => 2
      case Finished => 0
  }

  /** While the main thread is about to sleep, the producer runs until it finishes or the pipe is full. */
  lemma {:induction false} ProducerAlone(s: State) returns (schedule: seq<Actor>)
    requires s.consumer.Wait? && (!s.producer.Next? ==> s.a <= s.B)
    ensures ValidRun(s, schedule)
    ensures var s' := Exec(s, schedule); s'.consumer.Wait? && !Enabled(s', Producer)
    decreases ProducerRemaining(s)
  {
    if !Enabled(s, Producer) {
      schedule := [];
    } else {
      var s1 := ProducerStep(s);
      if s1.producer.Finished? {
        schedule := [Producer];
        assert schedule[1..] == [];
      } else {
        var rest := ProducerAlone(s1);
        schedule := [Producer] + rest;
        assert schedule[1..] == rest;
      }
    }
  }

  lemma {:induction false} ExecAppend(s: State, schedule: seq<Actor>, actor: Actor)
    requires ValidRun(s, schedule) && Enabled(Exec(s, schedule), actor)
    ensures ValidRun(s, schedule + [actor])
    ensures Exec(s, schedule + [actor]) == Step(Exec(s, schedule), actor)
    decreases |schedule|
  {
    if schedule == [] {
      assert ([] + [actor])[1..] == [];
    } else {
      ExecAppend(Step(s, schedule[0]), schedule[1..], actor);
      assert (schedule + [actor])[1..] == schedule[1..] + [actor];
    }
  }

  /** If anything is to be printed at all, some interleaving leaves the main thread asleep for good: it
      sees `ready` at 0, every signal is sent before it sleeps, and none comes after. */
  lemma LostWakeup(A: nat, B: nat, N: nat, capacity: nat) returns (schedule: seq<Actor>)
    requires 0 < N
    ensures GetsStuck(A, B, N, capacity, schedule)
  {
    var s0 := Init(A, B, N, capacity);
    var s2 := ConsumerStep(ConsumerStep(s0));
    var run := ProducerAlone(s2);
    var s3 := Exec(s2, run);
    ExecAppend(s2, run, Consumer);
    var tail := run + [Consumer];
    schedule := [Consumer, Consumer] + tail;
    assert schedule[1..] == [Consumer] + tail;
    assert schedule[1..][1..] == tail;
    assert ValidRun(ConsumerStep(s0), [Consumer] + tail);
    assert Stuck(ConsumerStep(s3));
  }

  /** The main thread is sure to be able to go on in every interleaving exactly when it has nothing to
      print. */
  lemma NeverStuckIff(A: nat, B: nat, N: nat, capacity: nat)
    ensures (forall schedule :: !GetsStuck(A, B, N, capacity, schedule)) <==> N == 0
  {
    if N == 0 {
      forall schedule | ValidRun(Init(A, B, N, capacity), schedule)
        ensures !GetsStuck(A, B, N, capacity, schedule) {
        assert Passing(Start(A), Start(A)) == [];
        RunInv(Init(A, B, N, capacity), schedule);
      }
    } else {
      var schedule := LostWakeup(A, B, N, capacity);
    }
  }

  // ---------------------------------------------------------------- runs that return

  predicate Returns(A: nat, B: nat, N: nat, capacity: nat, schedule: seq<Actor>) {
    ValidRun(Init(A, B, N, capacity), schedule) && Exec(Init(A, B, N, capacity), schedule).consumer.Returned?
  }

  /** The schedules that take `s` to `s'`. */
  predicate Reaches(s: State, schedule: seq<Actor>, s': State) {
    ValidRun(s, schedule) && Exec(s, schedule) == s'
  }

  lemma Continue(s: State, schedule: seq<Actor>, s1: State, actor: Actor) returns (longer: seq<Actor>)
    requires Reaches(s, schedule, s1) && Enabled(s1, actor)
    ensures Reaches(s, longer, Step(s1, actor))
  {
    ExecAppend(s, schedule, actor);
    longer := schedule + [actor];
  }

  /** The producer comes to the next number to send. */
  lemma {:induction false} FindNext(s: State, schedule0: seq<Actor>, s1: State)
    returns (schedule: seq<Actor>, a: nat)
    requires Reaches(s, schedule0, s1) && s1.producer.Next? && Start(s1.A) <= s1.a
    requires |Passing(Start(s1.A), s1.a)| < |Passing(Start(s1.A), s1.B + 1)|
    ensures s1.a <= a <= s1.B && Passes(a) && Passing(Start(s1.A), a) == Passing(Start(s1.A), s1.a)
    ensures Reaches(s, schedule, s1.(a := a, producer := Send))
    decreases s1.B + 1 - s1.a
  {
    if s1.B < s1.a {
      PassingPrefix(Start(s1.A), s1.B + 1, s1.a);
      assert false;
    }
    schedule := Continue(s, schedule0, s1, Producer);
    a := s1.a;
    if !Passes(s1.a) {
      PassingNext(Start(s1.A), s1.a);
      schedule, a := FindNext(s, schedule, s1.(a := s1.a + 1));
    }
  }

  /** The producer sends one number while the main thread is about to test its loop. */
  lemma SendOne(s: State, schedule0: seq<Actor>, s1: State) returns (schedule: seq<Actor>)
    requires Reaches(s, schedule0, s1) && s1.producer.Send? && s1.consumer.For? && |s1.pipe| < s1.capacity
    ensures Reaches(s, schedule, s1.(pipe := s1.pipe + [s1.a], ready := s1.ready + 1, a := s1.a + 1, producer := Next))
  {
    schedule := Continue(s, schedule0, s1, Producer);
    var s2 := ProducerStep(s1);
    schedule := Continue(s, schedule, s2, Producer);
    var s3 := ProducerStep(s2);
    schedule := Continue(s, schedule, s3, Producer);
    schedule := Continue(s, schedule, ProducerStep(s3), Producer);
  }

  /** The main thread takes and prints it. */
  lemma TakeOne(s: State, schedule0: seq<Actor>, s1: State) returns (schedule: seq<Actor>)
    requires Reaches(s, schedule0, s1) && s1.consumer.For? && s1.i < s1.N && s1.ready != 0 && s1.pipe != []
    ensures Reaches(s, schedule, s1.(pipe := s1.pipe[1..], ready := s1.ready - 1, i := s1.i + 1,
                                     out := s1.out + [s1.pipe[0]]))
  {
    schedule := Continue(s, schedule0, s1, Consumer);
    var s2 := ConsumerStep(s1);
    schedule := Continue(s, schedule, s2, Consumer);
    var s3 := ConsumerStep(s2);
    schedule := Continue(s, schedule, s3, Consumer);
    var s4 := ConsumerStep(s3);
    schedule := Continue(s, schedule, s4, Consumer);
    var s5 := ConsumerStep(s4);
    schedule := Continue(s, schedule, s5, Consumer);
    schedule := Continue(s, schedule, ConsumerStep(s5), Consumer);
  }

  /** Both threads are between two numbers, and everything sent has been printed. */
  ghost predicate AtRest(s: State) {
    && s.producer.Next? && s.consumer.For? && s.ready == 0 && s.pipe == []
    && Start(s.A) <= s.a && |Passing(Start(s.A), s.a)| == s.i <= s.N
  }

  lemma OneRound(s: State, schedule0: seq<Actor>, s1: State) returns (schedule: seq<Actor>, s2: State)
    requires Reaches(s, schedule0, s1) && AtRest(s1) && 0 < s1.capacity
    requires s1.i < s1.N && s1.i < |Passing(Start(s1.A), s1.B + 1)|
    ensures Reaches(s, schedule, s2) && AtRest(s2) && s2.i == s1.i + 1
    ensures s2.A == s1.A && s2.B == s1.B && s2.N == s1.N && s2.capacity == s1.capacity
  {
    var a;
    schedule, a := FindNext(s, schedule0, s1);
    s2 := s1.(a := a, producer := Send);
    schedule := SendOne(s, schedule, s2);
    s2 := s2.(pipe := s2.pipe + [a], ready := s2.ready + 1, a := a + 1, producer := Next);
    schedule := TakeOne(s, schedule, s2);
    s2 := s2.(pipe := s2.pipe[1..], ready := s2.ready - 1, i := s2.i + 1, out := s2.out + [s2.pipe[0]]);
    PassingNext(Start(s1.A), a);
  }

  /** Number by number, the rest is sent, taken and printed. */
  lemma {:induction false} ReturningRun(s: State, schedule0: seq<Actor>, s1: State) returns (schedule: seq<Actor>)
    requires Reaches(s, schedule0, s1) && AtRest(s1) && (s1.i < s1.N ==> 0 < s1.capacity)
    requires s1.N <= |Passing(Start(s1.A), s1.B + 1)|
    ensures ValidRun(s, schedule) && Exec(s, schedule).consumer.Returned?
    decreases s1.N - s1.i
  {
    if s1.i == s1.N {
      schedule := Continue(s, schedule0, s1, Consumer);
    } else {
      var s2;
      schedule, s2 := OneRound(s, schedule0, s1);
      schedule := ReturningRun(s, schedule, s2);
    }
  }

  /** Through a pipe that holds nothing, nothing is ever sent. */
  lemma {:induction false} NothingThrough(s: State, schedule: seq<Actor>)
    requires Inv(s) && ValidRun(s, schedule) && s.capacity == 0 && SentList(s) == []
    ensures SentList(Exec(s, schedule)) == []
    decreases |schedule|
  {
    if schedule != [] {
      StepInv(s, schedule[0]);
      PassingNext(Start(s.A), s.a);
      NothingThrough(Step(s, schedule[0]), schedule[1..]);
    }
  }

  lemma ReturnedSpec(s0: State, schedule: seq<Actor>)
    requires Inv(s0) && ValidRun(s0, schedule) && Exec(s0, schedule).consumer.Returned? && SentList(s0) == []
    ensures s0.N <= |Passing(Start(s0.A), s0.B + 1)| && (s0.N == 0 || 0 < s0.capacity)
  {
    RunInv(s0, schedule);
    var s := Exec(s0, schedule);
    if s0.capacity == 0 {
      NothingThrough(s0, schedule);
    }
    SentIsPrefix(s);
    assert |SentList(s)| == |s.out + InHand(s) + s.pipe|;
  }

  /** Some interleaving lets the main thread return exactly if there are as many numbers to send as it
      waits for, and room in the pipe for one. */
  lemma ReturnsIff(A: nat, B: nat, N: nat, capacity: nat)
    ensures (exists schedule :: Returns(A, B, N, capacity, schedule))
            <==> N <= |Passing(Start(A), B + 1)| && (N == 0 || 0 < capacity)
  {
    var s0 := Init(A, B, N, capacity);
    assert Passing(Start(A), Start(A)) == [];
    if N <= |Passing(Start(A), B + 1)| && (N == 0 || 0 < capacity) {
      assert Reaches(s0, [], s0);
      var schedule := ReturningRun(s0, [], s0);
      assert Returns(A, B, N, capacity, schedule);
    }
    forall schedule | Returns(A, B, N, capacity, schedule)
      ensures N <= |Passing(Start(A), B + 1)| && (N == 0 || 0 < capacity) {
      ReturnedSpec(s0, schedule);
    }
  }

  // ---------------------------------------------------------------- sleeping and waking

  lemma {:induction false} RunPrefix(s: State, schedule: seq<Actor>)
    requires ValidRun(s, schedule) && schedule != []
    ensures var k := |schedule| - 1;
            && ValidRun(s, schedule[..k]) && Enabled(Exec(s, schedule[..k]), schedule[k])
            && Exec(s, schedule) == Step(Exec(s, schedule[..k]), schedule[k])
    decreases |schedule|
  {
    var k := |schedule| - 1;
    if k == 0 {
      assert schedule[1..] == [];
    } else {
      RunPrefix(Step(s, schedule[0]), schedule[1..]);
      assert schedule[1..][..k - 1] == schedule[..k][1..];
    }
  }

  /** After `m` steps of the schedule main is asleep and the next statement of the producer is no signal. */
  predicate SleepsUnsignalled(s: State, schedule: seq<Actor>, m: nat)
    requires m <= |schedule|
  {
    ValidRun(s, schedule[..m])
    && var s' := Exec(s, schedule[..m]); s'.consumer.Asleep? && !s'.producer.Signal?
  }

  /** A main thread that is asleep at the end of a run fell asleep at some step, and since then only the
      producer has stepped, and it has not signalled. */
  lemma {:induction false} AsleepSince(s: State, schedule: seq<Actor>) returns (n: nat)
    requires ValidRun(s, schedule) && !s.consumer.Asleep? && Exec(s, schedule).consumer.Asleep?
    ensures n < |schedule| && schedule[n] == Consumer
    ensures ValidRun(s, schedule[..n]) && Exec(s, schedule[..n]).consumer.Wait?
    ensures forall m :: n < m < |schedule| ==> schedule[m] == Producer && SleepsUnsignalled(s, schedule, m)
    decreases |schedule|
  {
    var k := |schedule| - 1;
    RunPrefix(s, schedule);
    var s1 := Exec(s, schedule[..k]);
    if s1.consumer.Asleep? {
      n := AsleepSince(s, schedule[..k]);
      forall m | n < m < |schedule| ensures schedule[m] == Producer && SleepsUnsignalled(s, schedule, m) {
        if m < k {
          assert schedule[..k][m] == Producer && SleepsUnsignalled(s, schedule[..k], m);
          assert schedule[..k][..m] == schedule[..m];
        }
      }
      assert schedule[..k][..n] == schedule[..n];
    } else {
      n := k;
    }
  }

  /** The producer can run on to its next signal: it is past its write, or has a number to write and room
      for it. */
  ghost predicate CanSignal(s: State) {
    match s.producer
    case Next => |s.pipe| < s.capacity && |Passing(Start(s.A), s.a)| < |Passing(Start(s.A), s.B + 1)|
    case Send => |s.pipe| < s.capacity
    case Finished => false
    case _ => true
  }

  function Producers(n: nat): seq<Actor> { seq(n, _ => Producer) }

  /** Running the producer alone for `n` steps wakes main. */
  predicate WakesAfter(s: State, n: nat) {
    ValidRun(s, Producers(n)) && !Exec(s, Producers(n)).consumer.Asleep?
  }

  lemma ProducersFirst(s: State, n: nat)
    requires 0 < n
    ensures Producers(n)[0] == Producer && Producers(n)[1..] == Producers(n - 1)
  {
  }

  lemma NoneBeyond(s: State)
    ensures s.B < s.a ==> |Passing(Start(s.A), s.B + 1)| <= |Passing(Start(s.A), s.a)|
  {
    if s.B < s.a {
      PassingPrefix(Start(s.A), s.B + 1, s.a);
    }
  }

  lemma CanSignalStep(s: State)
    requires Inv(s) && CanSignal(s) && !s.producer.Signal?
    ensures Enabled(s, Producer) && CanSignal(ProducerStep(s))
    ensures ProducerRemaining(ProducerStep(s)) < ProducerRemaining(s)
  {
    PassingNext(Start(s.A), s.a);
    NoneBeyond(s);
  }

  /** The producer alone comes to its next signal, which wakes main; main then finds `ready` above 0,
      except where the producer was about to signal already and `ready` is 0 again. */
  lemma {:induction false} SignalWakes(s: State) returns (n: nat)
    requires Inv(s) && s.consumer.Asleep? && CanSignal(s)
    ensures WakesAfter(s, n)
    ensures var s' := Exec(s, Producers(n));
            && s'.consumer.Check?
            && (ConsumerStep(s').consumer.LoadDown? <==> !(s.producer.Signal? && s.ready == 0))
    decreases ProducerRemaining(s)
  {
    if s.producer.Signal? {
      n := 1;
      ProducersFirst(s, 1);
      assert Producers(0) == [];
    } else {
      CanSignalStep(s);
      StepInv(s, Producer);
      var s1 := ProducerStep(s);
      var rest := SignalWakes(s1);
      n := rest + 1;
      ProducersFirst(s, n);
    }
  }

  lemma NextPassesLater(s: State)
    requires Inv(s) && !CanSignal(s) && Enabled(s, Producer)
    ensures !CanSignal(ProducerStep(s))
  {
    PassingNext(Start(s.A), s.a);
    if s.a <= s.B && Passes(s.a) {
      PassingPrefix(Start(s.A), s.a + 1, s.B + 1);
    }
  }

  lemma {:induction false} SleepsOn(s: State, n: nat)
    requires Inv(s) && s.consumer.Asleep? && !CanSignal(s) && ValidRun(s, Producers(n))
    ensures Exec(s, Producers(n)).consumer.Asleep?
    decreases n
  {
    if n != 0 {
      ProducersFirst(s, n);
      StepInv(s, Producer);
      PassingNext(Start(s.A), s.a);
      NextPassesLater(s);
      SleepsOn(ProducerStep(s), n - 1);
    }
  }

  /** The producer alone wakes a sleeping main thread if and only if it can come to a signal. */
  lemma WakesIff(s: State)
    requires Inv(s) && s.consumer.Asleep?
    ensures (exists n :: WakesAfter(s, n)) <==> CanSignal(s)
  {
    if CanSignal(s) {
      var n := SignalWakes(s);
    } else {
      forall n | ValidRun(s, Producers(n)) ensures !WakesAfter(s, n) {
        SleepsOn(s, n);
      }
    }
  }

  /** The exception in `SignalWakes` is reached: main takes the number and sleeps again before its signal
      is sent. */
  lemma LateSignal(A: nat, B: nat, N: nat, capacity: nat) returns (schedule: seq<Actor>)
    requires 0 < |Passing(Start(A), B + 1)| && 2 <= N && 0 < capacity
    ensures ValidRun(Init(A, B, N, capacity), schedule)
    ensures var s := Exec(Init(A, B, N, capacity), schedule);
            s.consumer.Asleep? && s.producer.Signal? && s.ready == 0
  {
    var s0 := Init(A, B, N, capacity);
    assert Passing(Start(A), Start(A)) == [];
    assert Reaches(s0, [], s0);
    var a;
    schedule, a := FindNext(s0, [], s0);
    var s1 := s0.(a := a, producer := Send);
    schedule := Continue(s0, schedule, s1, Producer);
    var s2 := ProducerStep(s1);
    schedule := Continue(s0, schedule, s2, Producer);
    var s3 := ProducerStep(s2);
    schedule := Continue(s0, schedule, s3, Producer);
    var s4 := ProducerStep(s3);
    schedule := TakeOne(s0, schedule, s4);
    var s5 := s4.(pipe := s4.pipe[1..], ready := s4.ready - 1, i := s4.i + 1, out := s4.out + [s4.pipe[0]]);
    schedule := Continue(s0, schedule, s5, Consumer);
    var s6 := ConsumerStep(s5);
    schedule := Continue(s0, schedule, s6, Consumer);
    schedule := Continue(s0, schedule, ConsumerStep(s6), Consumer);
  }

  /** A wakeup that no signal caused does no harm: main tests `ready`, and takes a number or is asleep again
      as if nothing had happened. */
  lemma SpuriousWakeup(s: State)
    requires Enabled(s, Spurious)
    ensures s.ready != 0 ==> ValidRun(s, [Spurious, Consumer])
                             && Exec(s, [Spurious, Consumer]) == s.(consumer := LoadDown)
    ensures s.ready == 0 ==> ValidRun(s, [Spurious, Consumer, Consumer])
                             && Exec(s, [Spurious, Consumer, Consumer]) == s
  {
    ExecAppend(s, [], Spurious);
    ExecAppend(s, [Spurious], Consumer);
    assert [] + [Spurious] == [Spurious] && [Spurious] + [Consumer] == [Spurious, Consumer];
    if s.ready == 0 {
      ExecAppend(s, [Spurious, Consumer], Consumer);
      assert [Spurious, Consumer] + [Consumer] == [Spurious, Consumer, Consumer];
    }
  }

  // ---------------------------------------------------------------- how a run gets stuck

  /** Main is blocked in a read of an empty pipe that nobody will write to: it has printed all that there
      was to print, and wants more. */
  ghost predicate Starved(s: State) {
    && s.consumer.Read? && s.pipe == [] && s.producer.Finished?
    && s.out == Passing(Start(s.A), s.B + 1) && |s.out| < s.N
  }

  /** A stuck run has main asleep with no signal to come, or starved. */
  lemma StuckShape(A: nat, B: nat, N: nat, capacity: nat, schedule: seq<Actor>)
    requires GetsStuck(A, B, N, capacity, schedule)
    ensures var s := Exec(Init(A, B, N, capacity), schedule);
            Inv(s) && (Starved(s) || (s.consumer.Asleep? && !CanSignal(s)))
  {
    var s0 := Init(A, B, N, capacity);
    var s := Exec(s0, schedule);
    assert Passing(Start(A), Start(A)) == [];
    RunInv(s0, schedule);
    if s.consumer.Read? {
      if s.capacity == 0 {
        NothingThrough(s0, schedule);
        PassingNext(Start(s.A), s.a);
      }
      SentIsPrefix(s);
      assert s.out + InHand(s) + s.pipe == s.out;
    }
  }

  /** The increments and decrements of `ready` made so far. */
  function Ups(s: State): nat { |Passing(Start(s.A), s.a)| + if s.producer.Signal? then 1 else 0 }

  function Downs(s: State): nat { s.i + if s.consumer.Read? || s.consumer.Print? then 1 else 0 }

  /** No update of `ready` has been lost so far. */
  ghost predicate CounterExact(s: State) {
    && s.ready == Ups(s) - Downs(s)
    && (s.producer.StoreUp? ==> s.producer.tmp == s.ready)
    && (s.consumer.StoreDown? ==> s.consumer.tmp == s.ready)
  }

  /** The two threads can be in the middle of their updates of `ready` together. */
  ghost predicate CanRace(A: nat, B: nat, capacity: nat) { 2 <= |Passing(Start(A), B + 1)| && 2 <= capacity }

  lemma NoRace(s: State)
    requires Inv(s) && CounterExact(s) && !CanRace(s.A, s.B, s.capacity)
    requires s.consumer.LoadDown? || s.consumer.StoreDown?
    ensures !s.producer.LoadUp? && !s.producer.StoreUp?
  {
    SentIsPrefix(s);
    PassingNext(Start(s.A), s.a);
    assert |s.out + InHand(s) + s.pipe| == |SentList(s)|;
  }

  lemma ProducerExact(s: State)
    requires PipeInv(s) && CounterExact(s) && Enabled(s, Producer)
    requires s.consumer.StoreDown? ==> !s.producer.LoadUp? && !s.producer.StoreUp?
    ensures CounterExact(ProducerStep(s))
  {
    PassingNext(Start(s.A), s.a);
  }

  lemma ConsumerExact(s: State)
    requires CounterExact(s) && Enabled(s, Consumer)
    requires s.consumer.StoreDown? ==> !s.producer.StoreUp?
    ensures CounterExact(ConsumerStep(s))
  {
  }

  lemma StepCounterExact(s: State, actor: Actor)
    requires Inv(s) && CounterExact(s) && Enabled(s, actor) && !CanRace(s.A, s.B, s.capacity)
    ensures CounterExact(Step(s, actor))
  {
    if s.consumer.LoadDown? || s.consumer.StoreDown? {
      NoRace(s);
    }
    match actor
    case Producer => ProducerExact(s);
    case Consumer => ConsumerExact(s);
    case Spurious =>
  }

  lemma {:induction false} RunCounterExact(s: State, schedule: seq<Actor>)
    requires Inv(s) && CounterExact(s) && ValidRun(s, schedule) && !CanRace(s.A, s.B, s.capacity)
    ensures CounterExact(Exec(s, schedule))
    decreases |schedule|
  {
    if schedule != [] {
      StepInv(s, schedule[0]);
      StepCounterExact(s, schedule[0]);
      RunCounterExact(Step(s, schedule[0]), schedule[1..]);
    }
  }

  lemma ExactNeverStarves(s: State)
    requires Inv(s) && CounterExact(s)
    ensures !Starved(s)
  {
    if Starved(s) {
      SentIsPrefix(s);
    }
  }

  lemma {:induction false} RoundsTo(s: State, schedule0: seq<Actor>, s1: State, i: nat)
    returns (schedule: seq<Actor>, s2: State)
    requires Reaches(s, schedule0, s1) && AtRest(s1) && 0 < s1.capacity
    requires s1.i <= i <= s1.N && i <= |Passing(Start(s1.A), s1.B + 1)|
    ensures Reaches(s, schedule, s2) && AtRest(s2) && s2.i == i
    ensures s2.A == s1.A && s2.B == s1.B && s2.N == s1.N && s2.capacity == s1.capacity
    decreases i - s1.i
  {
    schedule, s2 := schedule0, s1;
    if s1.i < i {
      schedule, s2 := OneRound(s, schedule0, s1);
      schedule, s2 := RoundsTo(s, schedule, s2, i);
    }
  }

  /** With nothing more to send the producer comes to its end. */
  lemma {:induction false} RunOut(s: State, schedule0: seq<Actor>, s1: State) returns (schedule: seq<Actor>, a: nat)
    requires Reaches(s, schedule0, s1) && s1.producer.Next? && Start(s1.A) <= s1.a
    requires |Passing(Start(s1.A), s1.B + 1)| <= |Passing(Start(s1.A), s1.a)|
    ensures Reaches(s, schedule, s1.(a := a, producer := Finished))
    decreases s1.B + 1 - s1.a
  {
    schedule := Continue(s, schedule0, s1, Producer);
    a := s1.a;
    if s1.a <= s1.B {
      PassingNext(Start(s1.A), s1.a);
      PassingPrefix(Start(s1.A), s1.a + 1, s1.B + 1);
      schedule, a := RunOut(s, schedule, s1.(a := s1.a + 1));
    }
  }

  /** A decrement of main falls between the load and the store of an increment, and is lost. */
  lemma LostDecrement(s: State, schedule0: seq<Actor>, s1: State) returns (schedule: seq<Actor>)
    requires Reaches(s, schedule0, s1) && s1.producer.LoadUp? && s1.consumer.For? && s1.i < s1.N && s1.ready == 1
    ensures Reaches(s, schedule, s1.(a := s1.a + 1, producer := Next, consumer := Read, ready := 2))
  {
    schedule := Continue(s, schedule0, s1, Producer);
    var s2 := ProducerStep(s1);
    schedule := Continue(s, schedule, s2, Consumer);
    var s3 := ConsumerStep(s2);
    schedule := Continue(s, schedule, s3, Consumer);
    var s4 := ConsumerStep(s3);
    schedule := Continue(s, schedule, s4, Consumer);
    var s5 := ConsumerStep(s4);
    schedule := Continue(s, schedule, s5, Consumer);
    var s6 := ConsumerStep(s5);
    schedule := Continue(s, schedule, s6, Producer);
    schedule := Continue(s, schedule, ProducerStep(s6), Producer);
  }

  /** Main reads and prints one number, takes another, and passes its test once more. */
  lemma ReadTwiceAndTest(s: State, schedule0: seq<Actor>, s1: State) returns (schedule: seq<Actor>)
    requires Reaches(s, schedule0, s1) && s1.consumer.Read? && s1.ready == 2 && |s1.pipe| == 2
    requires s1.i + 2 < s1.N
    ensures Reaches(s, schedule, s1.(pipe := [], ready := 0, i := s1.i + 2, out := s1.out + s1.pipe))
  {
    schedule := Continue(s, schedule0, s1, Consumer);
    var s2 := ConsumerStep(s1);
    schedule := Continue(s, schedule, s2, Consumer);
    var s3 := ConsumerStep(s2);
    schedule := TakeOne(s, schedule, s3);
    var s4 := s3.(pipe := s3.pipe[1..], ready := s3.ready - 1, i := s3.i + 1, out := s3.out + [s3.pipe[0]]);
    assert s1.pipe == [s1.pipe[0], s1.pipe[1]];
    schedule := Continue(s, schedule, s4, Consumer);
    var s5 := ConsumerStep(s4);
    schedule := Continue(s, schedule, s5, Consumer);
    var s6 := ConsumerStep(s5);
    schedule := Continue(s, schedule, s6, Consumer);
    schedule := Continue(s, schedule, ConsumerStep(s6), Consumer);
    assert s1.out + [s1.pipe[0]] + [s1.pipe[1]] == s1.out + s1.pipe;
  }

  /** A run that ends starved. */
  lemma StarvingRun(A: nat, B: nat, N: nat, capacity: nat) returns (schedule: seq<Actor>)
    requires CanRace(A, B, capacity) && |Passing(Start(A), B + 1)| < N
    ensures GetsStuck(A, B, N, capacity, schedule)
    ensures Exec(Init(A, B, N, capacity), schedule).consumer.Read?
  {
    var s := Init(A, B, N, capacity);
    assert Passing(Start(A), Start(A)) == [];
    assert Reaches(s, [], s);
    var s1, a;
    schedule, s1 := RoundsTo(s, [], s, |Passing(Start(A), B + 1)| - 2);
    schedule, a := FindNext(s, schedule, s1);
    s1 := s1.(a := a, producer := Send);
    schedule := SendOne(s, schedule, s1);
    s1 := s1.(pipe := [a], ready := 1, a := a + 1, producer := Next);
    PassingNext(Start(A), a);
    schedule, a := FindNext(s, schedule, s1);
    s1 := s1.(a := a, producer := Send);
    schedule := Continue(s, schedule, s1, Producer);
    s1 := ProducerStep(s1);
    schedule := LostDecrement(s, schedule, s1);
    s1 := s1.(a := s1.a + 1, producer := Next, consumer := Read, ready := 2);
    PassingNext(Start(A), a);
    schedule, a := RunOut(s, schedule, s1);
    s1 := s1.(a := a, producer := Finished);
    schedule := ReadTwiceAndTest(s, schedule, s1);
  }

  lemma StuckIsAsleep(A: nat, B: nat, N: nat, capacity: nat, schedule: seq<Actor>)
    requires GetsStuck(A, B, N, capacity, schedule)
    requires N <= |Passing(Start(A), B + 1)| || !CanRace(A, B, capacity)
    ensures Exec(Init(A, B, N, capacity), schedule).consumer.Asleep?
  {
    var s0 := Init(A, B, N, capacity);
    var s := Exec(s0, schedule);
    StuckShape(A, B, N, capacity, schedule);
    assert Passing(Start(A), Start(A)) == [];
    RunInv(s0, schedule);
    if !CanRace(A, B, capacity) {
      RunCounterExact(s0, schedule);
      ExactNeverStarves(s);
    }
  }

  /** Every stuck run has main asleep, if and only if there is no schedule that loses a decrement and leaves
      main to read more numbers than there are. */
  lemma StuckAsleepIff(A: nat, B: nat, N: nat, capacity: nat)
    ensures (forall schedule :: GetsStuck(A, B, N, capacity, schedule) ==>
               Exec(Init(A, B, N, capacity), schedule).consumer.Asleep?)
            <==> !(2 <= |Passing(Start(A), B + 1)| < N && 2 <= capacity)
  {
    if 2 <= |Passing(Start(A), B + 1)| < N && 2 <= capacity {
      var schedule := StarvingRun(A, B, N, capacity);
    } else {
      forall schedule | GetsStuck(A, B, N, capacity, schedule)
        ensures Exec(Init(A, B, N, capacity), schedule).consumer.Asleep? {
        StuckIsAsleep(A, B, N, capacity, schedule);
      }
    }
  }

  // ---------------------------------------------------------------- the program

  /** The variables that the two threads change in place. */
  class Session {
    const A: nat
    const B: nat
    const N: nat
    const capacity: nat
    var a: nat
    var i: nat
    var ready: int
    var pipe: seq<nat>
    var out: seq<nat>
    var producer: ProducerPc
    var consumer: ConsumerPc

    ghost function View(): State
      reads this
    {
      State(A, B, N, capacity, a, i, ready, pipe, out, producer, consumer)
    }

    constructor (A: nat, B: nat, N: nat, capacity: nat)
      ensures View() == Init(A, B, N, capacity)
    {
      this.A, this.B, this.N, this.capacity := A, B, N, capacity;
      a := if A == 1 then 2 else A;
      i, ready, pipe, out := 0, 0, [], [];
      producer, consumer := Next, For;
    }

    method Produce()
      requires Enabled(View(), Producer) && B < LIMIT
      modifies this
      ensures View() == ProducerStep(old(View()))
    {
      match producer
      case Next =>
        if B < a {
          producer := Finished;
        } else {
          var flag := TrialDivision(a as uint64);
          if flag != 0 {
            producer := Send;
          } else {
            a := a + 1;
          }
        }
      case Send =>
        pipe := pipe + [a];
        producer := LoadUp;
      case LoadUp =>
        producer := StoreUp(ready);
      case StoreUp(tmp) =>
        ready := tmp + 1;
        producer := Signal;
      case Signal =>
        if consumer == Asleep {
          consumer := Check;
        }
        a := a + 1;
        producer := Next;
    }

    method Consume()
      requires Enabled(View(), Consumer)
      modifies this
      ensures View() == ConsumerStep(old(View()))
    {
      match consumer
      case For =>
        consumer := if i < N then Check else Returned;
      case Check =>
        consumer := if ready == 0 then Wait else LoadDown;
      case Wait =>
        consumer := Asleep;
      case LoadDown =>
        consumer := StoreDown(ready);
      case StoreDown(tmp) =>
        ready := tmp - 1;
        consumer := Read;
      case Read =>
        consumer := Print(pipe[0]);
        pipe := pipe[1..];
      case Print(value) =>
        out := out + [value];
        i := i + 1;
        consumer := For;
    }

    /** Lets the threads step in the order of `schedule`. */
    method Run(schedule: seq<Actor>)
      requires B < LIMIT && ValidRun(View(), schedule)
      modifies this
      ensures View() == Exec(old(View()), schedule)
    {
      for n := 0 to |schedule|
        invariant ValidRun(View(), schedule[n..])
        invariant Exec(View(), schedule[n..]) == Exec(old(View()), schedule)
      {
        ghost var rest := schedule[n..];
        assert rest[0] == schedule[n] && rest[1..] == schedule[n + 1..];
        match schedule[n]
        case Producer => Produce();
        case Consumer => Consume();
        case Spurious => consumer := Check;
      }
    }
  }

  /** A session under any schedule prints primes of [A, B] only, from the first on. */
  method RunSession(A: nat, B: nat, N: nat, capacity: nat, schedule: seq<Actor>) returns (out: seq<nat>)
    requires 1 <= A && B < LIMIT && ValidRun(Init(A, B, N, capacity), schedule)
    ensures out == Exec(Init(A, B, N, capacity), schedule).out
    ensures out <= Primes(A, B + 1) && |out| <= N
  {
    var session := new Session(A, B, N, capacity);
    session.Run(schedule);
    OutputIsPrimes(A, B, N, capacity, schedule);
    out := session.out;
  }
}
