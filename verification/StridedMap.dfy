/** The parallel map of inf20-1/main.c: `N` child processes fill a shared array with stride `N`, each posts
    a semaphore when it is through, and the parent waits on it `N` times. */
module StridedMap {
  import opened Sums

  /** `next` is every child's `j`, `writes` counts the stores into every element. */
  datatype State = State(input: seq<int>, result: seq<int>, next: seq<nat>, posted: seq<bool>,
                         semaphore: nat, waited: nat, writes: seq<nat>)

  datatype Actor = Child(i: nat) | Parent

  ghost predicate Shaped(s: State) {
    |s.result| == |s.input| && |s.writes| == |s.input| && 0 < |s.next| == |s.posted|
  }

  function Init(input: seq<int>, N: nat): State {
    State(input, seq(|input|, _ => 0), seq(N, i requires 0 <= i < N => i), seq(N, _ => false), 0, 0,
          seq(|input|, _ => 0))
  }

  ghost predicate Enabled(s: State, actor: Actor)
    requires Shaped(s)
  {
    match actor
    case Child(i) => i < |s.next| && !s.posted[i]
    case Parent => s.waited < |s.next| && 0 < s.semaphore
  }

  ghost function Step(s: State, func: int -> int, actor: Actor): (s': State)
    requires Shaped(s) && Enabled(s, actor)
    ensures Shaped(s') && s'.input == s.input && |s'.next| == |s.next|
  {
    match actor
    case Child(i) =>
      var j := s.next[i];
      if j < |s.input| then
        s.(result := s.result[j := func(s.input[j])], writes := s.writes[j := s.writes[j] + 1],
           next := s.next[i := j + |s.next|])
      else
        s.(posted := s.posted[i := true], semaphore := s.semaphore + 1)
    case Parent => s.(semaphore := s.semaphore - 1, waited := s.waited + 1)
  }

  ghost predicate ValidRun(s: State, func: int -> int, schedule: seq<Actor>)
    requires Shaped(s)
    decreases |schedule|
  {
    schedule == [] || (Enabled(s, schedule[0]) && ValidRun(Step(s, func, schedule[0]), func, schedule[1..]))
  }

  ghost function Exec(s: State, func: int -> int, schedule: seq<Actor>): (s': State)
    requires Shaped(s) && ValidRun(s, func, schedule)
    ensures Shaped(s') && s'.input == s.input && |s'.next| == |s.next|
    decreases |schedule|
  {
    if schedule == [] then s else Exec(Step(s, func, schedule[0]), func, schedule[1..])
  }

  // ---------------------------------------------------------------- what every step keeps

  /** The child that is to write element `x`. */
  function Owner(x: nat, N: nat): (i: nat)
    requires 0 < N
    ensures i < N
  {
    x % N
  }

  lemma OwnerOfNext(j: nat, N: nat)
    requires 0 < N
    ensures Owner(j + N, N) == Owner(j, N)
  {
    var p, q := (j + N) / N, j / N;
    assert N * (p - q) == N + Owner(j, N) - Owner(j + N, N);
    FarMultiple(N, p - q - 1);
    assert N * (p - q - 1) == Owner(j, N) - Owner(j + N, N);
  }

  /** Between `j` and `j + N` only `j` has the same owner. */
  lemma StrideGap(x: nat, j: nat, N: nat)
    requires 0 < N && Owner(x, N) == Owner(j, N) && j <= x < j + N
    ensures x == j
  {
    var q := x / N - j / N;
    assert x - j == N * q;
    FarMultiple(N, q);
  }

  ghost predicate Element(s: State, func: int -> int, x: nat)
    requires Shaped(s) && x < |s.input|
  {
    if x < s.next[Owner(x, |s.next|)] then s.writes[x] == 1 && s.result[x] == func(s.input[x])
    else s.writes[x] == 0
  }

  /** An element is written, once and by its owner, exactly when its owner has come past it. */
  ghost predicate WritesInv(s: State, func: int -> int)
    requires Shaped(s)
  {
    && (forall i :: 0 <= i < |s.next| ==> Owner(s.next[i], |s.next|) == i)
    && forall x :: 0 <= x < |s.input| ==> Element(s, func, x)
  }

  function Posts(posted: seq<bool>): (r: seq<nat>)
    ensures |r| == |posted|
  {
    seq(|posted|, i requires 0 <= i < |posted| => if posted[i] then 1 else 0)
  }

  /** How many children have posted. */
  function Posted(posted: seq<bool>): nat { Sum(Posts(posted)) }

  ghost predicate PostsInv(s: State)
    requires Shaped(s)
  {
    && (forall i :: 0 <= i < |s.next| && s.posted[i] ==> |s.input| <= s.next[i])
    && s.semaphore + s.waited == Posted(s.posted)
    && s.waited <= |s.next|
  }

  /** The statements still to run: a store for each element not written, a post and a wait for each child. */
  ghost function Measure(s: State): int
    requires Shaped(s)
  {
    (|s.input| - Sum(s.writes)) + (|s.next| - Posted(s.posted)) + (|s.next| - s.waited)
  }

  lemma PostedUpdate(posted: seq<bool>, i: nat)
    requires i < |posted| && !posted[i]
    ensures Posted(posted[i := true]) == Posted(posted) + 1
  {
    SumUpdate(Posts(posted), i, 1);
    assert Posts(posted[i := true]) == Posts(posted)[i := 1];
  }

  lemma PostedAll(posted: seq<bool>)
    ensures Posted(posted) <= |posted|
    ensures Posted(posted) == |posted| <==> forall i :: 0 <= i < |posted| ==> posted[i]
    ensures Posted(posted) == 0 <==> forall i :: 0 <= i < |posted| ==> !posted[i]
  {
    SumBetween(Posts(posted), 0, 1);
    assert forall i :: 0 <= i < |posted| ==> Posts(posted)[i] == if posted[i] then 1 else 0;
  }

  lemma StepWrites(s: State, func: int -> int, actor: Actor)
    requires Shaped(s) && Enabled(s, actor) && WritesInv(s, func)
    ensures WritesInv(Step(s, func, actor), func)
  {
    var s' := Step(s, func, actor);
    var N := |s.next|;
    if actor.Child? && s.next[actor.i] < |s.input| {
      OwnerOfNext(s.next[actor.i], N);
    }
    forall x | 0 <= x < |s.input| ensures Element(s', func, x) {
      assert Element(s, func, x);
      if actor.Child? && Owner(x, N) == actor.i && s.next[actor.i] <= x < s.next[actor.i] + N {
        StrideGap(x, s.next[actor.i], N);
      }
    }
  }

  lemma StepPosts(s: State, func: int -> int, actor: Actor)
    requires Shaped(s) && Enabled(s, actor) && PostsInv(s)
    ensures PostsInv(Step(s, func, actor)) && Measure(Step(s, func, actor)) == Measure(s) - 1
  {
    if actor.Child? {
      PostedUpdate(s.posted, actor.i);
      if s.next[actor.i] < |s.input| {
        SumUpdate(s.writes, s.next[actor.i], s.writes[s.next[actor.i]] + 1);
      }
    }
  }

  ghost predicate Inv(s: State, func: int -> int) {
    Shaped(s) && WritesInv(s, func) && PostsInv(s)
  }

  lemma StepGood(s: State, func: int -> int, actor: Actor)
    requires Inv(s, func) && Enabled(s, actor)
    ensures Inv(Step(s, func, actor), func) && Measure(Step(s, func, actor)) == Measure(s) - 1
  {
    StepWrites(s, func, actor);
    StepPosts(s, func, actor);
  }

  lemma {:induction false} RunInv(s: State, func: int -> int, schedule: seq<Actor>)
    requires Inv(s, func) && ValidRun(s, func, schedule)
    ensures Inv(Exec(s, func, schedule), func)
    ensures |schedule| + Measure(Exec(s, func, schedule)) == Measure(s)
    decreases |schedule|
  {
    if schedule != [] {
      StepGood(s, func, schedule[0]);
      RunInv(Step(s, func, schedule[0]), func, schedule[1..]);
    }
  }

  lemma StartsBelow(x: nat, N: nat)
    requires 0 < N
    ensures Owner(x, N) <= x
  {
  }

  lemma SmallMod(i: nat, N: nat)
    requires i < N
    ensures i % N == i
  {
  }

  lemma InitInv(input: seq<int>, N: nat, func: int -> int)
    requires 0 < N
    ensures Inv(Init(input, N), func) && Measure(Init(input, N)) == |input| + 2 * N
  {
    var s := Init(input, N);
    PostedAll(s.posted);
    SumOfConstant(s.writes, 0);
    forall i | 0 <= i < N ensures Owner(s.next[i], N) == i {
      SmallMod(i, N);
    }
    forall x | 0 <= x < |input| ensures Element(s, func, x) {
      StartsBelow(x, N);
    }
  }

  /** When the parent has passed its `N` waits, every element has been written once and the result is the
      function mapped over the input. */
  lemma ResultComplete(s: State, func: int -> int)
    requires Inv(s, func) && s.waited == |s.next|
    ensures forall x :: 0 <= x < |s.input| ==> s.writes[x] == 1 && s.result[x] == func(s.input[x])
    ensures Measure(s) == 0
  {
    PostedAll(s.posted);
    forall x | 0 <= x < |s.input| ensures s.writes[x] == 1 && s.result[x] == func(s.input[x]) {
      assert Element(s, func, x);
    }
    SumOfConstant(s.writes, 1);
  }

  lemma CanStep(s: State, func: int -> int) returns (actor: Actor)
    requires Inv(s, func) && s.waited < |s.next|
    ensures Enabled(s, actor) && 0 < Measure(s)
  {
    PostedAll(s.posted);
    forall x | 0 <= x < |s.input| ensures s.writes[x] <= 1 {
      assert Element(s, func, x);
    }
    SumBetween(s.writes, 0, 1);
    if 0 < s.semaphore {
      actor := Parent;
    } else {
      var i :| 0 <= i < |s.posted| && !s.posted[i];
      actor := Child(i);
    }
  }

  lemma WrittenOnce(s: State, func: int -> int)
    requires Inv(s, func)
    ensures forall x :: 0 <= x < |s.input| ==> s.writes[x] == if x < s.next[Owner(x, |s.next|)] then 1 else 0
  {
    forall x | 0 <= x < |s.input| ensures s.writes[x] == if x < s.next[Owner(x, |s.next|)] then 1 else 0 {
      assert Element(s, func, x);
    }
  }

  lemma AllPosted(s: State)
    requires Shaped(s) && PostsInv(s) && s.waited == |s.next|
    ensures forall actor :: !Enabled(s, actor)
  {
    PostedAll(s.posted);
  }

  /** Every interleaving: no element is ever written twice or by another child than its owner, a run can go
      on until the parent is through, which it is after exactly `|input| + 2N` steps, and then the result
      is the map. */
  lemma EveryRun(input: seq<int>, N: nat, func: int -> int, schedule: seq<Actor>)
    requires 0 < N && Shaped(Init(input, N)) && ValidRun(Init(input, N), func, schedule)
    ensures var s := Exec(Init(input, N), func, schedule);
            && (forall x :: 0 <= x < |input| ==> s.writes[x] == if x < s.next[x % N] then 1 else 0)
            && (|schedule| == |input| + 2 * N <==> s.waited == N)
            && (s.waited == N <==> forall actor :: !Enabled(s, actor))
            && (s.waited == N ==> s.result == seq(|input|, x requires 0 <= x < |input| => func(input[x])))
  {
    var s := Exec(Init(input, N), func, schedule);
    InitInv(input, N, func);
    RunInv(Init(input, N), func, schedule);
    WrittenOnce(s, func);
    if s.waited == N {
      ResultComplete(s, func);
      AllPosted(s);
    } else {
      var actor := CanStep(s, func);
    }
  }

  // ---------------------------------------------------------------- the program

  /** The shared array, the semaphore and the processes' own variables, changed in place. */
  class Pool {
    const input: seq<int>
    const func: int -> int
    const N: nat
    const result: array<int>
    const next: array<nat>
    const posted: array<bool>
    var semaphore: nat
    var waited: nat
    ghost var writes: seq<nat>

    ghost function View(): State
      reads this, result, next, posted
    {
      State(input, result[..], next[..], posted[..], semaphore, waited, writes)
    }

    ghost predicate Valid()
      reads this, result, next, posted
    {
      && 0 < N && next.Length == N && posted.Length == N && result.Length == |input|
      && Inv(View(), func)
    }

    constructor (func: int -> int, input: seq<int>, N: nat)
      requires 0 < N
      ensures Valid() && View() == Init(input, N)
      ensures this.func == func && this.N == N && this.input == input
      ensures fresh(result) && fresh(next) && fresh(posted)
    {
      this.func, this.input, this.N := func, input, N;
      result := new int[|input|](_ => 0);
      next := new nat[N](i => i);
      posted := new bool[N](_ => false);
      semaphore, waited, writes := 0, 0, seq(|input|, _ => 0);
      new;
      assert View() == Init(input, N);
      InitInv(input, N, func);
    }

    /** Child `i` stores its next element, or posts and exits. */
    method Work(i: nat)
      requires Shaped(View()) && i < next.Length && !posted[i]
      modifies this`semaphore, this`writes, result, next, posted
      ensures View() == Step(old(View()), func, Child(i))
    {
      var j := next[i];
      if j < |input| {
        result[j] := func(input[j]);
        writes := writes[j := writes[j] + 1];
        next[i] := j + next.Length;
      } else {
        posted[i] := true;
        semaphore := semaphore + 1;
      }
    }

    /** The parent returns from a wait. */
    method Wait()
      requires Shaped(View()) && waited < next.Length && 0 < semaphore
      modifies this`semaphore, this`waited
      ensures View() == Step(old(View()), func, Parent)
    {
      semaphore := semaphore - 1;
      waited := waited + 1;
    }

    lemma Unfinished()
      requires Valid() && waited < N
      ensures 0 < Measure(View())
      ensures 0 < semaphore || exists i :: 0 <= i < N && !posted[i]
    {
      var actor := CanStep(View(), func);
      if actor.Child? {
        assert !posted[actor.i];
      }
    }

    /** Lets the processes run in any order until the parent has passed its waits. */
    method WaitForAll()
      requires Valid()
      modifies this`semaphore, this`waited, this`writes, result, next, posted
      ensures Valid() && waited == N
    {
      while waited < N
        invariant Valid()
        decreases Measure(View())
      {
        Unfinished();
        ghost var before := View();
        if {
          case 0 < semaphore =>
            StepGood(before, func, Parent);
            Wait();
          case exists i :: 0 <= i < N && !posted[i] =>
            var i :| 0 <= i < N && !posted[i];
            StepGood(before, func, Child(i));
            Work(i);
        }
      }
    }
  }

  /** `pmap_process`. */
  method PMap(func: int -> int, input: seq<int>, N: nat) returns (result: seq<int>)
    requires 0 < N && |input| + N <= 0x8000_0000
    ensures result == seq(|input|, x requires 0 <= x < |input| => func(input[x]))
  {
    var pool := new Pool(func, input, N);
    pool.WaitForAll();
    ResultComplete(pool.View(), func);
    assert pool.result[..] == pool.View().result;
    result := pool.result[..];
  }
}
