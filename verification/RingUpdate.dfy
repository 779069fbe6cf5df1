/** The ring of threads of inf19-0/main.c.

    Thread `i` of `k` adds 0.99, 1 and 1.01 to its left neighbour, its own element and its right
    neighbour, `N` times, under three mutexes taken in ascending order. Values are exact hundredths.
    A `State` is the shared memory together with every thread's local variables and program counter;
    `Step` runs the next atomic statement of one thread, with each `+=` split into a load and a store.
    A schedule is the list of threads in the order in which they step. */
module RingUpdate {
  import opened Sums

  /** What a mutex table says of one mutex. */
  datatype Owner = Free | Held(holder: nat)

  /** The next atomic statement of a thread. `j` counts the three mutexes or the three elements. */
  datatype Pc = Test | Lock(j: nat) | Load(j: nat) | Store(j: nat, tmp: int) | Unlock(j: nat) | Done

  datatype Thread = Thread(trio: seq<nat>, round: nat, pc: Pc)

  datatype State = State(N: nat, k: nat, cells: seq<int>, owner: seq<Owner>, threads: seq<Thread>)

  // ---------------------------------------------------------------- indices

  function Left(i: nat, k: nat): (r: nat)
    requires i < k
    ensures r < k
  {
    if i == 0 then k - 1 else i - 1
  }

  function Right(i: nat, k: nat): (r: nat)
    requires i < k
    ensures r < k
  {
    if i == k - 1 then 0 else i + 1
  }

  lemma Wraps(x: nat, k: nat)
    requires x < k
    ensures x % k == x && (x + k) % k == x
  {
  }

  lemma Neighbours(i: nat, k: nat)
    requires i < k
    ensures Left(i, k) == (i + k - 1) % k && Right(i, k) == (i + 1) % k
  {
    Wraps(Left(i, k), k);
    Wraps(Right(i, k), k);
  }

  /** The element that the `j`-th addition of thread `i` updates. */
  function Target(i: nat, k: nat, j: nat): (r: nat)
    requires i < k
    ensures r < k
  {
    if j == 0 then Left(i, k) else if j == 1 then i else Right(i, k)
  }

  /** The thread whose `j`-th addition updates element `e`. */
  function Updater(e: nat, k: nat, j: nat): (r: nat)
    requires e < k
    ensures r < k
  {
    if j == 0 then Right(e, k) else if j == 1 then e else Left(e, k)
  }

  function Amount(j: nat): int {
    if j == 0 then 99 else if j == 1 then 100 else 101
  }

  lemma TargetUpdater(i: nat, e: nat, k: nat, j: nat)
    requires i < k && e < k && j < 3
    ensures Target(i, k, j) == e <==> Updater(e, k, j) == i
  {
  }

  // ---------------------------------------------------------------- sorting three indices

  function OrderSwapped(a: seq<nat>, at: nat): (r: seq<nat>)
    requires at + 1 < |a|
    ensures |r| == |a|
  {
    if a[at + 1] < a[at] then a[at := a[at + 1]][at + 1 := a[at]] else a
  }

  function Sorted3(a: seq<nat>): (r: seq<nat>)
    requires |a| == 3
    ensures |r| == 3
  {
    OrderSwapped(OrderSwapped(OrderSwapped(a, 0), 1), 0)
  }

  method OrderSwap(a: array<nat>, at: nat)
    requires at + 1 < a.Length
    modifies a
    ensures a[..] == OrderSwapped(old(a[..]), at)
  {
    var tmp := a[at + 1];
    if a[at + 1] < a[at] {
      a[at + 1] := a[at];
      a[at] := tmp;
    }
  }

  lemma OrderSwappedShape(a: seq<nat>, at: nat)
    requires |a| == 3 && at < 2
    ensures var r := OrderSwapped(a, at);
            && multiset(r) == multiset(a)
            && r[at] <= r[at + 1]
            && (at == 0 ==> r[2] == a[2] && (r[0] == a[0] || r[0] == a[1]))
            && (at == 1 ==> r[0] == a[0] && (r[2] == a[1] || r[2] == a[2]) && a[1] <= r[2])
  {
    assert a == [a[0], a[1], a[2]];
    var r := OrderSwapped(a, at);
    assert r == [r[0], r[1], r[2]];
  }

  lemma Sorted3Sorts(a: seq<nat>)
    requires |a| == 3
    ensures var r := Sorted3(a); r[0] <= r[1] <= r[2] && multiset(r) == multiset(a)
  {
    var b := OrderSwapped(a, 0);
    var c := OrderSwapped(b, 1);
    OrderSwappedShape(a, 0);
    OrderSwappedShape(b, 1);
    OrderSwappedShape(c, 0);
  }

  method Sort3Values(a: array<nat>)
    requires a.Length == 3
    modifies a
    ensures a[..] == Sorted3(old(a[..]))
    ensures a[0] <= a[1] <= a[2] && multiset(a[..]) == multiset(old(a[..]))
  {
    OrderSwap(a, 0);
    OrderSwap(a, 1);
    OrderSwap(a, 0);
    Sorted3Sorts(old(a[..]));
    assert a[0] == a[..][0] && a[1] == a[..][1] && a[2] == a[..][2];
  }

  /** What `Sort3Values` makes of {left, own, right}: ascending, and strictly so on three or more threads. */
  ghost predicate TrioOk(trio: seq<nat>, i: nat, k: nat)
    requires i < k
  {
    && |trio| == 3
    && trio[0] < k && trio[1] < k && trio[2] < k
    && trio[0] <= trio[1] <= trio[2]
    && Left(i, k) in trio && i in trio && Right(i, k) in trio
    && (k >= 3 <==> trio[0] < trio[1] < trio[2])
  }

  function Trio(i: nat, k: nat): (r: seq<nat>)
    requires i < k
    ensures |r| == 3
  {
    Sorted3([Left(i, k), i, Right(i, k)])
  }

  lemma SameMembers(a: seq<nat>, r: seq<nat>)
    requires multiset(a) == multiset(r)
    ensures forall x :: x in a <==> x in r
  {
    forall x ensures x in a <==> x in r {
      assert x in multiset(a) <==> x in multiset(r);
    }
  }

  lemma DistinctCount(a: seq<nat>)
    requires |a| == 3
    ensures a[0] != a[1] && a[1] != a[2] && a[0] != a[2] <==> forall x :: multiset(a)[x] <= 1
  {
    assert a == [a[0], a[1], a[2]];
    assert multiset(a) == multiset{a[0], a[1], a[2]};
    if forall x :: multiset(a)[x] <= 1 {
      assert multiset(a)[a[0]] <= 1 && multiset(a)[a[1]] <= 1;
    }
  }

  lemma SortedTriple(a: seq<nat>, r: seq<nat>)
    requires |a| == 3 && |r| == 3 && multiset(a) == multiset(r) && r[0] <= r[1] <= r[2]
    ensures a[0] != a[1] && a[1] != a[2] && a[0] != a[2] <==> r[0] < r[1] < r[2]
  {
    DistinctCount(a);
    DistinctCount(r);
  }

  lemma TrioIsOk(i: nat, k: nat)
    requires i < k
    ensures TrioOk(Trio(i, k), i, k)
    ensures forall x :: x in Trio(i, k) <==> x == (i + k - 1) % k || x == i || x == (i + 1) % k
  {
    Neighbours(i, k);
    var a := [Left(i, k), i, Right(i, k)];
    var r := Trio(i, k);
    Sorted3Sorts(a);
    SortedTriple(a, r);
    SameMembers(a, r);
    assert r[0] in a && r[1] in a && r[2] in a;
    assert a[0] in r && a[1] in r && a[2] in r;
  }

  // ---------------------------------------------------------------- the step system

  predicate ThreadShaped(th: Thread, N: nat, k: nat) {
    && |th.trio| == 3
    && th.trio[0] < k && th.trio[1] < k && th.trio[2] < k
    && th.round <= N
    && (th.pc.Test? || th.pc.Done? || (th.pc.j < 3 && th.round < N))
    && (th.pc.Done? ==> th.round == N)
  }

  predicate Shaped(s: State) {
    && |s.cells| == s.k && |s.owner| == s.k && |s.threads| == s.k
    && forall t :: 0 <= t < s.k ==> ThreadShaped(s.threads[t], s.N, s.k)
  }

  /** Locking blocks while anyone, the thread itself included, holds the mutex. */
  predicate Enabled(s: State, t: nat)
    requires Shaped(s)
  {
    && t < s.k
    && var th := s.threads[t];
       match th.pc
       case Done => false
       case Lock(j) => s.owner[th.trio[j]].Free?
       case _ => true
  }

  function Goto(s: State, t: nat, pc: Pc): State
    requires t < |s.threads|
  {
    s.(threads := s.threads[t := s.threads[t].(pc := pc)])
  }

  function Step(s: State, t: nat): (s': State)
    requires Shaped(s) && Enabled(s, t)
    ensures Shaped(s') && s'.N == s.N && s'.k == s.k
  {
    var th := s.threads[t];
    match th.pc
    case Test =>
      Goto(s, t, if th.round < s.N then Lock(0) else Done)
    case Lock(j) =>
      Goto(s.(owner := s.owner[th.trio[j] := Held(t)]), t, if j < 2 then Lock(j + 1) else Load(0))
    case Load(j) =>
      Goto(s, t, Store(j, s.cells[Target(t, s.k, j)]))
    case Store(j, tmp) =>
      Goto(s.(cells := s.cells[Target(t, s.k, j) := tmp + Amount(j)]), t,
           if j < 2 then Load(j + 1) else Unlock(0))
    case Unlock(j) =>
      var s1 := s.(owner := s.owner[th.trio[j] := Free]);
      if j < 2 then Goto(s1, t, Unlock(j + 1))
      else s1.(threads := s1.threads[t := th.(round := th.round + 1, pc := Test)])
    case Done => s
  }

  /** The state in which `main` has created every thread and none has run. */
  function Init(N: nat, k: nat): (s: State)
    ensures Shaped(s) && s.N == N && s.k == k
  {
    State(N, k,
          seq(k, _ => 0),
          seq(k, _ => Free),
          seq(k, i requires 0 <= i < k => Thread(Trio(i, k), 0, Test)))
  }

  predicate AllDone(s: State) {
    forall t :: 0 <= t < |s.threads| ==> s.threads[t].pc.Done?
  }

  predicate ValidRun(s: State, schedule: seq<nat>)
    requires Shaped(s)
    decreases |schedule|
  {
    schedule == [] || (Enabled(s, schedule[0]) && ValidRun(Step(s, schedule[0]), schedule[1..]))
  }

  function Exec(s: State, schedule: seq<nat>): (s': State)
    requires Shaped(s) && ValidRun(s, schedule)
    ensures Shaped(s') && s'.N == s.N && s'.k == s.k
    decreases |schedule|
  {
    if schedule == [] then s else Exec(Step(s, schedule[0]), schedule[1..])
  }

  // ---------------------------------------------------------------- what every step keeps

  /** Whether a thread whose next statement is `pc` holds its `j`-th mutex. */
  predicate Holding(pc: Pc, j: nat) {
    match pc
    case Test => false
    case Done => false
    case Lock(m) => j < m
    case Unlock(m) => m <= j
    case _ => true
  }

  predicate HoldsMutex(th: Thread, m: nat)
    requires |th.trio| == 3
  {
    || (th.trio[0] == m && Holding(th.pc, 0))
    || (th.trio[1] == m && Holding(th.pc, 1))
    || (th.trio[2] == m && Holding(th.pc, 2))
  }

  predicate Updating(pc: Pc) { pc.Load? || pc.Store? }

  /** How often thread `th` has completed its `j`-th addition. */
  function Count(th: Thread, j: nat): nat {
    th.round + match th.pc
               case Load(m) => if j < m then 1 else 0
               case Store(m, _) => if j < m then 1 else 0
               case Unlock(_) => 1
               case _ => 0
  }

  /** Element `e` is exactly what its three updaters have added to it so far. */
  function Expected(s: State, e: nat): int
    requires Shaped(s) && e < s.k
  {
    99 * Count(s.threads[Updater(e, s.k, 0)], 0)
    + 100 * Count(s.threads[Updater(e, s.k, 1)], 1)
    + 101 * Count(s.threads[Updater(e, s.k, 2)], 2)
  }

  /** What thread `th` has added to the array altogether. */
  function Work(th: Thread): int {
    99 * Count(th, 0) + 100 * Count(th, 1) + 101 * Count(th, 2)
  }

  function Works(threads: seq<Thread>): (r: seq<int>)
    ensures |r| == |threads|
  {
    seq(|threads|, i requires 0 <= i < |threads| => Work(threads[i]))
  }

  ghost predicate TriosOk(s: State)
    requires Shaped(s)
  {
    forall t :: 0 <= t < s.k ==> TrioOk(s.threads[t].trio, t, s.k)
  }

  ghost predicate HoldersOwn(s: State)
    requires Shaped(s)
  {
    forall t, j :: 0 <= t < s.k && 0 <= j < 3 && Holding(s.threads[t].pc, j)
      ==> s.owner[s.threads[t].trio[j]] == Held(t)
  }

  ghost predicate OwnersHold(s: State)
    requires Shaped(s)
  {
    forall m :: 0 <= m < s.k && s.owner[m].Held? ==>
      s.owner[m].holder < s.k && HoldsMutex(s.threads[s.owner[m].holder], m)
  }

  ghost predicate LoadsFresh(s: State)
    requires Shaped(s)
  {
    forall t :: 0 <= t < s.k && s.threads[t].pc.Store?
      ==> s.threads[t].pc.tmp == s.cells[Target(t, s.k, s.threads[t].pc.j)]
  }

  ghost predicate CountsExact(s: State)
    requires Shaped(s)
  {
    forall e :: 0 <= e < s.k ==> s.cells[e] == Expected(s, e)
  }

  /** Nothing is lost and nothing is added twice: the array holds all the work done so far. */
  ghost predicate TotalExact(s: State) {
    Sum(s.cells) == Sum(Works(s.threads))
  }

  /** The locking half of the invariant, which holds on rings of every size. */
  ghost predicate LockInv(s: State) {
    Shaped(s) && TriosOk(s) && HoldersOwn(s) && OwnersHold(s)
  }

  /** What it takes for a run to be able to finish: three distinct mutexes a thread, or nothing to do. */
  predicate Completable(N: nat, k: nat) { k >= 3 || N == 0 || k == 0 }

  /** The whole invariant. */
  ghost predicate Inv(s: State) {
    LockInv(s) && Completable(s.N, s.k) && LoadsFresh(s) && CountsExact(s) && TotalExact(s)
  }

  lemma InitLockInv(N: nat, k: nat)
    ensures LockInv(Init(N, k))
  {
    forall t | 0 <= t < k ensures TrioOk(Init(N, k).threads[t].trio, t, k) {
      TrioIsOk(t, k);
    }
  }

  lemma InitTotalExact(N: nat, k: nat)
    ensures TotalExact(Init(N, k))
  {
    SumOfConstant(Init(N, k).cells, 0);
    SumOfConstant(Works(Init(N, k).threads), 0);
  }

  lemma InitInv(N: nat, k: nat)
    ensures LockInv(Init(N, k))
    ensures Completable(N, k) ==> Inv(Init(N, k))
  {
    InitLockInv(N, k);
    InitTotalExact(N, k);
  }

  /** Two threads that can collide on an element are never both in the update section. */
  lemma MutualExclusion(s: State, t: nat, u: nat, m: nat)
    requires LockInv(s) && t < s.k && u < s.k && t != u
    requires m in s.threads[t].trio && m in s.threads[u].trio
    ensures !(Updating(s.threads[t].pc) && Updating(s.threads[u].pc))
  {
    var i :| 0 <= i < 3 && s.threads[t].trio[i] == m;
    var j :| 0 <= j < 3 && s.threads[u].trio[j] == m;
    assert Updating(s.threads[t].pc) ==> Holding(s.threads[t].pc, i) && s.owner[m] == Held(t);
    assert Updating(s.threads[u].pc) ==> Holding(s.threads[u].pc, j) && s.owner[m] == Held(u);
  }

  lemma OthersStillOwn(s: State, t: nat, u: nat, j: nat)
    requires Shaped(s) && HoldersOwn(s) && Enabled(s, t) && u < s.k && u != t && j < 3
    requires Holding(s.threads[u].pc, j)
    ensures Step(s, t).owner[s.threads[u].trio[j]] == Held(u)
  {
  }

  /** The thread is about to unlock a mutex that it will unlock again: its sorted trio repeats the index. */
  predicate UnlocksEarly(th: Thread)
    requires |th.trio| == 3
  {
    th.pc.Unlock? && th.pc.j < 2 && th.trio[th.pc.j] == th.trio[th.pc.j + 1]
  }

  lemma StepperOwns(s: State, t: nat, j: nat)
    requires Shaped(s) && HoldersOwn(s) && Enabled(s, t) && TrioOk(s.threads[t].trio, t, s.k) && j < 3
    requires !UnlocksEarly(s.threads[t])
    requires Holding(Step(s, t).threads[t].pc, j)
    ensures Step(s, t).owner[s.threads[t].trio[j]] == Held(t)
  {
    if !(s.threads[t].pc.Lock? && j == s.threads[t].pc.j) {
      assert Holding(s.threads[t].pc, j);
    }
  }

  lemma StepHoldersOwn(s: State, t: nat)
    requires LockInv(s) && Enabled(s, t) && !UnlocksEarly(s.threads[t])
    ensures HoldersOwn(Step(s, t))
  {
    var s' := Step(s, t);
    forall u, j | 0 <= u < s.k && 0 <= j < 3 && Holding(s'.threads[u].pc, j)
      ensures s'.owner[s'.threads[u].trio[j]] == Held(u)
    {
      assert s'.threads[u].trio == s.threads[u].trio;
      if u != t {
        OthersStillOwn(s, t, u, j);
      } else {
        StepperOwns(s, t, j);
      }
    }
  }

  lemma StepKeepsHolding(s: State, t: nat, m: nat)
    requires LockInv(s) && Enabled(s, t) && m < s.k
    requires HoldsMutex(s.threads[t], m) && Step(s, t).owner[m] == Held(t)
    ensures HoldsMutex(Step(s, t).threads[t], m)
  {
  }

  lemma StepOwnersHold(s: State, t: nat)
    requires LockInv(s) && Enabled(s, t)
    ensures OwnersHold(Step(s, t))
  {
    var s' := Step(s, t);
    forall m | 0 <= m < s.k && s'.owner[m].Held?
      ensures s'.owner[m].holder < s.k && HoldsMutex(s'.threads[s'.owner[m].holder], m)
    {
      if s.owner[m].Held? {
        var u := s.owner[m].holder;
        assert HoldsMutex(s.threads[u], m);
        assert s'.owner[m] == Held(u);
        if u == t {
          StepKeepsHolding(s, t, m);
        }
      }
    }
  }

  lemma StepTriosOk(s: State, t: nat)
    requires LockInv(s) && Enabled(s, t)
    ensures TriosOk(Step(s, t))
  {
    var s' := Step(s, t);
    forall u | 0 <= u < s.k ensures TrioOk(s'.threads[u].trio, u, s.k) {
      assert s'.threads[u].trio == s.threads[u].trio;
      assert TrioOk(s.threads[u].trio, u, s.k);
    }
  }

  lemma EarlyUnlockBreaks(s: State, t: nat)
    requires LockInv(s) && Enabled(s, t) && UnlocksEarly(s.threads[t])
    ensures !HoldersOwn(Step(s, t))
  {
    var s', j := Step(s, t), s.threads[t].pc.j + 1;
    assert Holding(s'.threads[t].pc, j) && s'.owner[s'.threads[t].trio[j]] == Free;
  }

  /** A step keeps the mutex table and the program counters in agreement exactly if it does not unlock a
      mutex that the thread will unlock again, which no thread does on three or more threads. */
  lemma StepLockInv(s: State, t: nat)
    requires LockInv(s) && Enabled(s, t)
    ensures LockInv(Step(s, t)) <==> !UnlocksEarly(s.threads[t])
    ensures s.k >= 3 ==> LockInv(Step(s, t))
  {
    StepTriosOk(s, t);
    assert TrioOk(s.threads[t].trio, t, s.k);
    if UnlocksEarly(s.threads[t]) {
      EarlyUnlockBreaks(s, t);
    } else {
      StepHoldersOwn(s, t);
      StepOwnersHold(s, t);
    }
  }

  /** No other thread stores where a thread is between its load and its store. */
  lemma LoadStaysFresh(s: State, t: nat, u: nat)
    requires LockInv(s) && LoadsFresh(s) && Enabled(s, t) && u < s.k && u != t && s.threads[u].pc.Store?
    ensures s.threads[u].pc.tmp == Step(s, t).cells[Target(u, s.k, s.threads[u].pc.j)]
  {
    var e := Target(u, s.k, s.threads[u].pc.j);
    if s.threads[t].pc.Store? && Target(t, s.k, s.threads[t].pc.j) == e {
      assert TrioOk(s.threads[t].trio, t, s.k) && TrioOk(s.threads[u].trio, u, s.k);
      MutualExclusion(s, t, u, e);
    }
  }

  lemma StepLoadsFresh(s: State, t: nat)
    requires Inv(s) && Enabled(s, t)
    ensures LoadsFresh(Step(s, t))
  {
    var s' := Step(s, t);
    forall u | 0 <= u < s.k && s'.threads[u].pc.Store?
      ensures s'.threads[u].pc.tmp == s'.cells[Target(u, s.k, s'.threads[u].pc.j)]
    {
      if u != t {
        LoadStaysFresh(s, t, u);
      }
    }
  }

  lemma StepCount(s: State, t: nat, j: nat)
    requires Shaped(s) && Enabled(s, t) && j < 3
    ensures Count(Step(s, t).threads[t], j)
         == Count(s.threads[t], j) + if s.threads[t].pc.Store? && s.threads[t].pc.j == j then 1 else 0
  {
  }

  lemma StepCountAt(s: State, t: nat, e: nat, j: nat)
    requires Shaped(s) && Enabled(s, t) && j < 3 && e < s.k
    ensures var u := Updater(e, s.k, j);
            Count(Step(s, t).threads[u], j)
            == Count(s.threads[u], j)
             + if s.threads[t].pc.Store? && s.threads[t].pc.j == j && Target(t, s.k, j) == e then 1 else 0
  {
    StepCount(s, t, j);
    TargetUpdater(t, e, s.k, j);
  }

  lemma StepCountsExact(s: State, t: nat)
    requires Inv(s) && Enabled(s, t)
    ensures CountsExact(Step(s, t))
  {
    var s' := Step(s, t);
    forall e | 0 <= e < s.k ensures s'.cells[e] == Expected(s', e) {
      assert s.cells[e] == Expected(s, e);
      StepCountAt(s, t, e, 0);
      StepCountAt(s, t, e, 1);
      StepCountAt(s, t, e, 2);
    }
  }

  /** What the next statement of thread `t` adds to the array. */
  function Added(s: State, t: nat): int
    requires Shaped(s) && t < s.k
  {
    if s.threads[t].pc.Store? then Amount(s.threads[t].pc.j) else 0
  }

  lemma StepWork(s: State, t: nat)
    requires Shaped(s) && Enabled(s, t)
    ensures Sum(Works(Step(s, t).threads)) == Sum(Works(s.threads)) + Added(s, t)
  {
    var s' := Step(s, t);
    StepCount(s, t, 0);
    StepCount(s, t, 1);
    StepCount(s, t, 2);
    SumUpdate(Works(s.threads), t, Work(s'.threads[t]));
    assert Works(s'.threads) == Works(s.threads)[t := Work(s'.threads[t])];
  }

  lemma StepCells(s: State, t: nat)
    requires Shaped(s) && Enabled(s, t) && LoadsFresh(s)
    ensures Sum(Step(s, t).cells) == Sum(s.cells) + Added(s, t)
  {
    if s.threads[t].pc.Store? {
      var e := Target(t, s.k, s.threads[t].pc.j);
      SumUpdate(s.cells, e, s.cells[e] + Added(s, t));
    }
  }

  lemma StepTotalExact(s: State, t: nat)
    requires Shaped(s) && Enabled(s, t) && LoadsFresh(s) && TotalExact(s)
    ensures TotalExact(Step(s, t))
  {
    StepWork(s, t);
    StepCells(s, t);
  }

  lemma StepInv(s: State, t: nat)
    requires Inv(s) && Enabled(s, t)
    ensures Inv(Step(s, t))
  {
    StepLockInv(s, t);
    StepLoadsFresh(s, t);
    StepCountsExact(s, t);
    StepTotalExact(s, t);
  }

  // ---------------------------------------------------------------- progress

  /** The statements that thread `th` has still to run: 13 a round and one last test. */
  function Remaining(N: nat, th: Thread): int {
    13 * (N - th.round) + match th.pc
                          case Test => 1
                          case Lock(j) => 0 - (j as int)
                          case Load(j) => -3 - 2 * j
                          case Store(j, _) => -4 - 2 * j
                          case Unlock(j) => -9 - j
                          case Done => 0
  }

  function Remainings(N: nat, threads: seq<Thread>): (r: seq<int>)
    ensures |r| == |threads|
  {
    seq(|threads|, i requires 0 <= i < |threads| => Remaining(N, threads[i]))
  }

  function Measure(s: State): int {
    Sum(Remainings(s.N, s.threads))
  }

  lemma StepMeasure(s: State, t: nat)
    requires Shaped(s) && Enabled(s, t)
    ensures Measure(Step(s, t)) == Measure(s) - 1
  {
    var s' := Step(s, t);
    SumUpdate(Remainings(s.N, s.threads), t, Remaining(s.N, s'.threads[t]));
    assert Remainings(s.N, s'.threads) == Remainings(s.N, s.threads)[t := Remaining(s.N, s'.threads[t])];
  }

  lemma MeasureZero(s: State)
    requires Shaped(s)
    ensures 0 <= Measure(s)
    ensures Measure(s) == 0 <==> AllDone(s)
  {
    forall t | 0 <= t < s.k ensures 0 <= Remaining(s.N, s.threads[t])
                            ensures Remaining(s.N, s.threads[t]) == 0 <==> s.threads[t].pc.Done? {
    }
    var left, none := Remainings(s.N, s.threads), seq(s.k, _ => 0);
    SumOfConstant(none, 0);
    SumBound(none, left);
    assert forall t :: 0 <= t < s.k ==> left[t] == Remaining(s.N, s.threads[t]);
  }

  /** A thread blocked on mutex m waits for a thread that waits, if at all, for a mutex above m. */
  lemma {:induction false} FindEnabled(s: State, t: nat) returns (u: nat)
    requires LockInv(s) && Completable(s.N, s.k) && t < s.k && !s.threads[t].pc.Done?
    ensures Enabled(s, u)
    decreases s.k - if s.threads[t].pc.Lock? then s.threads[t].trio[s.threads[t].pc.j] else 0
  {
    var th := s.threads[t];
    if Enabled(s, t) {
      u := t;
    } else {
      var m := th.trio[th.pc.j];
      var v := s.owner[m].holder;
      assert HoldsMutex(s.threads[v], m);
      assert TrioOk(s.threads[v].trio, v, s.k);
      assert TrioOk(th.trio, t, s.k);
      if Enabled(s, v) {
        u := v;
      } else {
        u := FindEnabled(s, v);
      }
    }
  }

  lemma DeadlockFree(s: State)
    requires LockInv(s) && Completable(s.N, s.k)
    ensures AllDone(s) <==> forall t :: 0 <= t < s.k ==> !Enabled(s, t)
  {
    if !AllDone(s) {
      var t :| 0 <= t < s.k && !s.threads[t].pc.Done?;
      var u := FindEnabled(s, t);
    }
  }

  // ---------------------------------------------------------------- rings of one or two threads

  /** No thread has come past its third lock, none has locked the same mutex twice, and nothing has been
      added. */
  ghost predicate Stalled(s: State) {
    && LockInv(s)
    && (forall e :: 0 <= e < s.k ==> s.cells[e] == 0)
    && forall t :: 0 <= t < s.k ==>
         && s.threads[t].round == 0
         && (s.threads[t].pc.Test? || s.threads[t].pc.Lock?)
         && (s.threads[t].pc == Lock(2) ==> s.threads[t].trio[0] < s.threads[t].trio[1])
  }

  lemma StepStalled(s: State, t: nat)
    requires Stalled(s) && s.k < 3 && s.N > 0 && Enabled(s, t)
    ensures Stalled(Step(s, t))
  {
    StepLockInv(s, t);
    var th := s.threads[t];
    assert TrioOk(th.trio, t, s.k);
    assert th.trio[0] < th.trio[1] ==> th.trio[1] == th.trio[2];
    assert forall j :: 0 <= j < 3 && Holding(th.pc, j) ==> s.owner[th.trio[j]] == Held(t);
  }

  lemma {:induction false} RunStalled(s: State, schedule: seq<nat>)
    requires Stalled(s) && s.k < 3 && s.N > 0 && ValidRun(s, schedule)
    ensures Stalled(Exec(s, schedule))
    decreases |schedule|
  {
    if schedule != [] {
      StepStalled(s, schedule[0]);
      RunStalled(Step(s, schedule[0]), schedule[1..]);
    }
  }

  // ---------------------------------------------------------------- whole runs

  lemma {:induction false} RunInv(s: State, schedule: seq<nat>)
    requires Inv(s) && ValidRun(s, schedule)
    ensures Inv(Exec(s, schedule))
    ensures |schedule| + Measure(Exec(s, schedule)) == Measure(s)
    decreases |schedule|
  {
    if schedule != [] {
      StepInv(s, schedule[0]);
      StepMeasure(s, schedule[0]);
      RunInv(Step(s, schedule[0]), schedule[1..]);
    }
  }

  lemma StalledIsExact(s: State)
    requires Stalled(s)
    ensures LoadsFresh(s) && CountsExact(s) && TotalExact(s)
  {
    forall t | 0 <= t < s.k ensures Count(s.threads[t], 0) == Count(s.threads[t], 1) == Count(s.threads[t], 2) == 0 {
    }
    SumOfConstant(s.cells, 0);
    SumOfConstant(Works(s.threads), 0);
  }

  /** Every state that a ring of any size can reach is locked correctly and exact. Short rings get no
      further than their locks. */
  lemma EveryStateExact(N: nat, k: nat, schedule: seq<nat>)
    requires ValidRun(Init(N, k), schedule)
    ensures var s := Exec(Init(N, k), schedule);
            LockInv(s) && LoadsFresh(s) && CountsExact(s) && TotalExact(s)
    ensures 0 < k < 3 && 0 < N ==> Stalled(Exec(Init(N, k), schedule))
  {
    InitInv(N, k);
    if Completable(N, k) {
      RunInv(Init(N, k), schedule);
    } else {
      RunStalled(Init(N, k), schedule);
      StalledIsExact(Exec(Init(N, k), schedule));
    }
  }

  lemma InitMeasure(N: nat, k: nat)
    ensures Measure(Init(N, k)) == k * (13 * N + 1)
  {
    SumOfConstant(Remainings(N, Init(N, k).threads), 13 * N + 1);
  }

  lemma NobodyDoneHolds(s: State, m: nat)
    requires LockInv(s) && m < s.k && s.owner[m].Held?
    ensures s.owner[m].holder < s.k && !s.threads[s.owner[m].holder].pc.Done?
  {
    assert HoldsMutex(s.threads[s.owner[m].holder], m);
  }

  lemma FinalValues(s: State)
    requires Inv(s) && AllDone(s)
    ensures forall e :: 0 <= e < s.k ==> s.cells[e] == 300 * s.N
    ensures forall m :: 0 <= m < s.k ==> s.owner[m].Free?
  {
    forall e | 0 <= e < s.k ensures s.cells[e] == 300 * s.N {
      assert s.cells[e] == Expected(s, e);
    }
    forall m | 0 <= m < s.k ensures s.owner[m].Free? {
      if s.owner[m].Held? {
        NobodyDoneHolds(s, m);
        assert false;
      }
    }
  }

  /** In every reachable state each element is exactly what its own thread and its two neighbours have
      added: 1 for each own addition, 0.99 for the right neighbour's and 1.01 for the left neighbour's. */
  lemma ElementsExact(N: nat, k: nat, schedule: seq<nat>, e: nat)
    requires ValidRun(Init(N, k), schedule) && e < k
    ensures var s := Exec(Init(N, k), schedule);
            s.cells[e] == 100 * Count(s.threads[e], 1) + 99 * Count(s.threads[(e + 1) % k], 0)
                          + 101 * Count(s.threads[(e + k - 1) % k], 2)
  {
    Neighbours(e, k);
    EveryStateExact(N, k, schedule);
    var s := Exec(Init(N, k), schedule);
    assert s.cells[e] == Expected(s, e);
  }

  /** Every run, whatever the scheduler does: it can step until all threads are done, it is done after
      exactly `k * (13 * N + 1)` steps and not before, and then every element is exactly 3N and every
      mutex is free. */
  lemma EveryRun(N: nat, k: nat, schedule: seq<nat>)
    requires Completable(N, k)
    requires ValidRun(Init(N, k), schedule)
    ensures var s := Exec(Init(N, k), schedule);
            && |schedule| <= k * (13 * N + 1)
            && (|schedule| == k * (13 * N + 1) <==> AllDone(s))
            && (AllDone(s) <==> forall t :: 0 <= t < k ==> !Enabled(s, t))
            && (AllDone(s) ==> && (forall e :: 0 <= e < k ==> s.cells[e] == 300 * N)
                               && (forall m :: 0 <= m < k ==> s.owner[m].Free?))
  {
    var s := Exec(Init(N, k), schedule);
    InitInv(N, k);
    InitMeasure(N, k);
    RunInv(Init(N, k), schedule);
    MeasureZero(s);
    DeadlockFree(s);
    if AllDone(s) {
      FinalValues(s);
    }
  }

  /** The rounds whose three additions thread `th` has all made. */
  function CompletedRounds(th: Thread): nat { Count(th, 2) }

  function AllCompletedRounds(threads: seq<Thread>): (r: seq<int>)
    ensures |r| == |threads|
  {
    seq(|threads|, i requires 0 <= i < |threads| => CompletedRounds(threads[i]))
  }

  predicate MidUpdate(pc: Pc) { pc.Store? || (pc.Load? && pc.j > 0) }

  lemma TotalOfRounds(s: State)
    requires Shaped(s) && TotalExact(s) && forall t :: 0 <= t < s.k ==> !MidUpdate(s.threads[t].pc)
    ensures Sum(s.cells) == 300 * Sum(AllCompletedRounds(s.threads))
  {
    forall t | 0 <= t < s.k ensures Works(s.threads)[t] == 300 * AllCompletedRounds(s.threads)[t] {
      assert !MidUpdate(s.threads[t].pc);
    }
    SumScaled(Works(s.threads), AllCompletedRounds(s.threads), 300);
  }

  /** Whenever no thread is between its first load and its last store, the array total is three times
      the completed rounds. */
  lemma TotalBetweenUpdates(N: nat, k: nat, schedule: seq<nat>)
    requires ValidRun(Init(N, k), schedule)
    ensures var s := Exec(Init(N, k), schedule);
            (forall t :: 0 <= t < k ==> !MidUpdate(s.threads[t].pc))
            ==> Sum(s.cells) == 300 * Sum(AllCompletedRounds(s.threads))
  {
    var s := Exec(Init(N, k), schedule);
    EveryStateExact(N, k, schedule);
    if forall t :: 0 <= t < k ==> !MidUpdate(s.threads[t].pc) {
      TotalOfRounds(s);
    }
  }

  lemma {:induction false} TriosStay(s: State, schedule: seq<nat>, t: nat)
    requires Shaped(s) && ValidRun(s, schedule) && t < s.k
    ensures Exec(s, schedule).threads[t].trio == s.threads[t].trio
    decreases |schedule|
  {
    if schedule != [] {
      TriosStay(Step(s, schedule[0]), schedule[1..], t);
    }
  }

  /** In every reachable state, threads whose trios meet are never both updating. */
  lemma NeverBothUpdating(N: nat, k: nat, schedule: seq<nat>, t: nat, u: nat, m: nat)
    requires ValidRun(Init(N, k), schedule) && t < k && u < k && t != u
    requires m in Trio(t, k) && m in Trio(u, k)
    ensures var s := Exec(Init(N, k), schedule);
            !(Updating(s.threads[t].pc) && Updating(s.threads[u].pc))
  {
    EveryStateExact(N, k, schedule);
    TriosStay(Init(N, k), schedule, t);
    TriosStay(Init(N, k), schedule, u);
    MutualExclusion(Exec(Init(N, k), schedule), t, u, m);
  }

  lemma {:induction false} CompletingRun(s: State) returns (schedule: seq<nat>)
    requires Inv(s)
    ensures ValidRun(s, schedule) && AllDone(Exec(s, schedule))
    decreases Measure(s)
  {
    MeasureZero(s);
    if AllDone(s) {
      schedule := [];
    } else {
      var t :| 0 <= t < s.k && !s.threads[t].pc.Done?;
      var u := FindEnabled(s, t);
      StepInv(s, u);
      StepMeasure(s, u);
      MeasureZero(Step(s, u));
      var rest := CompletingRun(Step(s, u));
      schedule := [u] + rest;
      assert schedule[1..] == rest;
    }
  }

  predicate Completes(N: nat, k: nat, schedule: seq<nat>) {
    ValidRun(Init(N, k), schedule) && AllDone(Exec(Init(N, k), schedule))
  }

  /** The program can finish exactly on rings of three or more threads, or with nothing to do. On one or
      two threads a trio repeats an index, and every thread with a round to run blocks on itself or on
      another that does. */
  lemma CompletesIff(N: nat, k: nat)
    ensures (exists schedule :: Completes(N, k, schedule)) <==> Completable(N, k)
  {
    var s := Init(N, k);
    InitInv(N, k);
    if Completable(N, k) {
      var schedule := CompletingRun(s);
      assert Completes(N, k, schedule);
    } else {
      forall schedule | ValidRun(s, schedule) ensures !Completes(N, k, schedule) {
        RunStalled(s, schedule);
        assert !Exec(s, schedule).threads[0].pc.Done?;
      }
    }
  }

  // ---------------------------------------------------------------- the program

  /** The start of `ChangeThreeValues`: the neighbours' and the own index, sorted. */
  method LockOrder(index: nat, k: nat) returns (order: seq<nat>)
    requires index < k
    ensures order == Trio(index, k)
  {
    var left := if index == 0 then k - 1 else index - 1;
    var right := if index == k - 1 then 0 else index + 1;
    var trio := new nat[] [left, index, right];
    assert trio[..] == [left, index, right];
    Sort3Values(trio);
    order := trio[..];
  }

  lemma StepGood(s: State, t: nat)
    requires Inv(s) && Enabled(s, t)
    ensures Inv(Step(s, t)) && 0 <= Measure(Step(s, t)) == Measure(s) - 1
  {
    StepInv(s, t);
    StepMeasure(s, t);
    MeasureZero(Step(s, t));
  }

  /** The shared memory and the threads' local variables, changed in place. */
  class Ring {
    const N: nat
    const k: nat
    const cells: array<int>
    const owner: array<Owner>
    const threads: array<Thread>

    ghost predicate Separate()
      reads this
    {
      cells.Length == k && owner.Length == k && threads.Length == k
    }

    function View(): State
      reads this, cells, owner, threads
    {
      State(N, k, cells[..], owner[..], threads[..])
    }

    constructor (N: nat, k: nat)
      ensures Separate() && fresh(cells) && fresh(owner) && fresh(threads)
      ensures this.N == N && this.k == k && View() == Init(N, k)
    {
      this.N := N;
      this.k := k;
      cells := new int[k](_ => 0);
      owner := new Owner[k](_ => Free);
      threads := new Thread[k](_ => Thread([], 0, Test));
      new;
      for index := 0 to k
        invariant Separate() && fresh(cells) && fresh(owner) && fresh(threads)
        invariant cells[..] == seq(k, _ => 0) && owner[..] == seq(k, _ => Free)
        invariant forall i :: 0 <= i < index ==> threads[i] == Thread(Trio(i, k), 0, Test)
      {
        var trio := LockOrder(index, k);
        threads[index] := Thread(trio, 0, Test);
      }
    }

    /** The loads and stores of the three additions. */
    method Update(t: nat)
      requires Separate() && Shaped(View()) && Enabled(View(), t) && Updating(threads[t].pc)
      modifies cells, threads
      ensures View() == Step(old(View()), t)
    {
      var th := threads[t];
      assert th == View().threads[t];
      var left := if t == 0 then k - 1 else t - 1;
      var right := if t == k - 1 then 0 else t + 1;
      var e := if th.pc.j == 0 then left else if th.pc.j == 1 then t else right;
      match th.pc
      case Load(j) =>
        threads[t] := th.(pc := Store(j, cells[e]));
      case Store(j, tmp) =>
        cells[e] := tmp + (if j == 0 then 99 else if j == 1 then 100 else 101);
        threads[t] := th.(pc := if j < 2 then Load(j + 1) else Unlock(0));
    }

    /** Thread `t` executes its next statement. */
    method Advance(t: nat)
      requires Separate() && Shaped(View()) && Enabled(View(), t)
      modifies cells, owner, threads
      ensures View() == Step(old(View()), t)
    {
      var th := threads[t];
      assert th == View().threads[t];
      if Updating(th.pc) {
        Update(t);
        return;
      }
      match th.pc
      case Test =>
        threads[t] := th.(pc := if th.round < N then Lock(0) else Done);
      case Lock(j) =>
        owner[th.trio[j]] := Held(t);
        threads[t] := th.(pc := if j < 2 then Lock(j + 1) else Load(0));
      case Unlock(j) =>
        owner[th.trio[j]] := Free;
        threads[t] := if j < 2 then th.(pc := Unlock(j + 1)) else th.(round := th.round + 1, pc := Test);
    }

    /** Any thread that can step: the scheduler is free to choose. */
    method PickThread() returns (t: nat)
      requires Separate() && Inv(View()) && !AllDone(View())
      ensures Enabled(View(), t)
    {
      DeadlockFree(View());
      t :| 0 <= t < k && Enabled(View(), t);
    }

    /** Runs the ring under an arbitrary scheduler until every thread can be joined. */
    method JoinAll() returns (steps: nat)
      requires Separate() && Inv(View())
      modifies cells, owner, threads
      ensures Inv(View()) && AllDone(View())
      ensures steps == Measure(old(View()))
    {
      steps := 0;
      MeasureZero(View());
      while !AllDone(View())
        invariant Separate() && Inv(View()) && 0 <= Measure(View())
        invariant steps + Measure(View()) == Measure(old(View()))
        decreases Measure(View())
      {
        var t := PickThread();
        StepGood(View(), t);
        Advance(t);
        steps := steps + 1;
      }
      MeasureZero(View());
    }
  }

  /** The whole program, wherever it can finish at all. */
  method RunRing(N: nat, k: nat) returns (values: seq<int>, steps: nat)
    requires Completable(N, k)
    ensures values == seq(k, _ => 300 * N)
    ensures steps == k * (13 * N + 1)
  {
    var ring := new Ring(N, k);
    InitInv(N, k);
    InitMeasure(N, k);
    steps := ring.JoinAll();
    FinalValues(ring.View());
    values := ring.cells[..];
  }
}
