/** The bartender and the three smokers of inf20-2/main.c: four processes around two semaphores, and a
    shutdown by signals.

    A child starts without a handler, so a signal that comes first kills it. Later signals stay pending
    until they are delivered to the handler, which need not happen before the child runs on. */
module Bartender {

  /** Installing the handler, `sem_wait`, the test of `expels`, `sem_post`, the print, and the two ends. */
  datatype ChildPc = Starting | Waiting | Testing | Posting | Printing | Exited | Killed

  datatype Child = Child(pc: ChildPc, expels: bool, pending: bool)

  /** Reading a letter, posting `bartender`, waiting for `received`; then the three signals, the three
      posts and the three joins. */
  datatype ParentPc = Reading | Serving | Awaiting | Kill(n: nat) | Release(n: nat) | Join(n: nat) | Ended

  /** `letters` counts the letters that ask for a smoker, `late` the tests of `expels` that a child passed
      with the signal pending. */
  datatype State = State(input: string, pos: nat, parent: ParentPc, smoker: char,
                         bartender: nat, received: nat, children: seq<Child>,
                         printed: string, letters: nat, late: nat)

  datatype Actor = Parent | Smoker(i: nat) | Delivery(i: nat)

  predicate Shaped(s: State) {
    |s.children| == 3 && ((s.parent.Kill? || s.parent.Release? || s.parent.Join?) ==> s.parent.n < 3)
  }

  function Init(input: string): (s: State)
    ensures Shaped(s)
  {
    var c := Child(Starting, false, false);
    State(input, 0, Reading, '\0', 0, 0, [c, c, c], "", 0, 0)
  }

  predicate Gone(c: Child) { c.pc.Exited? || c.pc.Killed? }

  /** After the end of the input the parent goes on reading for ever: it can step, to no effect. */
  predicate Enabled(s: State, actor: Actor)
    requires Shaped(s)
  {
    match actor
    case Parent =>
      && !s.parent.Ended?
      && (s.parent.Awaiting? ==> 0 < s.received)
      && (s.parent.Join? ==> Gone(s.children[s.parent.n]))
    case Smoker(i) =>
      i < 3 && !Gone(s.children[i]) && (s.children[i].pc.Waiting? ==> 0 < s.bartender)
    case Delivery(i) =>
      i < 3 && !Gone(s.children[i]) && s.children[i].pending
  }

  function Signalled(c: Child): Child {
    if Gone(c) then c else if c.pc.Starting? then c.(pc := Killed) else c.(pending := true)
  }

  function ParentStep(s: State): (s': State)
    requires Shaped(s) && Enabled(s, Parent)
    ensures Shaped(s')
  {
    match s.parent
    case Reading =>
      if |s.input| <= s.pos then s
      else
        var letter := s.input[s.pos];
        var s1 := s.(pos := s.pos + 1);
        if letter == '\n' then s1.(parent := Kill(0))
        else if letter == 't' then s1.(smoker := 'T', letters := s.letters + 1, parent := Serving)
        else if letter == 'p' then s1.(smoker := 'P', letters := s.letters + 1, parent := Serving)
        else if letter == 'm' then s1.(smoker := 'M', letters := s.letters + 1, parent := Serving)
        else s1
    case Serving => s.(bartender := s.bartender + 1, parent := Awaiting)
    case Awaiting => s.(received := s.received - 1, parent := Reading)
    case Kill(n) =>
      s.(children := s.children[n := Signalled(s.children[n])], parent := if n < 2 then Kill(n + 1) else Release(0))
    case Release(n) => s.(bartender := s.bartender + 1, parent := if n < 2 then Release(n + 1) else Join(0))
    case Join(n) => s.(parent := if n < 2 then Join(n + 1) else Ended)
    case Ended => s
  }

  function SmokerStep(s: State, i: nat): (s': State)
    requires Shaped(s) && Enabled(s, Smoker(i))
    ensures Shaped(s')
  {
    var c := s.children[i];
    match c.pc
    case Starting => s.(children := s.children[i := c.(pc := Waiting)])
    case Waiting => s.(bartender := s.bartender - 1, children := s.children[i := c.(pc := Testing)])
    case Testing =>
      if c.expels then s.(children := s.children[i := c.(pc := Exited)])
      else s.(late := s.late + (if c.pending then 1 else 0), children := s.children[i := c.(pc := Posting)])
    case Posting => s.(received := s.received + 1, children := s.children[i := c.(pc := Printing)])
    case Printing => s.(printed := s.printed + [s.smoker], children := s.children[i := c.(pc := Waiting)])
    case _ => s
  }

  function DeliveryStep(s: State, i: nat): (s': State)
    requires Shaped(s) && Enabled(s, Delivery(i))
    ensures Shaped(s')
  {
    s.(children := s.children[i := s.children[i].(expels := true, pending := false)])
  }

  function Step(s: State, actor: Actor): (s': State)
    requires Shaped(s) && Enabled(s, actor)
    ensures Shaped(s')
  {
    match actor
    case Parent => ParentStep(s)
    case Smoker(i) => SmokerStep(s, i)
    case Delivery(i) => DeliveryStep(s, i)
  }

  predicate ValidRun(s: State, schedule: seq<Actor>)
    requires Shaped(s)
    decreases |schedule|
  {
    schedule == [] || (Enabled(s, schedule[0]) && ValidRun(Step(s, schedule[0]), schedule[1..]))
  }

  function Exec(s: State, schedule: seq<Actor>): (s': State)
    requires Shaped(s) && ValidRun(s, schedule)
    ensures Shaped(s')
    decreases |schedule|
  {
    if schedule == [] then s else Exec(Step(s, schedule[0]), schedule[1..])
  }

  // ---------------------------------------------------------------- what every step keeps

  predicate Open(s: State) { s.parent.Reading? || s.parent.Serving? || s.parent.Awaiting? }

  /** How many of the three children are at `pc`. */
  function At(children: seq<Child>, pc: ChildPc): nat
    requires |children| == 3
  {
    (if children[0].pc == pc then 1 else 0) + (if children[1].pc == pc then 1 else 0)
    + (if children[2].pc == pc then 1 else 0)
  }

  /** Before the shutdown no child is marked, signalled or gone; once its signal is sent, a child that is
      not gone is marked or has the signal pending. */
  ghost predicate SignalInv(s: State)
    requires Shaped(s)
  {
    forall i :: 0 <= i < 3 ==>
      var c := s.children[i];
      if Open(s) || (s.parent.Kill? && s.parent.n <= i) then !c.expels && !c.pending && !Gone(c)
      else !c.pc.Starting? && (Gone(c) || c.expels || c.pending)
  }

  /** While the tavern is open, one token is under way exactly while the parent awaits it. */
  ghost predicate HandshakeInv(s: State)
    requires Shaped(s)
  {
    Open(s) ==>
      && s.bartender + s.received + At(s.children, Testing) + At(s.children, Posting)
         == (if s.parent.Awaiting? then 1 else 0)
      && s.late == 0
      && |s.printed| + s.bartender + At(s.children, Testing) + At(s.children, Posting) + At(s.children, Printing)
         + (if s.parent.Serving? then 1 else 0) == s.letters
  }

  /** The shutdown posts made so far. */
  function Released(s: State): nat {
    if s.parent.Release? then s.parent.n else if s.parent.Join? || s.parent.Ended? then 3 else 0
  }

  /** In the shutdown every post is still there, in a child's hands, spent on an exit or spent on a late
      test, and every late test prints one letter too many. */
  ghost predicate ShutdownInv(s: State)
    requires Shaped(s)
  {
    !Open(s) ==>
      && s.bartender + At(s.children, Testing) + At(s.children, Exited) + s.late == Released(s)
      && s.received + At(s.children, Posting) == s.late
      && |s.printed| + At(s.children, Posting) + At(s.children, Printing) == s.letters + s.late
  }

  ghost predicate JoinInv(s: State)
    requires Shaped(s)
  {
    forall i :: 0 <= i < 3 && ((s.parent.Join? && i < s.parent.n) || s.parent.Ended?) ==> Gone(s.children[i])
  }

  function Asked(input: string): nat {
    if input == "" then 0
    else Asked(input[..|input| - 1]) + if input[|input| - 1] in "tpm" then 1 else 0
  }

  /** The part of the input that is read before the shutdown. */
  ghost predicate InputInv(s: State) {
    && s.pos <= |s.input|
    && s.letters == Asked(s.input[..s.pos])
    && (Open(s) ==> '\n' !in s.input[..s.pos])
    && (!Open(s) ==> 0 < s.pos && s.input[s.pos - 1] == '\n' && '\n' !in s.input[..s.pos - 1])
  }

  ghost predicate Inv(s: State) {
    Shaped(s) && SignalInv(s) && HandshakeInv(s) && ShutdownInv(s) && JoinInv(s) && InputInv(s)
  }

  lemma ParentSignalInv(s: State)
    requires Inv(s) && Enabled(s, Parent)
    ensures SignalInv(ParentStep(s)) && JoinInv(ParentStep(s))
  {
  }

  /** Replacing one child moves one unit from its old place to its new one. */
  lemma AtUpdate(children: seq<Child>, i: nat, c: Child)
    requires |children| == 3 && i < 3
    ensures forall pc :: At(children[i := c], pc)
                      == At(children, pc) - (if children[i].pc == pc then 1 else 0) + (if c.pc == pc then 1 else 0)
  {
  }

  lemma NoneGone(s: State)
    requires Shaped(s) && SignalInv(s) && Open(s)
    ensures At(s.children, Exited) == 0 && At(s.children, Killed) == 0
  {
    assert !Gone(s.children[0]) && !Gone(s.children[1]) && !Gone(s.children[2]);
  }

  lemma KillTokens(s: State)
    requires Shaped(s) && ShutdownInv(s) && s.parent.Kill?
    ensures ShutdownInv(ParentStep(s))
  {
    AtUpdate(s.children, s.parent.n, Signalled(s.children[s.parent.n]));
  }

  lemma OpenTokens(s: State)
    requires Shaped(s) && HandshakeInv(s) && Open(s) && Enabled(s, Parent) && At(s.children, Exited) == 0
    ensures HandshakeInv(ParentStep(s)) && ShutdownInv(ParentStep(s))
  {
    assert ParentStep(s).children == s.children;
  }

  lemma ParentTokens(s: State)
    requires Inv(s) && Enabled(s, Parent)
    ensures HandshakeInv(ParentStep(s)) && ShutdownInv(ParentStep(s))
  {
    if s.parent.Kill? {
      KillTokens(s);
    } else if Open(s) {
      NoneGone(s);
      OpenTokens(s);
    }
  }

  lemma ParentInputInv(s: State)
    requires Shaped(s) && InputInv(s) && Enabled(s, Parent)
    ensures InputInv(ParentStep(s))
  {
    if s.parent.Reading? && s.pos < |s.input| {
      assert s.input[..s.pos + 1] == s.input[..s.pos] + [s.input[s.pos]];
      assert s.input[..s.pos + 1][..s.pos] == s.input[..s.pos];
    }
  }

  lemma SmokerSignals(s: State, i: nat)
    requires Shaped(s) && SignalInv(s) && JoinInv(s) && Enabled(s, Smoker(i))
    ensures SignalInv(SmokerStep(s, i)) && JoinInv(SmokerStep(s, i))
  {
  }

  lemma SmokerInput(s: State, i: nat)
    requires Shaped(s) && InputInv(s) && Enabled(s, Smoker(i))
    ensures InputInv(SmokerStep(s, i))
  {
    var s' := SmokerStep(s, i);
    assert s'.pos == s.pos && s'.input == s.input && s'.letters == s.letters && s'.parent == s.parent;
  }

  lemma SmokerHandshake(s: State, i: nat)
    requires Inv(s) && Enabled(s, Smoker(i))
    ensures HandshakeInv(SmokerStep(s, i))
  {
    if Open(s) {
      assert !s.children[i].expels && !s.children[i].pending;
      AtUpdate(s.children, i, SmokerStep(s, i).children[i]);
    }
  }

  /** A child can hold a token of the shutdown only after all three signals are sent. */
  lemma NoTestYet(s: State, i: nat)
    requires Inv(s) && !Open(s) && i < 3 && s.children[i].pc.Testing?
    ensures s.children[i].expels || s.children[i].pending
  {
    assert 0 < At(s.children, Testing);
  }

  /** The effect of one replacement on the four places that the shutdown counts. */
  lemma TokensMoved(children: seq<Child>, i: nat, c: Child)
    requires |children| == 3 && i < 3
    ensures var r, d := children[i := c], children[i];
            && At(r, Testing) == At(children, Testing)
                 - (if d.pc.Testing? then 1 else 0) + (if c.pc.Testing? then 1 else 0)
            && At(r, Posting) == At(children, Posting)
                 - (if d.pc.Posting? then 1 else 0) + (if c.pc.Posting? then 1 else 0)
            && At(r, Printing) == At(children, Printing)
                 - (if d.pc.Printing? then 1 else 0) + (if c.pc.Printing? then 1 else 0)
            && At(r, Exited) == At(children, Exited)
                 - (if d.pc.Exited? then 1 else 0) + (if c.pc.Exited? then 1 else 0)
  {
  }

  lemma SmokerTokens(s: State, i: nat)
    requires Shaped(s) && ShutdownInv(s) && !Open(s) && Enabled(s, Smoker(i))
    requires s.children[i].pc.Testing? ==> s.children[i].expels || s.children[i].pending
    ensures ShutdownInv(SmokerStep(s, i))
  {
    var s' := SmokerStep(s, i);
    var c := s'.children[i];
    TokensMoved(s.children, i, c);
    assert s'.children == s.children[i := c] && s'.parent == s.parent && s'.letters == s.letters;
  }

  lemma SmokerShutdown(s: State, i: nat)
    requires Inv(s) && Enabled(s, Smoker(i))
    ensures ShutdownInv(SmokerStep(s, i))
  {
    if !Open(s) {
      if s.children[i].pc.Testing? {
        NoTestYet(s, i);
      }
      SmokerTokens(s, i);
    }
  }

  lemma SmokerInv(s: State, i: nat)
    requires Inv(s) && Enabled(s, Smoker(i))
    ensures Inv(SmokerStep(s, i))
  {
    SmokerSignals(s, i);
    SmokerInput(s, i);
    SmokerHandshake(s, i);
    SmokerShutdown(s, i);
  }

  lemma DeliverySignals(s: State, i: nat)
    requires Shaped(s) && SignalInv(s) && JoinInv(s) && Enabled(s, Delivery(i))
    ensures SignalInv(DeliveryStep(s, i)) && JoinInv(DeliveryStep(s, i))
  {
  }

  lemma DeliveryInv(s: State, i: nat)
    requires Inv(s) && Enabled(s, Delivery(i))
    ensures Inv(DeliveryStep(s, i))
  {
    DeliverySignals(s, i);
    TokensMoved(s.children, i, DeliveryStep(s, i).children[i]);
  }

  lemma StepInv(s: State, actor: Actor)
    requires Inv(s) && Enabled(s, actor)
    ensures Inv(Step(s, actor))
  {
    match actor
    case Parent =>
      ParentSignalInv(s);
      ParentTokens(s);
      ParentInputInv(s);
    case Smoker(i) => SmokerInv(s, i);
    case Delivery(i) => DeliveryInv(s, i);
  }

  // ---------------------------------------------------------------- progress

  /** Nothing can step any more. */
  ghost predicate Terminal(s: State)
    requires Shaped(s)
  {
    forall actor :: !Enabled(s, actor)
  }

  lemma AllSomewhere(children: seq<Child>)
    requires |children| == 3
    ensures At(children, Starting) + At(children, Waiting) + At(children, Testing) + At(children, Posting)
            + At(children, Printing) + At(children, Exited) + At(children, Killed) == 3
  {
  }

  lemma TerminalChildren(s: State)
    requires Shaped(s) && Terminal(s)
    ensures At(s.children, Starting) == At(s.children, Testing) == 0
    ensures At(s.children, Posting) == At(s.children, Printing) == 0
    ensures 0 < At(s.children, Waiting) ==> s.bartender == 0
  {
    assert !Enabled(s, Smoker(0)) && !Enabled(s, Smoker(1)) && !Enabled(s, Smoker(2));
  }

  lemma AllGone(s: State)
    requires Shaped(s) && JoinInv(s) && s.parent.Ended?
    ensures At(s.children, Exited) + At(s.children, Killed) == 3
  {
    assert Gone(s.children[0]) && Gone(s.children[1]) && Gone(s.children[2]);
  }

  /** A run that can go no further has come to its end exactly if the late tests are no more than the
      children killed before they had a handler; otherwise the parent waits for ever for a child that waits
      for a token. */
  lemma TerminalIff(s: State)
    requires Inv(s) && Terminal(s)
    ensures s.parent.Ended? <==> s.late <= At(s.children, Killed)
    ensures s.parent.Ended? || s.parent.Join?
  {
    assert !Enabled(s, Parent);
    TerminalChildren(s);
    AllSomewhere(s.children);
    if s.parent.Join? {
      var c := s.children[s.parent.n];
      assert !Gone(c) && !c.pc.Starting?;
      assert !Enabled(s, Smoker(s.parent.n));
      assert 0 < At(s.children, Waiting);
    } else if s.parent.Awaiting? {
      NoneGone(s);
    } else {
      AllGone(s);
    }
  }

  function ChildWeight(c: Child): nat {
    (if Gone(c) then 0 else if c.pending then 1 else 0)
    + match c.pc
      case Starting => 2
      case Waiting => 1
      case Testing => 5
      case Posting => 4
      case Printing => 2
      case _ => 0
  }

  function ParentWeight(s: State): nat
    requires s.pos <= |s.input|
  {
    10 * (|s.input| - s.pos)
    + match s.parent
      case Reading => 50
      case Serving => 59
      case Awaiting => 53
      case Kill(n) => if n < 3 then 46 - 2 * n else 0
      case Release(n) => if n < 3 then 38 - 6 * n else 0
      case Join(n) => if n < 3 then 4 - n else 0
      case Ended => 0
  }

  /** What is left to do, once the input is known to hold a newline. */
  function Measure(s: State): nat
    requires Shaped(s) && s.pos <= |s.input|
  {
    ParentWeight(s) + 5 * s.bartender + s.received
    + ChildWeight(s.children[0]) + ChildWeight(s.children[1]) + ChildWeight(s.children[2])
  }

  lemma ParentWeights(s: State)
    requires Shaped(s) && s.pos <= |s.input| && Enabled(s, Parent) && (s.parent.Reading? ==> s.pos < |s.input|)
    ensures var s' := ParentStep(s);
            s'.pos <= |s'.input| && ParentWeight(s') + 5 * s'.bartender + s'.received
            < ParentWeight(s) + 5 * s.bartender + s.received - (if s.parent.Kill? then 1 else 0)
  {
  }

  lemma NewlineAhead(s: State)
    requires InputInv(s) && Open(s) && '\n' in s.input
    ensures s.pos < |s.input|
  {
    assert s.input[..|s.input|] == s.input;
  }

  lemma ParentMeasure(s: State)
    requires Inv(s) && '\n' in s.input && Enabled(s, Parent)
    ensures ParentStep(s).pos <= |ParentStep(s).input| && Measure(ParentStep(s)) < Measure(s)
  {
    if s.parent.Reading? {
      NewlineAhead(s);
    }
    ParentWeights(s);
    if s.parent.Kill? {
      assert ChildWeight(Signalled(s.children[s.parent.n])) <= ChildWeight(s.children[s.parent.n]) + 1;
    }
  }

  lemma SmokerWeights(s: State, i: nat)
    requires Shaped(s) && Enabled(s, Smoker(i))
    ensures var s' := SmokerStep(s, i);
            5 * s'.bartender + s'.received + ChildWeight(s'.children[i])
            < 5 * s.bartender + s.received + ChildWeight(s.children[i])
  {
  }

  lemma SmokerMeasure(s: State, i: nat)
    requires Shaped(s) && s.pos <= |s.input| && Enabled(s, Smoker(i))
    ensures SmokerStep(s, i).pos == s.pos && SmokerStep(s, i).input == s.input
    ensures Measure(SmokerStep(s, i)) < Measure(s)
  {
    var s' := SmokerStep(s, i);
    SmokerWeights(s, i);
    assert ParentWeight(s') == ParentWeight(s);
    assert s'.children == s.children[i := s'.children[i]];
  }

  lemma DeliveryMeasure(s: State, i: nat)
    requires Shaped(s) && s.pos <= |s.input| && Enabled(s, Delivery(i))
    ensures DeliveryStep(s, i).pos == s.pos && DeliveryStep(s, i).input == s.input
    ensures Measure(DeliveryStep(s, i)) < Measure(s)
  {
    var s' := DeliveryStep(s, i);
    assert ParentWeight(s') == ParentWeight(s);
    assert ChildWeight(s'.children[i]) < ChildWeight(s.children[i]);
  }

  /** With a newline in the input every step brings the end nearer, so no run is infinite. */
  lemma StepMeasure(s: State, actor: Actor)
    requires Inv(s) && '\n' in s.input && Enabled(s, actor)
    ensures Inv(Step(s, actor)) && Measure(Step(s, actor)) < Measure(s) && Step(s, actor).input == s.input
  {
    match actor
    case Parent =>
      StepInv(s, actor);
      ParentMeasure(s);
    case Smoker(i) =>
      StepInv(s, actor);
      SmokerMeasure(s, i);
    case Delivery(i) =>
      StepInv(s, actor);
      DeliveryMeasure(s, i);
  }

  // ---------------------------------------------------------------- whole runs

  lemma StepGood(s: State, actor: Actor)
    requires Inv(s) && Enabled(s, actor)
    ensures Inv(Step(s, actor)) && Step(s, actor).input == s.input
    ensures '\n' in s.input ==> Measure(Step(s, actor)) < Measure(s)
  {
    StepInv(s, actor);
    if '\n' in s.input {
      StepMeasure(s, actor);
    }
  }

  lemma {:induction false} RunInv(s: State, schedule: seq<Actor>)
    requires Inv(s) && ValidRun(s, schedule)
    ensures Inv(Exec(s, schedule)) && Exec(s, schedule).input == s.input
    ensures '\n' in s.input ==> |schedule| + Measure(Exec(s, schedule)) <= Measure(s)
    decreases |schedule|
  {
    if schedule != [] {
      StepGood(s, schedule[0]);
      RunInv(Step(s, schedule[0]), schedule[1..]);
    }
  }

  lemma InitInv(input: string)
    ensures Inv(Init(input))
  {
    assert input[..0] == "";
  }

  /** Every run. While the tavern is open the two semaphores and the children between their wait and their
      post hold one token exactly while the parent awaits it. A run that has ended has printed one letter
      for each t, p or m of the first line, and one more for each late test. A run that can go no further
      has ended exactly if its late tests are no more than the children killed unready. */
  lemma EveryRun(input: string, schedule: seq<Actor>)
    requires ValidRun(Init(input), schedule)
    ensures var s := Exec(Init(input), schedule);
            && Inv(s) && s.input == input
            && (Open(s) ==> s.bartender + s.received + At(s.children, Testing) + At(s.children, Posting)
                            == (if s.parent.Awaiting? then 1 else 0))
            && (s.parent.Ended? ==> |s.printed| == Asked(input[..s.pos]) + s.late && s.late <= At(s.children, Killed))
            && (Terminal(s) ==> (s.parent.Ended? <==> s.late <= At(s.children, Killed)))
            && ('\n' in input ==> |schedule| <= 10 * |input| + 56)
  {
    var s := Exec(Init(input), schedule);
    InitInv(input);
    RunInv(Init(input), schedule);
    if Terminal(s) {
      TerminalIff(s);
    }
    if s.parent.Ended? {
      AllGone(s);
    }
  }

  /** If no child tests `expels` with its signal pending, the run cannot hang, and it prints exactly the
      letters asked for. */
  lemma PromptRuns(input: string, schedule: seq<Actor>)
    requires ValidRun(Init(input), schedule) && Exec(Init(input), schedule).late == 0
    ensures var s := Exec(Init(input), schedule);
            && Inv(s) && s.input == input
            && (Terminal(s) ==> s.parent.Ended?)
            && (s.parent.Ended? ==> |s.printed| == Asked(input[..s.pos]))
  {
    EveryRun(input, schedule);
  }

  /** One of the orders in `orders` asks for the letter `c`. */
  ghost predicate Ordered(orders: string, c: char) {
    exists j :: 0 <= j < |orders|
                && ((orders[j] == 't' && c == 'T') || (orders[j] == 'p' && c == 'P') || (orders[j] == 'm' && c == 'M'))
  }

  /** What is printed, or would be printed now: a letter asked for, or the initial zero if none was. */
  ghost predicate LetterOk(s: State, c: char)
    requires s.pos <= |s.input|
  {
    if s.letters == 0 then c == '\0' else Ordered(s.input[..s.pos], c)
  }

  ghost predicate LettersInv(s: State)
    requires s.pos <= |s.input|
  {
    LetterOk(s, s.smoker) && forall n :: 0 <= n < |s.printed| ==> LetterOk(s, s.printed[n])
  }

  lemma OrderedLonger(orders: string, o: char, c: char)
    ensures Ordered(orders, c) ==> Ordered(orders + [o], c)
    ensures o == 't' ==> Ordered(orders + [o], 'T')
    ensures o == 'p' ==> Ordered(orders + [o], 'P')
    ensures o == 'm' ==> Ordered(orders + [o], 'M')
  {
    var longer := orders + [o];
    assert longer[|orders|] == o;
    if Ordered(orders, c) {
      var j :| 0 <= j < |orders|
               && ((orders[j] == 't' && c == 'T') || (orders[j] == 'p' && c == 'P') || (orders[j] == 'm' && c == 'M'));
      assert longer[j] == orders[j];
    }
  }

  lemma ReadingLetters(s: State)
    requires Inv(s) && LettersInv(s) && s.parent.Reading? && s.pos < |s.input|
    ensures s.pos + 1 <= |s.input| && LettersInv(ParentStep(s))
  {
    var s' := ParentStep(s);
    assert s.input[..s.pos + 1] == s.input[..s.pos] + [s.input[s.pos]];
    assert s.letters == 0 ==> s.printed == [];
    OrderedLonger(s.input[..s.pos], s.input[s.pos], s.smoker);
    forall n | 0 <= n < |s'.printed| ensures LetterOk(s', s'.printed[n]) {
      OrderedLonger(s.input[..s.pos], s.input[s.pos], s.printed[n]);
    }
  }

  lemma StepLetters(s: State, actor: Actor)
    requires Inv(s) && LettersInv(s) && Enabled(s, actor)
    ensures Step(s, actor).pos <= |Step(s, actor).input| && LettersInv(Step(s, actor))
  {
    if actor.Parent? && s.parent.Reading? && s.pos < |s.input| {
      ReadingLetters(s);
    }
  }

  lemma {:induction false} RunLetters(s: State, schedule: seq<Actor>)
    requires Inv(s) && LettersInv(s) && ValidRun(s, schedule)
    ensures Exec(s, schedule).pos <= |Exec(s, schedule).input| && LettersInv(Exec(s, schedule))
    decreases |schedule|
  {
    if schedule != [] {
      StepInv(s, schedule[0]);
      StepLetters(s, schedule[0]);
      RunLetters(Step(s, schedule[0]), schedule[1..]);
    }
  }

  /** What is printed stays printed: a run only ever adds at the end. */
  lemma {:induction false} PrintedGrows(s: State, schedule: seq<Actor>)
    requires Shaped(s) && ValidRun(s, schedule)
    ensures s.printed <= Exec(s, schedule).printed
    decreases |schedule|
  {
    if schedule != [] {
      PrintedGrows(Step(s, schedule[0]), schedule[1..]);
    }
  }

  /** Every letter printed is one that the input asked for; a child that tests late before any order prints
      the zero that the shared letter starts with. */
  lemma PrintedLetters(input: string, schedule: seq<Actor>)
    requires ValidRun(Init(input), schedule)
    ensures var s := Exec(Init(input), schedule);
            && Inv(s) && s.input == input
            && forall n :: 0 <= n < |s.printed| ==>
                 if Asked(input[..s.pos]) == 0 then s.printed[n] == '\0' else Ordered(input[..s.pos], s.printed[n])
  {
    InitInv(input);
    RunInv(Init(input), schedule);
    RunLetters(Init(input), schedule);
  }

  lemma OnlyLetter(orders: string, order: char, letter: char, c: char)
    requires Ordered(orders, c) && (order, letter) in {('t', 'T'), ('p', 'P'), ('m', 'M')}
    requires forall j :: 0 <= j < |orders| && orders[j] in "tpm" ==> orders[j] == order
    ensures c == letter
  {
    var j :| 0 <= j < |orders|
             && ((orders[j] == 't' && c == 'T') || (orders[j] == 'p' && c == 'P') || (orders[j] == 'm' && c == 'M'));
    assert orders[j] in "tpm";
  }

  /** If all orders are of one kind, a run that ends without late tests has printed exactly its letter, once
      for each of them. */
  lemma OneKindOfOrder(input: string, schedule: seq<Actor>, order: char, letter: char)
    requires (order, letter) in {('t', 'T'), ('p', 'P'), ('m', 'M')}
    requires forall j :: 0 <= j < |input| && input[j] in "tpm" ==> input[j] == order
    requires ValidRun(Init(input), schedule) && Exec(Init(input), schedule).late == 0
    requires Exec(Init(input), schedule).parent.Ended?
    ensures var s := Exec(Init(input), schedule);
            s.pos <= |input| && s.printed == seq(Asked(input[..s.pos]), _ => letter)
  {
    PrintedLetters(input, schedule);
    PromptRuns(input, schedule);
    var s := Exec(Init(input), schedule);
    if Asked(input[..s.pos]) != 0 {
      forall n | 0 <= n < |s.printed| ensures s.printed[n] == letter {
        OnlyLetter(input[..s.pos], order, letter, s.printed[n]);
      }
    }
  }

  ghost predicate Deliverable(s: State)
    requires Shaped(s)
  {
    exists i :: Enabled(s, Delivery(i))
  }

  /** The scheduler delivers every signal that can be delivered before it lets anything else happen. */
  ghost predicate DeliversFirst(s: State, schedule: seq<Actor>)
    requires Shaped(s) && ValidRun(s, schedule)
    decreases |schedule|
  {
    schedule == []
    || ((Deliverable(s) ==> schedule[0].Delivery?) && DeliversFirst(Step(s, schedule[0]), schedule[1..]))
  }

  lemma PromptStep(s: State, actor: Actor)
    requires Inv(s) && s.late == 0 && Enabled(s, actor) && (Deliverable(s) ==> actor.Delivery?)
    ensures Step(s, actor).late == 0
  {
    if actor.Smoker? {
      assert !Enabled(s, Delivery(actor.i));
    }
  }

  lemma {:induction false} DeliversFirstIsPrompt(s: State, schedule: seq<Actor>)
    requires Inv(s) && s.late == 0 && ValidRun(s, schedule) && DeliversFirst(s, schedule)
    ensures Exec(s, schedule).late == 0
    decreases |schedule|
  {
    if schedule != [] {
      PromptStep(s, schedule[0]);
      StepInv(s, schedule[0]);
      DeliversFirstIsPrompt(Step(s, schedule[0]), schedule[1..]);
    }
  }

  /** Delivering signals first always finishes the run: no such run hangs, none is longer than the bound,
      and one that has ended has printed the letters asked for. */
  lemma DeliveringFirstFinishes(input: string, schedule: seq<Actor>)
    requires ValidRun(Init(input), schedule) && DeliversFirst(Init(input), schedule)
    ensures var s := Exec(Init(input), schedule);
            && Inv(s) && s.input == input
            && (Terminal(s) ==> s.parent.Ended?)
            && (s.parent.Ended? ==> |s.printed| == Asked(input[..s.pos]))
            && ('\n' in input ==> |schedule| <= 10 * |input| + 56)
  {
    InitInv(input);
    DeliversFirstIsPrompt(Init(input), schedule);
    PromptRuns(input, schedule);
    EveryRun(input, schedule);
  }

  lemma PromptActor(s: State) returns (actor: Actor)
    requires Inv(s) && s.late == 0 && !s.parent.Ended?
    ensures Enabled(s, actor) && Step(s, actor).late == 0 && (Deliverable(s) ==> actor.Delivery?)
  {
    if Deliverable(s) {
      var i :| Enabled(s, Delivery(i));
      actor := Delivery(i);
    } else {
      if Terminal(s) {
        TerminalIff(s);
      }
      actor :| Enabled(s, actor);
    }
    PromptStep(s, actor);
  }

  /** From every state without late tests a scheduler that delivers every signal first can finish the run. */
  lemma {:induction false} CompletingRun(s: State) returns (schedule: seq<Actor>)
    requires Inv(s) && '\n' in s.input && s.late == 0
    ensures ValidRun(s, schedule) && DeliversFirst(s, schedule) && Exec(s, schedule).parent.Ended?
    decreases Measure(s)
  {
    if s.parent.Ended? {
      schedule := [];
    } else {
      var actor := PromptActor(s);
      StepMeasure(s, actor);
      var rest := CompletingRun(Step(s, actor));
      schedule := [actor] + rest;
      assert schedule[1..] == rest;
    }
  }

  predicate Ends(input: string, schedule: seq<Actor>) {
    ValidRun(Init(input), schedule) && Exec(Init(input), schedule).parent.Ended?
  }

  /** The program can end exactly on inputs with a newline; on others the parent reads the end of the file
      for ever. */
  lemma EndsIff(input: string)
    ensures (exists schedule :: Ends(input, schedule)) <==> '\n' in input
  {
    InitInv(input);
    if '\n' in input {
      var schedule := CompletingRun(Init(input));
      assert Ends(input, schedule);
    } else {
      forall schedule | ValidRun(Init(input), schedule) ensures !Ends(input, schedule) {
        RunInv(Init(input), schedule);
      }
    }
  }

  lemma {:induction false} ExecAppended(s: State, first: seq<Actor>, more: seq<Actor>)
    requires Shaped(s) && ValidRun(s, first) && ValidRun(Exec(s, first), more)
    ensures ValidRun(s, first + more) && Exec(s, first + more) == Exec(Exec(s, first), more)
    decreases |first|
  {
    if first == [] {
      assert first + more == more;
    } else {
      assert (first + more)[1..] == first[1..] + more;
      ExecAppended(Step(s, first[0]), first[1..], more);
    }
  }

  lemma One(s: State, a: Actor)
    requires Shaped(s) && Enabled(s, a)
    ensures ValidRun(s, [a]) && Exec(s, [a]) == Step(s, a)
  {
    assert [a][1..] == [];
    assert Exec(Step(s, a), []) == Step(s, a);
  }

  lemma Extend(s: State, run: seq<Actor>, a: Actor, b: Actor) returns (longer: seq<Actor>)
    requires Shaped(s) && ValidRun(s, run) && Enabled(Exec(s, run), a) && Enabled(Step(Exec(s, run), a), b)
    ensures ValidRun(s, longer) && Exec(s, longer) == Step(Step(Exec(s, run), a), b)
  {
    One(Exec(s, run), a);
    ExecAppended(s, run, [a]);
    One(Exec(s, run + [a]), b);
    ExecAppended(s, run + [a], [b]);
    longer := run + [a] + [b];
  }

  lemma SignallingRun() returns (run: seq<Actor>)
    ensures ValidRun(Init("x\n"), run)
    ensures var c := Child(Waiting, false, false);
            Exec(Init("x\n"), run)
            == State("x\n", 2, Kill(1), '\0', 0, 0, [c.(pending := true), c, c], "", 0, 0)
  {
    var s := Init("x\n");
    run := [];
    run := Extend(s, run, Smoker(0), Smoker(1));
    run := Extend(s, run, Smoker(2), Parent);
    run := Extend(s, run, Parent, Parent);
  }

  lemma ShutdownRun() returns (run: seq<Actor>)
    ensures ValidRun(Init("x\n"), run)
    ensures var c := Child(Waiting, false, true);
            Exec(Init("x\n"), run) == State("x\n", 2, Release(2), '\0', 2, 0, [c, c, c], "", 0, 0)
  {
    var s := Init("x\n");
    run := SignallingRun();
    run := Extend(s, run, Parent, Parent);
    run := Extend(s, run, Parent, Parent);
  }

  lemma LateTestRun() returns (run: seq<Actor>)
    ensures ValidRun(Init("x\n"), run)
    ensures var c := Child(Waiting, false, true);
            Exec(Init("x\n"), run)
            == State("x\n", 2, Join(0), '\0', 2, 1, [Child(Waiting, true, false), c, c], ['\0'], 0, 1)
  {
    var s := Init("x\n");
    run := ShutdownRun();
    run := Extend(s, run, Parent, Smoker(0));
    run := Extend(s, run, Smoker(0), Smoker(0));
    run := Extend(s, run, Smoker(0), Delivery(0));
  }

  lemma HungRun() returns (run: seq<Actor>)
    ensures ValidRun(Init("x\n"), run)
    ensures var c := Child(Exited, true, false);
            Exec(Init("x\n"), run)
            == State("x\n", 2, Join(0), '\0', 0, 1, [Child(Waiting, true, false), c, c], ['\0'], 0, 1)
  {
    var s := Init("x\n");
    run := LateTestRun();
    run := Extend(s, run, Delivery(1), Delivery(2));
    run := Extend(s, run, Smoker(1), Smoker(1));
    run := Extend(s, run, Smoker(2), Smoker(2));
  }

  /** A late delivery hangs the program: a child passes its test with the signal pending, spends a token of
      the shutdown on a letter nobody asked for, and waits for ever. */
  lemma LateDeliveryHangs() returns (run: seq<Actor>)
    ensures ValidRun(Init("x\n"), run)
    ensures var s := Exec(Init("x\n"), run);
            Terminal(s) && !s.parent.Ended? && s.late == 1 && |s.printed| == 1 && s.letters == 0
  {
    run := HungRun();
    var s := Exec(Init("x\n"), run);
    forall actor ensures !Enabled(s, actor) {
      if actor.Delivery? || actor.Smoker? {
        assert actor.i == 0 || actor.i == 1 || actor.i == 2 || 3 <= actor.i;
      }
    }
  }

  // ---------------------------------------------------------------- the program

  /** The shared state and the processes' own variables, changed in place. */
  class Tavern {
    const input: string
    const children: array<Child>
    var pos: nat
    var parent: ParentPc
    var smoker: char
    var bartender: nat
    var received: nat
    var printed: string
    ghost var letters: nat
    ghost var late: nat

    ghost function View(): State
      reads this, children
    {
      State(input, pos, parent, smoker, bartender, received, children[..], printed, letters, late)
    }

    constructor (input: string)
      ensures fresh(children) && View() == Init(input)
    {
      this.input := input;
      children := new Child[3](_ => Child(Starting, false, false));
      pos, parent, smoker, bartender, received := 0, Reading, '\0', 0, 0;
      printed, letters, late := "", 0, 0;
    }

    method Order(c: char)
      modifies this`smoker, this`parent, this`letters
      ensures smoker == c && parent == Serving && letters == old(letters) + 1
    {
      smoker := c;
      parent := Serving;
      letters := letters + 1;
    }

    /** The parent executes its next statement. */
    method Serve()
      requires Shaped(View()) && Enabled(View(), Parent)
      modifies this, children
      ensures View() == ParentStep(old(View()))
    {
      match parent
      case Reading =>
        if pos < |input| {
          var letter := input[pos];
          pos := pos + 1;
          if letter == '\n' {
            parent := Kill(0);
          } else if letter == 't' {
            Order('T');
          } else if letter == 'p' {
            Order('P');
          } else if letter == 'm' {
            Order('M');
          }
        }
      case Serving =>
        bartender := bartender + 1;
        parent := Awaiting;
      case Awaiting =>
        received := received - 1;
        parent := Reading;
      case Kill(n) =>
        var c := children[n];
        if c.pc == Starting {
          children[n] := c.(pc := Killed);
        } else if c.pc != Exited && c.pc != Killed {
          children[n] := c.(pending := true);
        }
        parent := if n < 2 then Kill(n + 1) else Release(0);
      case Release(n) =>
        bartender := bartender + 1;
        parent := if n < 2 then Release(n + 1) else Join(0);
      case Join(n) =>
        parent := if n < 2 then Join(n + 1) else Ended;
    }

    /** Child `i` executes its next statement. */
    method Smoke(i: nat)
      requires Shaped(View()) && Enabled(View(), Smoker(i))
      modifies this, children
      ensures View() == SmokerStep(old(View()), i)
    {
      var c := children[i];
      match c.pc
      case Starting =>
        children[i] := c.(pc := Waiting);
      case Waiting =>
        bartender := bartender - 1;
        children[i] := c.(pc := Testing);
      case Testing =>
        if c.expels {
          children[i] := c.(pc := Exited);
        } else {
          late := late + if c.pending then 1 else 0;
          children[i] := c.(pc := Posting);
        }
      case Posting =>
        received := received + 1;
        children[i] := c.(pc := Printing);
      case Printing =>
        printed := printed + [smoker];
        children[i] := c.(pc := Waiting);
    }

    /** The handler runs in child `i`. */
    method Handler(i: nat)
      requires Shaped(View()) && Enabled(View(), Delivery(i))
      modifies children
      ensures View() == DeliveryStep(old(View()), i)
    {
      children[i] := children[i].(expels := true, pending := false);
    }

    method Run(schedule: seq<Actor>)
      requires Shaped(View()) && ValidRun(View(), schedule)
      modifies this, children
      ensures View() == Exec(old(View()), schedule)
    {
      for n := 0 to |schedule|
        invariant Shaped(View()) && ValidRun(View(), schedule[n..])
        invariant Exec(View(), schedule[n..]) == Exec(old(View()), schedule)
      {
        ghost var rest := schedule[n..];
        assert rest[0] == schedule[n] && rest[1..] == schedule[n + 1..];
        match schedule[n]
        case Parent => Serve();
        case Smoker(i) => Smoke(i);
        case Delivery(i) => Handler(i);
      }
    }
  }
}
