/** `read_data_and_count` of inf17-0/main.c: reads several descriptors to their ends as epoll reports them,
    and counts the bytes. */
module DescriptorCount {
  import opened Sums

  const BUFFER_SIZE: nat := 4096

  /** `data_t`, with the number of times that its descriptor was closed. */
  datatype Data = Data(bytesRead: nat, isReceived: bool, closes: nat)

  /** One reported event and what `read` answers if it is called: a count, 0 at the end, or an error. */
  datatype Event = Event(index: nat, readable: bool, answer: int)

  /** `lengths` are the bytes that the streams hold in all. */
  datatype State = State(lengths: seq<nat>, files: seq<Data>, remaining: int)

  function Init(lengths: seq<nat>): State {
    State(lengths, seq(|lengths|, _ => Data(0, false, 0)), |lengths|)
  }

  /** What epoll may report: an open descriptor, readable or hung up only, with an answer that the stream
      can give. A closed descriptor is not reported any more. */
  predicate Reported(s: State, e: Event) {
    && e.index < |s.files| == |s.lengths|
    && var d := s.files[e.index];
       && !d.isReceived
       && e.answer <= BUFFER_SIZE
       && (0 < e.answer ==> d.bytesRead + e.answer <= s.lengths[e.index])
       && (e.answer == 0 ==> d.bytesRead == s.lengths[e.index])
  }

  function Read(d: Data, e: Event): Data {
    if e.readable && 0 < e.answer then d.(bytesRead := d.bytesRead + e.answer)
    else if e.readable && e.answer == 0 then d.(isReceived := true, closes := d.closes + 1)
    else d
  }

  function Handle(s: State, e: Event): State
    requires Reported(s, e)
  {
    var d := Read(s.files[e.index], e);
    s.(files := s.files[e.index := d], remaining := if d.isReceived then s.remaining - 1 else s.remaining)
  }

  function OpenOf(d: Data): nat { if d.isReceived then 0 else 1 }

  function Opens(files: seq<Data>): (r: seq<nat>)
    ensures |r| == |files|
  {
    seq(|files|, i requires 0 <= i < |files| => OpenOf(files[i]))
  }

  /** How many descriptors are still open. */
  function OpenCount(files: seq<Data>): nat { Sum(Opens(files)) }

  function Reads(files: seq<Data>): (r: seq<nat>)
    ensures |r| == |files|
  {
    seq(|files|, i requires 0 <= i < |files| => files[i].bytesRead)
  }

  /** The bytes read of all descriptors together. */
  function BytesRead(files: seq<Data>): nat { Sum(Reads(files)) }

  ghost predicate Inv(s: State) {
    && |s.files| == |s.lengths|
    && s.remaining == OpenCount(s.files)
    && forall i :: 0 <= i < |s.files| ==>
         var d := s.files[i];
         && d.bytesRead <= s.lengths[i]
         && (d.isReceived ==> d.bytesRead == s.lengths[i])
         && d.closes == (if d.isReceived then 1 else 0)
  }

  lemma FileUpdate(files: seq<Data>, i: nat, d: Data)
    requires i < |files|
    ensures OpenCount(files[i := d]) == OpenCount(files) - OpenOf(files[i]) + OpenOf(d)
    ensures BytesRead(files[i := d]) == BytesRead(files) - files[i].bytesRead + d.bytesRead
  {
    SumUpdate(Opens(files), i, OpenOf(d));
    SumUpdate(Reads(files), i, d.bytesRead);
    assert Opens(files[i := d]) == Opens(files)[i := OpenOf(d)];
    assert Reads(files[i := d]) == Reads(files)[i := d.bytesRead];
  }

  lemma OpenBounds(files: seq<Data>)
    ensures OpenCount(files) == 0 <==> forall i :: 0 <= i < |files| ==> files[i].isReceived
    ensures OpenCount(files) == |files| <==> forall i :: 0 <= i < |files| ==> !files[i].isReceived
  {
    SumBetween(Opens(files), 0, 1);
    assert forall i :: 0 <= i < |files| ==> Opens(files)[i] == OpenOf(files[i]);
  }

  // ---------------------------------------------------------------- progress

  lemma BytesBound(files: seq<Data>, lengths: seq<nat>)
    requires |files| == |lengths| && forall i :: 0 <= i < |files| ==> files[i].bytesRead <= lengths[i]
    ensures BytesRead(files) <= Sum(lengths)
    ensures BytesRead(files) == Sum(lengths) <==> forall i :: 0 <= i < |files| ==> files[i].bytesRead == lengths[i]
  {
    SumBound(Reads(files), lengths);
    assert forall i :: 0 <= i < |files| ==> Reads(files)[i] == files[i].bytesRead;
  }

  /** The bytes still to be read and the ends still to be seen. */
  function Measure(s: State): int {
    Sum(s.lengths) - BytesRead(s.files) + OpenCount(s.files)
  }

  predicate Productive(e: Event) { e.readable && 0 <= e.answer }

  /** A step takes off exactly the bytes read, or the end if that was read, and nothing otherwise. */
  lemma StepInv(s: State, e: Event)
    requires Inv(s) && Reported(s, e)
    ensures Inv(Handle(s, e))
    ensures Measure(Handle(s, e))
         == Measure(s) - (if !Productive(e) then 0 else if e.answer == 0 then 1 else e.answer)
  {
    var d := Read(s.files[e.index], e);
    FileUpdate(s.files, e.index, d);
  }

  // ---------------------------------------------------------------- batches

  /** One answer of `epoll_wait`: each descriptor at most once, reported for the state of that moment. */
  predicate Batch(s: State, events: seq<Event>) {
    && (forall i, j :: 0 <= i < j < |events| ==> events[i].index != events[j].index)
    && (forall i :: 0 <= i < |events| ==> Reported(s, events[i]))
  }

  lemma OthersStayReported(s: State, e: Event, rest: seq<Event>)
    requires Reported(s, e) && Batch(s, rest) && forall i :: 0 <= i < |rest| ==> rest[i].index != e.index
    ensures Batch(Handle(s, e), rest)
  {
  }

  lemma BatchTail(s: State, events: seq<Event>)
    requires Batch(s, events) && events != []
    ensures Batch(Handle(s, events[0]), events[1..])
  {
    OthersStayReported(s, events[0], events[1..]);
  }

  function HandleAll(s: State, events: seq<Event>): State
    requires Batch(s, events)
    decreases |events|
  {
    if events == [] then s
    else
      BatchTail(s, events);
      HandleAll(Handle(s, events[0]), events[1..])
  }

  predicate Progress(events: seq<Event>) {
    exists i :: 0 <= i < |events| && Productive(events[i])
  }

  lemma {:induction false} BatchInv(s: State, events: seq<Event>)
    requires Inv(s) && Batch(s, events)
    ensures var s' := HandleAll(s, events);
            && Inv(s') && s'.lengths == s.lengths && Measure(s') <= Measure(s)
            && (Progress(events) ==> Measure(s') < Measure(s))
    decreases |events|
  {
    if events != [] {
      BatchTail(s, events);
      StepInv(s, events[0]);
      BatchInv(Handle(s, events[0]), events[1..]);
      if i :| 0 <= i < |events| && Productive(events[i]) {
        if i != 0 {
          assert events[1..][i - 1] == events[i];
        }
      }
    }
  }

  predicate ValidRun(s: State, batches: seq<seq<Event>>)
    decreases |batches|
  {
    batches == [] || s.remaining <= 0 || (Batch(s, batches[0]) && ValidRun(HandleAll(s, batches[0]), batches[1..]))
  }

  /** The loop over `epoll_wait`. */
  function Run(s: State, batches: seq<seq<Event>>): State
    requires ValidRun(s, batches)
    decreases |batches|
  {
    if batches == [] || s.remaining <= 0 then s else Run(HandleAll(s, batches[0]), batches[1..])
  }

  /** Every answer of `epoll_wait` has bytes or an end to read. */
  predicate ProductiveRun(batches: seq<seq<Event>>) {
    forall n :: 0 <= n < |batches| ==> Progress(batches[n])
  }

  lemma MeasureBounds(s: State)
    requires Inv(s)
    ensures 0 <= Measure(s) && (Measure(s) == 0 ==> s.remaining == 0)
  {
    BytesBound(s.files, s.lengths);
  }

  lemma {:induction false} RunInv(s: State, batches: seq<seq<Event>>)
    requires Inv(s) && ValidRun(s, batches)
    ensures Inv(Run(s, batches)) && Run(s, batches).lengths == s.lengths
    ensures ProductiveRun(batches) && Measure(s) <= |batches| ==> Run(s, batches).remaining == 0
    decreases |batches|
  {
    MeasureBounds(s);
    if batches != [] && 0 < s.remaining {
      BatchInv(s, batches[0]);
      RunInv(HandleAll(s, batches[0]), batches[1..]);
      if ProductiveRun(batches) {
        assert Progress(batches[0]);
        forall n | 0 <= n < |batches[1..]| ensures Progress(batches[1..][n]) {
          assert batches[1..][n] == batches[n + 1];
        }
      }
    }
  }

  /** In every run the counter is the number of descriptors still open and each descriptor that is through
      was closed exactly once; a run whose batches all make progress ends, after at most one batch for each
      byte and each end, and then the bytes counted are those of all streams together. */
  lemma EveryRun(lengths: seq<nat>, batches: seq<seq<Event>>)
    requires ValidRun(Init(lengths), batches)
    ensures var s := Run(Init(lengths), batches);
            && |s.files| == |lengths| && s.remaining == OpenCount(s.files)
            && (forall i :: 0 <= i < |lengths| ==> s.files[i].closes == if s.files[i].isReceived then 1 else 0)
            && (s.remaining == 0 ==> && BytesRead(s.files) == Sum(lengths)
                                     && forall i :: 0 <= i < |lengths| ==> s.files[i].closes == 1)
            && (ProductiveRun(batches) && Sum(lengths) + |lengths| <= |batches| ==> s.remaining == 0)
  {
    var s0 := Init(lengths);
    OpenBounds(s0.files);
    SumOfConstant(Reads(s0.files), 0);
    RunInv(s0, batches);
    var s := Run(s0, batches);
    OpenBounds(s.files);
    BytesBound(s.files, lengths);
  }

  // ---------------------------------------------------------------- the program

  class Counter {
    const lengths: seq<nat>
    const files: array<Data>
    var remaining: int

    ghost function View(): State
      reads this, files
    {
      State(lengths, files[..], remaining)
    }

    constructor (lengths: seq<nat>)
      ensures View() == Init(lengths) && fresh(files) && this.lengths == lengths
    {
      this.lengths := lengths;
      files := new Data[|lengths|](_ => Data(0, false, 0));
      remaining := |lengths|;
    }

    method HandleEvent(e: Event)
      requires Reported(View(), e)
      modifies this`remaining, files
      ensures View() == Handle(old(View()), e)
    {
      var data := files[e.index];
      if e.readable {
        if 0 < e.answer {
          data := data.(bytesRead := data.bytesRead + e.answer);
        } else if e.answer == 0 {
          data := data.(isReceived := true, closes := data.closes + 1);
        }
      }
      files[e.index] := data;
      if data.isReceived {
        remaining := remaining - 1;
      }
    }

    method HandleBatch(events: seq<Event>)
      requires Batch(View(), events)
      modifies this`remaining, files
      ensures View() == HandleAll(old(View()), events)
    {
      assert events[0..] == events;
      for i := 0 to |events|
        invariant Batch(View(), events[i..])
        invariant HandleAll(View(), events[i..]) == HandleAll(old(View()), events)
      {
        ghost var rest := events[i..];
        assert rest[0] == events[i] && rest[1..] == events[i + 1..];
        BatchTail(View(), rest);
        HandleEvent(events[i]);
      }
    }

    method Total() returns (total: nat)
      ensures total == BytesRead(files[..])
    {
      total := 0;
      for i := 0 to files.Length
        invariant total == Sum(Reads(files[..])[..i])
      {
        SumPrefix(Reads(files[..]), i);
        total := total + files[i].bytesRead;
      }
      assert Reads(files[..])[..files.Length] == Reads(files[..]);
    }
  }

  /** The whole function, on any run that ends, whatever errors and empty answers are on the way. */
  method ReadDataAndCount(lengths: seq<nat>, batches: seq<seq<Event>>) returns (total: nat)
    requires ValidRun(Init(lengths), batches)
    requires Run(Init(lengths), batches).remaining == 0
    ensures total == Sum(lengths)
  {
    var counter := new Counter(lengths);
    var n := 0;
    EveryRun(lengths, batches);
    assert batches[0..] == batches;
    while 0 < counter.remaining
      invariant n <= |batches| && fresh(counter) && fresh(counter.files)
      invariant ValidRun(counter.View(), batches[n..])
      invariant Run(counter.View(), batches[n..]) == Run(Init(lengths), batches)
      decreases |batches| - n
    {
      ghost var rest := batches[n..];
      assert n < |batches|;
      assert rest[0] == batches[n] && rest[1..] == batches[n + 1..];
      counter.HandleBatch(batches[n]);
      n := n + 1;
    }
    total := counter.Total();
  }
}
