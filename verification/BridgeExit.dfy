/**
 The two ways the reader of the child's stdout can stop for good when peers do
 not behave or the child exits at the wrong moment, each with its exact condition.
 */
module BridgeExit {
  import opened Wrappers
  import opened Bridge
  import opened BridgeCorrelation

  // --- Blocking on a full channel ---

  /** The reader waits to hand h a second message. */
  predicate Blocked(s: State) {
    && s.reader.Holding? && s.reader.h in s.handlers && s.reader.h in s.shared.chans
    && |s.shared.chans[s.reader.h].buf| == 1 && !s.shared.chans[s.reader.h].closed
  }

  /** The handler can still reach its receive. */
  predicate StillReceives(s: State, h: Handler) {
    h.phase.Waiting? || (h.phase.Registered? && !s.shared.done)
  }

  /** Nobody will empty the channel the reader is sending to, or it has crashed. */
  predicate Hopeless(s: State) {
    || s.reader.Crashed?
    || (&& s.reader.Holding? && s.reader.h in s.handlers && s.reader.h in s.shared.chans
        && s.shared.chans[s.reader.h].buf != [] && !StillReceives(s, s.handlers[s.reader.h]))
  }

  lemma HopelessStep(s: State, l: Label)
    requires Hopeless(s)
    ensures Hopeless(Next(s, l)) && !Next(s, l).reader.Scanning?
  {
  }

  lemma {:induction false} HopelessRun(s: State, ls: seq<Label>)
    requires Hopeless(s)
    ensures !Run(s, ls).reader.Scanning?
    decreases |ls|
  {
    hide Next;
    if ls != [] {
      HopelessStep(s, ls[0]);
      HopelessRun(Next(s, ls[0]), ls[1..]);
    }
  }

  lemma RunOne(s: State, l: Label)
    ensures Run(s, [l]) == Next(s, l)
  {
    hide Next;
    assert [l][1..] == [];
    assert Run(Next(s, l), []) == Next(s, l);
  }

  lemma {:induction false} RunConcat(s: State, a: seq<Label>, b: seq<Label>)
    ensures Run(s, a + b) == Run(Run(s, a), b)
    decreases |a|
  {
    hide Next;
    if a == [] {
      assert a + b == b;
    } else {
      assert (a + b)[1..] == a[1..] + b;
      RunConcat(Next(s, a[0]), a[1..], b);
    }
  }

  /** Taking the first message lets the reader go on. */
  lemma TakeUnblocks(s: State)
    requires Blocked(s) && s.handlers[s.reader.h].phase.Waiting?
    ensures Run(s, [Take(s.reader.h)] + [Deliver]).reader.Scanning?
  {
    RunConcat(s, [Take(s.reader.h)], [Deliver]);
    RunOne(s, Take(s.reader.h));
    RunOne(Next(s, Take(s.reader.h)), Deliver);
  }

  lemma SendThenTakeUnblocks(s: State)
    requires Blocked(s) && s.handlers[s.reader.h].phase.Registered? && !s.shared.done
    ensures exists ls :: Run(s, ls).reader.Scanning?
  {
    var h := s.reader.h;
    var next := Next(s, Send(h, true));
    assert Blocked(next) && next.handlers[h].phase.Waiting? && next.reader.h == h;
    TakeUnblocks(next);
    RunOne(s, Send(h, true));
    RunConcat(s, [Send(h, true)], [Take(h)] + [Deliver]);
    assert Run(s, [Send(h, true)] + ([Take(h)] + [Deliver])).reader.Scanning?;
  }

  /**
   A reader blocked on a full channel can go on exactly when the channel's
   handler can still receive; once that handler has turned away it never does.
   */
  lemma BlockedReaderRecoversWhen(s: State)
    requires Blocked(s)
    ensures (exists ls :: Run(s, ls).reader.Scanning?) <==> StillReceives(s, s.handlers[s.reader.h])
  {
    if !StillReceives(s, s.handlers[s.reader.h]) {
      forall ls
        ensures !Run(s, ls).reader.Scanning?
      {
        HopelessRun(s, ls);
      }
    } else if s.handlers[s.reader.h].phase.Waiting? {
      TakeUnblocks(s);
    } else {
      SendThenTakeUnblocks(s);
    }
  }

  predicate BlocksForGood(ls: seq<Label>) {
    Blocked(Run(INIT, ls)) && Hopeless(Run(INIT, ls))
  }

  lemma BothHalves(m: Msg, ls: seq<Label>, more: seq<Label>)
    requires m == Msg(Some("1"), "answer")
    requires ls == [Register(0, "1", "ask"), Send(0, true), ChildMessage(m), Scan, Deliver]
    requires more == [ChildMessage(m), Scan, Cancel(0), Deregister(0)]
    ensures BlocksForGood(ls + more)
  {
    hide Run, Next, Blocked, Hopeless, FirstAnswered;
    FirstHalf(m, ls);
    SecondHalf(m, more);
    RunConcat(INIT, ls, more);
  }

  /** A child that answers one request twice, and a client that leaves, block the reader for good. */
  lemma SecondAnswerBlocksForGood()
    ensures exists ls :: BlocksForGood(ls)
  {
    hide BlocksForGood;
    var m := Msg(Some("1"), "answer");
    BothHalves(m, [Register(0, "1", "ask"), Send(0, true), ChildMessage(m), Scan, Deliver],
               [ChildMessage(m), Scan, Cancel(0), Deregister(0)]);
  }

  /** In this run the request "1" is replied to with a line of this text. */
  predicate RepliesWith(ls: seq<Label>, text: string) {
    var hs := Run(INIT, ls).handlers;
    0 in hs && hs[0] == Handler("1", "ask", Leaving(Reply(Msg(Some("1"), text))))
  }

  /**
   The reader routes by raw id alone, so whatever else a line says, be it a
   request of the child's own under an id in flight, it is taken for the reply.
   */
  lemma AnyLineWithTheIdIsTheReply(text: string)
    ensures exists ls :: RepliesWith(ls, text)
  {
    var m := Msg(Some("1"), text);
    var ls := [Register(0, "1", "ask"), Send(0, true), ChildMessage(m), Scan, Deliver];
    FirstHalf(m, ls);
    RunConcat(INIT, ls, [Take(0)]);
    RunOne(FirstAnswered(m), Take(0));
    assert RepliesWith(ls + [Take(0)], text);
  }

  function FirstAnswered(m: Msg): State {
    State(Shared(map["1" := 0], map[0 := Chan([m], false)], [], ["ask"], false, false),
          map[0 := Handler("1", "ask", Waiting)], [], Scanning, map[], [m], [Entry(m, Some(0), ToWaiter(0))], [])
  }

  lemma FirstHalf(m: Msg, ls: seq<Label>)
    requires m.id == Some("1")
    requires ls == [Register(0, "1", "ask"), Send(0, true), ChildMessage(m), Scan, Deliver]
    ensures Run(INIT, ls) == FirstAnswered(m)
  {
    var s1 := Next(INIT, ls[0]);
    var s2 := Next(s1, ls[1]);
    var s3 := Next(s2, ls[2]);
    var s4 := Next(s3, ls[3]);
    var s5 := Next(s4, ls[4]);
    assert s2.asked == map["1" := 0];
    assert s3.out == [Json(m, Some(0))] && s3.asked == map[];
    assert s4.reader == Holding(m, Some(0), 0) && s4.out == [];
    assert s4.shared.chans[0].buf + [m] == [m];
    assert s5.shared.chans[0] == Chan([m], false);
    assert s5.shared.chans == map[0 := Chan([m], false)] && s5.shared.pending == map["1" := 0];
    assert s5.shared.stdin == ["ask"] && s5.written == [m] && s5.log == [Entry(m, Some(0), ToWaiter(0))];
    assert s5.handlers == map[0 := Handler("1", "ask", Waiting)] && s5.asked == map[];
    RunFive(INIT, ls);
  }

  lemma RunFive(s: State, ls: seq<Label>)
    requires |ls| == 5
    ensures Run(s, ls) == Next(Next(Next(Next(Next(s, ls[0]), ls[1]), ls[2]), ls[3]), ls[4])
  {
    hide Next;
    assert ls == ls[..4] + [ls[4]];
    RunConcat(s, ls[..4], [ls[4]]);
    RunFour(s, ls[..4]);
    RunOne(Run(s, ls[..4]), ls[4]);
  }

  lemma RunFour(s: State, ls: seq<Label>)
    requires |ls| == 4
    ensures Run(s, ls) == Next(Next(Next(Next(s, ls[0]), ls[1]), ls[2]), ls[3])
  {
    hide Next;
    var s1 := Next(s, ls[0]);
    var s2 := Next(s1, ls[1]);
    assert Run(s, ls) == Run(s1, ls[1..]) == Run(s2, ls[1..][1..]);
    assert ls[1..][1..] == [ls[2]] + [ls[3]];
    RunConcat(s2, [ls[2]], [ls[3]]);
    RunOne(s2, ls[2]);
    RunOne(Next(s2, ls[2]), ls[3]);
  }

  lemma SecondHalf(m: Msg, more: seq<Label>)
    requires m == Msg(Some("1"), "answer") && more == [ChildMessage(m), Scan, Cancel(0), Deregister(0)]
    ensures Blocked(Run(FirstAnswered(m), more)) && Hopeless(Run(FirstAnswered(m), more))
  {
    var s := FirstAnswered(m);
    var s1 := Next(s, more[0]);
    var s2 := Next(s1, more[1]);
    assert s1.out == [Json(m, None)];
    assert s2.reader == Holding(m, None, 0);
    RunFour(s, more);
  }

  // --- Sending on a closed channel ---

  /** The exit goroutine is about to close the channel the reader is sending to. */
  predicate DropsHeld(s: State) {
    !s.shared.drained && s.reader.Holding? && s.reader.h in s.shared.pending.Values
  }

  /** Somewhere in the run the exit goroutine does so, and the reader then tries to deliver. */
  ghost predicate ExitHitsHeld(s: State, ls: seq<Label>)
    decreases |ls|
  {
    ls != [] && ((ls[0].ExitDrain? && DropsHeld(s) && Deliver in ls[1..]) || ExitHitsHeld(Next(s, ls[0]), ls[1..]))
  }

  ghost predicate Safe(s: State) {
    && !s.reader.Crashed?
    && (s.reader.Holding? ==> s.reader.h in s.shared.chans && !s.shared.chans[s.reader.h].closed)
    && (forall k :: k in s.shared.pending ==>
          s.shared.pending[k] in s.shared.chans && !s.shared.chans[s.shared.pending[k]].closed)
    && s.handlers.Keys == s.shared.chans.Keys
  }

  predicate Doomed(s: State) {
    && s.reader.Holding? && s.reader.h in s.shared.chans && s.reader.h in s.handlers
    && s.shared.chans[s.reader.h].closed && s.shared.drained
  }

  lemma SafeStep(s: State, l: Label)
    requires Safe(s)
    ensures if l.ExitDrain? && DropsHeld(s) then Doomed(Next(s, l)) else Safe(Next(s, l))
  {
    hide Safe, HandlerStep, ReaderStep, OtherStep;
    if IsHandlerLabel(l) { SafeHandler(s, l); } else if IsReaderLabel(l) { SafeReader(s, l); } else { SafeOther(s, l); }
  }

  lemma SafeHandler(s: State, l: Label)
    requires Safe(s)
    ensures Safe(HandlerStep(s, l))
  {
  }

  lemma SafeReader(s: State, l: Label)
    requires Safe(s)
    ensures Safe(ReaderStep(s, l))
  {
  }

  lemma SafeOther(s: State, l: Label)
    requires Safe(s)
    ensures if l.ExitDrain? && DropsHeld(s) then Doomed(OtherStep(s, l)) else Safe(OtherStep(s, l))
  {
  }

  lemma DoomedStep(s: State, l: Label)
    requires Doomed(s)
    ensures if l.Deliver? then Next(s, l).reader.Crashed? else Doomed(Next(s, l))
  {
  }

  lemma {:induction false} CrashedStays(s: State, ls: seq<Label>)
    requires s.reader.Crashed?
    ensures Run(s, ls).reader.Crashed?
    decreases |ls|
  {
    if ls != [] { CrashedStays(Next(s, ls[0]), ls[1..]); }
  }

  lemma {:induction false} DoomedRun(s: State, ls: seq<Label>)
    requires Doomed(s)
    ensures Run(s, ls).reader.Crashed? <==> Deliver in ls
    decreases |ls|
  {
    hide Next;
    if ls != [] {
      DoomedStep(s, ls[0]);
      if ls[0].Deliver? {
        CrashedStays(Next(s, ls[0]), ls[1..]);
      } else {
        DoomedRun(Next(s, ls[0]), ls[1..]);
        assert ls == [ls[0]] + ls[1..];
      }
    }
  }

  lemma {:induction false} DrainsOnce(s: State, ls: seq<Label>)
    requires s.shared.drained
    ensures !ExitHitsHeld(s, ls)
    decreases |ls|
  {
    if ls != [] { DrainsOnce(Next(s, ls[0]), ls[1..]); }
  }

  lemma {:induction false} CrashesWhenFrom(s: State, ls: seq<Label>)
    requires Safe(s)
    ensures Run(s, ls).reader.Crashed? <==> ExitHitsHeld(s, ls)
    decreases |ls|
  {
    hide Next, Safe;
    if ls == [] {
      assert Safe(s) ==> !s.reader.Crashed? by { SafeNotCrashed(s); }
    } else {
      SafeStep(s, ls[0]);
      if ls[0].ExitDrain? && DropsHeld(s) {
        DoomedRun(Next(s, ls[0]), ls[1..]);
        DrainsOnce(Next(s, ls[0]), ls[1..]);
      } else {
        CrashesWhenFrom(Next(s, ls[0]), ls[1..]);
      }
    }
  }

  lemma SafeNotCrashed(s: State)
    requires Safe(s)
    ensures !s.reader.Crashed?
  {
  }

  /**
   The reader panics by sending on a closed channel in exactly those runs where
   the exit goroutine closes the channel of a handler still in the waiting room
   while the reader already holds a message for it, and the reader then delivers.
   */
  lemma ReaderCrashesWhen(ls: seq<Label>)
    ensures Run(INIT, ls).reader.Crashed? <==> ExitHitsHeld(INIT, ls)
  {
    CrashesWhenFrom(INIT, ls);
  }

  /** There is such a run: the child answers and exits before the reader delivers the answer. */
  lemma ReaderCanCrash()
    ensures exists ls :: Run(INIT, ls).reader.Crashed?
  {
    var m := Msg(Some("1"), "answer");
    var start := [Register(0, "1", "ask"), Send(0, true), ChildMessage(m), Scan];
    HeldAfterFour(m, start);
    CrashAfterDrain(m);
    RunConcat(INIT, start, [ExitDrain] + [Deliver]);
    RunConcat(AnswerHeld(m), [ExitDrain], [Deliver]);
    RunOne(AnswerHeld(m), ExitDrain);
    RunOne(Next(AnswerHeld(m), ExitDrain), Deliver);
    hide Next, AnswerHeld;
    assert Run(INIT, start + ([ExitDrain] + [Deliver])).reader.Crashed?;
  }

  function AnswerHeld(m: Msg): State {
    State(Shared(map["1" := 0], map[0 := Chan([], false)], [], ["ask"], false, false),
          map[0 := Handler("1", "ask", Waiting)], [], Holding(m, Some(0), 0), map[], [m], [], [])
  }

  lemma HeldAfterFour(m: Msg, start: seq<Label>)
    requires m.id == Some("1") && start == [Register(0, "1", "ask"), Send(0, true), ChildMessage(m), Scan]
    ensures Run(INIT, start) == AnswerHeld(m)
  {
    var s1 := Next(INIT, start[0]);
    var s2 := Next(s1, start[1]);
    var s3 := Next(s2, start[2]);
    var s4 := Next(s3, start[3]);
    assert s2.asked == map["1" := 0];
    assert s3.out == [Json(m, Some(0))] && s3.asked == map[];
    assert s4.reader == Holding(m, Some(0), 0) && s4.out == [];
    assert s4.shared.chans == map[0 := Chan([], false)] && s4.shared.pending == map["1" := 0];
    assert s4.shared.stdin == ["ask"] && s4.written == [m] && s4.asked == map[];
    assert s4.handlers == map[0 := Handler("1", "ask", Waiting)];
    RunFour(INIT, start);
  }

  lemma CrashAfterDrain(m: Msg)
    ensures Next(Next(AnswerHeld(m), ExitDrain), Deliver).reader.Crashed?
  {
    var s := AnswerHeld(m);
    assert s.shared.pending["1"] in s.shared.pending.Values;
    assert Next(s, ExitDrain).shared.chans[0].closed;
  }
}
