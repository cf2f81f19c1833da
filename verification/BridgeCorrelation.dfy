/**
 What holds of the bridge under every interleaving, even when clients reuse ids
 and the child answers out of turn: correlation by raw id, a waiting room that
 empties, and conservation of the child's lines.
 */
module BridgeCorrelation {
  import opened Wrappers
  import opened Bridge

  predicate InFlight(h: Handler) {
    !h.phase.Gone?
  }

  predicate HasReply(h: Handler) {
    (h.phase.Leaving? || h.phase.Gone?) && h.phase.o.Reply?
  }

  function ReplyOf(h: Handler): seq<Msg> {
    if HasReply(h) then [h.phase.o.m] else []
  }

  /** The handler's channel and its reply hold only messages with its raw id. */
  predicate Fits(h: Handler, c: Chan) {
    && |c.buf| <= 1
    && (c.buf != [] ==> c.buf[0].id == Some(h.id))
    && (HasReply(h) ==> h.phase.o.m.id == Some(h.id))
  }

  ghost predicate ChansOk(s: State) {
    && s.handlers.Keys == s.shared.chans.Keys
    && forall h :: h in s.handlers ==> Fits(s.handlers[h], s.shared.chans[h])
  }

  predicate WaitsUnder(hs: map<nat, Handler>, h: nat, k: string) {
    h in hs && hs[h].id == k && InFlight(hs[h])
  }

  ghost predicate PendingOk(s: State) {
    forall k :: k in s.shared.pending ==> WaitsUnder(s.handlers, s.shared.pending[k], k)
  }

  ghost predicate ReaderOk(s: State) {
    s.reader.Holding? ==> s.reader.h in s.handlers && s.reader.m.id == Some(s.handlers[s.reader.h].id)
  }

  /** Messages only ever reach the handler whose raw id they carry. */
  ghost predicate Correlated(s: State) {
    ChansOk(s) && PendingOk(s) && ReaderOk(s) && |s.shared.notifs| <= NOTIF_QUEUE
  }

  lemma ChansStep(s: State, l: Label)
    requires ChansOk(s) && ReaderOk(s)
    ensures ChansOk(Next(s, l))
  {
    hide HandlerStep, ReaderStep, OtherStep;
    if IsHandlerLabel(l) {
      ChansHandler(s, l);
    } else if IsReaderLabel(l) {
      ChansReader(s, l);
    } else {
      ChansOther(s, l);
    }
  }

  lemma ChansHandler(s: State, l: Label)
    requires ChansOk(s)
    ensures ChansOk(HandlerStep(s, l))
  {
    if l.Take? { ChansTake(s, l); } else if l.Register? { ChansRegister(s, l); } else { ChansSame(s, l); }
  }

  lemma ChansTake(s: State, l: Label)
    requires ChansOk(s) && l.Take?
    ensures ChansOk(HandlerStep(s, l))
  {
  }

  lemma ChansRegister(s: State, l: Label)
    requires ChansOk(s) && l.Register?
    ensures ChansOk(HandlerStep(s, l))
  {
  }

  lemma ChansSame(s: State, l: Label)
    requires ChansOk(s) && !l.Take? && !l.Register?
    ensures ChansOk(HandlerStep(s, l))
  {
    var next := HandlerStep(s, l);
    assert next.shared.chans == s.shared.chans;
  }

  lemma ChansReader(s: State, l: Label)
    requires ChansOk(s) && ReaderOk(s)
    ensures ChansOk(ReaderStep(s, l))
  {
  }

  lemma ChansOther(s: State, l: Label)
    requires ChansOk(s)
    ensures ChansOk(OtherStep(s, l))
  {
  }

  lemma PendingStep(s: State, l: Label)
    requires PendingOk(s)
    ensures PendingOk(Next(s, l))
  {
  }

  lemma ReaderStepOk(s: State, l: Label)
    requires ReaderOk(s) && PendingOk(s)
    ensures ReaderOk(Next(s, l))
  {
  }

  lemma CorrelatedStep(s: State, l: Label)
    requires Correlated(s)
    ensures Correlated(Next(s, l))
  {
    ChansStep(s, l);
    PendingStep(s, l);
    ReaderStepOk(s, l);
    hide ChansOk, PendingOk, ReaderOk;
  }

  lemma {:induction false} CorrelatedRun(s: State, ls: seq<Label>)
    requires Correlated(s)
    ensures Correlated(Run(s, ls))
    decreases |ls|
  {
    hide Next, Correlated;
    if ls != [] {
      CorrelatedStep(s, ls[0]);
      CorrelatedRun(Next(s, ls[0]), ls[1..]);
    }
  }

  /**
   In every run: what a handler returns, what sits in its channel and what the
   reader holds for it carries exactly its raw id, even with duplicate ids in
   flight; and the waiting room only holds ids of requests in flight, so it is
   empty once none is left.
   */
  lemma RepliesCarryTheirId(ls: seq<Label>)
    ensures var s := Run(INIT, ls);
            && (forall h :: h in s.handlers ==> h in s.shared.chans && Fits(s.handlers[h], s.shared.chans[h]))
            && (s.reader.Holding? ==> s.reader.h in s.handlers && s.reader.m.id == Some(s.handlers[s.reader.h].id))
            && (forall k :: k in s.shared.pending ==> WaitsUnder(s.handlers, s.shared.pending[k], k))
            && ((forall h :: h in s.handlers ==> !InFlight(s.handlers[h])) ==> s.shared.pending == map[])
  {
    hide Next;
    CorrelatedRun(INIT, ls);
  }

  // --- Conservation ---

  /** The messages of the log that met this fate, in order. */
  function WithFate(log: seq<Entry>, fate: Fate): seq<Msg> {
    if log == [] then []
    else WithFate(log[..|log| - 1], fate) + if log[|log| - 1].fate == fate then [log[|log| - 1].m] else []
  }

  function Msgs(log: seq<Entry>): seq<Msg> {
    if log == [] then [] else Msgs(log[..|log| - 1]) + [log[|log| - 1].m]
  }

  function JsonLines(out: seq<Line>): seq<Msg> {
    if out == [] then [] else MsgOf(out[0]) + JsonLines(out[1..])
  }

  function InHand(r: Reader): seq<Msg> {
    if r.Scanning? then [] else [r.m]
  }

  /** The child's JSON lines are those dealt with, the one in the reader's hand and those in the pipe. */
  ghost predicate LinesOk(s: State) {
    s.written == Msgs(s.log) + (InHand(s.reader) + JsonLines(s.out))
  }

  ghost predicate QueueOk(s: State) {
    s.streamed + s.shared.notifs == WithFate(s.log, Queued)
  }

  /** What a handler returned or still has in its channel is what the reader gave it. */
  predicate Received(h: Handler, c: Chan, given: seq<Msg>) {
    ReplyOf(h) + c.buf == given
  }

  ghost predicate WaitersOk(s: State) {
    && (forall h :: h in s.handlers ==>
          h in s.shared.chans && Received(s.handlers[h], s.shared.chans[h], WithFate(s.log, ToWaiter(h))))
    && (forall h: nat :: h !in s.handlers ==> WithFate(s.log, ToWaiter(h)) == [])
  }

  lemma FateSnoc(log: seq<Entry>, e: Entry, fate: Fate)
    ensures WithFate(log + [e], fate) == WithFate(log, fate) + if e.fate == fate then [e.m] else []
    ensures Msgs(log + [e]) == Msgs(log) + [e.m]
  {
    assert (log + [e])[..|log|] == log;
  }

  function MsgOf(l: Line): seq<Msg> {
    if l.Json? then [l.msg] else []
  }

  lemma JsonLinesCons(out: seq<Line>)
    ensures out == [] ==> JsonLines(out) == []
    ensures out != [] ==> JsonLines(out) == MsgOf(out[0]) + JsonLines(out[1..])
  {
  }

  lemma {:induction false} JsonLinesSnoc(out: seq<Line>, l: Line)
    ensures JsonLines(out + [l]) == JsonLines(out) + MsgOf(l)
  {
    hide JsonLines, MsgOf;
    JsonLinesCons(out);
    JsonLinesCons(out + [l]);
    if out == [] {
      assert (out + [l])[1..] == [];
    } else {
      assert (out + [l])[1..] == out[1..] + [l];
      JsonLinesSnoc(out[1..], l);
    }
  }

  /** What a reader step appends to the log. */
  lemma ReaderLog(s: State, l: Label)
    ensures var next := Next(s, l);
            || next.log == s.log
            || (&& IsReaderLabel(l) && |next.log| == |s.log| + 1 && next.log == s.log + [next.log[|s.log|]]
                && !s.reader.Scanning? && next.reader.Scanning? && next.out == s.out && next.written == s.written
                && next.log[|s.log|].m == s.reader.m)
  {
  }

  /** What a step that leaves the log alone does to the pipe and the reader's hand. */
  lemma PipeMoves(s: State, l: Label)
    requires Next(s, l).log == s.log
    ensures var next := Next(s, l);
            && (l.ChildNoise? ==> next.out == s.out + [Noise])
            && (l.ChildMessage? ==>
                  next.written == s.written + [l.m]
                  && exists line: Line :: line.Json? && line.msg == l.m && next.out == s.out + [line])
            && (!l.ChildMessage? ==> next.written == s.written)
            && (l.Scan? && next != s ==>
                  s.reader.Scanning? && s.out != [] && next.out == s.out[1..]
                  && InHand(next.reader) == MsgOf(s.out[0]))
            && (!l.Scan? || next == s ==> InHand(next.reader) == InHand(s.reader))
            && (!l.ChildNoise? && !l.ChildMessage? && (!l.Scan? || next == s) ==> next.out == s.out)
  {
    if l.ChildMessage? {
      var line := Next(s, l).out[|s.out|];
      assert line.Json? && line.msg == l.m && Next(s, l).out == s.out + [line];
    }
  }

  lemma LinesStep(s: State, l: Label)
    requires LinesOk(s)
    ensures LinesOk(Next(s, l))
  {
    hide Next, Msgs, JsonLines, WithFate;
    ReaderLog(s, l);
    if Next(s, l).log != s.log { LinesLogged(s, Next(s, l)); } else { LinesQuiet(s, l); }
  }

  lemma LinesLogged(s: State, next: State)
    requires LinesOk(s) && |next.log| == |s.log| + 1 && next.log == s.log + [next.log[|s.log|]]
    requires !s.reader.Scanning? && next.reader.Scanning? && next.out == s.out && next.written == s.written
    requires next.log[|s.log|].m == s.reader.m
    ensures LinesOk(next)
  {
    FateSnoc(s.log, next.log[|s.log|], Queued);
    hide Msgs, JsonLines, WithFate;
    Assoc(Msgs(s.log), [s.reader.m], JsonLines(s.out));
  }

  lemma Assoc<T>(a: seq<T>, b: seq<T>, c: seq<T>)
    ensures a + (b + c) == a + b + c
    ensures [] + c == c
  {
  }

  lemma LinesQuiet(s: State, l: Label)
    requires LinesOk(s) && Next(s, l).log == s.log
    ensures LinesOk(Next(s, l))
  {
    var next := Next(s, l);
    PipeMoves(s, l);
    hide Next, Msgs, JsonLines, InHand;
    if l.ChildNoise? {
      JsonLinesSnoc(s.out, Noise);
      assert MsgOf(Noise) == [] && JsonLines(s.out) + [] == JsonLines(s.out);
    } else if l.ChildMessage? {
      var line: Line :| line.Json? && line.msg == l.m && next.out == s.out + [line];
      JsonLinesSnoc(s.out, line);
      Assoc(InHand(s.reader), JsonLines(s.out), [l.m]);
      Assoc(Msgs(s.log), InHand(s.reader) + JsonLines(s.out), [l.m]);
    } else if l.Scan? && next != s {
      JsonLinesCons(s.out);
      HandEmpty(s.reader);
      Assoc([], [], JsonLines(s.out));
    }
  }

  lemma HandEmpty(r: Reader)
    ensures r.Scanning? ==> InHand(r) == []
  {
  }

  lemma QueueStep(s: State, l: Label)
    requires QueueOk(s)
    ensures QueueOk(Next(s, l))
  {
    var next := Next(s, l);
    QueueFacts(s, l);
    hide Next;
    if next.log != s.log { FateSnoc(s.log, next.log[|s.log|], Queued); }
    if l.Enqueue? && next.shared.notifs != s.shared.notifs {
      assert s.streamed + (s.shared.notifs + [s.reader.m]) == s.streamed + s.shared.notifs + [s.reader.m];
    } else if l.Stream? && s.shared.notifs != [] {
      var first, rest := s.shared.notifs[0], s.shared.notifs[1..];
      assert s.streamed + ([first] + rest) == s.streamed + [first] + rest;
      assert s.shared.notifs == [first] + rest;
    } else {
      assert WithFate(s.log, Queued) + [] == WithFate(s.log, Queued);
    }
  }

  /** Who touches the queue, the log and the SSE stream. */
  lemma QueueFacts(s: State, l: Label)
    ensures var next := Next(s, l);
            && (next.log != s.log ==>
                  |next.log| == |s.log| + 1 && next.log == s.log + [next.log[|s.log|]] && !s.reader.Scanning?
                  && next.log[|s.log|].m == s.reader.m
                  && (next.log[|s.log|].fate == Queued <==> next.shared.notifs != s.shared.notifs))
            && (l.Stream? && s.shared.notifs != [] ==>
                  next.streamed == s.streamed + [s.shared.notifs[0]] && next.shared.notifs == s.shared.notifs[1..])
            && (l.Stream? && s.shared.notifs == [] ==> next == s)
            && (!l.Stream? ==> next.streamed == s.streamed)
            && (l.Enqueue? && next.shared.notifs != s.shared.notifs ==>
                  next.log != s.log && next.shared.notifs == s.shared.notifs + [s.reader.m])
            && (!l.Stream? && !l.Enqueue? ==> next.shared.notifs == s.shared.notifs)
            && (l.Stream? ==> next.log == s.log)
  {
  }

  lemma WaitersStep(s: State, l: Label)
    requires WaitersOk(s) && ChansOk(s) && ReaderOk(s)
    ensures WaitersOk(Next(s, l))
  {
    hide HandlerStep, ReaderStep, OtherStep;
    if IsHandlerLabel(l) {
      WaitersHandler(s, l);
    } else if IsReaderLabel(l) {
      WaitersReader(s, l);
    } else {
      WaitersOther(s, l);
    }
  }

  lemma WaitersHandler(s: State, l: Label)
    requires WaitersOk(s) && ChansOk(s)
    ensures WaitersOk(HandlerStep(s, l))
  {
    if l.Take? { WaitersTake(s, l); } else if l.Register? { WaitersRegister(s, l); } else { WaitersSame(s, l); }
  }

  lemma WaitersTake(s: State, l: Label)
    requires WaitersOk(s) && ChansOk(s) && l.Take?
    ensures WaitersOk(HandlerStep(s, l))
  {
    hide WithFate, Fits, ChansOk;
    if l.h in s.handlers && s.shared.chans[l.h].buf != [] {
      var buf := s.shared.chans[l.h].buf;
      assert buf == [buf[0]] + buf[1..];
    }
  }

  lemma WaitersRegister(s: State, l: Label)
    requires WaitersOk(s) && l.Register?
    ensures WaitersOk(HandlerStep(s, l))
  {
    hide WithFate;
  }

  lemma WaitersSame(s: State, l: Label)
    requires WaitersOk(s) && !l.Take? && !l.Register?
    ensures WaitersOk(HandlerStep(s, l))
  {
    hide WithFate;
    var next := HandlerStep(s, l);
    assert next.shared.chans == s.shared.chans && next.log == s.log;
  }

  lemma WaitersReader(s: State, l: Label)
    requires WaitersOk(s) && ChansOk(s) && ReaderOk(s)
    ensures WaitersOk(ReaderStep(s, l))
  {
    var next := ReaderStep(s, l);
    ReaderGives(s, l);
    hide ReaderStep, ReaderOk;
    if next.log != s.log {
      var e := next.log[|s.log|];
      forall h: nat
        ensures WithFate(next.log, ToWaiter(h))
                == WithFate(s.log, ToWaiter(h)) + if e.fate == ToWaiter(h) then [e.m] else []
      {
        FateSnoc(s.log, e, ToWaiter(h));
      }
      WaitersGiven(s, next, e);
    }
  }

  lemma ReaderGives(s: State, l: Label)
    requires ReaderOk(s) && s.handlers.Keys == s.shared.chans.Keys
    ensures var next := ReaderStep(s, l);
            && next.handlers == s.handlers
            && (next.log == s.log ==> next.shared.chans == s.shared.chans)
            && (next.log != s.log ==>
                  && |next.log| == |s.log| + 1 && next.log == s.log + [next.log[|s.log|]]
                  && var e := next.log[|s.log|];
                     if e.fate.ToWaiter? then e.fate.h in s.handlers && next.shared == Putting(s.shared, e.fate.h, e.m)
                     else next.shared.chans == s.shared.chans)
  {
  }

  lemma WaitersGiven(s: State, next: State, e: Entry)
    requires WaitersOk(s) && ChansOk(s) && next.handlers == s.handlers
    requires forall h: nat :: WithFate(next.log, ToWaiter(h))
                              == WithFate(s.log, ToWaiter(h)) + if e.fate == ToWaiter(h) then [e.m] else []
    requires if e.fate.ToWaiter? then e.fate.h in s.handlers && next.shared == Putting(s.shared, e.fate.h, e.m)
             else next.shared.chans == s.shared.chans
    ensures WaitersOk(next)
  {
    hide WithFate, Fits;
    forall h | h in s.handlers
      ensures h in next.shared.chans
              && Received(next.handlers[h], next.shared.chans[h], WithFate(next.log, ToWaiter(h)))
    {
      var given := WithFate(s.log, ToWaiter(h));
      assert Received(s.handlers[h], s.shared.chans[h], given);
      assert given + [] == given;
      assert ReplyOf(s.handlers[h]) + (s.shared.chans[h].buf + [e.m])
             == ReplyOf(s.handlers[h]) + s.shared.chans[h].buf + [e.m];
    }
  }

  lemma WaitersOther(s: State, l: Label)
    requires WaitersOk(s)
    ensures WaitersOk(OtherStep(s, l))
  {
    hide WithFate;
  }

  lemma {:induction false} ConservedRun(s: State, ls: seq<Label>)
    requires Correlated(s) && LinesOk(s) && QueueOk(s) && WaitersOk(s)
    ensures var end := Run(s, ls);
            LinesOk(end) && QueueOk(end) && WaitersOk(end)
    decreases |ls|
  {
    hide Next, LinesOk, QueueOk, WaitersOk, ChansOk, PendingOk, ReaderOk;
    if ls != [] {
      CorrelatedStep(s, ls[0]);
      LinesStep(s, ls[0]);
      QueueStep(s, ls[0]);
      WaitersStep(s, ls[0]);
      ConservedRun(Next(s, ls[0]), ls[1..]);
    }
  }

  /**
   In every run, the JSON lines the child wrote are, in order, those the reader
   is done with, the one in its hand and those still in the pipe. Each line it
   is done with met exactly one fate: it went to one waiter (who returned it or
   still has it in his channel), or into the notification queue, which the SSE
   stream drains in the child's order, or it was dropped.
   */
  lemma EveryLineHasOneFate(ls: seq<Label>)
    ensures var s := Run(INIT, ls);
            && s.written == Msgs(s.log) + (InHand(s.reader) + JsonLines(s.out))
            && s.streamed + s.shared.notifs == WithFate(s.log, Queued)
            && (forall h :: h in s.handlers ==>
                  h in s.shared.chans && ReplyOf(s.handlers[h]) + s.shared.chans[h].buf == WithFate(s.log, ToWaiter(h)))
            && (forall h: nat :: h !in s.handlers ==> WithFate(s.log, ToWaiter(h)) == [])
  {
    hide Next;
    assert INIT.written == Msgs([]) + ([] + JsonLines([]));
    ConservedRun(INIT, ls);
    var s := Run(INIT, ls);
    assert forall h :: h in s.handlers ==>
        Received(s.handlers[h], s.shared.chans[h], WithFate(s.log, ToWaiter(h)));
  }
}
