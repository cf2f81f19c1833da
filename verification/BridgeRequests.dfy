/**
 What the child is sent and how requests end, in every run: its stdin is the
 messages of the labels in their order, each request is written at most once, and
 a handler that gives up does so for a reason.
 */
module BridgeRequests {
  import opened Wrappers
  import opened Bridge
  import opened BridgeCorrelation

  /** The message a step sends: a registered request's or a notification's, while the child is not known to be gone. */
  function SentBy(s: State, l: Label): seq<string> {
    match l
    case Send(h, ok) =>
      if h in s.handlers && s.handlers[h].phase == Registered && ok && !s.shared.done then [s.handlers[h].text] else []
    case Forward(text, ok) => if ok && !s.shared.done then [text] else []
    case _ => []
  }

  function SentIn(s: State, ls: seq<Label>): seq<string>
    decreases |ls|
  {
    if ls == [] then [] else SentBy(s, ls[0]) + SentIn(Next(s, ls[0]), ls[1..])
  }

  lemma StdinStep(s: State, l: Label)
    ensures Next(s, l).shared.stdin == s.shared.stdin + SentBy(s, l)
  {
  }

  lemma {:induction false} StdinRun(s: State, ls: seq<Label>)
    ensures Run(s, ls).shared.stdin == s.shared.stdin + SentIn(s, ls)
    decreases |ls|
  {
    hide Next, SentBy;
    if ls != [] {
      StdinStep(s, ls[0]);
      StdinRun(Next(s, ls[0]), ls[1..]);
    }
  }

  /** The child is known to be gone once its exit has failed the waiting requests and then been announced. */
  ghost predicate Announced(ls: seq<Label>) {
    exists i, j :: 0 <= i < j < |ls| && ls[i] == ExitDrain && ls[j] == ExitDone
  }

  lemma {:induction false} DoneRun(s: State, ls: seq<Label>)
    ensures Run(s, ls).shared.drained <==> s.shared.drained || ExitDrain in ls
    ensures Run(s, ls).shared.done <==>
              s.shared.done || (s.shared.drained && ExitDone in ls) || Announced(ls)
    decreases |ls|
  {
    hide Next;
    if ls != [] {
      var rest := ls[1..];
      DoneStep(s, ls[0]);
      DoneRun(Next(s, ls[0]), rest);
      assert ls == [ls[0]] + rest;
      AnnouncedCons(ls);
    }
  }

  lemma DoneStep(s: State, l: Label)
    ensures Next(s, l).shared.drained <==> s.shared.drained || l == ExitDrain
    ensures Next(s, l).shared.done <==> s.shared.done || (s.shared.drained && l == ExitDone)
  {
  }

  lemma AnnouncedCons(ls: seq<Label>)
    requires ls != []
    ensures Announced(ls) <==> Announced(ls[1..]) || (ls[0] == ExitDrain && ExitDone in ls[1..])
  {
    var rest := ls[1..];
    if Announced(rest) {
      var i, j :| 0 <= i < j < |rest| && rest[i] == ExitDrain && rest[j] == ExitDone;
      assert ls[i + 1] == ExitDrain && ls[j + 1] == ExitDone;
    }
    if ls[0] == ExitDrain && ExitDone in rest {
      var j :| 0 <= j < |rest| && rest[j] == ExitDone;
      assert ls[0] == ExitDrain && ls[j + 1] == ExitDone;
    }
    if Announced(ls) {
      var i, j :| 0 <= i < j < |ls| && ls[i] == ExitDrain && ls[j] == ExitDone;
      assert rest[j - 1] == ExitDone;
      if i > 0 { assert rest[i - 1] == ExitDrain; }
    }
  }

  /**
   In every run the child has been sent, in the order of the labels, exactly the
   texts of the requests and notifications that were sent while its exit had not
   been announced and whose write did not fail.
   */
  lemma ChildReadsInOrder(ls: seq<Label>)
    ensures Run(INIT, ls).shared.stdin == SentIn(INIT, ls)
    ensures Run(INIT, ls).shared.done <==> Announced(ls)
  {
    hide Next;
    StdinRun(INIT, ls);
    DoneRun(INIT, ls);
  }

  // --- Requests ---

  /** How often the steps of a run send handler h's request. */
  function Sendings(s: State, ls: seq<Label>, h: nat): nat
    decreases |ls|
  {
    if ls == [] then 0
    else (if ls[0].Send? && ls[0].h == h && SentBy(s, ls[0]) != [] then 1 else 0) + Sendings(Next(s, ls[0]), ls[1..], h)
  }

  /** A handler keeps the id and text it was registered with and never comes back to an earlier phase. */
  lemma RequestStep(s: State, l: Label, h: nat)
    ensures h in s.handlers ==>
              && h in Next(s, l).handlers
              && Next(s, l).handlers[h].id == s.handlers[h].id && Next(s, l).handlers[h].text == s.handlers[h].text
              && (s.handlers[h].phase != Registered ==> Next(s, l).handlers[h].phase != Registered)
    ensures h !in s.handlers && h in Next(s, l).handlers ==>
              l.Register? && l.h == h && Next(s, l).handlers[h] == Handler(l.id, l.text, Registered)
  {
  }

  /** Sending makes a registered handler wait; a send that fails makes it leave. */
  lemma SendStep(s: State, l: Label, h: nat)
    requires h in s.handlers
    ensures l.Send? && l.h == h && SentBy(s, l) != [] ==>
              s.handlers[h].phase == Registered && Next(s, l).handlers[h].phase == Waiting
    ensures s.handlers[h].phase == Registered && Next(s, l).handlers[h].phase != Registered ==> l.Send? && l.h == h
    ensures s.handlers[h].phase == Registered && l.Send? && l.h == h && SentBy(s, l) == [] ==>
              Next(s, l).handlers[h].phase == Leaving(BadGateway)
  {
  }

  lemma {:induction false} NoMoreSendings(s: State, ls: seq<Label>, h: nat)
    requires h in s.handlers && s.handlers[h].phase != Registered
    ensures Sendings(s, ls, h) == 0
    decreases |ls|
  {
    hide Next, SentBy;
    if ls != [] {
      RequestStep(s, ls[0], h);
      SendStep(s, ls[0], h);
      NoMoreSendings(Next(s, ls[0]), ls[1..], h);
    }
  }

  /** Whether the handler's phase shows that its request went out. */
  predicate WentOut(h: Handler) {
    h.phase == Waiting || (HasOutcome(h) && !h.phase.o.BadGateway?)
  }

  predicate HasOutcome(h: Handler) {
    h.phase.Leaving? || h.phase.Gone?
  }

  lemma OutcomeStep(s: State, l: Label, h: nat)
    requires h in s.handlers && HasOutcome(s.handlers[h])
    ensures h in Next(s, l).handlers && HasOutcome(Next(s, l).handlers[h])
    ensures Next(s, l).handlers[h].phase.o == s.handlers[h].phase.o
  {
  }

  lemma {:induction false} OutcomeRun(s: State, ls: seq<Label>, h: nat)
    requires h in s.handlers && HasOutcome(s.handlers[h])
    ensures h in Run(s, ls).handlers && HasOutcome(Run(s, ls).handlers[h])
    ensures Run(s, ls).handlers[h].phase.o == s.handlers[h].phase.o
    decreases |ls|
  {
    hide Next;
    if ls != [] {
      OutcomeStep(s, ls[0], h);
      OutcomeRun(Next(s, ls[0]), ls[1..], h);
    }
  }

  /** The handler's request has not been sent or has failed to be. */
  predicate NotSent(s: State, h: nat) {
    h !in s.handlers || s.handlers[h].phase == Registered
  }

  lemma {:induction false} SendingsFrom(s: State, ls: seq<Label>, h: nat)
    requires NotSent(s, h)
    ensures Sendings(s, ls, h) <= 1
    ensures NotSent(Run(s, ls), h) ==> Sendings(s, ls, h) == 0
    ensures !NotSent(Run(s, ls), h) && WentOut(Run(s, ls).handlers[h]) ==> Sendings(s, ls, h) == 1
    decreases |ls|
  {
    hide Next, SentBy;
    if ls != [] {
      var next := Next(s, ls[0]);
      RequestStep(s, ls[0], h);
      if h in s.handlers { SendStep(s, ls[0], h); }
      NothingForOthers(s, ls[0], h);
      if NotSent(next, h) {
        SendingsFrom(next, ls[1..], h);
      } else {
        NoMoreSendings(next, ls[1..], h);
        StaysSent(next, ls[1..], h);
        if SentBy(s, ls[0]) == [] { OutcomeRun(next, ls[1..], h); }
      }
    }
  }

  lemma NothingForOthers(s: State, l: Label, h: nat)
    ensures l.Send? && l.h == h && h !in s.handlers ==> SentBy(s, l) == []
  {
  }

  lemma {:induction false} StaysSent(s: State, ls: seq<Label>, h: nat)
    requires !NotSent(s, h)
    ensures !NotSent(Run(s, ls), h)
    decreases |ls|
  {
    hide Next;
    if ls != [] {
      RequestStep(s, ls[0], h);
      StaysSent(Next(s, ls[0]), ls[1..], h);
    }
  }

  lemma {:induction false} RegisteredAs(s: State, ls: seq<Label>, h: nat)
    requires h !in s.handlers && h in Run(s, ls).handlers
    ensures var handler := Run(s, ls).handlers[h]; Register(h, handler.id, handler.text) in ls
    decreases |ls|
  {
    hide Next;
    if ls != [] {
      assert ls == [ls[0]] + ls[1..];
      var next := Next(s, ls[0]);
      RequestStep(s, ls[0], h);
      if h in next.handlers { KeepsRequest(next, ls[1..], h); } else { RegisteredAs(next, ls[1..], h); }
    }
  }

  lemma {:induction false} KeepsRequest(s: State, ls: seq<Label>, h: nat)
    requires h in s.handlers
    ensures h in Run(s, ls).handlers
    ensures Run(s, ls).handlers[h].id == s.handlers[h].id && Run(s, ls).handlers[h].text == s.handlers[h].text
    decreases |ls|
  {
    hide Next;
    if ls != [] {
      RequestStep(s, ls[0], h);
      KeepsRequest(Next(s, ls[0]), ls[1..], h);
    }
  }

  /**
   In every run a request is sent at most once, under the id and with the text it
   was registered with; exactly once if its handler waits, has a reply or lost its
   client while waiting.
   */
  lemma EachRequestIsSentOnce(ls: seq<Label>, h: nat)
    requires h in Run(INIT, ls).handlers
    ensures var handler := Run(INIT, ls).handlers[h];
            && Sendings(INIT, ls, h) <= 1
            && (WentOut(handler) ==> Sendings(INIT, ls, h) == 1)
            && (handler.phase == Registered ==> Sendings(INIT, ls, h) == 0)
            && Register(h, handler.id, handler.text) in ls
  {
    hide Next;
    SendingsFrom(INIT, ls, h);
    RegisteredAs(INIT, ls, h);
  }

  // --- Why handlers give up, and when messages are dropped ---

  ghost predicate ExitOk(s: State) {
    && (s.shared.done ==> s.shared.drained)
    && forall h :: h in s.shared.chans && s.shared.chans[h].closed ==> s.shared.drained
  }

  lemma ExitOkStep(s: State, l: Label)
    requires ExitOk(s)
    ensures ExitOk(Next(s, l))
  {
  }

  /** What a step's new outcome of a handler is due to. */
  predicate Due(s: State, l: Label, h: nat, o: Outcome) {
    match o
    case Reply(_) => l == Take(h)
    case ClientGone => l == Cancel(h)
    case BadGateway => l == Send(h, false) || s.shared.drained
  }

  lemma DueStep(s: State, l: Label, h: nat)
    requires ExitOk(s)
    ensures h in Next(s, l).handlers && HasOutcome(Next(s, l).handlers[h])
            && !(h in s.handlers && HasOutcome(s.handlers[h])) ==>
              Due(s, l, h, Next(s, l).handlers[h].phase.o)
  {
  }

  lemma {:induction false} DueRun(s: State, ls: seq<Label>, h: nat)
    requires ExitOk(s) && !(h in s.handlers && HasOutcome(s.handlers[h]))
    requires h in Run(s, ls).handlers && HasOutcome(Run(s, ls).handlers[h])
    ensures match Run(s, ls).handlers[h].phase.o
            case Reply(_) => Take(h) in ls
            case ClientGone => Cancel(h) in ls
            case BadGateway => Send(h, false) in ls || s.shared.drained || ExitDrain in ls
    decreases |ls|
  {
    hide Next, ExitOk;
    if ls != [] {
      assert ls == [ls[0]] + ls[1..];
      var next := Next(s, ls[0]);
      DueStep(s, ls[0], h);
      ExitOkStep(s, ls[0]);
      DoneStep(s, ls[0]);
      if h in next.handlers && HasOutcome(next.handlers[h]) {
        OutcomeRun(next, ls[1..], h);
      } else {
        DueRun(next, ls[1..], h);
      }
    }
  }

  /**
   In every run a handler fails its request only because writing it failed or the
   child has exited, and drops it only because its client went away.
   */
  lemma NobodyGivesUpIdly(ls: seq<Label>, h: nat)
    requires h in Run(INIT, ls).handlers && HasOutcome(Run(INIT, ls).handlers[h])
    ensures match Run(INIT, ls).handlers[h].phase.o
            case Reply(_) => Take(h) in ls
            case ClientGone => Cancel(h) in ls
            case BadGateway => Send(h, false) in ls || ExitDrain in ls
  {
    hide Next;
    DueRun(INIT, ls, h);
  }

  /**
   In every run, when the child exits, a handler that still waits in the waiting
   room and has not been given its answer gets to fail its request at once, and so
   does one that sees the exit announced.
   */
  lemma ExitFailsWaiters(ls: seq<Label>, h: nat)
    requires var s := Run(INIT, ls);
             h in s.handlers && s.handlers[h].phase == Waiting && h in s.shared.pending.Values && !s.shared.drained
    ensures h in Run(INIT, ls).shared.chans
    ensures Run(INIT, ls).shared.chans[h].buf == [] ==>
              var end := Run(INIT, ls + [ExitDrain] + [Take(h)]);
              h in end.handlers && end.handlers[h].phase == Leaving(BadGateway)
    ensures var end := Run(INIT, ls + [ExitDrain] + [ExitDone] + [SeeDone(h)]);
            h in end.handlers && end.handlers[h].phase == Leaving(BadGateway)
  {
    CorrelatedRun(INIT, ls);
    var s := Run(INIT, ls);
    RunSnoc(INIT, ls, ExitDrain);
    RunSnoc(INIT, ls + [ExitDrain], Take(h));
    RunSnoc(INIT, ls + [ExitDrain], ExitDone);
    RunSnoc(INIT, ls + [ExitDrain] + [ExitDone], SeeDone(h));
    hide Run;
    DrainAndTake(s, h);
  }

  lemma DrainAndTake(s: State, h: nat)
    requires ChansOk(s) && h in s.handlers && s.handlers[h].phase == Waiting
    requires h in s.shared.pending.Values && !s.shared.drained
    ensures h in s.shared.chans
    ensures var drained := Next(s, ExitDrain);
            && (s.shared.chans[h].buf == [] ==>
                  h in Next(drained, Take(h)).handlers
                  && Next(drained, Take(h)).handlers[h].phase == Leaving(BadGateway))
            && var end := Next(Next(drained, ExitDone), SeeDone(h));
               h in end.handlers && end.handlers[h].phase == Leaving(BadGateway)
  {
  }

  /**
   In every run a handler can always go on: a registered one is sent or turned away,
   a waiting one takes the answer it was given or leaves with its client, and one
   that leaves takes its id out of the waiting room.
   */
  lemma HandlersMoveOn(ls: seq<Label>, h: nat, ok: bool)
    requires h in Run(INIT, ls).handlers
    ensures h in Run(INIT, ls).shared.chans
    ensures var s := Run(INIT, ls);
            var id, phase, buf := s.handlers[h].id, s.handlers[h].phase, s.shared.chans[h].buf;
            && (phase == Registered ==>
                  PhaseAfter(s, Send(h, ok), h) == Some(if ok && !s.shared.done then Waiting else Leaving(BadGateway)))
            && (phase == Waiting && buf != [] ==> PhaseAfter(s, Take(h), h) == Some(Leaving(Reply(buf[0]))))
            && (phase == Waiting ==> PhaseAfter(s, Cancel(h), h) == Some(Leaving(ClientGone)))
            && (phase.Leaving? ==>
                  && PhaseAfter(s, Deregister(h), h) == Some(Gone(phase.o))
                  && Next(s, Deregister(h)).shared.pending == s.shared.pending - {id})
  {
    CorrelatedRun(INIT, ls);
    hide Run;
  }

  function PhaseAfter(s: State, l: Label, h: nat): Option<Phase> {
    if h in Next(s, l).handlers then Some(Next(s, l).handlers[h].phase) else None
  }

  /**
   In every run the reader can always go on, but for a full or closed channel: a
   line that is no message is skipped, a message is held for the handler waiting
   under its id or else queued, and a held one goes into the handler's channel.
   */
  lemma ReaderMovesOn(ls: seq<Label>)
    ensures var s := Run(INIT, ls);
            var scanned, delivered, queued := Next(s, Scan), Next(s, Deliver), Next(s, Enqueue);
            && (s.reader.Scanning? && s.out != [] ==>
                  && scanned == s.(out := s.out[1..], reader := scanned.reader)
                  && match s.out[0]
                     case Noise => scanned.reader == Scanning
                     case Json(m, asker) =>
                       if m.id.Some? && m.id.value in s.shared.pending
                       then scanned.reader == Holding(m, asker, s.shared.pending[m.id.value])
                       else scanned.reader == Queueing(m, asker))
            && (s.reader.Holding? ==>
                  && s.reader.h in s.shared.chans
                  && (s.shared.chans[s.reader.h] == Chan([], false) ==>
                        && delivered.reader == Scanning && s.reader.h in delivered.shared.chans
                        && delivered.shared.chans[s.reader.h] == Chan([s.reader.m], false)))
            && (s.reader.Queueing? ==> queued.reader == Scanning)
  {
    CorrelatedRun(INIT, ls);
    hide Run;
  }

  /** In every run a server-initiated message is dropped exactly when 256 are queued, and else joins the queue's end. */
  lemma DropsExactlyWhenFull(ls: seq<Label>)
    requires Run(INIT, ls).reader.Queueing?
    ensures var s := Run(INIT, ls);
            var next := Run(INIT, ls + [Enqueue]);
            var full := |s.shared.notifs| == 256;
            && next.log == s.log + [Entry(s.reader.m, s.reader.asker, if full then Dropped else Queued)]
            && next.shared.notifs == s.shared.notifs + if full then [] else [s.reader.m]
  {
    CorrelatedRun(INIT, ls);
    RunSnoc(INIT, ls, Enqueue);
    hide Run;
  }

  lemma {:induction false} RunSnoc(s: State, ls: seq<Label>, l: Label)
    ensures Run(s, ls + [l]) == Next(Run(s, ls), l)
    decreases |ls|
  {
    hide Next;
    if ls == [] {
      assert (ls + [l])[1..] == [];
    } else {
      assert (ls + [l])[1..] == ls[1..] + [l];
      RunSnoc(Next(s, ls[0]), ls[1..], l);
    }
  }
}
