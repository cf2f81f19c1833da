/**
 What the bridge promises peers that behave: clients that never reuse an
 outstanding id, and a child that answers each request at most once and only
 after receiving it. Then every answer finds the handler that asked for it,
 unless that handler has left, and the reader never blocks.
 */
module BridgeDiscipline {
  import opened Wrappers
  import opened Bridge
  import opened BridgeCorrelation

  predicate Carries(l: Line, id: string) {
    l.Json? && l.msg.id == Some(id)
  }

  /** The id is in flight, awaits an answer, or is on a line the reader is not done with. */
  ghost predicate Outstanding(s: State, id: string) {
    || (exists h :: h in s.handlers && InFlight(s.handlers[h]) && s.handlers[h].id == id)
    || id in s.asked
    || (exists l :: l in s.out && Carries(l, id))
    || (!s.reader.Scanning? && s.reader.m.id == Some(id))
  }

  ghost predicate Disciplined(s: State, l: Label) {
    match l
    case Register(_, id, _) => !Outstanding(s, id)
    case ChildMessage(m) =>
      // An answer to a request the child was sent, or an id no request in flight uses.
      m.id.Some? && m.id.value !in s.asked ==>
        forall h :: h in s.handlers && InFlight(s.handlers[h]) ==> s.handlers[h].id != m.id.value
    case _ => true
  }

  ghost predicate DisciplinedRun(s: State, ls: seq<Label>)
    decreases |ls|
  {
    ls == [] || (Disciplined(s, ls[0]) && DisciplinedRun(Next(s, ls[0]), ls[1..]))
  }

  // --- The invariant ---

  ghost predicate IdsDistinct(hs: map<nat, Handler>) {
    forall g, h :: g in hs && h in hs && InFlight(hs[g]) && InFlight(hs[h]) && hs[g].id == hs[h].id ==> g == h
  }

  /** Handlers in flight are in the waiting room, unless the exit goroutine closed their channel. */
  ghost predicate RoomOk(s: State) {
    && (forall h :: h in s.handlers && h in s.shared.chans && InFlight(s.handlers[h]) && !s.shared.chans[h].closed ==>
          s.handlers[h].id in s.shared.pending && s.shared.pending[s.handlers[h].id] == h)
    && (forall k :: k in s.shared.pending ==>
          s.shared.pending[k] in s.shared.chans && !s.shared.chans[s.shared.pending[k]].closed)
  }

  /** The request the child means is the only one in flight with that id. */
  predicate MeansOnly(hs: map<nat, Handler>, id: Option<string>, asker: Option<nat>) {
    && (asker.Some? ==> asker.value in hs && id == Some(hs[asker.value].id))
    && (forall g :: g in hs && InFlight(hs[g]) && id == Some(hs[g].id) ==> asker == Some(g))
  }

  ghost predicate AskedOk(s: State) {
    forall i :: i in s.asked ==> MeansOnly(s.handlers, Some(i), Some(s.asked[i]))
  }

  ghost predicate TransitOk(s: State) {
    && (forall l :: l in s.out && l.Json? ==> MeansOnly(s.handlers, l.msg.id, l.asker))
    && (!s.reader.Scanning? ==> MeansOnly(s.handlers, s.reader.m.id, s.reader.asker))
    && (s.reader.Holding? ==> s.reader.asker == Some(s.reader.h))
  }

  function Tags(out: seq<Line>, h: nat): nat {
    if out == [] then 0 else (if out[0].Json? && out[0].asker == Some(h) then 1 else 0) + Tags(out[1..], h)
  }

  function InHandFor(r: Reader, h: nat): nat {
    if !r.Scanning? && r.asker == Some(h) then 1 else 0
  }

  function AskedFor(asked: map<string, nat>, h: Handler, n: nat): nat {
    if h.id in asked && asked[h.id] == n then 1 else 0
  }

  function Got(h: Handler, c: Chan): nat {
    |c.buf| + if HasReply(h) then 1 else 0
  }

  /** Where the answer to request n is: still to come, in the pipe, in the reader's hand, or with its handler. */
  function Pieces(s: State, n: nat): nat
    requires n in s.handlers && n in s.shared.chans
  {
    AskedFor(s.asked, s.handlers[n], n) + Tags(s.out, n) + InHandFor(s.reader, n)
    + Got(s.handlers[n], s.shared.chans[n])
  }

  ghost predicate PiecesOk(s: State) {
    && (forall h :: h in s.handlers ==> h in s.shared.chans
                                        && Pieces(s, h) <= if s.handlers[h].phase.Registered? then 0 else 1)
    && (forall h: nat :: h !in s.handlers ==> Tags(s.out, h) == 0 && InHandFor(s.reader, h) == 0)
    && s.shared.chans.Keys == s.handlers.Keys
  }

  ghost predicate Inv(s: State) {
    Correlated(s) && IdsDistinct(s.handlers) && RoomOk(s) && AskedOk(s) && TransitOk(s) && PiecesOk(s)
  }

  lemma {:induction false} TagsSnoc(out: seq<Line>, l: Line, h: nat)
    ensures Tags(out + [l], h) == Tags(out, h) + if l.Json? && l.asker == Some(h) then 1 else 0
  {
    if out == [] {
      assert out + [l] == [l];
    } else {
      assert (out + [l])[1..] == out[1..] + [l];
      TagsSnoc(out[1..], l, h);
    }
  }

  // --- One step ---

  lemma IdsStep(s: State, l: Label)
    requires IdsDistinct(s.handlers) && Disciplined(s, l)
    ensures IdsDistinct(Next(s, l).handlers)
  {
    if l.Register? && l.h !in s.handlers {
      assert forall h :: h in s.handlers && InFlight(s.handlers[h]) ==> s.handlers[h].id != l.id;
    }
  }

  lemma RoomStep(s: State, l: Label)
    requires Inv(s) && Disciplined(s, l)
    ensures RoomOk(Next(s, l))
  {
    hide PiecesOk, AskedOk, TransitOk, RoomOk, HandlerStep, ReaderStep, OtherStep, Disciplined;
    match l
    case Register(h, id, _) => RoomRegister(s, l);
    case Deregister(h) => RoomDeregister(s, l);
    case ExitDrain => RoomDrain(s);
    case _ => RoomQuiet(s, l);
  }

  lemma RoomRegister(s: State, l: Label)
    requires RoomOk(s) && Correlated(s) && l.Register? && Disciplined(s, l)
    ensures RoomOk(HandlerStep(s, l))
  {
    FreshId(s, l.id);
    hide Outstanding;
    if l.h !in s.handlers {
      assert forall k :: k in s.shared.pending ==> WaitsUnder(s.handlers, s.shared.pending[k], k);
    }
  }

  lemma RoomDeregister(s: State, l: Label)
    requires RoomOk(s) && IdsDistinct(s.handlers) && l.Deregister?
    ensures RoomOk(HandlerStep(s, l))
  {
  }

  lemma RoomDrain(s: State)
    requires RoomOk(s)
    ensures RoomOk(OtherStep(s, ExitDrain))
  {
  }

  lemma RoomQuiet(s: State, l: Label)
    requires RoomOk(s) && !l.Register? && !l.Deregister? && !l.ExitDrain?
    requires s.shared.chans.Keys == s.handlers.Keys
    ensures RoomOk(Next(s, l))
  {
    QuietFacts(s, l);
    hide Next;
  }

  /** The waiting room, the ids and phases in flight and the closed channels stay as they are. */
  ghost predicate SameRoom(s: State, next: State) {
    && next.shared.pending == s.shared.pending
    && next.handlers.Keys == s.handlers.Keys && next.shared.chans.Keys == s.shared.chans.Keys
    && (forall h :: h in s.handlers ==>
          next.handlers[h].id == s.handlers[h].id && InFlight(next.handlers[h]) == InFlight(s.handlers[h]))
    && (forall h :: h in s.shared.chans ==> next.shared.chans[h].closed == s.shared.chans[h].closed)
  }

  lemma QuietFacts(s: State, l: Label)
    requires !l.Register? && !l.Deregister? && !l.ExitDrain?
    ensures SameRoom(s, Next(s, l))
  {
    hide HandlerStep, ReaderStep, OtherStep, SameRoom;
    if IsHandlerLabel(l) {
      QuietHandler(s, l);
    } else if IsReaderLabel(l) {
      QuietReader(s, l);
    } else {
      QuietOther(s, l);
    }
  }

  lemma QuietHandler(s: State, l: Label)
    requires !l.Register? && !l.Deregister?
    ensures SameRoom(s, HandlerStep(s, l))
  {
  }

  lemma QuietReader(s: State, l: Label)
    ensures SameRoom(s, ReaderStep(s, l))
  {
  }

  lemma QuietOther(s: State, l: Label)
    requires !l.ExitDrain?
    ensures SameRoom(s, OtherStep(s, l))
  {
  }

  lemma FreshId(s: State, id: string)
    requires !Outstanding(s, id)
    ensures forall h :: h in s.handlers && InFlight(s.handlers[h]) ==> s.handlers[h].id != id
    ensures id !in s.asked && (forall l :: l in s.out && l.Json? ==> l.msg.id != Some(id))
    ensures !s.reader.Scanning? ==> s.reader.m.id != Some(id)
  {
    forall l | l in s.out && l.Json?
      ensures l.msg.id != Some(id)
    {
      assert !Carries(l, id);
    }
  }

  /** A step leaves a message's meaning alone: handlers never come back, new ones use fresh ids. */
  lemma MeansStep(s: State, l: Label, id: Option<string>, asker: Option<nat>)
    requires MeansOnly(s.handlers, id, asker)
    requires l.Register? && l.h !in s.handlers ==> id != Some(l.id)
    ensures MeansOnly(Next(s, l).handlers, id, asker)
  {
  }

  /** Only a sent request becomes outstanding at the child. */
  lemma AskedAfter(s: State, l: Label)
    ensures forall i :: i in Next(s, l).asked ==>
              || (i in s.asked && Next(s, l).asked[i] == s.asked[i])
              || (l.Send? && l.h in s.handlers && s.handlers[l.h].phase.Registered? && i == s.handlers[l.h].id
                  && Next(s, l).asked[i] == l.h)
  {
  }

  lemma AskedStep(s: State, l: Label)
    requires Inv(s) && Disciplined(s, l)
    ensures AskedOk(Next(s, l))
  {
    var next := Next(s, l);
    if l.Register? { FreshId(s, l.id); }
    AskedAfter(s, l);
    hide Next, Outstanding, PiecesOk, RoomOk, TransitOk, Correlated;
    forall i | i in next.asked
      ensures MeansOnly(next.handlers, Some(i), Some(next.asked[i]))
    {
      if i in s.asked && s.asked[i] == next.asked[i] {
        MeansStep(s, l, Some(i), Some(s.asked[i]));
      } else {
        assert MeansOnly(s.handlers, Some(i), Some(l.h));
        MeansStep(s, l, Some(i), Some(l.h));
      }
    }
  }

  lemma TransitStep(s: State, l: Label)
    requires Inv(s) && Disciplined(s, l)
    ensures TransitOk(Next(s, l))
  {
    hide Next, RoomOk, PiecesOk, IdsDistinct, ChansOk, ReaderOk, PendingOk;
    var next := Next(s, l);
    if l.Register? { FreshId(s, l.id); }
    PipeFacts(s, l);
    forall line | line in next.out && line.Json?
      ensures MeansOnly(next.handlers, line.msg.id, line.asker)
    {
      if line in s.out {
        MeansStep(s, l, line.msg.id, line.asker);
      } else {
        NewLineMeans(s, l.m);
      }
    }
    if !next.reader.Scanning? {
      if !s.reader.Scanning? {
        MeansStep(s, l, s.reader.m.id, s.reader.asker);
      } else {
        assert s.out[0] in s.out;
        MeansStep(s, l, s.out[0].msg.id, s.out[0].asker);
        if next.reader.Holding? { LookupMeans(s); }
      }
    }
  }

  /** How a step moves lines from the pipe through the reader's hand. */
  lemma PipeFacts(s: State, l: Label)
    ensures var next := Next(s, l);
            && (forall line :: line in next.out ==>
                  line in s.out || line == Noise || (l.ChildMessage? && line == NewLine(s, l.m)))
            && (l.ChildMessage? ==> next.handlers == s.handlers)
            && (!next.reader.Scanning? && !s.reader.Scanning? ==>
                  next.reader.m == s.reader.m && next.reader.asker == s.reader.asker
                  && (next.reader.Holding? ==> next.reader == s.reader))
            && (!next.reader.Scanning? && s.reader.Scanning? ==>
                  l.Scan? && s.out != [] && s.out[0].Json? && next.handlers == s.handlers
                  && next.reader.m == s.out[0].msg && next.reader.asker == s.out[0].asker
                  && (next.reader.Holding? ==> Waiter(s.shared, s.out[0].msg.id) == Some(next.reader.h)))
  {
  }

  function NewLine(s: State, m: Msg): Line {
    Json(m, if m.id.Some? && m.id.value in s.asked then Some(s.asked[m.id.value]) else None)
  }

  lemma NewLineMeans(s: State, m: Msg)
    requires AskedOk(s) && Disciplined(s, ChildMessage(m))
    ensures MeansOnly(s.handlers, m.id, NewLine(s, m).asker)
  {
    if m.id.Some? && m.id.value in s.asked {
      assert MeansOnly(s.handlers, Some(m.id.value), Some(s.asked[m.id.value]));
    }
  }

  lemma LookupMeans(s: State)
    requires PendingOk(s) && TransitOk(s) && s.out != [] && s.out[0].Json?
    ensures var w := Waiter(s.shared, s.out[0].msg.id);
            w.Some? ==> s.out[0].asker == w
  {
    assert s.out[0] in s.out;
    var id := s.out[0].msg.id;
    if id.Some? && id.value in s.shared.pending {
      assert WaitsUnder(s.handlers, s.shared.pending[id.value], id.value);
    }
  }

  // --- One answer per request ---

  /** The quantities that make up Pieces, and how each kind of step moves them. */
  lemma PiecesStep(s: State, l: Label)
    requires Inv(s) && Disciplined(s, l)
    ensures PiecesOk(Next(s, l))
  {
    hide RoomOk, IdsDistinct, PendingOk, ReaderOk, Disciplined, HandlerStep, ReaderStep, OtherStep;
    if IsHandlerLabel(l) {
      PiecesHandler(s, l);
    } else if IsReaderLabel(l) {
      PiecesReader(s, l);
    } else {
      PiecesOther(s, l);
    }
  }

  /** The per-handler bound of PiecesOk. */
  ghost predicate PieceOk(s: State, h: nat)
    requires h in s.handlers && h in s.shared.chans
  {
    Pieces(s, h) <= if s.handlers[h].phase.Registered? then 0 else 1
  }

  lemma PiecesHandler(s: State, l: Label)
    requires PiecesOk(s) && ChansOk(s) && AskedOk(s) && IdsDistinct(s.handlers) && IsHandlerLabel(l)
    requires Disciplined(s, l)
    ensures PiecesOk(HandlerStep(s, l))
  {
    hide IdsDistinct, HandlerStep, Tags, Disciplined, Fits;
    if l.Register? { PiecesRegister(s, l); } else if l.Send? { PiecesSend(s, l); } else { PiecesLocal(s, l); }
  }

  lemma PiecesRegister(s: State, l: Label)
    requires PiecesOk(s) && AskedOk(s) && l.Register? && Disciplined(s, l)
    ensures PiecesOk(HandlerStep(s, l))
  {
    FreshId(s, l.id);
    hide Tags, Outstanding, AskedOk;
    var next := HandlerStep(s, l);
    if next != s {
      forall h | h in next.handlers
        ensures PieceOk(next, h)
      {
        if h in s.handlers { assert PieceOk(s, h); }
      }
    }
  }

  lemma PiecesSend(s: State, l: Label)
    requires PiecesOk(s) && l.Send?
    ensures PiecesOk(HandlerStep(s, l))
  {
    var next := HandlerStep(s, l);
    SendFacts(s, l);
    hide Tags, HandlerStep, Got, AskedFor, InHandFor;
    if next != s {
      forall h | h in next.handlers
        ensures PieceOk(next, h)
      {
        assert PieceOk(s, h);
      }
    }
  }

  lemma SendSpares(s: State, l: Label)
    requires s.shared.chans.Keys == s.handlers.Keys && l.Send?
    ensures var next := HandlerStep(s, l);
            && next.out == s.out && next.reader == s.reader
            && next.shared.chans == s.shared.chans && next.handlers.Keys == s.handlers.Keys
            && (forall h :: h in s.handlers && h != l.h ==> next.handlers[h] == s.handlers[h])
            && (l.h in s.handlers ==>
                  Got(next.handlers[l.h], s.shared.chans[l.h]) == Got(s.handlers[l.h], s.shared.chans[l.h]))
            && (next != s ==> l.h in s.handlers && s.handlers[l.h].phase.Registered?
                              && !next.handlers[l.h].phase.Registered?)
  {
    hide AskedFor;
  }

  lemma SendFacts(s: State, l: Label)
    requires s.shared.chans.Keys == s.handlers.Keys && l.Send?
    ensures var next := HandlerStep(s, l);
            && next.out == s.out && next.reader == s.reader
            && next.handlers.Keys == s.handlers.Keys == next.shared.chans.Keys
            && (forall h :: h in s.handlers ==>
                  && Got(next.handlers[h], next.shared.chans[h]) == Got(s.handlers[h], s.shared.chans[h])
                  && AskedFor(next.asked, next.handlers[h], h) <= 1
                  && (h != l.h ==> next.handlers[h] == s.handlers[h]
                                   && AskedFor(next.asked, next.handlers[h], h) <= AskedFor(s.asked, s.handlers[h], h)))
            && (next != s ==> l.h in s.handlers && s.handlers[l.h].phase.Registered?
                              && !next.handlers[l.h].phase.Registered?)
  {
    SendSpares(s, l);
    hide Got;
  }

  lemma PiecesLocal(s: State, l: Label)
    requires PiecesOk(s) && (l.Take? || l.SeeDone? || l.Cancel? || l.Deregister?)
    ensures PiecesOk(HandlerStep(s, l))
  {
    hide HandlerStep;
    if l.Take? { TakeFacts(s, l.h); } else { LocalFacts(s, l); }
    PiecesMoved(s, HandlerStep(s, l));
  }

  lemma PiecesMoved(s: State, next: State)
    requires PiecesOk(s) && LocalMove(s, next)
    ensures PiecesOk(next)
  {
    hide Tags, Got;
    forall h | h in next.handlers
      ensures PieceOk(next, h)
    {
      assert PieceOk(s, h);
    }
  }

  /** What a step of handler n that neither registers nor sends leaves alone. */
  ghost predicate LocalMove(s: State, next: State) {
    && next.out == s.out && next.reader == s.reader && next.asked == s.asked
    && next.handlers.Keys == s.handlers.Keys == s.shared.chans.Keys == next.shared.chans.Keys
    && (forall h :: h in s.handlers ==>
          && next.handlers[h].id == s.handlers[h].id
          && next.handlers[h].phase.Registered? == s.handlers[h].phase.Registered?
          && Got(next.handlers[h], next.shared.chans[h]) == Got(s.handlers[h], s.shared.chans[h]))
  }

  lemma TakeFacts(s: State, h: nat)
    requires s.shared.chans.Keys == s.handlers.Keys
    ensures LocalMove(s, HandlerStep(s, Take(h)))
  {
  }

  lemma LocalFacts(s: State, l: Label)
    requires s.shared.chans.Keys == s.handlers.Keys
    requires l.SeeDone? || l.Cancel? || l.Deregister?
    ensures LocalMove(s, HandlerStep(s, l))
  {
    assert HandlerStep(s, l).shared.chans == s.shared.chans;
  }

  lemma PiecesReader(s: State, l: Label)
    requires PiecesOk(s) && TransitOk(s) && IsReaderLabel(l)
    ensures PiecesOk(ReaderStep(s, l))
  {
    if l.Deliver? {
      PiecesDeliver(s);
    } else {
      ReaderHand(s, l);
      hide ReaderStep, PiecesOk;
      PiecesFewer(s, ReaderStep(s, l));
    }
  }

  /** Anything that leaves handlers and channels alone and moves no answer into the pipe or the hand. */
  lemma PiecesFewer(s: State, next: State)
    requires PiecesOk(s) && next.asked == s.asked && next.handlers == s.handlers && next.shared.chans == s.shared.chans
    requires forall h: nat :: Tags(next.out, h) + InHandFor(next.reader, h) <= Tags(s.out, h) + InHandFor(s.reader, h)
    ensures PiecesOk(next)
  {
    hide Tags, InHandFor, Got;
    forall h | h in next.handlers
      ensures PieceOk(next, h)
    {
      assert PieceOk(s, h);
    }
  }

  /** Scanning a line moves it from the pipe into the hand; queueing drops it from the hand. */
  lemma ReaderHand(s: State, l: Label)
    requires l.Scan? || l.Enqueue?
    ensures var next := ReaderStep(s, l);
            && next.asked == s.asked && next.handlers == s.handlers && next.shared.chans == s.shared.chans
            && forall h: nat :: Tags(next.out, h) + InHandFor(next.reader, h) <= Tags(s.out, h) + InHandFor(s.reader, h)
  {
  }

  lemma PiecesDeliver(s: State)
    requires PiecesOk(s) && (s.reader.Holding? ==> s.reader.asker == Some(s.reader.h))
    ensures PiecesOk(ReaderStep(s, Deliver))
  {
    hide Tags;
    var next := ReaderStep(s, Deliver);
    assert next.asked == s.asked && next.handlers == s.handlers && next.out == s.out;
    if next != s {
      forall h | h in next.handlers
        ensures PieceOk(next, h)
      {
        assert PieceOk(s, h);
      }
    }
  }

  lemma TagsOther(s: State, l: Label, h: nat)
    requires !IsHandlerLabel(l) && !IsReaderLabel(l)
    ensures Tags(OtherStep(s, l).out, h)
            == Tags(s.out, h) + if l.ChildMessage? && NewLine(s, l.m).asker == Some(h) then 1 else 0
  {
    if l.ChildNoise? { TagsSnoc(s.out, Noise, h); }
    if l.ChildMessage? { TagsSnoc(s.out, NewLine(s, l.m), h); }
  }

  lemma PiecesOther(s: State, l: Label)
    requires PiecesOk(s) && AskedOk(s) && !IsHandlerLabel(l) && !IsReaderLabel(l)
    ensures PiecesOk(OtherStep(s, l))
  {
    hide Tags, OtherStep, InHandFor;
    var next := OtherStep(s, l);
    OtherFacts(s, l);
    forall h: nat
      ensures Tags(next.out, h)
              == Tags(s.out, h) + if l.ChildMessage? && NewLine(s, l.m).asker == Some(h) then 1 else 0
    {
      TagsOther(s, l, h);
    }
    if l.ChildMessage? && l.m.id.Some? && l.m.id.value in s.asked {
      assert MeansOnly(s.handlers, Some(l.m.id.value), Some(s.asked[l.m.id.value]));
    }
    hide AskedOk;
    forall h | h in next.handlers
      ensures PieceOk(next, h)
    {
      assert PieceOk(s, h);
    }
  }

  lemma OtherFacts(s: State, l: Label)
    requires !IsHandlerLabel(l) && !IsReaderLabel(l) && s.shared.chans.Keys == s.handlers.Keys
    ensures var next := OtherStep(s, l);
            && next.handlers == s.handlers && next.reader == s.reader && next.shared.chans.Keys == s.shared.chans.Keys
            && (forall h :: h in s.handlers ==> next.shared.chans[h].buf == s.shared.chans[h].buf)
            && (if l.ChildMessage? then
                  && next.out == s.out + [NewLine(s, l.m)]
                  && next.asked == if NewLine(s, l.m).asker.Some? then s.asked - {l.m.id.value} else s.asked
                else
                  next.asked == s.asked && (next.out == s.out || (l.ChildNoise? && next.out == s.out + [Noise])))
            && (l.ChildNoise? ==> next.out == s.out + [Noise])
  {
  }

  lemma InvStep(s: State, l: Label)
    requires Inv(s) && Disciplined(s, l)
    ensures Inv(Next(s, l))
  {
    CorrelatedStep(s, l);
    IdsStep(s, l);
    RoomStep(s, l);
    AskedStep(s, l);
    TransitStep(s, l);
    PiecesStep(s, l);
    hide Next, Correlated, IdsDistinct, RoomOk, AskedOk, TransitOk, PiecesOk;
  }

  lemma {:induction false} InvRun(s: State, ls: seq<Label>)
    requires Inv(s) && DisciplinedRun(s, ls)
    ensures Inv(Run(s, ls))
    decreases |ls|
  {
    hide Next, Inv, Disciplined;
    if ls != [] {
      InvStep(s, ls[0]);
      InvRun(Next(s, ls[0]), ls[1..]);
    }
  }

  /**
   Register-before-send pays off: in any disciplined run, when the reader picks
   up the answer to a request, it finds that very request's handler waiting,
   unless the handler has left or the exit goroutine has failed it.
   */
  lemma AnswerFindsItsWaiter(ls: seq<Label>)
    requires DisciplinedRun(INIT, ls)
    ensures var s := Run(INIT, ls);
            s.out != [] && s.out[0].Json? && s.out[0].asker.Some? ==>
              var h := s.out[0].asker.value;
              && h in s.handlers && h in s.shared.chans
              && (Waiter(s.shared, s.out[0].msg.id) == Some(h)
                  <==> InFlight(s.handlers[h]) && !s.shared.chans[h].closed)
              && (Waiter(s.shared, s.out[0].msg.id) != Some(h) ==> Waiter(s.shared, s.out[0].msg.id) == None)
  {
    hide Next;
    InvRun(INIT, ls);
    var s := Run(INIT, ls);
    if s.out != [] && s.out[0].Json? && s.out[0].asker.Some? {
      assert s.out[0] in s.out;
      LookupMeans(s);
    }
  }

  /** In any disciplined run the reader never waits for a full channel, and only ever hands a handler its own answer. */
  lemma ReaderNeverBlocks(ls: seq<Label>)
    requires DisciplinedRun(INIT, ls)
    ensures var s := Run(INIT, ls);
            s.reader.Holding? ==>
              && s.reader.asker == Some(s.reader.h)
              && s.reader.h in s.shared.chans && s.shared.chans[s.reader.h].buf == []
  {
    hide Next;
    InvRun(INIT, ls);
    var s := Run(INIT, ls);
    if s.reader.Holding? {
      assert Pieces(s, s.reader.h) <= 1;
    }
  }
}
