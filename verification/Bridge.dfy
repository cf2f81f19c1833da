/**
 The stdio-to-HTTP bridge. Server holds what its goroutines share, one method
 per critical section or channel operation. The rest of the module composes
 them: any number of HTTP handlers, one reader of the child's stdout, the SSE
 stream, the child and the exit goroutine, interleaved arbitrarily.
 */
module Bridge {
  import opened Wrappers

  const NOTIF_QUEUE := 256

  /** A JSON line; id is its raw "id" text, None when absent or null. */
  datatype Msg = Msg(id: Option<string>, text: string)

  /** A waiter's channel, with room for one message. */
  datatype Chan = Chan(buf: seq<Msg>, closed: bool)

  datatype Shared = Shared(pending: map<string, nat>, chans: map<nat, Chan>, notifs: seq<Msg>, stdin: seq<string>,
                           drained: bool, done: bool)

  // --- The shared operations ---

  function Registering(s: Shared, h: nat, id: string): Shared {
    s.(pending := s.pending[id := h], chans := s.chans[h := Chan([], false)])
  }

  function Deregistering(s: Shared, id: string): Shared {
    s.(pending := s.pending - {id})
  }

  function Waiter(s: Shared, id: Option<string>): Option<nat> {
    if id.Some? && id.value in s.pending then Some(s.pending[id.value]) else None
  }

  function Putting(s: Shared, h: nat, m: Msg): Shared
    requires h in s.chans
  {
    s.(chans := s.chans[h := s.chans[h].(buf := s.chans[h].buf + [m])])
  }

  function Taking(s: Shared, h: nat): Shared
    requires h in s.chans && s.chans[h].buf != []
  {
    s.(chans := s.chans[h := s.chans[h].(buf := s.chans[h].buf[1..])])
  }

  predicate QueueHasRoom(s: Shared) {
    |s.notifs| < NOTIF_QUEUE
  }

  function Enqueuing(s: Shared, m: Msg): Shared {
    if QueueHasRoom(s) then s.(notifs := s.notifs + [m]) else s
  }

  /** Whether a message goes to the child: not after it is known to be gone, and not if the write fails. */
  predicate Sends(s: Shared, ok: bool) {
    !s.done && ok
  }

  function Sending(s: Shared, text: string, ok: bool): Shared {
    if Sends(s, ok) then s.(stdin := s.stdin + [text]) else s
  }

  /** Closes the channels of all waiting requests and forgets them. */
  function Closing(s: Shared): Shared {
    s.(chans := CloseThese(s.chans, s.pending.Values), pending := map[], drained := true)
  }

  function CloseThese(chans: map<nat, Chan>, hs: set<nat>): map<nat, Chan> {
    map h | h in chans :: if h in hs then chans[h].(closed := true) else chans[h]
  }

  lemma CloseOneMore(chans: map<nat, Chan>, hs: set<nat>, h: nat)
    ensures CloseThese(chans, hs).Keys == chans.Keys
    ensures h in chans ==>
              var c := CloseThese(chans, hs); c[h := c[h].(closed := true)] == CloseThese(chans, hs + {h})
    ensures CloseThese(chans, {}) == chans
  {
  }

  lemma ValuesWithout(m: map<string, nat>, id: string)
    requires id in m
    ensures {m[id]} + (m - {id}).Values == m.Values
    ensures |m - {id}| < |m|
  {
    var rest := m - {id};
    assert forall k :: k in m && k != id ==> k in rest && rest[k] in rest.Values;
    assert forall k :: k in rest ==> k in m && rest[k] == m[k] && m[k] in m.Values;
    assert m[id] in m.Values;
    assert rest.Keys == m.Keys - {id};
    assert |rest| == |rest.Keys| && |m| == |m.Keys|;
  }

  class Server {
    var pending: map<string, nat>
    var chans: map<nat, Chan>
    var notifs: seq<Msg>
    var stdin: seq<string>
    var drained: bool
    var done: bool

    ghost function View(): Shared
      reads this
    {
      Shared(pending, chans, notifs, stdin, drained, done)
    }

    constructor ()
      ensures View() == Shared(map[], map[], [], [], false, false)
    {
      pending, chans, notifs, stdin, drained, done := map[], map[], [], [], false, false;
    }

    /** Puts a request's fresh channel into the waiting room. */
    method Register(h: nat, id: string)
      modifies this
      ensures View() == Registering(old(View()), h, id)
    {
      chans := chans[h := Chan([], false)];
      pending := pending[id := h];
    }

    method Deregister(id: string)
      modifies this
      ensures View() == Deregistering(old(View()), id)
    {
      pending := pending - {id};
    }

    method Lookup(id: Option<string>) returns (h: Option<nat>)
      ensures h == Waiter(View(), id)
    {
      h := if id.Some? && id.value in pending then Some(pending[id.value]) else None;
    }

    /** Queues a server-initiated message for the SSE stream, or drops it when the queue is full. */
    method Queue(m: Msg) returns (queued: bool)
      modifies this
      ensures View() == Enqueuing(old(View()), m) && queued == QueueHasRoom(old(View()))
    {
      queued := |notifs| < NOTIF_QUEUE;
      if queued { notifs := notifs + [m]; }
    }

    method Send(text: string, ok: bool) returns (sent: bool)
      modifies this
      ensures View() == Sending(old(View()), text, ok) && sent == Sends(old(View()), ok)
    {
      if done || !ok { return false; }
      stdin := stdin + [text];
      sent := true;
    }

    /** The exit goroutine's loop over the waiting requests. */
    method CloseAll()
      requires pending.Values <= chans.Keys
      modifies this
      ensures View() == Closing(old(View()))
    {
      hide CloseThese;
      ghost var before, waiters, closed: set<nat> := chans, pending.Values, {};
      CloseOneMore(before, {}, 0);
      while pending != map[]
        invariant closed + pending.Values == waiters <= chans.Keys
        invariant notifs == old(notifs) && stdin == old(stdin) && drained == old(drained) && done == old(done)
        invariant chans == CloseThese(before, closed)
        decreases |pending|
      {
        var id :| id in pending;
        var h := pending[id];
        ValuesWithout(pending, id);
        assert h in waiters && closed + {h} + (pending - {id}).Values == waiters;
        CloseOneMore(before, closed, h);
        closed := closed + {h};
        chans := chans[h := chans[h].(closed := true)];
        pending := pending - {id};
      }
      assert closed == waiters;
      drained := true;
    }
  }

  // --- The system ---

  datatype Outcome = Reply(m: Msg) | BadGateway | ClientGone

  datatype Phase = Registered | Waiting | Leaving(o: Outcome) | Gone(o: Outcome)

  datatype Handler = Handler(id: string, text: string, phase: Phase)

  /** A stdout line. asker records the request the child was asked and answers with it, if any. */
  datatype Line = Noise | Json(msg: Msg, asker: Option<nat>)

  datatype Reader =
    | Scanning
    | Holding(m: Msg, asker: Option<nat>, h: nat)
    | Queueing(m: Msg, asker: Option<nat>)
    | Crashed(m: Msg, asker: Option<nat>)

  datatype Fate = ToWaiter(h: nat) | Queued | Dropped

  datatype Entry = Entry(m: Msg, asker: Option<nat>, fate: Fate)

  /**
   asked maps the ids the child has been sent and not answered to their
   handlers. written, log and streamed record every JSON line of the child, what
   became of those the reader is done with, and what the SSE stream has sent.
   */
  datatype State = State(shared: Shared, handlers: map<nat, Handler>, out: seq<Line>, reader: Reader,
                         asked: map<string, nat>, written: seq<Msg>, log: seq<Entry>, streamed: seq<Msg>)

  const INIT := State(Shared(map[], map[], [], [], false, false), map[], [], Scanning, map[], [], [], [])

  datatype Label =
    | Register(h: nat, id: string, text: string)
    | Send(h: nat, ok: bool)
    | Take(h: nat)
    | SeeDone(h: nat)
    | Cancel(h: nat)
    | Deregister(h: nat)
    | Forward(text: string, ok: bool)
    | ChildNoise
    | ChildMessage(m: Msg)
    | Scan
    | Deliver
    | Enqueue
    | Stream
    | ExitDrain
    | ExitDone

  function SetPhase(s: State, h: nat, phase: Phase): State
    requires h in s.handlers
  {
    s.(handlers := s.handlers[h := s.handlers[h].(phase := phase)])
  }

  /** A handler of a JSON-RPC request: register, send, wait, deregister. */
  function HandlerStep(s: State, l: Label): State {
    match l
    case Register(h, id, text) =>
      if h in s.handlers then s
      else s.(shared := Registering(s.shared, h, id), handlers := s.handlers[h := Handler(id, text, Registered)])
    case Send(h, ok) =>
      if h !in s.handlers || !s.handlers[h].phase.Registered? then s
      else if !Sends(s.shared, ok) then SetPhase(s, h, Leaving(BadGateway))
      else
        SetPhase(s.(shared := Sending(s.shared, s.handlers[h].text, ok), asked := s.asked[s.handlers[h].id := h]),
                 h, Waiting)
    case Take(h) =>
      if h !in s.handlers || !s.handlers[h].phase.Waiting? || h !in s.shared.chans then s
      else
        var c := s.shared.chans[h];
        if c.buf != [] then SetPhase(s.(shared := Taking(s.shared, h)), h, Leaving(Reply(c.buf[0])))
        else if c.closed then SetPhase(s, h, Leaving(BadGateway))
        else s
    case SeeDone(h) =>
      if h in s.handlers && s.handlers[h].phase.Waiting? && s.shared.done then SetPhase(s, h, Leaving(BadGateway))
      else s
    case Cancel(h) =>
      if h in s.handlers && s.handlers[h].phase.Waiting? then SetPhase(s, h, Leaving(ClientGone)) else s
    case Deregister(h) =>
      if h in s.handlers && s.handlers[h].phase.Leaving? then
        SetPhase(s.(shared := Deregistering(s.shared, s.handlers[h].id)), h, Gone(s.handlers[h].phase.o))
      else s
    case _ => s
  }

  /** The reader of the child's stdout. A send on a full channel waits, one on a closed channel panics. */
  function ReaderStep(s: State, l: Label): State {
    match l
    case Scan =>
      if !s.reader.Scanning? || s.out == [] then s
      else
        (match s.out[0]
         case Noise => s.(out := s.out[1..])
         case Json(m, asker) =>
           var w := Waiter(s.shared, m.id);
           s.(out := s.out[1..], reader := if w.Some? then Holding(m, asker, w.value) else Queueing(m, asker)))
    case Deliver =>
      if !s.reader.Holding? || s.reader.h !in s.shared.chans then s
      else
        var Holding(m, asker, h) := s.reader;
        if s.shared.chans[h].closed then s.(reader := Crashed(m, asker))
        else if s.shared.chans[h].buf != [] then s
        else
          s.(shared := Putting(s.shared, h, m), reader := Scanning, log := s.log + [Entry(m, asker, ToWaiter(h))])
    case Enqueue =>
      if !s.reader.Queueing? then s
      else
        var Queueing(m, asker) := s.reader;
        s.(shared := Enqueuing(s.shared, m), reader := Scanning,
           log := s.log + [Entry(m, asker, if QueueHasRoom(s.shared) then Queued else Dropped)])
    case _ => s
  }

  /** Everything else: forwarded notifications, the child, the SSE stream, the exit goroutine. */
  function OtherStep(s: State, l: Label): State {
    match l
    case Forward(text, ok) => s.(shared := Sending(s.shared, text, ok))
    case ChildNoise => s.(out := s.out + [Noise])
    case ChildMessage(m) =>
      var answers := m.id.Some? && m.id.value in s.asked;
      s.(out := s.out + [Json(m, if answers then Some(s.asked[m.id.value]) else None)],
         asked := if answers then s.asked - {m.id.value} else s.asked, written := s.written + [m])
    case Stream =>
      if s.shared.notifs == [] then s
      else s.(shared := s.shared.(notifs := s.shared.notifs[1..]), streamed := s.streamed + [s.shared.notifs[0]])
    case ExitDrain => if s.shared.drained then s else s.(shared := Closing(s.shared))
    case ExitDone => if s.shared.drained then s.(shared := s.shared.(done := true)) else s
    case _ => s
  }

  predicate IsReaderLabel(l: Label) {
    l.Scan? || l.Deliver? || l.Enqueue?
  }

  predicate IsHandlerLabel(l: Label) {
    l.Register? || l.Send? || l.Take? || l.SeeDone? || l.Cancel? || l.Deregister?
  }

  function Next(s: State, l: Label): State {
    if IsHandlerLabel(l) then HandlerStep(s, l) else if IsReaderLabel(l) then ReaderStep(s, l) else OtherStep(s, l)
  }

  function Run(s: State, ls: seq<Label>): State
    decreases |ls|
  {
    if ls == [] then s else Run(Next(s, ls[0]), ls[1..])
  }
}
