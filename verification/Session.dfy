/**
 The front's session recovery: request threads share a session id and the last
 initialize message; a 404 on a live session replays that message once and
 retries. Server holds the shared fields, the rest composes its threads.
 */
module Session {
  import opened Wrappers

  datatype Shared = Shared(session: string, initMsg: Option<string>)

  /** An upstream answer. */
  datatype Body = Sse | Text(blank: bool) | Broken
  datatype Response = Response(status: nat, sid: string, body: Body)
  datatype Net = NetError | Answer(r: Response)

  predicate Ok2xx(r: Response) {
    r.status / 100 == 2
  }

  // --- The critical sections ---

  /** Remembers a successful initialize. */
  function Captured(s: Shared, msg: string, sid: string): Shared {
    Shared(if sid != "" then sid else s.session, Some(msg))
  }

  function Stored(s: Shared, sid: string): Shared {
    if sid != "" then s.(session := sid) else s
  }

  class Server {
    var session: string
    var initMsg: Option<string>

    ghost function View(): Shared
      reads this
    {
      Shared(session, initMsg)
    }

    constructor ()
      ensures View() == Shared("", None)
    {
      session, initMsg := "", None;
    }

    method Capture(msg: string, sid: string)
      modifies this
      ensures View() == Captured(old(View()), msg, sid)
    {
      initMsg := Some(msg);
      if sid != "" { session := sid; }
    }

    /** The start of reinit: forgets the session and returns the message to replay. */
    method Reset() returns (replay: Option<string>)
      modifies this
      ensures View() == old(View()).(session := "") && replay == old(View()).initMsg
    {
      replay := initMsg;
      session := "";
    }

    method Store(sid: string)
      modifies this
      ensures View() == Stored(old(View()), sid)
    {
      if sid != "" { session := sid; }
    }
  }

  // --- The threads ---

  datatype Phase =
    | Posting
    | Judging(r: Response)
    | Resetting
    | Replaying(replay: string)
    | Storing(sid: string)
    | Retrying
    | Capturing(r: Response)
    | Replying(r: Response)
    | Erring(noInit: bool)
    | Finished(streamed: bool)

  /** sent records the messages the thread has POSTed, replies counts the lines it wrote. */
  datatype Thread = Thread(msg: string, initialize: bool, request: bool, phase: Phase, sent: seq<string>, replies: nat)

  datatype State = State(shared: Shared, threads: map<nat, Thread>)

  datatype Label = Start(t: nat, msg: string, initialize: bool, request: bool) | Step(t: nat, net: Net)

  /** Where a thread goes with the response its post returned. */
  function Returned(t: Thread, r: Response): Thread {
    t.(phase := if !t.request then Finished(false)
                else if t.initialize && Ok2xx(r) then Capturing(r) else Replying(r))
  }

  function Errored(t: Thread, noInit: bool): Thread {
    t.(phase := if t.request then Erring(noInit) else Finished(false))
  }

  function ThreadStep(s: Shared, t: Thread, net: Net): (Shared, Thread) {
    match t.phase
    case Posting =>
      var posted := t.(sent := t.sent + [t.msg]);
      (s, if net.NetError? then Errored(posted, false) else posted.(phase := Judging(net.r)))
    case Judging(r) =>
      (s, if r.status != 404 || s.session == "" then Returned(t, r) else t.(phase := Resetting))
    case Resetting =>
      (s.(session := ""),
       if s.initMsg.None? then Errored(t, true) else t.(phase := Replaying(s.initMsg.value)))
    case Replaying(replay) =>
      var posted := t.(sent := t.sent + [replay]);
      (s, if net.NetError? || !Ok2xx(net.r) then Errored(posted, false) else posted.(phase := Storing(net.r.sid)))
    case Storing(sid) => (Stored(s, sid), t.(phase := Retrying))
    case Retrying =>
      var posted := t.(sent := t.sent + [t.msg]);
      (s, if net.NetError? then Errored(posted, false) else Returned(posted, net.r))
    case Capturing(r) => (Captured(s, t.msg, r.sid), t.(phase := Replying(r)))
    case Replying(r) =>
      // A streamed body is copied event by event; anything else is one line, the reply or an error.
      if Ok2xx(r) && r.body.Sse? then (s, t.(phase := Finished(true)))
      else (s, t.(phase := Finished(false), replies := t.replies + 1))
    case Erring(_) => (s, t.(phase := Finished(false), replies := t.replies + 1))
    case Finished(_) => (s, t)
  }

  function Next(s: State, l: Label): State {
    match l
    case Start(t, msg, initialize, request) =>
      if t in s.threads then s
      else s.(threads := s.threads[t := Thread(msg, initialize && request, request, Posting, [], 0)])
    case Step(t, net) =>
      if t !in s.threads then s
      else
        var (shared, thread) := ThreadStep(s.shared, s.threads[t], net);
        State(shared, s.threads[t := thread])
  }

  function Run(s: State, ls: seq<Label>): State
    decreases |ls|
  {
    if ls == [] then s else Run(Next(s, ls[0]), ls[1..])
  }

  // --- Every run ---

  /** The message itself, then perhaps a replayed initialize message, then perhaps itself again. */
  predicate SentShape(t: Thread) {
    || t.sent == []
    || t.sent == [t.msg]
    || (|t.sent| == 2 && t.sent[0] == t.msg)
    || (|t.sent| == 3 && t.sent[0] == t.msg && t.sent[2] == t.msg)
  }

  /** How far a thread has come: what it has sent and how many lines it wrote. */
  predicate Progress(t: Thread) {
    && SentShape(t)
    && match t.phase
       case Posting => t.sent == [] && t.replies == 0
       case Judging(_) => |t.sent| == 1 && t.replies == 0
       case Resetting => |t.sent| == 1 && t.replies == 0
       case Replaying(_) => |t.sent| == 1 && t.replies == 0
       case Storing(_) => |t.sent| == 2 && t.replies == 0
       case Retrying => |t.sent| == 2 && t.replies == 0
       case Capturing(_) => t.replies == 0 && t.request && t.initialize
       case Replying(_) => t.replies == 0 && t.request
       case Erring(_) => t.replies == 0 && t.request
       case Finished(streamed) =>
         t.replies == (if t.request && !streamed then 1 else 0) && (streamed ==> t.request)
  }

  predicate NeedsInit(t: Thread) {
    t.phase.Resetting?
  }

  /** Some thread's initialize request has this text. */
  ghost predicate IsInit(s: State, msg: string) {
    exists u :: u in s.threads && s.threads[u].initialize && s.threads[u].msg == msg
  }

  /** What the thread replays or has replayed is an initialize request. */
  ghost predicate ReplaysInit(s: State, t: Thread) {
    && (t.phase.Replaying? ==> IsInit(s, t.phase.replay))
    && (|t.sent| >= 2 ==> IsInit(s, t.sent[1]))
  }

  ghost predicate Inv(s: State) {
    && (s.shared.session != "" ==> s.shared.initMsg.Some?)
    && (forall t :: t in s.threads ==>
          && Progress(s.threads[t])
          && (NeedsInit(s.threads[t]) || s.threads[t].phase.Replaying? || s.threads[t].phase.Storing? ==>
                s.shared.initMsg.Some?)
          && !(s.threads[t].phase.Erring? && s.threads[t].phase.noInit))
  }

  ghost predicate InitOk(s: State) {
    && (s.shared.initMsg.Some? ==> IsInit(s, s.shared.initMsg.value))
    && (forall t :: t in s.threads ==> ReplaysInit(s, s.threads[t]))
  }

  lemma InvStep(s: State, l: Label)
    requires Inv(s)
    ensures Inv(Next(s, l))
  {
    if l.Step? && l.t in s.threads {
      ThreadKeeps(s.shared, s.threads[l.t], l.net);
    }
    hide ThreadStep, Progress;
    if l.Start? { FreshProgresses(l); }
  }

  lemma FreshProgresses(l: Label)
    requires l.Start?
    ensures Progress(Thread(l.msg, l.initialize && l.request, l.request, Posting, [], 0))
  {
  }

  lemma ThreadProgresses(s: Shared, t: Thread, net: Net)
    requires Progress(t)
    requires NeedsInit(t) || t.phase.Replaying? || t.phase.Storing? ==> s.initMsg.Some?
    ensures Progress(ThreadStep(s, t, net).1)
  {
  }

  lemma ThreadKeeps(s: Shared, t: Thread, net: Net)
    requires Progress(t) && (s.session != "" ==> s.initMsg.Some?) && !(t.phase.Erring? && t.phase.noInit)
    requires NeedsInit(t) || t.phase.Replaying? || t.phase.Storing? ==> s.initMsg.Some?
    ensures var (s', t') := ThreadStep(s, t, net);
            && Progress(t') && !(t'.phase.Erring? && t'.phase.noInit)
            && (s.initMsg.Some? ==> s'.initMsg.Some?)
            && (s'.session != "" ==> s'.initMsg.Some?)
            && (NeedsInit(t') || t'.phase.Replaying? || t'.phase.Storing? ==> s'.initMsg.Some?)
  {
    ThreadProgresses(s, t, net);
    hide Progress;
  }

  /** What a thread's step can do to the cached initialize message and to what it replays. */
  lemma ThreadInits(s: Shared, t: Thread, net: Net)
    requires Progress(t)
    ensures var (s', t') := ThreadStep(s, t, net);
            && t'.msg == t.msg && t'.initialize == t.initialize
            && (s'.initMsg == s.initMsg || (t.initialize && s'.initMsg == Some(t.msg)))
            && (t'.phase.Replaying? ==> Some(t'.phase.replay) == s.initMsg)
            && t.sent <= t'.sent
            && (|t.sent| < 2 <= |t'.sent| ==> t.phase.Replaying? && t'.sent[1] == t.phase.replay)
  {
  }

  lemma InitOkStep(s: State, l: Label)
    requires Inv(s) && InitOk(s)
    ensures InitOk(Next(s, l))
  {
    hide ThreadStep, Progress;
    var next := Next(s, l);
    if l.Step? && l.t in s.threads { ThreadInits(s.shared, s.threads[l.t], l.net); }
    forall msg | IsInit(s, msg)
      ensures IsInit(next, msg)
    {
      var u :| u in s.threads && s.threads[u].initialize && s.threads[u].msg == msg;
      assert u in next.threads && next.threads[u].initialize && next.threads[u].msg == msg;
    }
    if next.shared.initMsg != s.shared.initMsg { assert IsInit(next, s.threads[l.t].msg); }
    forall t | t in next.threads
      ensures ReplaysInit(next, next.threads[t])
    {
      if t in s.threads { assert ReplaysInit(s, s.threads[t]); }
    }
  }

  lemma {:induction false} InvRun(s: State, ls: seq<Label>)
    requires Inv(s) && InitOk(s)
    ensures Inv(Run(s, ls)) && InitOk(Run(s, ls))
    decreases |ls|
  {
    hide Next, Inv, InitOk;
    if ls != [] {
      InvStep(s, ls[0]);
      InitOkStep(s, ls[0]);
      InvRun(Next(s, ls[0]), ls[1..]);
    }
  }

  const INIT := State(Shared("", None), map[])

  /**
   With any number of concurrent threads and any upstream behaviour: a session
   id implies a cached initialize message, so no request ever fails for lack of
   one; a thread POSTs its own message first, then at most an initialize request of
   some thread, then at most its own again; and a finished request wrote exactly one
   reply, unless its response was an event stream.
   */
  lemma RecoveryIsBounded(ls: seq<Label>)
    ensures var s := Run(INIT, ls);
            && (s.shared.session != "" ==> s.shared.initMsg.Some?)
            && (s.shared.initMsg.Some? ==> IsInit(s, s.shared.initMsg.value))
            && (forall t :: t in s.threads ==>
                  var thread := s.threads[t];
                  && SentShape(thread) && (|thread.sent| >= 2 ==> IsInit(s, thread.sent[1]))
                  && thread.phase != Erring(true)
                  && (thread.phase.Resetting? ==> s.shared.initMsg.Some?)
                  && (thread.phase.Finished? ==>
                        thread.replies == if thread.request && !thread.phase.streamed then 1 else 0)
                  && (!thread.phase.Finished? ==> thread.replies == 0))
  {
    InvRun(INIT, ls);
    var s := Run(INIT, ls);
    assert forall t :: t in s.threads ==> ReplaysInit(s, s.threads[t]);
  }

  // --- The session id ---

  /** The session id a step leaves behind, if it touches it at all. */
  function Touches(s: State, l: Label): Option<string> {
    if !l.Step? || l.t !in s.threads then None
    else
      match s.threads[l.t].phase
      case Resetting => Some("")
      case Capturing(r) => if r.sid == "" then None else Some(r.sid)
      case Storing(sid) => if sid == "" then None else Some(sid)
      case _ => None
  }

  /** The last id any step of the run left behind, or the one before it. */
  function LastId(s: State, ls: seq<Label>, before: string): string
    decreases |ls|
  {
    if ls == [] then before
    else LastId(Next(s, ls[0]), ls[1..], if Touches(s, ls[0]).Some? then Touches(s, ls[0]).value else before)
  }

  lemma TouchStep(s: State, l: Label)
    ensures Next(s, l).shared.session == if Touches(s, l).Some? then Touches(s, l).value else s.shared.session
  {
  }

  /** In every run the session id is the one most recently handed out, unless it has been given up since. */
  lemma {:induction false} SessionIsTheLatest(s: State, ls: seq<Label>)
    ensures Run(s, ls).shared.session == LastId(s, ls, s.shared.session)
    decreases |ls|
  {
    hide Next, Touches;
    if ls != [] {
      TouchStep(s, ls[0]);
      SessionIsTheLatest(Next(s, ls[0]), ls[1..]);
    }
  }

  // --- Single requests ---

  lemma RunCons(s: State, l: Label, ls: seq<Label>)
    ensures Run(s, [l] + ls) == Run(Next(s, l), ls)
  {
    assert ([l] + ls)[1..] == ls;
  }

  /** A request of thread t whose session has expired, with the initialize message to replay. */
  predicate Expired(s: State, t: nat, init: string) {
    && t in s.threads && s.threads[t].phase == Posting && s.threads[t].sent == [] && s.threads[t].replies == 0
    && s.threads[t].request && !s.threads[t].initialize
    && s.shared.session != "" && s.shared.initMsg == Some(init)
  }

  /** The first three steps of a recovery: the 404, seeing that there was a session, and giving it up. */
  lemma RecoveryBegins(s: State, t: nat, init: string, first: Response)
    requires Expired(s, t, init) && first.status == 404
    ensures var replaying := Next(Next(Next(s, Step(t, Answer(first))), Step(t, NetError)), Step(t, NetError));
            && t in replaying.threads && replaying.threads[t]
               == s.threads[t].(phase := Replaying(init), sent := [s.threads[t].msg])
            && replaying.shared == Shared("", Some(init))
  {
    var s1 := Next(s, Step(t, Answer(first)));
    assert s1.threads[t].phase == Judging(first) && s1.shared == s.shared && s1.threads[t].sent == [s.threads[t].msg];
    var s2 := Next(s1, Step(t, NetError));
    assert s2.threads[t].phase == Resetting && s2.shared == s.shared;
  }

  /** The steps of one thread for these three answers, with nobody else in between. */
  function RecoverySteps(t: nat, first: Response, second: Response, third: Response): seq<Label> {
    [Step(t, Answer(first))] + ([Step(t, NetError)] + ([Step(t, NetError)] + ([Step(t, Answer(second))]
    + ([Step(t, NetError)] + ([Step(t, Answer(third))] + ([Step(t, NetError)] + []))))))
  }

  /**
   A 404 on a live session is recovered from: the request, the cached initialize
   message and the request again are sent in turn, the new session id is adopted,
   and the last response is what the client gets.
   */
  lemma ExpiredSessionRecovers(s: State, t: nat, init: string, first: Response, second: Response, third: Response)
    requires Expired(s, t, init) && first.status == 404 && 200 <= second.status < 300
    ensures var end := Run(s, RecoverySteps(t, first, second, third));
            && t in end.threads
            && end.threads[t].sent == [s.threads[t].msg, init, s.threads[t].msg]
            && end.shared == Shared(second.sid, Some(init))
            && (200 <= third.status < 300 && third.body.Sse? ==>
                  end.threads[t].phase == Finished(true) && end.threads[t].replies == 0)
            && (!(200 <= third.status < 300 && third.body.Sse?) ==>
                  end.threads[t].phase == Finished(false) && end.threads[t].replies == 1)
  {
    var msg := s.threads[t].msg;
    RecoveryBegins(s, t, init, first);
    var s3 := Next(Next(Next(s, Step(t, Answer(first))), Step(t, NetError)), Step(t, NetError));
    var s4 := Next(s3, Step(t, Answer(second)));
    var s5 := Next(s4, Step(t, NetError));
    var s6 := Next(s5, Step(t, Answer(third)));
    assert s4.threads[t].phase == Storing(second.sid) && s4.threads[t].sent == [msg, init];
    assert s5.threads[t].phase == Retrying && s5.shared == Shared(second.sid, Some(init));
    assert s6.threads[t].phase == Replying(third) && s6.threads[t].sent == [msg, init, msg];
    SevenSteps(s, t, first, second, third);
  }

  /** If the replayed initialize fails or is not accepted, the request is not retried and gets an error line. */
  lemma FailedReplayEnds(s: State, t: nat, init: string, first: Response, second: Net)
    requires Expired(s, t, init) && first.status == 404
    requires second.NetError? || !(200 <= second.r.status < 300)
    ensures var replaying := Next(Next(Next(s, Step(t, Answer(first))), Step(t, NetError)), Step(t, NetError));
            var end := Next(Next(replaying, Step(t, second)), Step(t, NetError));
            && t in end.threads && end.shared == Shared("", Some(init))
            && end.threads[t].sent == [s.threads[t].msg, init]
            && end.threads[t].phase == Finished(false) && end.threads[t].replies == 1
  {
    RecoveryBegins(s, t, init, first);
  }

  /** If the retry fails, the request gets an error line and the new session is kept. */
  lemma FailedRetryEnds(s: State, t: nat, init: string, first: Response, second: Response)
    requires Expired(s, t, init) && first.status == 404 && 200 <= second.status < 300
    ensures var replaying := Next(Next(Next(s, Step(t, Answer(first))), Step(t, NetError)), Step(t, NetError));
            var stored := Next(Next(replaying, Step(t, Answer(second))), Step(t, NetError));
            var end := Next(Next(stored, Step(t, NetError)), Step(t, NetError));
            && t in end.threads && end.shared == Shared(second.sid, Some(init))
            && end.threads[t].sent == [s.threads[t].msg, init, s.threads[t].msg]
            && end.threads[t].phase == Finished(false) && end.threads[t].replies == 1
  {
    RecoveryBegins(s, t, init, first);
    var replaying := Next(Next(Next(s, Step(t, Answer(first))), Step(t, NetError)), Step(t, NetError));
    var s4 := Next(replaying, Step(t, Answer(second)));
    assert s4.threads[t].phase == Storing(second.sid) && s4.threads[t].sent == [s.threads[t].msg, init];
    var s5 := Next(s4, Step(t, NetError));
    assert s5.threads[t].phase == Retrying && s5.shared == Shared(second.sid, Some(init));
    var s6 := Next(s5, Step(t, NetError));
    assert s6.threads[t].sent == [s.threads[t].msg, init, s.threads[t].msg];
  }

  lemma SevenSteps(s: State, t: nat, first: Response, second: Response, third: Response)
    ensures Run(s, RecoverySteps(t, first, second, third))
            == Next(Next(Next(Next(Next(Next(Next(s, Step(t, Answer(first))), Step(t, NetError)), Step(t, NetError)),
                                   Step(t, Answer(second))), Step(t, NetError)), Step(t, Answer(third))),
                    Step(t, NetError))
  {
    hide Next, Run;
    var l0, l1, l2, l3 := Step(t, Answer(first)), Step(t, NetError), Step(t, Answer(second)), Step(t, Answer(third));
    var e: seq<Label> := [];
    RunCons(s, l0, [l1] + ([l1] + ([l2] + ([l1] + ([l3] + ([l1] + e))))));
    var s1 := Next(s, l0);
    RunCons(s1, l1, [l1] + ([l2] + ([l1] + ([l3] + ([l1] + e)))));
    var s2 := Next(s1, l1);
    RunCons(s2, l1, [l2] + ([l1] + ([l3] + ([l1] + e))));
    var s3 := Next(s2, l1);
    RunCons(s3, l2, [l1] + ([l3] + ([l1] + e)));
    var s4 := Next(s3, l2);
    RunCons(s4, l1, [l3] + ([l1] + e));
    var s5 := Next(s4, l1);
    RunCons(s5, l3, [l1] + e);
    var s6 := Next(s5, l3);
    RunCons(s6, l1, e);
    RunNone(Next(s6, l1));
  }

  lemma RunNone(s: State)
    ensures Run(s, []) == s
  {
  }

  /**
   A request that is not answered by a 404 on a live session is sent once. A
   successful initialize is remembered with its session id; anything else leaves
   session and initialize message alone. A notification is never answered, and no
   other thread notices.
   */
  lemma AnsweredRequest(s: State, t: nat, msg: string, initialize: bool, request: bool, r: Response)
    requires t !in s.threads && (r.status != 404 || s.shared.session == "")
    ensures var posted := Next(Next(Next(s, Start(t, msg, initialize, request)), Step(t, Answer(r))),
                               Step(t, NetError));
            var after := Next(posted, Step(t, NetError));
            var ok := 200 <= r.status < 300;
            var streamed := request && ok && r.body.Sse?;
            && after.threads.Keys == s.threads.Keys + {t} && after.threads[t].sent == [msg]
            && (forall u :: u in s.threads ==> after.threads[u] == s.threads[u])
            && (if request && initialize && ok then
                  && after.shared == Shared(if r.sid == "" then s.shared.session else r.sid, Some(msg))
                  && after.threads[t].phase == Replying(r) && after.threads[t].replies == 0
                else
                  && after.shared == s.shared
                  && after.threads[t].phase == Finished(streamed)
                  && after.threads[t].replies == if request && !streamed then 1 else 0)
  {
    var s0 := Next(s, Start(t, msg, initialize, request));
    assert s0.threads[t].phase == Posting && s0.shared == s.shared;
    var s1 := Next(s0, Step(t, Answer(r)));
    assert s1.threads[t].phase == Judging(r) && s1.threads[t].sent == [msg] && s1.shared == s.shared;
    var s2 := Next(s1, Step(t, NetError));
    assert s2.shared == s.shared;
  }

  /** A request whose first POST fails is not retried and gets one error line; a notification gets none. */
  lemma UnreachableGateway(s: State, t: nat, msg: string, initialize: bool, request: bool, net: Net)
    requires t !in s.threads
    ensures var after := Next(Next(Next(s, Start(t, msg, initialize, request)), Step(t, NetError)), Step(t, net));
            && after.threads.Keys == s.threads.Keys + {t} && after.shared == s.shared
            && after.threads[t].sent == [msg] && after.threads[t].phase == Finished(false)
            && after.threads[t].replies == if request then 1 else 0
  {
    var s0 := Next(s, Start(t, msg, initialize, request));
    assert s0.threads[t].phase == Posting && s0.shared == s.shared;
    var s1 := Next(s0, Step(t, NetError));
    assert s1.shared == s.shared && s1.threads[t].sent == [msg];
  }
}
