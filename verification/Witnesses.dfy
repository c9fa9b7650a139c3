/** Runs of the whole program that exist: any login can be connected through, any status
    conversation is answered to its end, and a connect begun after End leaves the upstream
    socket of a session open. */
module Witnesses {
  import opened Basics
  import opened Protocol
  import opened Framing
  import opened Config
  import opened Reader
  import opened Outstanding
  import opened SessionMachine
  import opened SessionInvariants
  import opened SystemMachine
  import opened SystemInvariants

  // ---- the first client of a run ----

  /** The first client's session is `s`, and until Stop it is a member. */
  ghost predicate FirstIs(y: System, s: SessionState, stopped: bool) {
    && y.started && y.stopping == stopped
    && |y.sessions| > 0 && y.sessions[0] == s
    && (!stopped ==> 0 in y.registry && y.ending == {})
  }

  /** Some run of the program gets there. */
  ghost predicate Lives(c: ServerConfig, s: SessionState, stopped: bool) {
    exists actions :: Feasible(c, NewSystem(), actions) && FirstIs(Reached(c, NewSystem(), actions), s, stopped)
  }

  lemma {:induction false} LivesIn(c: ServerConfig, actions: seq<Action>, s: SessionState, stopped: bool)
    requires Feasible(c, NewSystem(), actions) && FirstIs(Reached(c, NewSystem(), actions), s, stopped)
    ensures Lives(c, s, stopped)
  {
  }

  /** The server starts and accepts a client. */
  lemma {:induction false} LivesBegin(c: ServerConfig)
    requires c.maxConnections >= 1
    ensures Lives(c, Reading(Handshaking, 0, [], [], []), false)
  {
    var y0 := NewSystem();
    var y1 := Act(c, y0, StartServer);
    assert y1.tasks == [Signal(Underway), Accept(0, Underway)] && y1.sessions == [NewSession()];
    var y2 := Act(c, y1, CompleteTask(1, true));
    assert y2.tasks == [Signal(Underway), Accept(0, Accepted)];
    SpawnedIs(c);
    assert Can(y2, RunTask(1, true));
    AcceptedFirst(c, y2);
    hide Can, Act, FirstIs, Reading;
    assert Feasible(c, y0, []) && Reached(c, y0, []) == y0;
    ReachedOneMore(c, y0, [], StartServer);
    ReachedOneMore(c, y0, [] + [StartServer], CompleteTask(1, true));
    ReachedOneMore(c, y0, [] + [StartServer] + [CompleteTask(1, true)], RunTask(1, true));
    LivesIn(c, [] + [StartServer] + [CompleteTask(1, true)] + [RunTask(1, true)],
            Reading(Handshaking, 0, [], [], []), false);
  }

  lemma {:induction false} SpawnedIs(c: ServerConfig)
    ensures Enabled(NewSession(), Spawn(true))
    ensures Step(c, NewSession(), Spawn(true)) == Reading(Handshaking, 0, [], [], [])
  {
    assert CancelWaits([]) == [];
  }

  lemma {:induction false} AcceptedFirst(c: ServerConfig, y: System)
    requires c.maxConnections >= 1
    requires y.started && !y.stopping && y.ending == {} && y.registry == {} && y.sessions == [NewSession()]
    requires y.tasks == [Signal(Underway), Accept(0, Accepted)] && Can(y, RunTask(1, true))
    ensures FirstIs(Act(c, y, RunTask(1, true)), Step(c, NewSession(), Spawn(true)), false)
  {
    hide Step, NewSession, Enabled;
  }

  /** A step of the session is a step of the program. */
  lemma {:induction false} LivesOn(c: ServerConfig, s: SessionState, stopped: bool, e: Event)
    requires Lives(c, s, stopped) && Own(e) && Enabled(s, e)
    ensures Lives(c, Step(c, s, e), stopped)
  {
    var actions :| Feasible(c, NewSystem(), actions) && FirstIs(Reached(c, NewSystem(), actions), s, stopped);
    var y := Reached(c, NewSystem(), actions);
    hide Step, Enabled, Update, Lives;
    UpdateKeeps(y, 0, Step(c, s, e));
    assert Can(y, InSession(0, e)) && FirstIs(Act(c, y, InSession(0, e)), Step(c, s, e), stopped);
    hide Can, Act, FirstIs;
    ReachedOneMore(c, NewSystem(), actions, InSession(0, e));
    LivesIn(c, actions + [InSession(0, e)], Step(c, s, e), stopped);
  }

  /** The server is asked to stop, does so, and ends the session. */
  lemma {:induction false} LivesEnd(c: ServerConfig, s: SessionState)
    requires Lives(c, s, false)
    ensures Lives(c, End(s), true)
  {
    var actions :| Feasible(c, NewSystem(), actions) && FirstIs(Reached(c, NewSystem(), actions), s, false);
    var y := Reached(c, NewSystem(), actions);
    var n := |y.tasks|;
    StopEnds(c, y, s);
    hide Can, Act, FirstIs, Lives, End;
    var y1 := Act(c, y, RequestStop(false));
    var y2 := Act(c, y1, RunTask(n, true));
    ReachedOneMore(c, NewSystem(), actions, RequestStop(false));
    ReachedOneMore(c, NewSystem(), actions + [RequestStop(false)], RunTask(n, true));
    ReachedOneMore(c, NewSystem(), actions + [RequestStop(false)] + [RunTask(n, true)], EndNext(0, true));
    LivesIn(c, actions + [RequestStop(false)] + [RunTask(n, true)] + [EndNext(0, true)], End(s), true);
  }

  lemma {:induction false} StopEnds(c: ServerConfig, y: System, s: SessionState)
    requires FirstIs(y, s, false)
    ensures Can(y, RequestStop(false))
    ensures var z := Act(c, y, RequestStop(false));
      && Can(z, RunTask(|y.tasks|, true))
      && Can(Act(c, z, RunTask(|y.tasks|, true)), EndNext(0, true))
      && FirstIs(Act(c, Act(c, z, RunTask(|y.tasks|, true)), EndNext(0, true)), End(s), true)
  {
    hide End, CancelTasks, Enabled;
    var z := Act(c, y, RequestStop(false));
    assert z.tasks[|y.tasks|] == StopCall;
    var u := Act(c, z, RunTask(|y.tasks|, true));
    assert u.stopping && 0 in u.ending && u.sessions == y.sessions && u.started;
    EndsFirst(c, u, s);
  }

  lemma {:induction false} EndsFirst(c: ServerConfig, y: System, s: SessionState)
    requires y.started && y.stopping && 0 in y.ending && |y.sessions| > 0 && y.sessions[0] == s
    ensures Can(y, EndNext(0, true)) && FirstIs(Act(c, y, EndNext(0, true)), End(s), true)
  {
    hide End, Update;
    UpdateKeeps(y, 0, End(s));
  }

  // ---- a frame arrives ----

  /** The coroutine waits for the next byte of the frame at `start`. */
  function Reading(g: Stage, start: nat, received: Bytes, sent: Bytes, reply: Bytes): SessionState {
    NewSession().(stage := g, sourceOpen := true, deadlineGeneration := 1, frameStart := start,
                  fromClient := received, toClient := sent, reply := reply,
                  pending := [Op(Wait, InFlight, 1, 0), Op(CoRead, InFlight, 0, 0)])
  }

  /** Its last byte is there, and the coroutine has not resumed. */
  function Arrived(g: Stage, start: nat, received: Bytes, sent: Bytes, reply: Bytes): SessionState {
    Reading(g, start, received, sent, reply).(pending := [Op(Wait, InFlight, 1, 0), Op(CoRead, Succeeded, 1, 0)])
  }

  lemma {:induction false} ArriveStep(c: ServerConfig, g: Stage, start: nat, received: Bytes, b: byte,
                                      sent: Bytes, reply: Bytes)
    requires Lives(c, Reading(g, start, received, sent, reply), false)
    ensures Lives(c, Arrived(g, start, received + [b], sent, reply), false)
  {
    var s := Reading(g, start, received, sent, reply);
    assert Enabled(s, Arrive(1, [b]));
    assert Step(c, s, Arrive(1, [b])) == Arrived(g, start, received + [b], sent, reply);
    hide Lives, Step, Enabled;
    LivesOn(c, s, false, Arrive(1, [b]));
  }

  /** Taking the completed operation out of the queue. */
  lemma {:induction false} LastTaken(s: SessionState, o: Op, p: Op)
    requires s.pending == [o, p]
    ensures Without(s, 1).pending == [o]
  {
  }

  lemma {:induction false} AwaitStep(c: ServerConfig, g: Stage, start: nat, received: Bytes, sent: Bytes, reply: Bytes)
    requires Lives(c, Arrived(g, start, received, sent, reply), false)
    requires Waiting(c, Arrived(g, start, received, sent, reply), received)
    ensures Lives(c, Reading(g, start, received, sent, reply), false)
  {
    hide Intercept, ScanFrame;
    var s := Arrived(g, start, received, sent, reply);
    LastTaken(s, Op(Wait, InFlight, 1, 0), Op(CoRead, Succeeded, 1, 0));
    assert Enabled(s, Run(1, true));
    assert Step(c, s, Run(1, true)) == Reading(g, start, received, sent, reply);
    hide Lives, Step, Enabled;
    LivesOn(c, s, false, Run(1, true));
  }

  /** The reader needs all of `frame`, which follows what was received. */
  ghost predicate NeedsAll(c: ServerConfig, g: Stage, start: nat, received: Bytes, frame: Bytes) {
    |frame| >= 1 && forall j :: 0 <= j < |frame| ==>
      Waiting(c, Reading(g, start, received, [], []), received + frame[..j])
  }

  lemma {:induction false} FrameReceived(c: ServerConfig, g: Stage, start: nat, received: Bytes, frame: Bytes,
                                         sent: Bytes, reply: Bytes, k: nat)
    requires Lives(c, Reading(g, start, received, sent, reply), false)
    requires NeedsAll(c, g, start, received, frame) && k < |frame|
    ensures Lives(c, Reading(g, start, received + frame[..k], sent, reply), false)
    decreases k
  {
    hide Lives, Intercept, ScanFrame;
    if k == 0 {
      assert received + frame[..0] == received;
    } else {
      FrameReceived(c, g, start, received, frame, sent, reply, k - 1);
      ArriveStep(c, g, start, received + frame[..k - 1], frame[k - 1], sent, reply);
      assert received + frame[..k - 1] + [frame[k - 1]] == received + frame[..k];
      assert Waiting(c, Reading(g, start, received, [], []), received + frame[..k]);
      AwaitStep(c, g, start, received + frame[..k], sent, reply);
    }
  }

  lemma {:induction false} WholeFrame(c: ServerConfig, g: Stage, start: nat, received: Bytes, frame: Bytes,
                                      sent: Bytes, reply: Bytes)
    requires Lives(c, Reading(g, start, received, sent, reply), false)
    requires NeedsAll(c, g, start, received, frame)
    ensures Lives(c, Arrived(g, start, received + frame, sent, reply), false)
  {
    assert |frame| >= 1;
    hide Lives, NeedsAll, Reading, Arrived;
    var n: nat := |frame| - 1;
    FrameReceived(c, g, start, received, frame, sent, reply, n);
    ArriveStep(c, g, start, received + frame[..n], frame[n], sent, reply);
    assert received + frame[..n] + [frame[n]] == received + frame;
  }

  lemma {:induction false} OpeningNeeded(c: ServerConfig, f: Bytes)
    requires !Intercept(c, f).Undecided? && VerdictUsed(Intercept(c, f)) == |f|
    ensures NeedsAll(c, Handshaking, 0, [], f)
  {
    hide Intercept;
    InterceptIsOnline(c, f, 0);
    forall j | 0 <= j < |f|
      ensures Waiting(c, Reading(Handshaking, 0, [], [], []), [] + f[..j])
    {
      InterceptIsOnline(c, f, j);
      assert Drop([] + f[..j], 0) == f[..j];
    }
  }

  /** The first frame of a client arrives, whatever its spelling. */
  lemma {:induction false} OpeningArrives(c: ServerConfig, f: Bytes)
    requires c.maxConnections >= 1
    requires !Intercept(c, f).Undecided? && VerdictUsed(Intercept(c, f)) == |f|
    ensures Lives(c, Arrived(Handshaking, 0, f, [], []), false)
  {
    hide Lives, Intercept, NeedsAll, Reading, Arrived;
    LivesBegin(c);
    OpeningNeeded(c, f);
    WholeFrame(c, Handshaking, 0, [], f, [], []);
    assert [] + f == f;
  }

  // ---- logins ----

  /** A live relay that has read the login frame `f` and not one byte more, with the
      replacement on its way upstream. */
  ghost predicate FirstRelayed(f: Bytes, h: Handshake, wire: Bytes, s: SessionState) {
    && s.stage == Relaying && !s.shutdownInitiated
    && s.fromClient == f && s.login == Some(LoginFrame(|f|, h, wire))
    && Op(WriteDest, InFlight, |wire|, 0) in s.pending
  }

  lemma {:induction false} WireSize(c: ServerConfig, f: Bytes, h: Handshake, wire: Bytes)
    requires Intercept(c, f) == Login(|f|, h, wire)
    ensures |wire| <= 268
  {
    hide Intercept;
    LoginRewritten(c, f, |f|, h, []);
  }

  /** Any login frame, in any spelling the parser accepts, can come to a live relay. */
  lemma {:induction false} LoginCanRelay(c: ServerConfig, f: Bytes, h: Handshake, wire: Bytes)
    requires c.maxConnections >= 1 && Intercept(c, f) == Login(|f|, h, wire)
    ensures exists s :: Lives(c, s, false) && FirstRelayed(f, h, wire, s)
  {
    hide Lives, Intercept, Step, AfterConnect;
    OpeningArrives(c, f);
    WireSize(c, f, h, wire);
    var s := Arrived(Handshaking, 0, f, [], []);
    WholeStreamIsFrame(s);
    ConnectStep(c, s, h, wire);
    LivesOn(c, s, false, Run(1, true));
    var t := Step(c, s, Run(1, true));
    RelayStep(c, t);
    ConnectedLives(c, t, false);
    assert FirstRelayed(f, h, wire, AfterConnect(c, t));
  }

  lemma {:induction false} WholeStreamIsFrame(s: SessionState)
    requires s.frameStart == 0
    ensures CurrentFrame(s) == s.fromClient
  {
  }

  lemma {:induction false} ConnectStep(c: ServerConfig, s: SessionState, h: Handshake, wire: Bytes)
    requires s.stage == Handshaking && |wire| <= |s.outgoing| && s.deadlineGeneration <= 2
    requires |s.pending| == 2 && s.pending[0].kind == Wait && s.pending[1] == Op(CoRead, Succeeded, 1, 0)
    requires Intercept(c, CurrentFrame(s)) == Login(|s.fromClient|, h, wire)
    ensures Enabled(s, Run(1, true))
    ensures var t := Step(c, s, Run(1, true));
      && |t.pending| == 3 && t.pending[2] == Op(Connect, InFlight, |wire|, 0)
      && t.pending[0].kind == Wait && t.pending[1].kind == Wait
      && t.stage == Connecting && t.shutdownInitiated == s.shutdownInitiated && t.fromClient == s.fromClient
      && t.login == Some(LoginFrame(|s.fromClient|, h, wire)) && t.destOpen
  {
    hide Intercept, Overwrite, CurrentFrame;
    SameFrame(s, Without(s, 1));
    LastTaken(s, s.pending[0], s.pending[1]);
    assert Step(c, s, Run(1, true)) == StartConnect(Without(s, 1), |s.fromClient|, h, wire);
  }

  /** The connect succeeds, and its handler runs. */
  function AfterConnect(c: ServerConfig, s: SessionState): SessionState
    requires Enabled(s, Connected(2))
  {
    Step(c, Step(c, s, Connected(2)), Run(2, true))
  }

  lemma {:induction false} ConnectedLives(c: ServerConfig, s: SessionState, stopped: bool)
    requires Lives(c, s, stopped) && Enabled(s, Connected(2))
    ensures Lives(c, AfterConnect(c, s), stopped)
  {
    var t := Step(c, s, Connected(2));
    hide Lives;
    LivesOn(c, s, stopped, Connected(2));
    LivesOn(c, t, stopped, Run(2, true));
  }

  lemma {:induction false} RelayStep(c: ServerConfig, s: SessionState)
    requires |s.pending| == 3 && s.pending[2].kind == Connect && s.pending[2].status == InFlight
    requires s.stage == Connecting && !s.shutdownInitiated && s.destOpen
    ensures Enabled(s, Connected(2))
    ensures var t := AfterConnect(c, s);
      && t.stage == Relaying && !t.shutdownInitiated && t.fromClient == s.fromClient && t.login == s.login
      && Op(WriteDest, InFlight, s.pending[2].arg, 0) in t.pending
  {
    hide CancelWaits;
    var u := Step(c, s, Connected(2));
    var o := Op(WriteDest, InFlight, s.pending[2].arg, 0);
    var p := CancelWaits(Remove(u.pending, 2));
    assert Step(c, u, Run(2, true)).pending == p + [o] + [Op(ReadDest, InFlight, 0, 0)];
    assert (p + [o] + [Op(ReadDest, InFlight, 0, 0)])[|p|] == o;
  }

  // ---- a connect after End ----

  /** Shut down and done with everything but its timer, with the upstream socket open. */
  ghost predicate LeftOpen(s: SessionState) {
    && s.shutdownInitiated && s.stage == Closed && s.destOpen
    && forall o :: o in s.pending ==> o.kind == Wait
  }

  /** For any login frame there is a run of the program in which Stop ends its session just
      before the coroutine takes the last byte, and the session that was shut down is left
      with an open upstream socket for as long as it exists. */
  lemma {:induction false} LateConnectReopens(c: ServerConfig, f: Bytes, h: Handshake, wire: Bytes)
    requires c.maxConnections >= 1 && Intercept(c, f) == Login(|f|, h, wire)
    ensures exists s :: Lives(c, s, true) && LeftOpen(s)
  {
    hide Lives, Intercept, Step, AfterConnect, LeftOpen;
    OpeningArrives(c, f);
    WireSize(c, f, h, wire);
    var s := Arrived(Handshaking, 0, f, [], []);
    LivesEnd(c, s);
    var e := End(s);
    EndStep(s);
    WholeStreamIsFrame(e);
    ConnectStep(c, e, h, wire);
    LivesOn(c, e, true, Run(1, true));
    var t := Step(c, e, Run(1, true));
    LateStep(c, t);
    ConnectedLives(c, t, true);
  }

  lemma {:induction false} EndStep(s: SessionState)
    requires s.pending == [Op(Wait, InFlight, 1, 0), Op(CoRead, Succeeded, 1, 0)]
    requires s.deadlineGeneration == 1 && !s.shutdownInitiated
    ensures var e := End(s);
      && e.shutdownInitiated && e.deadlineGeneration == 2
      && e.pending == [Op(Wait, Failed, 1, 0), Op(CoRead, Succeeded, 1, 0)]
      && e.frameStart == s.frameStart && e.stage == s.stage && e.outgoing == s.outgoing
      && e.fromClient == s.fromClient
  {
  }

  lemma {:induction false} LateStep(c: ServerConfig, s: SessionState)
    requires |s.pending| == 3 && s.pending[2].kind == Connect && s.pending[2].status == InFlight
    requires s.pending[0].kind == Wait && s.pending[1].kind == Wait
    requires s.shutdownInitiated && s.destOpen
    ensures Enabled(s, Connected(2)) && LeftOpen(AfterConnect(c, s))
  {
    hide CancelWaits;
    var u := Step(c, s, Connected(2));
    var p := Remove(u.pending, 2);
    assert p == [s.pending[0], s.pending[1]];
    assert AfterConnect(c, s).pending == CancelWaits(p);
    forall o | o in CancelWaits(p)
      ensures o.kind == Wait
    {
      var k :| 0 <= k < |p| && CancelWaits(p)[k] == o;
    }
  }

  // ---- status conversations ----

  /** The coroutine writes its reply. */
  function Replying(g: Stage, start: nat, received: Bytes, sent: Bytes, reply: Bytes): SessionState {
    Reading(g, start, received, sent, reply).(pending := [Op(Wait, InFlight, 1, 0), Op(CoWrite, InFlight, 0, 0)])
  }

  function Replied(g: Stage, start: nat, received: Bytes, sent: Bytes, reply: Bytes): SessionState {
    Reading(g, start, received, sent + reply, reply).(
      pending := [Op(Wait, InFlight, 1, 0), Op(CoWrite, Succeeded, 0, |reply|)])
  }

  lemma {:induction false} ReplyStep(c: ServerConfig, g: Stage, start: nat, received: Bytes, sent: Bytes, reply: Bytes)
    requires Lives(c, Replying(g, start, received, sent, reply), false) && |reply| >= 1
    ensures Lives(c, Replied(g, start, received, sent, reply), false)
  {
    var s := Replying(g, start, received, sent, reply);
    assert reply[0..|reply|] == reply;
    assert Enabled(s, Deliver(1, |reply|));
    assert Step(c, s, Deliver(1, |reply|)) == Replied(g, start, received, sent, reply);
    hide Lives, Step, Enabled;
    LivesOn(c, s, false, Deliver(1, |reply|));
  }

  /** The handler of the completed read or write runs. */
  lemma {:induction false} RunStep(c: ServerConfig, s: SessionState, t: SessionState)
    requires Lives(c, s, false) && |s.pending| == 2 && s.pending[1].status == Succeeded
    requires t == Handle(c, Without(s, 1), s.pending[1], true)
    ensures Lives(c, t, false)
  {
    assert Enabled(s, Run(1, true)) && Step(c, s, Run(1, true)) == t;
    hide Lives, Step, Enabled, Handle;
    LivesOn(c, s, false, Run(1, true));
  }

  lemma {:induction false} AskedIs(c: ServerConfig, s: SessionState)
    requires s.stage == Handshaking && Intercept(c, CurrentFrame(s)).StatusClient?
    ensures ResumeRead(c, s, true) == AwaitByte(s.(stage := StatusRequest, frameStart := |s.fromClient|))
  {
    hide Intercept, CurrentFrame;
  }

  lemma {:induction false} AskedStep(c: ServerConfig, f: Bytes)
    requires Lives(c, Arrived(Handshaking, 0, f, [], []), false) && Intercept(c, f) == StatusClient(|f|)
    ensures Lives(c, Reading(StatusRequest, |f|, f, [], []), false)
  {
    var s := Arrived(Handshaking, 0, f, [], []);
    WholeStreamIsFrame(Without(s, 1));
    LastTaken(s, Op(Wait, InFlight, 1, 0), Op(CoRead, Succeeded, 1, 0));
    AskedIs(c, Without(s, 1));
    hide Intercept, Lives, CurrentFrame, ResumeRead;
    RunStep(c, s, Reading(StatusRequest, |f|, f, [], []));
  }

  lemma {:induction false} RequestIs(c: ServerConfig, s: SessionState)
    requires s.stage == StatusRequest
    requires var r := ScanFrame(CurrentFrame(s), 1, 1); r.Body? && r.body[0] == 0
    ensures ResumeRead(c, s, true) == AwaitWrite(s.(stage := StatusReply), StatusResponse(c))
  {
    hide ScanFrame, CurrentFrame, StatusResponse;
  }

  lemma {:induction false} PingIs(c: ServerConfig, s: SessionState)
    requires s.stage == Pinging
    requires var r := ScanFrame(CurrentFrame(s), 9, 9); r.Body? && r.body[0] == 1
    ensures ResumeRead(c, s, true) == AwaitWrite(s.(stage := PongReply), Frame(ScanFrame(CurrentFrame(s), 9, 9).body))
  {
    hide ScanFrame, CurrentFrame, Frame;
  }

  lemma {:induction false} RequestedStep(c: ServerConfig, start: nat, received: Bytes, body: Bytes)
    requires Lives(c, Arrived(StatusRequest, start, received, [], []), false)
    requires start <= |received| && ScanFrame(Drop(received, start), 1, 1) == Body(|received| - start, body) && body[0] == 0
    ensures Lives(c, Replying(StatusReply, start, received, [], StatusResponse(c)), false)
  {
    var s := Arrived(StatusRequest, start, received, [], []);
    LastTaken(s, Op(Wait, InFlight, 1, 0), Op(CoRead, Succeeded, 1, 0));
    hide ScanFrame, Lives, StatusResponse, ResumeRead;
    RequestIs(c, Without(s, 1));
    RunStep(c, s, Replying(StatusReply, start, received, [], StatusResponse(c)));
  }

  lemma {:induction false} RespondedStep(c: ServerConfig, start: nat, received: Bytes, reply: Bytes)
    requires Lives(c, Replied(StatusReply, start, received, [], reply), false)
    ensures Lives(c, Reading(Pinging, |received|, received, reply, reply), false)
  {
    var s := Replied(StatusReply, start, received, [], reply);
    assert [] + reply == reply;
    LastTaken(s, Op(Wait, InFlight, 1, 0), Op(CoWrite, Succeeded, 0, |reply|));
    hide Lives;
    RunStep(c, s, Reading(Pinging, |received|, received, reply, reply));
  }

  lemma {:induction false} PingedStep(c: ServerConfig, start: nat, received: Bytes, sent: Bytes, body: Bytes)
    requires Lives(c, Arrived(Pinging, start, received, sent, sent), false)
    requires start <= |received| && ScanFrame(Drop(received, start), 9, 9) == Body(|received| - start, body) && body[0] == 1
    ensures Lives(c, Replying(PongReply, start, received, sent, Frame(body)), false)
  {
    var s := Arrived(Pinging, start, received, sent, sent);
    LastTaken(s, Op(Wait, InFlight, 1, 0), Op(CoRead, Succeeded, 1, 0));
    hide ScanFrame, Lives, Frame, ResumeRead;
    PingIs(c, Without(s, 1));
    RunStep(c, s, Replying(PongReply, start, received, sent, Frame(body)));
  }

  /** A conversation that is over: ended by the proxy, with everything sent that was due. */
  ghost predicate Served(c: ServerConfig, received: Bytes, sent: Bytes, s: SessionState) {
    s.stage == Closed && s.shutdownInitiated && s.fromClient == received && s.toClient == sent
  }

  lemma {:induction false} PongedStep(c: ServerConfig, start: nat, received: Bytes, sent: Bytes, reply: Bytes)
    requires Lives(c, Replied(PongReply, start, received, sent, reply), false)
    ensures exists s :: Lives(c, s, false) && Served(c, received, sent + reply, s)
  {
    var s := Replied(PongReply, start, received, sent, reply);
    var t := Finish(Without(s, 1));
    assert Served(c, received, sent + reply, t);
    hide Lives;
    RunStep(c, s, t);
  }

  /** A frame of fixed size is needed to its last byte. */
  lemma {:induction false} FrameNeeded(c: ServerConfig, g: Stage, received: Bytes, frame: Bytes)
    requires g == StatusRequest || g == Pinging
    requires var n := if g == StatusRequest then 1 else 9;
      ScanFrame(frame, n, n).Body? && ScanFrame(frame, n, n).used == |frame|
    ensures NeedsAll(c, g, |received|, received, frame)
  {
    hide ScanFrame;
    var n := if g == StatusRequest then 1 else 9;
    ScanIsOnline(frame, n, n, 0);
    forall j | 0 <= j < |frame|
      ensures Waiting(c, Reading(g, |received|, received, [], []), received + frame[..j])
    {
      ScanIsOnline(frame, n, n, j);
      assert Drop(received + frame[..j], |received|) == frame[..j];
    }
  }

  /** Every status conversation has a run in which the client is sent all the replies it is
      due: the status document and its own ping. */
  lemma {:induction false} StatusCanBeAnswered(c: ServerConfig, f: Bytes, q: Bytes, p: Bytes, asked: Bytes, ping: Bytes)
    requires c.maxConnections >= 1 && Intercept(c, f) == StatusClient(|f|)
    requires ScanFrame(q, 1, 1) == Body(|q|, asked) && asked[0] == 0
    requires ScanFrame(p, 9, 9) == Body(|p|, ping) && ping[0] == 1
    ensures exists s :: Lives(c, s, false) && Served(c, f + q + p, StatusResponse(c) + Frame(ping), s)
  {
    hide Lives, Intercept, ScanFrame, NeedsAll, Reading, Arrived, Replying, Replied, StatusResponse, Frame, Served;
    OpeningArrives(c, f);
    AskedStep(c, f);
    FrameNeeded(c, StatusRequest, f, q);
    WholeFrame(c, StatusRequest, |f|, f, q, [], []);
    assert Drop(f + q, |f|) == q;
    RequestedStep(c, |f|, f + q, asked);
    var response := StatusResponse(c);
    ResponseNotEmpty(c);
    FrameNotEmpty(ping);
    ReplyStep(c, StatusReply, |f|, f + q, [], response);
    RespondedStep(c, |f|, f + q, response);
    FrameNeeded(c, Pinging, f + q, p);
    WholeFrame(c, Pinging, |f + q|, f + q, p, response, response);
    assert Drop(f + q + p, |f + q|) == p;
    PingedStep(c, |f + q|, f + q + p, response, ping);
    ReplyStep(c, PongReply, |f + q|, f + q + p, response, Frame(ping));
    PongedStep(c, |f + q|, f + q + p, response, Frame(ping));
  }
}
