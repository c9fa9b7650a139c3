/** What becomes of a session: exactly when it is told to end, and what each handler of a
    live one leads to. */
module SessionOutcomes {
  import opened Basics
  import opened Protocol
  import opened Framing
  import opened Config
  import opened Reader
  import opened Outstanding
  import opened SessionMachine
  import opened SessionInvariants
  import opened SessionTheorems
  import opened SessionLifecycle

  // ---- exactly when a session is told to end ----

  /** The frame the coroutine has read does not let it go on. */
  ghost predicate FrameGivesUp(c: ServerConfig, s: SessionState) {
    match s.stage
    case Handshaking => Intercept(c, CurrentFrame(s)).Refused?
    case StatusRequest =>
      var r := ScanFrame(CurrentFrame(s), 1, 1);
      r.Reject? || (r.Body? && r.body != [0])
    case Pinging =>
      var r := ScanFrame(CurrentFrame(s), 9, 9);
      r.Reject? || (r.Body? && r.body[0] != 1)
    case _ => false
  }

  /** The handler of `o` is a reason to end: a failed operation, a frame that is refused, a
      pong that was sent, socket options that cannot be set, or the current deadline. */
  ghost predicate GivesUp(c: ServerConfig, s: SessionState, o: Op, choice: bool) {
    match o.kind
    case CoStart => false
    case CoRead => o.status == Failed || FrameGivesUp(c, s)
    case CoWrite => o.status == Failed || s.stage == PongReply
    case Connect => o.status == Failed || !choice
    case Wait => o.status == Succeeded && o.arg == s.deadlineGeneration
    case EndCall => true
    case _ => o.status == Failed
  }

  /** Not shut down, and no call of End is queued. */
  ghost predicate Untold(s: SessionState) {
    !s.shutdownInitiated && forall o :: o in s.pending ==> o.kind != EndCall
  }

  lemma {:induction false} UntoldIs(s: SessionState)
    ensures Untold(s) <==> !Ended(s)
  {
    TagsMember(s.pending, Ending);
    hide Tags;
    if Untold(s) {
      assert forall o :: o in s.pending ==> TagOf(o) != Ending;
    } else if !s.shutdownInitiated {
      var o :| o in s.pending && o.kind == EndCall;
      assert TagOf(o) == Ending;
    }
  }

  lemma {:induction false} BeginUntold(s: SessionState, o: Op)
    requires o.kind != EndCall
    ensures Untold(Begin(s, o)) <==> Untold(s)
  {
    if Untold(Begin(s, o)) {
      assert forall p :: p in s.pending ==> p in Begin(s, o).pending;
    }
  }

  lemma {:induction false} CancelUntold(s: SessionState)
    ensures Untold(Advanced(s)) <==> Untold(s)
    ensures Untold(ArmDeadline(s)) <==> Untold(s)
  {
    SameCalls(s.pending);
    hide CancelWaits;
    BeginUntold(Advanced(s), Op(Wait, InFlight, NextGeneration(s.deadlineGeneration), 0));
  }

  lemma {:induction false} SameCalls(ops: seq<Op>)
    ensures (forall o :: o in ops ==> o.kind != EndCall) <==> (forall o :: o in CancelWaits(ops) ==> o.kind != EndCall)
  {
    if forall o :: o in CancelWaits(ops) ==> o.kind != EndCall {
      forall o | o in ops
        ensures o.kind != EndCall
      {
        var k :| 0 <= k < |ops| && ops[k] == o;
        assert CancelWaits(ops)[k] in CancelWaits(ops);
      }
    }
    if forall o :: o in ops ==> o.kind != EndCall {
      forall o | o in CancelWaits(ops)
        ensures o.kind != EndCall
      {
        var k :| 0 <= k < |ops| && CancelWaits(ops)[k] == o;
        assert ops[k] in ops;
      }
    }
  }

  /** A dispatched End runs at once or is in the queue. */
  lemma {:induction false} DispatchTells(s: SessionState, inline: bool)
    ensures !Untold(End(s)) && !Untold(DispatchEnd(s, inline))
    ensures DispatchEnd(s, inline).shutdownInitiated <==> s.shutdownInitiated || inline
  {
    hide CancelWaits;
    var o := Op(EndCall, Succeeded, 0, 0);
    assert o in Begin(s, o).pending;
  }

  lemma {:induction false} LeaveTells(s: SessionState, thrown: bool, inline: bool)
    ensures !Untold(Leave(s, thrown, inline)) && !Untold(Throw(s, inline)) && !Untold(Finish(s))
    ensures Finish(s).shutdownInitiated && (Throw(s, inline).shutdownInitiated <==> s.shutdownInitiated || inline)
  {
    hide Untold, End, DispatchEnd;
    DispatchTells(s.(stage := Closed), inline);
    DispatchTells(s.(stage := Closed), true);
    EndIsDispatched(s.(stage := Closed));
  }

  lemma {:induction false} EndIsDispatched(s: SessionState)
    ensures DispatchEnd(s, true) == End(s)
  {
  }

  lemma {:induction false} StageUntold(s: SessionState, t: SessionState)
    requires t.pending == s.pending && t.shutdownInitiated == s.shutdownInitiated
    ensures Untold(t) <==> Untold(s)
  {
  }

  lemma {:induction false} AwaitUntold(s: SessionState, next: Stage, start: nat)
    ensures Untold(AwaitByte(s.(stage := next, frameStart := start))) <==> Untold(s)
  {
    var t := s.(stage := next, frameStart := start);
    StageUntold(s, t);
    hide Untold;
    BeginUntold(t, Op(CoRead, InFlight, 0, 0));
  }

  lemma {:induction false} AnswerUntold(s: SessionState, next: Stage, reply: Bytes)
    ensures Untold(AwaitWrite(s.(stage := next), reply)) <==> Untold(s)
  {
    var t := s.(stage := next, reply := reply);
    StageUntold(s, t);
    hide Untold;
    BeginUntold(t, Op(CoWrite, InFlight, 0, 0));
  }

  lemma {:induction false} ConnectUntold(s: SessionState, used: nat, h: Handshake, wire: Bytes)
    requires |wire| <= |s.outgoing|
    ensures Untold(StartConnect(s, used, h, wire)) <==> Untold(s)
  {
    var t := Stored(s, used, h, wire);
    StageUntold(s, t);
    hide Untold, Stored, ArmDeadline;
    CancelUntold(t);
    BeginUntold(ArmDeadline(t), Op(Connect, InFlight, |wire|, 0));
  }

  lemma {:induction false} HandshakeTells(c: ServerConfig, s: SessionState, inline: bool)
    requires s.stage == Handshaking && Untold(s) && |s.outgoing| == 4096
    ensures Untold(ResumeRead(c, s, inline)) <==> !FrameGivesUp(c, s)
  {
    hide Untold, Intercept, CurrentFrame, Leave, Throw, StartConnect, AwaitByte;
    match Intercept(c, CurrentFrame(s))
    case Undecided => AwaitUntold(s, s.stage, s.frameStart);
    case Refused(_, thrown) => LeaveTells(s, thrown, inline);
    case StatusClient(_) => AwaitUntold(s, StatusRequest, |s.fromClient|);
    case Login(used, h, wire) =>
      LoginStored(c, s);
      ConnectUntold(s, used, h, wire);
  }

  lemma {:induction false} RequestTells(c: ServerConfig, s: SessionState, inline: bool)
    requires s.stage == StatusRequest && Untold(s)
    ensures Untold(ResumeRead(c, s, inline)) <==> !FrameGivesUp(c, s)
  {
    hide Untold, ScanFrame, CurrentFrame, Leave, Finish, AwaitByte, AwaitWrite, StatusResponse;
    match ScanFrame(CurrentFrame(s), 1, 1)
    case More => AwaitUntold(s, s.stage, s.frameStart);
    case Reject(_, thrown) => LeaveTells(s, thrown, inline);
    case Body(_, body) =>
      assert body == [body[0]];
      LeaveTells(s, false, inline);
      AnswerUntold(s, StatusReply, StatusResponse(c));
  }

  lemma {:induction false} PingTells(c: ServerConfig, s: SessionState, inline: bool)
    requires s.stage == Pinging && Untold(s)
    ensures Untold(ResumeRead(c, s, inline)) <==> !FrameGivesUp(c, s)
  {
    hide Untold, ScanFrame, CurrentFrame, Leave, Finish, AwaitByte, AwaitWrite, Frame;
    match ScanFrame(CurrentFrame(s), 9, 9)
    case More => AwaitUntold(s, s.stage, s.frameStart);
    case Reject(_, thrown) => LeaveTells(s, thrown, inline);
    case Body(_, body) =>
      LeaveTells(s, false, inline);
      AnswerUntold(s, PongReply, Frame(body));
  }

  lemma {:induction false} ReadTells(c: ServerConfig, s: SessionState, inline: bool)
    requires Untold(s) && |s.outgoing| == 4096
    ensures Untold(ResumeRead(c, s, inline)) <==> !FrameGivesUp(c, s)
  {
    match s.stage
    case Handshaking => HandshakeTells(c, s, inline);
    case StatusRequest => RequestTells(c, s, inline);
    case Pinging => PingTells(c, s, inline);
    case _ => hide Untold;
  }

  lemma {:induction false} OnConnectTells(s: SessionState, ok: bool, length: nat, optionsSet: bool)
    requires Untold(s)
    ensures Untold(OnConnect(s, ok, length, optionsSet)) <==> ok && optionsSet
  {
    var t := Advanced(s);
    CancelUntold(s);
    StageUntold(t, t.(stage := Closed));
    StageUntold(t, t.(stage := Relaying));
    DispatchTells(t.(stage := Closed), true);
    var o := Op(WriteDest, InFlight, length, 0);
    BeginUntold(t.(stage := Relaying), o);
    BeginUntold(Begin(t.(stage := Relaying), o), Op(ReadDest, InFlight, 0, 0));
    hide Untold, CancelWaits, End;
    assert !s.shutdownInitiated by {
      NotDown(s);
    }
  }

  lemma {:induction false} NotDown(s: SessionState)
    requires Untold(s)
    ensures !s.shutdownInitiated
  {
  }

  lemma {:induction false} OnRelayTells(s: SessionState, ok: bool, next: Kind, length: nat)
    requires Untold(s) && next != EndCall
    ensures Untold(OnRelay(s, ok, next, length)) <==> ok
  {
    DispatchTells(s, true);
    BeginUntold(s, Op(next, InFlight, length, 0));
    NotDown(s);
    hide Untold, End;
  }

  lemma {:induction false} StartUntold(s: SessionState)
    requires Untold(s)
    ensures Untold(StartCoroutine(s))
  {
    NotDown(s);
    StageUntold(s, s.(stage := Handshaking));
    CancelUntold(s.(stage := Handshaking));
    hide Untold, ArmDeadline;
    BeginUntold(ArmDeadline(s.(stage := Handshaking)), Op(CoRead, InFlight, 0, 0));
  }

  lemma {:induction false} ResumeWriteTells(s: SessionState)
    requires Untold(s) && (s.stage == StatusReply || s.stage == PongReply)
    ensures Untold(ResumeWrite(s)) <==> s.stage == StatusReply
  {
    hide Untold, Finish, AwaitByte;
    LeaveTells(s, false, true);
    AwaitUntold(s, Pinging, |s.fromClient|);
  }

  lemma {:induction false} OnWaitTells(s: SessionState, ok: bool, generation: nat)
    requires Untold(s)
    ensures Untold(OnWait(s, ok, generation)) <==> !(ok && generation == s.deadlineGeneration)
  {
    hide Untold, End;
    DispatchTells(s, true);
  }

  lemma {:induction false} HandleTells(c: ServerConfig, s: SessionState, o: Op, choice: bool)
    requires Untold(s) && |s.outgoing| == 4096 && o.status != InFlight
    requires o.kind == CoWrite ==> s.stage == StatusReply || s.stage == PongReply
    ensures Untold(Handle(c, s, o, choice)) <==> !GivesUp(c, s, o, choice)
  {
    hide Untold, ResumeRead, ResumeWrite, Throw, StartCoroutine, OnConnect, OnRelay, OnWait, End, FrameGivesUp;
    var ok := o.status == Succeeded;
    match o.kind
    case CoStart => StartUntold(s);
    case CoRead => LeaveTells(s, true, choice); ReadTells(c, s, choice);
    case CoWrite => LeaveTells(s, true, choice); ResumeWriteTells(s);
    case Connect => OnConnectTells(s, ok, o.arg, choice);
    case ReadSource => OnRelayTells(s, ok, WriteDest, o.arg);
    case WriteDest => OnRelayTells(s, ok, ReadSource, 0);
    case ReadDest => OnRelayTells(s, ok, WriteSource, o.arg);
    case WriteSource => OnRelayTells(s, ok, ReadDest, 0);
    case Wait => OnWaitTells(s, ok, o.arg);
    case EndCall => DispatchTells(s, true);
  }

  /** The step is a call of End, or runs a handler that gives up. */
  ghost predicate TellsToEnd(c: ServerConfig, s: SessionState, e: Event)
    requires Enabled(s, e)
  {
    e.CallEnd? || (e.Run? && GivesUp(c, s, s.pending[e.i], e.choice))
  }

  lemma {:induction false} RunTells(c: ServerConfig, s: SessionState, i: nat, choice: bool)
    requires i < |s.pending| && Inv(c, s) && Untold(s) && s.pending[i].status != InFlight
    ensures Untold(Handle(c, Without(s, i), s.pending[i], choice)) <==> !GivesUp(c, s, s.pending[i], choice)
  {
    var o, t := s.pending[i], Without(s, i);
    hide Inv, Core, Tags, OpOk, Remove, Quiet, Handle, GivesUp;
    RemovedMembers(s.pending, i);
    assert Untold(t);
    hide Untold;
    BufferIs(c, s);
    SameGivesUp(c, s, t, o, choice);
    TakeOut(c, s, i);
    WriteStage(s.stage);
    HandleTells(c, t, o, choice);
  }

  lemma {:induction false} WriteStage(g: Stage)
    ensures ControlKind(g) == CoWrite ==> g == StatusReply || g == PongReply
  {
  }

  lemma {:induction false} SameGivesUp(c: ServerConfig, s: SessionState, t: SessionState, o: Op, choice: bool)
    requires t == s.(pending := t.pending)
    ensures GivesUp(c, s, o, choice) <==> GivesUp(c, t, o, choice)
  {
    hide Intercept, ScanFrame;
  }

  lemma {:induction false} ReplaceUntold(s: SessionState, t: SessionState, i: nat, o: Op)
    requires i < |s.pending| && t.pending == s.pending[i := o] && t.shutdownInitiated == s.shutdownInitiated
    requires Untold(s) && o.kind == s.pending[i].kind
    ensures Untold(t)
  {
    forall p | p in t.pending
      ensures p.kind != EndCall
    {
      var k :| 0 <= k < |t.pending| && t.pending[k] == p;
      assert s.pending[k] in s.pending;
    }
  }

  lemma {:induction false} ReceiveUntold(s: SessionState, i: nat, data: Bytes)
    requires i < |s.pending| && Untold(s)
    ensures Untold(Receive(s, i, data))
  {
    hide Untold, Overwrite;
    ReplaceUntold(s, Receive(s, i, data), i, s.pending[i].(status := Succeeded, arg := |data|));
  }

  lemma {:induction false} SendUntold(s: SessionState, i: nat, n: nat)
    requires i < |s.pending| && Untold(s)
    ensures Untold(Send(s, i, n))
  {
    hide Untold, Slice, WriteLength;
    var o := s.pending[i];
    var to := o.done + n;
    ReplaceUntold(s, Send(s, i, n), i,
                  o.(done := to, status := if to == WriteLength(s, o) then Succeeded else InFlight));
  }

  lemma {:induction false} SpawnUntold(s: SessionState, inline: bool)
    requires Untold(s)
    ensures var t := s.(stage := Spawned, sourceOpen := true);
      Untold(StartCoroutine(t)) && Untold(Begin(t, Op(CoStart, Succeeded, 0, 0)))
  {
    var t := s.(stage := Spawned, sourceOpen := true);
    StageUntold(s, t);
    hide Untold, StartCoroutine;
    StartUntold(t);
    BeginUntold(t, Op(CoStart, Succeeded, 0, 0));
  }

  lemma {:induction false} OtherUntold(c: ServerConfig, s: SessionState, e: Event)
    requires Untold(s) && Enabled(s, e) && !e.Run? && !e.CallEnd?
    ensures Untold(Step(c, s, e))
  {
    hide Untold, Receive, Send, StartCoroutine, Complete, SocketOpen, WriteLength;
    match e
    case Arrive(i, data) => ReceiveUntold(s, i, data);
    case Deliver(i, n) => SendUntold(s, i, n);
    case Connected(i) => CompleteUntold(s, i, Succeeded);
    case Expire(i) => CompleteUntold(s, i, Succeeded);
    case Fail(i) => CompleteUntold(s, i, Failed);
    case Spawn(inline) => SpawnUntold(s, inline);
    case _ =>
  }

  /** A session is told to end by these steps and by no other. */
  lemma {:induction false} EndsExactly(c: ServerConfig, s: SessionState, e: Event)
    requires Inv(c, s) && !Ended(s) && Enabled(s, e)
    ensures Ended(Step(c, s, e)) <==> TellsToEnd(c, s, e)
  {
    hide Inv, Ended, Untold, GivesUp, Handle, DispatchEnd, Remove;
    UntoldIs(s);
    UntoldIs(Step(c, s, e));
    if e.Run? {
      RunTells(c, s, e.i, e.choice);
    } else if e.CallEnd? {
      DispatchTells(s, e.inline);
    } else {
      OtherUntold(c, s, e);
    }
  }

  lemma {:induction false} CompleteUntold(s: SessionState, i: nat, status: Status)
    requires i < |s.pending| && Untold(s)
    ensures Untold(Complete(s, i, s.pending[i].(status := status)))
  {
    hide Untold;
    ReplaceUntold(s, Complete(s, i, s.pending[i].(status := status)), i, s.pending[i].(status := status));
  }

  // ---- what the handlers of a live session lead to ----

  /** A session that is spawned starts at once or is queued to start. */
  lemma {:induction false} SpawnOutcome(c: ServerConfig, s: SessionState, inline: bool)
    requires Enabled(s, Spawn(inline))
    ensures var t := Step(c, s, Spawn(inline));
      && t.sourceOpen
      && if inline then t.stage == Handshaking && Op(CoRead, InFlight, 0, 0) in t.pending
         else t.stage == Spawned && Op(CoStart, Succeeded, 0, 0) in t.pending
  {
    var t := s.(stage := Spawned, sourceOpen := true);
    var u := ArmDeadline(t.(stage := Handshaking));
    ArmStage(t.(stage := Handshaking));
    ArmSockets(t.(stage := Handshaking));
    hide ArmDeadline;
    LastIs(u.pending, Op(CoRead, InFlight, 0, 0));
    LastIs(s.pending, Op(CoStart, Succeeded, 0, 0));
  }

  lemma {:induction false} ArmSockets(s: SessionState)
    ensures ArmDeadline(s).sourceOpen == s.sourceOpen
  {
  }

  /** The coroutine starts exactly if its session was not shut down before. */
  lemma {:induction false} StartOutcome(c: ServerConfig, s: SessionState, i: nat, choice: bool)
    requires Inv(c, s) && Enabled(s, Run(i, choice)) && s.pending[i].kind == CoStart
    ensures var t := Step(c, s, Run(i, choice));
      && (t.stage == Handshaking <==> !s.shutdownInitiated)
      && (!s.shutdownInitiated ==> Op(CoRead, InFlight, 0, 0) in t.pending)
      && (s.shutdownInitiated ==> t == Without(s, i).(stage := Closed))
  {
    hide Inv, ArmDeadline, Remove;
    var u := ArmDeadline(Without(s, i).(stage := Handshaking));
    LastIs(u.pending, Op(CoRead, InFlight, 0, 0));
    ArmStage(Without(s, i).(stage := Handshaking));
  }

  lemma {:induction false} ArmStage(s: SessionState)
    ensures ArmDeadline(s).stage == s.stage && ArmDeadline(s).login == s.login
    ensures ArmDeadline(s).outgoing == s.outgoing
  {
    hide CancelWaits;
  }

  lemma {:induction false} LastIs(ops: seq<Op>, o: Op)
    ensures o in ops + [o]
  {
    assert (ops + [o])[|ops|] == o;
  }

  /** Where the verdict on all bytes so far takes the coroutine. */
  ghost predicate FollowsVerdict(v: Verdict, s: SessionState, t: SessionState) {
    match v
    case Undecided => t.stage == Handshaking && Op(CoRead, InFlight, 0, 0) in t.pending
    case StatusClient(_) => t.stage == StatusRequest && Op(CoRead, InFlight, 0, 0) in t.pending
    case Refused(_, _) => t.stage == Closed
    case Login(used, h, wire) =>
      && t.stage == Connecting && Op(Connect, InFlight, |wire|, 0) in t.pending
      && |wire| <= |s.outgoing| && t.outgoing == Overwrite(s.outgoing, 0, wire)
      && t.login == Some(LoginFrame(used, h, wire))
  }

  /** A byte of the handshake leads there. */
  lemma {:induction false} HandshakeOutcome(c: ServerConfig, s: SessionState, i: nat, choice: bool)
    requires Inv(c, s) && Enabled(s, Run(i, choice)) && s.stage == Handshaking
    requires s.pending[i].kind == CoRead && s.pending[i].status == Succeeded
    ensures FollowsVerdict(Intercept(c, CurrentFrame(s)), s, Step(c, s, Run(i, choice)))
  {
    hide Inv, Flags, Intercept, CurrentFrame, ResumeRead, Remove, FollowsVerdict;
    BufferIs(c, s);
    SameFrame(s, Without(s, i));
    ResumeOutcome(c, Without(s, i), choice);
    SameVerdict(Intercept(c, CurrentFrame(s)), s, Without(s, i), ResumeRead(c, Without(s, i), choice));
  }

  lemma {:induction false} BufferIs(c: ServerConfig, s: SessionState)
    requires Inv(c, s)
    ensures |s.outgoing| == |s.incoming| == 4096
  {
    InvFlags(c, s);
    hide Inv;
  }

  lemma {:induction false} SameVerdict(v: Verdict, s: SessionState, u: SessionState, t: SessionState)
    requires u.outgoing == s.outgoing
    ensures FollowsVerdict(v, s, t) <==> FollowsVerdict(v, u, t)
  {
    hide Overwrite;
  }

  lemma {:induction false} ResumeOutcome(c: ServerConfig, s: SessionState, choice: bool)
    requires s.stage == Handshaking && |s.outgoing| == 4096
    ensures FollowsVerdict(Intercept(c, CurrentFrame(s)), s, ResumeRead(c, s, choice))
  {
    hide Intercept, CurrentFrame, Leave, Throw, StartConnect, Overwrite, AwaitByte;
    match Intercept(c, CurrentFrame(s))
    case Undecided => AwaitIs(s);
    case StatusClient(_) => AwaitIs(s.(stage := StatusRequest, frameStart := |s.fromClient|));
    case Refused(_, thrown) => LeaveStage(s, choice);
    case Login(used, h, wire) =>
      LoginStored(c, s);
      ConnectIs(s, used, h, wire);
  }

  lemma {:induction false} AwaitIs(s: SessionState)
    ensures AwaitByte(s).stage == s.stage && Op(CoRead, InFlight, 0, 0) in AwaitByte(s).pending
  {
    LastIs(s.pending, Op(CoRead, InFlight, 0, 0));
  }

  lemma {:induction false} LeaveStage(s: SessionState, inline: bool)
    ensures forall thrown :: Leave(s, thrown, inline).stage == Closed
    ensures Throw(s, inline).stage == Finish(s).stage == Closed
  {
    hide CancelWaits;
  }

  lemma {:induction false} ConnectIs(s: SessionState, used: nat, h: Handshake, wire: Bytes)
    requires |wire| <= |s.outgoing|
    ensures var t := StartConnect(s, used, h, wire);
      && t.stage == Connecting && Op(Connect, InFlight, |wire|, 0) in t.pending
      && t.outgoing == Overwrite(s.outgoing, 0, wire) && t.login == Some(LoginFrame(used, h, wire))
  {
    var u := Stored(s, used, h, wire);
    ArmStage(u);
    hide ArmDeadline, Overwrite;
    LastIs(ArmDeadline(u).pending, Op(Connect, InFlight, |wire|, 0));
  }

  /** A relay as it starts: the whole replacement is to be sent, and the server is read. */
  ghost predicate RelayBegun(s: SessionState, t: SessionState) {
    && t.stage == Relaying && !t.shutdownInitiated && t.login == s.login && s.login.Some?
    && Op(WriteDest, InFlight, |s.login.value.wire|, 0) in t.pending
    && Op(ReadDest, InFlight, 0, 0) in t.pending
  }

  /** A connect leads to a relay exactly if it succeeded, the socket options could be set, and
      the session was not shut down. Every other connect leaves it closed and shut down. */
  lemma {:induction false} ConnectOutcome(c: ServerConfig, s: SessionState, i: nat, choice: bool)
    requires Inv(c, s) && Enabled(s, Run(i, choice)) && s.pending[i].kind == Connect
    ensures var t := Step(c, s, Run(i, choice));
      if !s.shutdownInitiated && s.pending[i].status == Succeeded && choice then RelayBegun(s, t)
      else t.stage == Closed && t.shutdownInitiated
  {
    hide Inv, OnConnect, Remove, RelayBegun;
    ConnectLength(c, s, i);
    OnConnectIs(Without(s, i), s.pending[i].status == Succeeded, s.pending[i].arg, choice);
    SameBegun(s, Without(s, i), OnConnect(Without(s, i), s.pending[i].status == Succeeded, s.pending[i].arg, choice));
  }

  lemma {:induction false} SameBegun(s: SessionState, u: SessionState, t: SessionState)
    requires u.login == s.login
    ensures RelayBegun(s, t) <==> RelayBegun(u, t)
  {
  }

  lemma {:induction false} OnConnectIs(s: SessionState, ok: bool, length: nat, optionsSet: bool)
    requires s.login.Some? && length == |s.login.value.wire|
    ensures var t := OnConnect(s, ok, length, optionsSet);
      if !s.shutdownInitiated && ok && optionsSet then RelayBegun(s, t) else t.stage == Closed && t.shutdownInitiated
  {
    hide CancelWaits;
    var p, o := Advanced(s).pending, Op(WriteDest, InFlight, length, 0);
    LastIs(p, o);
    LastIs(p + [o], Op(ReadDest, InFlight, 0, 0));
    assert o in p + [o] + [Op(ReadDest, InFlight, 0, 0)];
  }

  lemma {:induction false} ConnectLength(c: ServerConfig, s: SessionState, i: nat)
    requires i < |s.pending| && Inv(c, s) && s.pending[i].kind == Connect
    ensures s.login.Some? && s.pending[i].arg == |s.login.value.wire|
  {
    hide Flags, Exclusive, Timers, Streams, Alive, Generation;
    assert s.pending[i] in s.pending;
    assert OpOk(c, s, s.pending[i]);
  }

  predicate IsRelay(k: Kind) {
    k == ReadSource || k == WriteDest || k == ReadDest || k == WriteSource
  }

  /** The operation a relay operation alternates with: what was read is written to the other
      side, and after a write more is read. */
  function Answer(o: Op): Op {
    match o.kind
    case ReadSource => Op(WriteDest, InFlight, o.arg, 0)
    case WriteDest => Op(ReadSource, InFlight, 0, 0)
    case ReadDest => Op(WriteSource, InFlight, o.arg, 0)
    case _ => Op(ReadDest, InFlight, 0, 0)
  }

  /** A relay operation that succeeded keeps the relay going; one that failed ends it. */
  lemma {:induction false} RelayOutcome(c: ServerConfig, s: SessionState, i: nat, choice: bool)
    requires Inv(c, s) && Enabled(s, Run(i, choice)) && IsRelay(s.pending[i].kind) && !s.shutdownInitiated
    ensures var t := Step(c, s, Run(i, choice));
      if s.pending[i].status == Succeeded then t == Without(s, i).(pending := Remove(s.pending, i) + [Answer(s.pending[i])])
      else t.shutdownInitiated
  {
    hide Inv, CancelWaits, Remove;
  }

  /** What is in flight may complete in every way: a write delivers any part of what is left
      of it, a wait expires, and a read, a write or a connect fails whatever the sockets do. */
  lemma {:induction false} EnvironmentIsFree(s: SessionState, i: nat, n: nat)
    requires InFlightAt(s, i)
    ensures var o := s.pending[i];
      && (IsWrite(o.kind) && SocketOpen(s, o.kind) ==>
            (Enabled(s, Deliver(i, n)) <==> 1 <= n <= WriteLength(s, o) - o.done))
      && (Enabled(s, Expire(i)) <==> o.kind == Wait)
      && (Enabled(s, Fail(i)) <==> IsRead(o.kind) || IsWrite(o.kind) || o.kind == Connect)
      && (Enabled(s, Connected(i)) <==> o.kind == Connect && s.destOpen)
  {
  }

  /** A relay read takes any number of bytes up to 4096 at once, a coroutine read just one. */
  lemma {:induction false} ReadSizes(s: SessionState, i: nat, data: Bytes)
    requires InFlightAt(s, i) && IsRead(s.pending[i].kind) && SocketOpen(s, s.pending[i].kind)
    ensures Enabled(s, Arrive(i, data)) <==>
      if s.pending[i].kind == CoRead then |data| == 1 else 1 <= |data| <= 4096
  {
  }
}
