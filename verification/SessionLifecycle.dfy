/** What the server relies on: a session that was told to end stays told, and one that
    was not started stays so until the server starts it. */
module SessionLifecycle {
  import opened Basics
  import opened Protocol
  import opened Framing
  import opened Config
  import opened Reader
  import opened Outstanding
  import opened SessionMachine
  import opened SessionInvariants

  /** End has run, or is queued to run. */
  ghost predicate Ended(s: SessionState) {
    s.shutdownInitiated || Tags(s.pending)[Ending] >= 1
  }

  /** `t` has every operation of `s`, and is no less shut down or started. */
  ghost predicate Follows(s: SessionState, t: SessionState) {
    && Tags(s.pending) <= Tags(t.pending)
    && (s.shutdownInitiated ==> t.shutdownInitiated)
    && (t.stage == Created ==> s.stage == Created)
  }

  lemma {:induction false} BeginFollows(s: SessionState, t: SessionState, o: Op)
    requires Follows(s, t)
    ensures Follows(s, Begin(t, o))
  {
    hide Tags;
    TagsAppend(t.pending, o);
  }

  lemma {:induction false} AdvanceFollows(s: SessionState, t: SessionState)
    requires Follows(s, t)
    ensures Follows(s, Advanced(t)) && Follows(s, ArmDeadline(t))
  {
    hide Tags, CancelWaits;
    TagsCancel(t.pending);
    BeginFollows(s, Advanced(t), Op(Wait, InFlight, NextGeneration(t.deadlineGeneration), 0));
  }

  lemma {:induction false} EndFollows(s: SessionState, t: SessionState)
    requires Follows(s, t)
    ensures Follows(s, End(t))
  {
    hide Tags, CancelWaits;
    TagsCancel(t.pending);
  }

  lemma {:induction false} LeaveFollows(s: SessionState, thrown: bool, inline: bool)
    ensures Follows(s, Leave(s, thrown, inline)) && Follows(s, Finish(s)) && Follows(s, Throw(s, inline))
  {
    hide Tags, End;
    EndFollows(s, s.(stage := Closed));
    BeginFollows(s, s.(stage := Closed), Op(EndCall, Succeeded, 0, 0));
  }

  lemma {:induction false} ConnectFollows(s: SessionState, used: nat, h: Handshake, wire: Bytes)
    requires |wire| <= |s.outgoing|
    ensures Follows(s, StartConnect(s, used, h, wire))
  {
    hide Tags, ArmDeadline, Overwrite;
    var stored := Stored(s, used, h, wire);
    AdvanceFollows(s, stored);
    BeginFollows(s, ArmDeadline(stored), Op(Connect, InFlight, |wire|, 0));
  }

  lemma {:induction false} AwaitFollows(s: SessionState, t: SessionState, reply: Bytes)
    requires Follows(s, t)
    ensures Follows(s, AwaitByte(t)) && Follows(s, AwaitWrite(t, reply))
  {
    hide Tags;
    BeginFollows(s, t, Op(CoRead, InFlight, 0, 0));
    BeginFollows(s, t.(reply := reply), Op(CoWrite, InFlight, 0, 0));
  }

  lemma {:induction false} NextFollows(s: SessionState, next: Stage, start: nat, reply: Bytes)
    requires next != Created
    ensures var t := s.(stage := next, frameStart := start);
      Follows(s, AwaitByte(t)) && Follows(s, AwaitWrite(t, reply))
  {
    hide Tags;
    AwaitFollows(s, s.(stage := next, frameStart := start), reply);
  }

  lemma {:induction false} ResumeFollows(c: ServerConfig, s: SessionState, inline: bool)
    ensures Follows(s, ResumeRead(c, s, inline))
  {
    hide Tags, Intercept, ScanFrame, Frame, StatusResponse, CurrentFrame, Leave, Finish, Throw, StartConnect,
         AwaitByte, AwaitWrite;
    AwaitFollows(s, s, []);
    hide Follows;
    LeaveFollows(s, false, inline);
    LeaveFollows(s, true, inline);
    match s.stage
    case Handshaking =>
      NextFollows(s, StatusRequest, |s.fromClient|, []);
      var v := Intercept(c, CurrentFrame(s));
      if v.Login? && |v.wire| <= |s.outgoing| {
        ConnectFollows(s, v.used, v.handshake, v.wire);
      }
    case StatusRequest =>
      NextFollows(s, StatusReply, s.frameStart, StatusResponse(c));
    case Pinging =>
      var r := ScanFrame(CurrentFrame(s), 9, 9);
      if r.Body? {
        NextFollows(s, PongReply, s.frameStart, Frame(r.body));
      }
    case _ =>
      SelfFollows(s);
  }

  lemma {:induction false} SelfFollows(s: SessionState)
    ensures Follows(s, s)
  {
  }

  lemma {:induction false} RelayFollows(s: SessionState, t: SessionState, kind: Kind, length: nat)
    requires Follows(s, t)
    ensures Follows(s, StartRelay(t, kind, length))
  {
    hide Tags;
    BeginFollows(s, t, Op(kind, InFlight, length, 0));
  }

  lemma {:induction false} OnConnectFollows(s: SessionState, ok: bool, length: nat, optionsSet: bool)
    ensures Follows(s, OnConnect(s, ok, length, optionsSet))
  {
    hide Tags, CancelWaits, StartRelay, End;
    AdvanceFollows(s, s);
    var t := Advanced(s);
    EndFollows(s, t.(stage := Closed));
    RelayFollows(s, t.(stage := Relaying), WriteDest, length);
    RelayFollows(s, StartRelay(t.(stage := Relaying), WriteDest, length), ReadDest, 0);
  }

  lemma {:induction false} StartFollows(s: SessionState)
    ensures Follows(s, StartCoroutine(s))
  {
    hide Tags, ArmDeadline;
    AdvanceFollows(s, s.(stage := Handshaking));
    AwaitFollows(s, ArmDeadline(s.(stage := Handshaking)), []);
  }

  lemma {:induction false} OnRelayFollows(s: SessionState, ok: bool, next: Kind, length: nat)
    ensures Follows(s, OnRelay(s, ok, next, length))
  {
    hide Tags, StartRelay, End;
    RelayFollows(s, s, next, length);
    EndFollows(s, s);
  }

  lemma {:induction false} HandleFollows(c: ServerConfig, s: SessionState, o: Op, choice: bool)
    ensures Follows(s, Handle(c, s, o, choice))
    ensures o.kind == EndCall ==> Handle(c, s, o, choice).shutdownInitiated
    ensures o.kind == EndCall || o.kind == Wait ==> Handle(c, s, o, choice).stage == s.stage
  {
    hide Tags, CancelWaits, ResumeRead, Throw, Finish, AwaitByte, OnConnect, StartCoroutine, OnRelay;
    match o.kind
    case CoStart => StartFollows(s);
    case CoRead => ResumeFollows(c, s, choice); LeaveFollows(s, true, choice);
    case CoWrite =>
      LeaveFollows(s, true, choice);
      AwaitFollows(s, s.(stage := Pinging, frameStart := |s.fromClient|), []);
    case Connect => OnConnectFollows(s, o.status == Succeeded, o.arg, choice);
    case ReadSource => OnRelayFollows(s, o.status == Succeeded, WriteDest, o.arg);
    case WriteDest => OnRelayFollows(s, o.status == Succeeded, ReadSource, 0);
    case ReadDest => OnRelayFollows(s, o.status == Succeeded, WriteSource, o.arg);
    case WriteSource => OnRelayFollows(s, o.status == Succeeded, ReadDest, 0);
    case Wait => EndFollows(s, s);
    case EndCall => EndFollows(s, s);
  }

  /** A step of a session never takes back a shutdown, an end that is due, or the start. */
  lemma {:induction false} StepFollows(c: ServerConfig, s: SessionState, e: Event)
    requires Inv(c, s) && Enabled(s, e)
    ensures var t := Step(c, s, e);
      && (s.shutdownInitiated ==> t.shutdownInitiated)
      && (Ended(s) ==> Ended(t))
      && (t.stage == Created ==> s.stage == Created)
      && (s.stage == Created && Own(e) ==> t.stage == Created)
  {
    if e.Run? {
      RunFollows(c, s, e.i, e.choice);
    } else {
      OtherFollows(c, s, e);
    }
  }

  lemma {:induction false} RunFollows(c: ServerConfig, s: SessionState, i: nat, choice: bool)
    requires i < |s.pending| && Inv(c, s)
    ensures var t := Handle(c, Without(s, i), s.pending[i], choice);
      && (s.shutdownInitiated ==> t.shutdownInitiated)
      && (Ended(s) ==> Ended(t))
      && (t.stage == Created ==> s.stage == Created)
      && (s.stage == Created ==> t.stage == Created)
  {
    var o := s.pending[i];
    if s.stage == Created {
      CreatedKinds(c, s, i);
    }
    hide Inv, Handle, Remove, Ended, Follows;
    HandleFollows(c, Without(s, i), o, choice);
    EndedAfterRun(s, i, Handle(c, Without(s, i), o, choice));
  }

  lemma {:induction false} EndedAfterRun(s: SessionState, i: nat, t: SessionState)
    requires i < |s.pending| && Follows(Without(s, i), t)
    requires s.pending[i].kind == EndCall ==> t.shutdownInitiated
    ensures s.shutdownInitiated ==> t.shutdownInitiated
    ensures Ended(s) ==> Ended(t)
    ensures t.stage == Created ==> s.stage == Created
  {
    hide Tags, Remove;
    TagsRemove(s.pending, i);
  }

  lemma {:induction false} CreatedKinds(c: ServerConfig, s: SessionState, i: nat)
    requires i < |s.pending| && Inv(c, s) && s.stage == Created
    ensures s.pending[i].kind == Wait || s.pending[i].kind == EndCall
  {
    hide Tags, Flags, Timers, Streams, Generation, Ops, Alive;
    TagsMember(s.pending, TagOf(s.pending[i]));
    assert s.pending[i] in s.pending;
  }

  lemma {:induction false} ReplaceFollows(s: SessionState, t: SessionState, i: nat, o: Op)
    requires i < |s.pending| && TagOf(s.pending[i]) == TagOf(o)
    requires t.pending == s.pending[i := o] && t.shutdownInitiated == s.shutdownInitiated && t.stage == s.stage
    ensures Follows(s, t)
  {
    hide Tags;
    TagsReplace(s.pending, i, o);
  }

  lemma {:induction false} ReceiveFollows(s: SessionState, i: nat, data: Bytes)
    requires i < |s.pending| && IsRead(s.pending[i].kind)
    ensures Follows(s, Receive(s, i, data)) && Receive(s, i, data).stage == s.stage
  {
    hide Overwrite, Follows;
    ReplaceFollows(s, Receive(s, i, data), i, s.pending[i].(status := Succeeded, arg := |data|));
  }

  lemma {:induction false} SendFollows(s: SessionState, i: nat, n: nat)
    requires i < |s.pending| && IsWrite(s.pending[i].kind)
    ensures Follows(s, Send(s, i, n)) && Send(s, i, n).stage == s.stage
  {
    hide Slice, Follows;
    var o := s.pending[i];
    var to := o.done + n;
    ReplaceFollows(s, Send(s, i, n), i,
                   o.(done := to, status := if to == WriteLength(s, o) then Succeeded else InFlight));
  }

  lemma {:induction false} OtherFollows(c: ServerConfig, s: SessionState, e: Event)
    requires Enabled(s, e) && !e.Run?
    ensures Follows(s, Step(c, s, e))
    ensures Own(e) ==> Step(c, s, e).stage == s.stage
  {
    hide Handle, Follows, Receive, Send, StartCoroutine, DispatchEnd;
    match e
    case Arrive(i, data) => ReceiveFollows(s, i, data);
    case Deliver(i, n) => SendFollows(s, i, n);
    case Connected(i) => ReplaceFollows(s, Step(c, s, e), i, s.pending[i].(status := Succeeded));
    case Expire(i) => ReplaceFollows(s, Step(c, s, e), i, s.pending[i].(status := Succeeded));
    case Fail(i) => ReplaceFollows(s, Step(c, s, e), i, s.pending[i].(status := Failed));
    case Run(_, _) =>
    case Spawn(inline) => SpawnFollows(s, inline);
    case CallEnd(inline) => CallEndFollows(s, inline);
  }

  lemma {:induction false} SpawnFollows(s: SessionState, inline: bool)
    ensures var t := s.(stage := Spawned, sourceOpen := true);
      && Follows(s, StartCoroutine(t)) && Follows(s, Begin(t, Op(CoStart, Succeeded, 0, 0)))
      && StartCoroutine(t).stage != Created
  {
    hide Tags;
    var t := s.(stage := Spawned, sourceOpen := true);
    StartFollows(t);
    BeginFollows(t, t, Op(CoStart, Succeeded, 0, 0));
  }

  lemma {:induction false} CallEndFollows(s: SessionState, inline: bool)
    ensures Follows(s, DispatchEnd(s, inline)) && Ended(DispatchEnd(s, inline))
    ensures DispatchEnd(s, inline).stage == s.stage
  {
    hide Tags, CancelWaits;
    EndFollows(s, s);
    BeginFollows(s, s, Op(EndCall, Succeeded, 0, 0));
    TagsAppend(s.pending, Op(EndCall, Succeeded, 0, 0));
  }
}
