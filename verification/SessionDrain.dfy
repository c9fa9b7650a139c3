/** The work a session can still do: every step of its own uses some of it up, and only
    bytes that arrive give it more. A session that was shut down receives none, so it drains. */
module SessionDrain {
  import opened Basics
  import opened Sums
  import opened Protocol
  import opened Framing
  import opened Config
  import opened Reader
  import opened Outstanding
  import opened SessionMachine
  import opened SessionInvariants
  import opened SessionTheorems

  function Left(length: nat, done: nat): nat {
    if done <= length then length - done else 0
  }

  /** How many steps can follow from an operation before more bytes arrive; `reply` is the
      length of the coroutine's reply. A read that succeeded weighs what its handler may
      write, a coroutine read also one more wait and connect. */
  function Cost(c: ServerConfig, reply: nat, o: Op): nat {
    match o.kind
    case CoStart => 6
    case CoRead =>
      (match o.status
       case InFlight => 3
       case Succeeded => |StatusResponse(c)| + 300
       case Failed => 2)
    case CoWrite =>
      (match o.status
       case InFlight => Left(reply, o.done) + 5
       case Succeeded => 4
       case Failed => 2)
    case Connect =>
      (match o.status
       case InFlight => o.arg + 8
       case Succeeded => o.arg + 7
       case Failed => 1)
    case Wait => if o.status == InFlight then 2 else 1
    case EndCall => 1
    case ReadSource => ReadCost(o)
    case ReadDest => ReadCost(o)
    case WriteDest => WriteCost(o)
    case WriteSource => WriteCost(o)
  }

  function ReadCost(o: Op): nat {
    match o.status
    case InFlight => 2
    case Succeeded => o.arg + 5
    case Failed => 1
  }

  function WriteCost(o: Op): nat {
    match o.status
    case InFlight => Left(o.arg, o.done) + 4
    case Succeeded => 3
    case Failed => 1
  }

  function CostOf(c: ServerConfig, reply: nat): Op -> nat {
    o => Cost(c, reply, o)
  }

  function Weight(c: ServerConfig, reply: nat, ops: seq<Op>): nat {
    SumOf(CostOf(c, reply), ops)
  }

  /** A session that is not shut down still owes its End and the erase it posts. */
  function Work(c: ServerConfig, s: SessionState): nat {
    Weight(c, |s.reply|, s.pending) + if s.shutdownInitiated then 0 else 2
  }

  /** The work of `t`, and the erase it has posted since `s`. */
  function Total(c: ServerConfig, s: SessionState, t: SessionState): nat {
    Work(c, t) + if t.erasesPosted > s.erasesPosted then 1 else 0
  }

  /** What an arrival may add. */
  function ArrivalCost(c: ServerConfig): nat {
    |StatusResponse(c)| + 4500
  }

  // ---- lists of operations ----

  lemma {:induction false} WeightRemove(c: ServerConfig, n: nat, ops: seq<Op>, i: nat)
    requires i < |ops|
    ensures Weight(c, n, ops) == Weight(c, n, Remove(ops, i)) + Cost(c, n, ops[i])
  {
    SumOfRemove(CostOf(c, n), ops, i);
  }

  lemma {:induction false} WeightReplace(c: ServerConfig, n: nat, ops: seq<Op>, i: nat, o: Op)
    requires i < |ops|
    ensures Weight(c, n, ops[i := o]) + Cost(c, n, ops[i]) == Weight(c, n, ops) + Cost(c, n, o)
  {
    SumOfReplace(CostOf(c, n), ops, i, o);
  }

  lemma {:induction false} WeightCancel(c: ServerConfig, n: nat, ops: seq<Op>)
    ensures Weight(c, n, CancelWaits(ops)) <= Weight(c, n, ops)
    decreases |ops|
  {
    if ops != [] {
      var k := |ops| - 1;
      WeightCancel(c, n, ops[..k]);
      assert CancelWaits(ops)[..k] == CancelWaits(ops[..k]);
    }
  }

  /** The reply only matters while it is being written. */
  lemma {:induction false} WeightOfReply(c: ServerConfig, n: nat, m: nat, ops: seq<Op>)
    requires forall o :: o in ops ==> o.kind != CoWrite
    ensures Weight(c, n, ops) == Weight(c, m, ops)
    decreases |ops|
  {
    if ops != [] {
      assert ops[|ops| - 1] in ops;
      WeightOfReply(c, n, m, ops[..|ops| - 1]);
    }
  }

  // ---- the handlers ----

  lemma {:induction false} BeginWork(c: ServerConfig, s: SessionState, o: Op)
    ensures Work(c, Begin(s, o)) == Work(c, s) + Cost(c, |s.reply|, o)
  {
    SumOfAppend(CostOf(c, |s.reply|), s.pending, o);
  }

  lemma {:induction false} AdvanceWork(c: ServerConfig, s: SessionState)
    ensures Work(c, Advanced(s)) <= Work(c, s)
    ensures Work(c, ArmDeadline(s)) <= Work(c, s) + 2
  {
    WeightCancel(c, |s.reply|, s.pending);
    hide Weight, CancelWaits;
    BeginWork(c, Advanced(s), Op(Wait, InFlight, NextGeneration(s.deadlineGeneration), 0));
  }

  lemma {:induction false} EndWork(c: ServerConfig, s: SessionState)
    ensures Total(c, s, End(s)) <= Work(c, s)
  {
    hide Weight, CancelWaits;
    WeightCancel(c, |s.reply|, s.pending);
  }

  lemma {:induction false} DispatchWork(c: ServerConfig, s: SessionState, inline: bool)
    ensures Total(c, s, DispatchEnd(s, inline)) <= Work(c, s) + 1
  {
    hide Work, End;
    EndWork(c, s);
    BeginWork(c, s, Op(EndCall, Succeeded, 0, 0));
  }

  /** Where the coroutine stands is no work. */
  lemma {:induction false} StageWork(c: ServerConfig, s: SessionState, next: Stage, start: nat)
    ensures Work(c, s.(stage := next, frameStart := start)) == Work(c, s)
  {
  }

  lemma {:induction false} LeaveWork(c: ServerConfig, s: SessionState, thrown: bool, inline: bool)
    ensures Total(c, s, Leave(s, thrown, inline)) <= Work(c, s) + 1
    ensures Total(c, s, Throw(s, inline)) <= Work(c, s) + 1
    ensures Total(c, s, Finish(s)) <= Work(c, s)
  {
    hide Work, End, DispatchEnd;
    StageWork(c, s, Closed, s.frameStart);
    EndWork(c, s.(stage := Closed));
    DispatchWork(c, s.(stage := Closed), inline);
  }

  lemma {:induction false} AwaitWork(c: ServerConfig, s: SessionState, next: Stage, start: nat)
    ensures Total(c, s, AwaitByte(s.(stage := next, frameStart := start))) == Work(c, s) + 3
  {
    var t := s.(stage := next, frameStart := start);
    StageWork(c, s, next, start);
    hide Work;
    BeginWork(c, t, Op(CoRead, InFlight, 0, 0));
  }

  lemma {:induction false} AnswerWork(c: ServerConfig, s: SessionState, next: Stage, reply: Bytes)
    requires NoWrite(s)
    ensures Total(c, s, AwaitWrite(s.(stage := next), reply)) == Work(c, s) + |reply| + 5
  {
    var t := s.(stage := next, reply := reply);
    assert Work(c, t) == Work(c, s) by {
      hide Weight;
      WeightOfReply(c, |s.reply|, |reply|, s.pending);
    }
    hide Work;
    BeginWork(c, t, Op(CoWrite, InFlight, 0, 0));
  }

  lemma {:induction false} ConnectWork(c: ServerConfig, s: SessionState, used: nat, h: Handshake, wire: Bytes)
    requires |wire| <= |s.outgoing|
    ensures Total(c, s, StartConnect(s, used, h, wire)) <= Work(c, s) + |wire| + 10
  {
    var t := Stored(s, used, h, wire);
    assert Work(c, t) == Work(c, s) && t.erasesPosted == s.erasesPosted;
    hide Work, Stored, ArmDeadline;
    AdvanceWork(c, t);
    ArmKeeps(t);
    BeginWork(c, ArmDeadline(t), Op(Connect, InFlight, |wire|, 0));
  }

  lemma {:induction false} ArmKeeps(s: SessionState)
    ensures ArmDeadline(s).erasesPosted == s.erasesPosted && ArmDeadline(s).reply == s.reply
  {
  }

  lemma {:induction false} ResumeWork(c: ServerConfig, s: SessionState, inline: bool)
    requires NoWrite(s)
    ensures Total(c, s, ResumeRead(c, s, inline)) < Work(c, s) + |StatusResponse(c)| + 300
  {
    match s.stage
    case Handshaking => ResumeHandshakeWork(c, s, inline);
    case StatusRequest => ResumeRequestWork(c, s, inline);
    case Pinging => ResumePingWork(c, s, inline);
    case _ =>
  }

  lemma {:induction false} ResumeHandshakeWork(c: ServerConfig, s: SessionState, inline: bool)
    requires s.stage == Handshaking
    ensures Total(c, s, ResumeRead(c, s, inline)) < Work(c, s) + 300
  {
    hide Work, Total, Intercept, CurrentFrame, Leave, Throw, StartConnect, ScanFrame, Parse, AwaitByte;
    var v := Intercept(c, CurrentFrame(s));
    match v
    case Undecided => AwaitWork(c, s, s.stage, s.frameStart);
    case Refused(_, thrown) => LeaveWork(c, s, thrown, inline);
    case StatusClient(_) => AwaitWork(c, s, StatusRequest, |s.fromClient|);
    case Login(used, h, wire) =>
      LeaveWork(c, s, true, inline);
      LoginRewritten(c, CurrentFrame(s), used, h, []);
      if |wire| <= |s.outgoing| {
        ConnectWork(c, s, used, h, wire);
      }
  }

  lemma {:induction false} ResumeRequestWork(c: ServerConfig, s: SessionState, inline: bool)
    requires NoWrite(s) && s.stage == StatusRequest
    ensures Total(c, s, ResumeRead(c, s, inline)) < Work(c, s) + |StatusResponse(c)| + 300
  {
    hide Work, Total, ScanFrame, CurrentFrame, Leave, Finish, StatusResponse, Frame, NoWrite, AwaitByte, AwaitWrite;
    AwaitWork(c, s, StatusRequest, s.frameStart);
    var r := ScanFrame(CurrentFrame(s), 1, 1);
    match r
    case More =>
    case Reject(_, thrown) => LeaveWork(c, s, thrown, inline);
    case Body(_, body) =>
      LeaveWork(c, s, false, inline);
      AnswerWork(c, s, StatusReply, StatusResponse(c));
  }

  lemma {:induction false} ResumePingWork(c: ServerConfig, s: SessionState, inline: bool)
    requires NoWrite(s) && s.stage == Pinging
    ensures Total(c, s, ResumeRead(c, s, inline)) < Work(c, s) + |StatusResponse(c)| + 300
  {
    PongSize();
    hide Work, Total, ScanFrame, CurrentFrame, Leave, Finish, StatusResponse, Frame, NoWrite, AwaitByte, AwaitWrite;
    AwaitWork(c, s, Pinging, s.frameStart);
    var r := ScanFrame(CurrentFrame(s), 9, 9);
    match r
    case More =>
    case Reject(_, thrown) => LeaveWork(c, s, thrown, inline);
    case Body(_, body) =>
      LeaveWork(c, s, false, inline);
      AnswerWork(c, s, PongReply, Frame(body));
  }

  lemma {:induction false} PongSize()
    ensures forall body: Bytes :: |body| == 9 ==> |Frame(body)| == 10
  {
  }

  lemma {:induction false} OnConnectWork(c: ServerConfig, s: SessionState, ok: bool, length: nat, optionsSet: bool)
    ensures Total(c, s, OnConnect(s, ok, length, optionsSet)) < Work(c, s) + if ok then length + 7 else 1
  {
    var t := Advanced(s);
    AdvanceWork(c, s);
    StageWork(c, t, Closed, t.frameStart);
    StageWork(c, t, Relaying, t.frameStart);
    EndWork(c, t.(stage := Closed));
    var u := Begin(t.(stage := Relaying), Op(WriteDest, InFlight, length, 0));
    BeginWork(c, t.(stage := Relaying), Op(WriteDest, InFlight, length, 0));
    BeginWork(c, u, Op(ReadDest, InFlight, 0, 0));
    hide Work, CancelWaits, End;
    assert t.erasesPosted == s.erasesPosted;
  }

  lemma {:induction false} OnRelayWork(c: ServerConfig, s: SessionState, ok: bool, next: Kind, length: nat)
    ensures Total(c, s, OnRelay(s, ok, next, length))
         <= Work(c, s) + if ok then Cost(c, |s.reply|, Op(next, InFlight, length, 0)) else 0
  {
    hide Work, End, Cost;
    EndWork(c, s);
    BeginWork(c, s, Op(next, InFlight, length, 0));
  }

  lemma {:induction false} OnWaitWork(c: ServerConfig, s: SessionState, ok: bool, generation: nat)
    ensures Total(c, s, OnWait(s, ok, generation)) <= Work(c, s)
  {
    hide Work, End;
    EndWork(c, s);
  }

  lemma {:induction false} StartWork(c: ServerConfig, s: SessionState)
    ensures Total(c, s, StartCoroutine(s)) <= Work(c, s) + 5
  {
    hide Work, ArmDeadline;
    StageWork(c, s, Handshaking, s.frameStart);
    StageWork(c, s, Closed, s.frameStart);
    var t := ArmDeadline(s.(stage := Handshaking));
    AdvanceWork(c, s.(stage := Handshaking));
    ArmKeeps(s.(stage := Handshaking));
    AwaitWork(c, t, t.stage, t.frameStart);
  }

  lemma {:induction false} ResumeWriteWork(c: ServerConfig, s: SessionState)
    ensures Total(c, s, ResumeWrite(s)) <= Work(c, s) + 3
  {
    hide Work, Finish;
    LeaveWork(c, s, false, true);
    AwaitWork(c, s, Pinging, |s.fromClient|);
  }

  /** No handler starts as much as it used up. */
  lemma {:induction false} HandleWork(c: ServerConfig, s: SessionState, o: Op, choice: bool)
    requires o.status != InFlight && (o.kind == CoRead ==> NoWrite(s))
    ensures Total(c, s, Handle(c, s, o, choice)) < Work(c, s) + Cost(c, |s.reply|, o)
  {
    hide Work, Total, ResumeRead, ResumeWrite, Throw, StartCoroutine, OnConnect, OnRelay, OnWait, End, NoWrite,
         StatusResponse;
    var ok := o.status == Succeeded;
    match o.kind
    case CoStart => StartWork(c, s);
    case CoRead => LeaveWork(c, s, true, choice); ResumeWork(c, s, choice);
    case CoWrite => LeaveWork(c, s, true, choice); ResumeWriteWork(c, s);
    case Connect => OnConnectWork(c, s, ok, o.arg, choice);
    case ReadSource => OnRelayWork(c, s, ok, WriteDest, o.arg);
    case WriteDest => OnRelayWork(c, s, ok, ReadSource, 0);
    case ReadDest => OnRelayWork(c, s, ok, WriteSource, o.arg);
    case WriteSource => OnRelayWork(c, s, ok, ReadDest, 0);
    case Wait => OnWaitWork(c, s, ok, o.arg);
    case EndCall => EndWork(c, s);
  }

  // ---- every step ----

  lemma {:induction false} RunWork(c: ServerConfig, s: SessionState, i: nat, choice: bool)
    requires i < |s.pending| && s.pending[i].status != InFlight && Inv(c, s)
    ensures Total(c, s, Handle(c, Without(s, i), s.pending[i], choice)) < Work(c, s)
  {
    var o, t := s.pending[i], Without(s, i);
    assert Work(c, s) == Work(c, t) + Cost(c, |t.reply|, o) by {
      hide Weight, Cost;
      WeightRemove(c, |s.reply|, s.pending, i);
    }
    hide Inv, Core, OpOk, Tags, Work, Handle, Remove, Cost;
    TakeOut(c, s, i);
    HandleWork(c, t, o, choice);
  }

  lemma {:induction false} ReplaceWork(c: ServerConfig, s: SessionState, t: SessionState, i: nat, o: Op)
    requires i < |s.pending| && t.pending == s.pending[i := o]
    requires t.reply == s.reply && t.shutdownInitiated == s.shutdownInitiated && t.erasesPosted == s.erasesPosted
    ensures Total(c, s, t) + Cost(c, |s.reply|, s.pending[i]) == Work(c, s) + Cost(c, |s.reply|, o)
  {
    hide Weight, Cost;
    WeightReplace(c, |s.reply|, s.pending, i, o);
  }

  lemma {:induction false} ReceiveWork(c: ServerConfig, s: SessionState, i: nat, data: Bytes)
    requires Enabled(s, Arrive(i, data))
    ensures Total(c, s, Receive(s, i, data)) <= Work(c, s) + ArrivalCost(c)
  {
    hide Total, Work, Overwrite, StatusResponse;
    ReplaceWork(c, s, Receive(s, i, data), i, s.pending[i].(status := Succeeded, arg := |data|));
  }

  lemma {:induction false} SendWork(c: ServerConfig, s: SessionState, i: nat, n: nat)
    requires Enabled(s, Deliver(i, n))
    ensures Total(c, s, Send(s, i, n)) < Work(c, s)
  {
    hide Total, Work, Slice, StatusResponse;
    var o := s.pending[i];
    var to := o.done + n;
    ReplaceWork(c, s, Send(s, i, n), i,
                o.(done := to, status := if to == WriteLength(s, o) then Succeeded else InFlight));
  }

  lemma {:induction false} CompleteWork(c: ServerConfig, s: SessionState, i: nat, status: Status)
    requires i < |s.pending| && s.pending[i].status == InFlight
    requires if status == Succeeded then s.pending[i].kind == Wait || s.pending[i].kind == Connect
             else status == Failed && s.pending[i].kind != Wait && s.pending[i].kind != EndCall
                  && s.pending[i].kind != CoStart
    ensures Total(c, s, Complete(s, i, s.pending[i].(status := status))) < Work(c, s)
  {
    hide Total, Work, StatusResponse;
    var o := s.pending[i].(status := status);
    ReplaceWork(c, s, Complete(s, i, o), i, o);
  }

  /** Every step of a session uses up work, unless bytes arrive. */
  lemma {:induction false} StepWork(c: ServerConfig, s: SessionState, e: Event)
    requires Inv(c, s) && Enabled(s, e) && Own(e)
    ensures var t := Total(c, s, Step(c, s, e));
      if e.Arrive? then t <= Work(c, s) + ArrivalCost(c) else t < Work(c, s)
  {
    hide Inv, Handle, Total, Work, Receive, Send, StartCoroutine, DispatchEnd, Complete, Remove;
    match e
    case Arrive(i, data) => ReceiveWork(c, s, i, data);
    case Deliver(i, n) => SendWork(c, s, i, n);
    case Run(i, choice) => RunWork(c, s, i, choice);
    case Connected(i) => CompleteWork(c, s, i, Succeeded);
    case Expire(i) => CompleteWork(c, s, i, Succeeded);
    case Fail(i) => CompleteWork(c, s, i, Failed);
    case _ =>
  }

  // ---- draining ----

  /** Every step of a session that was shut down makes it lighter. */
  lemma {:induction false} DrainStep(c: ServerConfig, s: SessionState, e: Event)
    requires Inv(c, s) && s.shutdownInitiated && Enabled(s, e) && Own(e)
    ensures Work(c, Step(c, s, e)) < Work(c, s)
  {
    hide Inv, Step, Work;
    ClosedForTraffic(c, s, e);
    StepWork(c, s, e);
  }

  /** So a run of its own steps is no longer than its work. */
  lemma {:induction false} DrainBounded(c: ServerConfig, s: SessionState, events: seq<Event>)
    requires Inv(c, s) && s.shutdownInitiated && Possible(c, s, events)
    requires forall e :: e in events ==> Own(e)
    ensures |events| + Work(c, After(c, s, events)) <= Work(c, s)
    decreases |events|
  {
    if events != [] {
      hide Inv, Work, SameTraffic;
      StepInv(c, s, events[0]);
      StillShutDown(c, s, events[0]);
      DrainStep(c, s, events[0]);
      DrainBounded(c, Step(c, s, events[0]), events[1..]);
    }
  }

  /** As long as something is outstanding a step is possible that waits for no bytes. */
  lemma {:induction false} DrainContinues(c: ServerConfig, s: SessionState)
    requires Inv(c, s) && s.pending != []
    ensures exists e :: Own(e) && !e.Arrive? && Enabled(s, e)
  {
    hide Tags, Flags, Exclusive, Timers, Streams, Generation, Alive;
    var o := s.pending[0];
    assert o in s.pending;
    assert OpOk(c, s, o);
    var e := if o.status != InFlight then Run(0, true) else if o.kind == Wait then Expire(0) else Fail(0);
    assert Own(e) && Enabled(s, e);
  }

  /** A run of own steps that cannot be continued leaves nothing outstanding. */
  lemma {:induction false} Drained(c: ServerConfig, s: SessionState, events: seq<Event>)
    requires Inv(c, s) && s.shutdownInitiated && Possible(c, s, events)
    requires forall e :: Own(e) ==> !Enabled(After(c, s, events), e)
    ensures var t := After(c, s, events);
      t.pending == [] && t.shutdownInitiated && t.erasesPosted == 1
  {
    var t := After(c, s, events);
    AfterInv(c, s, events);
    ShutdownIsFinal(c, s, events);
    assert t.erasesPosted == 1 by {
      hide Tags, Exclusive, Timers, Streams, Ops, Generation, Alive;
    }
    if t.pending != [] {
      DrainContinues(c, t);
    }
  }
}
