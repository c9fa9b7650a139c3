/** The status half of the handshake over whole runs: what a session has sent to a client
    that did not log in is the beginning of the replies the reader owes to its frames. */
module StatusConversation {
  import opened Basics
  import opened Protocol
  import opened Framing
  import opened Config
  import opened Reader
  import opened Outstanding
  import opened SessionMachine
  import opened SessionInvariants

  /** The replies due to a client that has sent `received`. */
  function Due(c: ServerConfig, received: Bytes): Bytes {
    match Intercept(c, received)
    case StatusClient(used) => StatusReplies(c, Drop(received, used))
    case _ => []
  }

  /** `received` opens with a handshake of `start` bytes that asks for the status. */
  ghost predicate AsksStatus(c: ServerConfig, received: Bytes, start: nat) {
    Intercept(c, received) == StatusClient(start)
  }

  /** ... and then a status request that ends at `next`. */
  ghost predicate Requested(c: ServerConfig, received: Bytes, start: nat, next: nat) {
    var r := ScanFrame(Drop(received, start), 1, 1);
    && AsksStatus(c, received, start) && start <= next
    && r.Body? && r.body[0] == 0 && r.used == next - start
  }

  /** ... and then a ping that calls for this reply. */
  ghost predicate Pinged(received: Bytes, next: nat, reply: Bytes) {
    var r := ScanFrame(Drop(received, next), 9, 9);
    r.Body? && r.body[0] == 1 && reply == Frame(r.body)
  }

  /** Where the handshake of a status client ends. */
  function Opening(c: ServerConfig, received: Bytes): nat {
    var v := Intercept(c, received);
    if v.StatusClient? then v.used else 0
  }

  /** Where the conversation stands. */
  ghost predicate Talking(c: ServerConfig, s: SessionState) {
    match s.stage
    case StatusRequest => s.toClient == [] && AsksStatus(c, s.fromClient, s.frameStart)
    case StatusReply =>
      Requested(c, s.fromClient, s.frameStart, |s.fromClient|) && s.reply == StatusResponse(c)
    case Pinging =>
      s.toClient == StatusResponse(c) && Requested(c, s.fromClient, Opening(c, s.fromClient), s.frameStart)
    case PongReply =>
      && Requested(c, s.fromClient, Opening(c, s.fromClient), s.frameStart)
      && Pinged(s.fromClient, s.frameStart, s.reply)
    case _ => s.toClient <= Due(c, s.fromClient)
  }

  /** What a write of the coroutine has delivered. */
  ghost predicate Writing(c: ServerConfig, s: SessionState, o: Op) {
    o.kind == CoWrite ==>
      && o.done <= |s.reply|
      && (o.status == Succeeded ==> o.done == |s.reply|)
      && s.toClient == (if s.stage == StatusReply then [] else StatusResponse(c)) + s.reply[..o.done]
  }

  ghost predicate Talk(c: ServerConfig, s: SessionState) {
    s.login.None? ==> Talking(c, s) && forall o :: o in s.pending ==> Writing(c, s, o)
  }

  // ---- the replies due grow with what is received ----

  lemma {:induction false} RequestedReplies(c: ServerConfig, received: Bytes, start: nat, next: nat)
    requires Requested(c, received, start, next)
    ensures next <= |received|
    ensures Due(c, received) == StatusResponse(c) + PingReply(Drop(received, next))
  {
    hide StatusResponse, PingReply, Intercept, ScanFrame;
    InterceptIsOnline(c, received, 0);
    ScanIsOnline(Drop(received, start), 1, 1, 0);
    assert Drop(Drop(received, start), next - start) == Drop(received, next);
  }

  lemma {:induction false} PingedReplies(c: ServerConfig, received: Bytes, start: nat, next: nat, reply: Bytes)
    requires Requested(c, received, start, next) && Pinged(received, next, reply)
    ensures Due(c, received) == StatusResponse(c) + reply
  {
    RequestedReplies(c, received, start, next);
    hide StatusResponse, Intercept, ScanFrame, Frame, Due;
  }

  lemma {:induction false} StillAsks(c: ServerConfig, received: Bytes, more: Bytes, start: nat)
    requires AsksStatus(c, received, start)
    ensures AsksStatus(c, received + more, start) && start <= |received|
  {
    hide Intercept;
    assert (received + more)[..|received|] == received;
    InterceptIsOnline(c, received, 0);
    InterceptIsOnline(c, received + more, |received|);
  }

  lemma {:induction false} StillRequested(c: ServerConfig, received: Bytes, more: Bytes, start: nat, next: nat)
    requires Requested(c, received, start, next)
    ensures Requested(c, received + more, start, next)
  {
    hide Intercept, ScanFrame;
    StillAsks(c, received, more, start);
    var r, t := Drop(received, start), Drop(received + more, start);
    assert t[..|r|] == r;
    ScanIsOnline(r, 1, 1, 0);
    ScanIsOnline(t, 1, 1, |r|);
  }

  // ---- what keeps the conversation ----

  /** Nothing was received or sent, and the coroutine is where it was. */
  lemma {:induction false} SameTalk(c: ServerConfig, s: SessionState, t: SessionState)
    requires Talk(c, s)
    requires t.stage == s.stage && t.frameStart == s.frameStart && t.reply == s.reply && t.login == s.login
    requires t.fromClient == s.fromClient && t.toClient == s.toClient
    requires forall o :: o in t.pending && o.kind == CoWrite ==> o in s.pending
    ensures Talk(c, t)
  {
    hide Requested, AsksStatus, Pinged, Due, StatusResponse, Opening;
    forall o | o in t.pending
      ensures s.login.None? ==> Writing(c, t, o)
    {
      if o.kind == CoWrite {
        assert s.login.None? ==> Writing(c, s, o);
      }
    }
  }

  /** The coroutine is over: what was sent is the beginning of what was due. */
  lemma {:induction false} OverTalk(c: ServerConfig, s: SessionState, t: SessionState)
    requires t.stage == Closed || t.stage == Handshaking || t.stage == Spawned
    requires t.toClient <= Due(c, t.fromClient)
    requires forall o :: o in t.pending ==> o.kind != CoWrite
    ensures Talk(c, t)
  {
    hide Due;
  }

  /** In every state what was sent is the beginning of what is due. */
  lemma {:induction false} SentIsDue(c: ServerConfig, s: SessionState)
    requires Inv(c, s) && Talk(c, s) && s.login.None?
    ensures s.toClient <= Due(c, s.fromClient)
  {
    hide Inv, Due, Requested, AsksStatus, Pinged, StatusResponse, Opening, PingReply, Writing;
    assert Talking(c, s);
    match s.stage
    case StatusReply =>
      RequestedReplies(c, s.fromClient, s.frameStart, |s.fromClient|);
      SentReply(c, s);
      PrefixExtended(s.toClient, s.reply, PingReply(Drop(s.fromClient, |s.fromClient|)));
    case Pinging =>
      RequestedReplies(c, s.fromClient, Opening(c, s.fromClient), s.frameStart);
    case PongReply =>
      PingedReplies(c, s.fromClient, Opening(c, s.fromClient), s.frameStart, s.reply);
      SentReply(c, s);
    case _ =>
  }

  /** While a write is outstanding, what was sent ends in a part of its reply. */
  lemma {:induction false} SentReply(c: ServerConfig, s: SessionState)
    requires Inv(c, s) && Talk(c, s) && s.login.None?
    requires s.stage == StatusReply || s.stage == PongReply
    ensures s.toClient <= (if s.stage == StatusReply then [] else StatusResponse(c)) + s.reply
  {
    hide Tags, Talking, Flags, Timers, Streams, Ops, Generation, StatusResponse;
    TagsMember(s.pending, Control);
    var o :| o in s.pending && TagOf(o) == Control;
    assert Writing(c, s, o);
  }

  // ---- the steps of the coroutine ----

  /** The frame was decided by the last byte that was received. */
  lemma {:induction false} FrameDecidedNow(received: Bytes, start: nat, n: nat)
    requires start < |received|
    requires ScanFrame(Drop(received[..|received| - 1], start), n, n).More?
    requires !ScanFrame(Drop(received, start), n, n).More?
    ensures ScanFrame(Drop(received, start), n, n).Used() == |received| - start
  {
    hide ScanFrame;
    var r := Drop(received, start);
    assert r[..|r| - 1] == Drop(received[..|received| - 1], start);
    ScanIsOnline(r, n, n, |r| - 1);
  }

  lemma {:induction false} HandshakeDecidedNow(c: ServerConfig, received: Bytes, start: nat)
    requires |received| > 0 && start == 0
    requires Intercept(c, Drop(received[..|received| - 1], start)).Undecided?
    requires !Intercept(c, Drop(received, start)).Undecided?
    ensures Intercept(c, received) == Intercept(c, Drop(received, start))
    ensures VerdictUsed(Intercept(c, received)) == |received|
  {
    hide Intercept;
    assert Drop(received, 0) == received;
    assert Drop(received[..|received| - 1], 0) == received[..|received| - 1];
    InterceptIsOnline(c, received, |received| - 1);
  }

  lemma {:induction false} NoWriteStays(s: SessionState, o: Op)
    requires NoWrite(s) && o.kind != CoWrite
    ensures NoWrite(Begin(s, o)) && NoWrite(ArmDeadline(s)) && NoWrite(End(s))
  {
    CancelledMembers(s.pending);
  }

  lemma {:induction false} LeaveTalk(c: ServerConfig, s: SessionState, thrown: bool, inline: bool)
    requires NoWrite(s) && s.toClient <= Due(c, s.fromClient)
    ensures Talk(c, Leave(s, thrown, inline)) && Talk(c, Finish(s)) && Talk(c, Throw(s, inline))
  {
    hide Due, CancelWaits, Talk;
    var o := Op(EndCall, Succeeded, 0, 0);
    NoWriteStays(s.(stage := Closed), o);
    OverTalk(c, s, End(s.(stage := Closed)));
    OverTalk(c, s, Begin(s.(stage := Closed), o));
  }

  lemma {:induction false} HandshakeTalk(c: ServerConfig, s: SessionState, inline: bool)
    requires NoWrite(s) && s.stage == Handshaking && s.frameStart == 0 && s.toClient == [] && Resumable(c, s)
    ensures Talk(c, ResumeRead(c, s, inline))
  {
    LoginStarts(c, s);
    hide Intercept, Due, Leave, Finish, Throw, CancelWaits, StartConnect;
    LeaveTalk(c, s, true, inline);
    LeaveTalk(c, s, false, inline);
    var v := Intercept(c, CurrentFrame(s));
    NoWriteStays(s, Op(CoRead, InFlight, 0, 0));
    if !v.Undecided? {
      HandshakeDecidedNow(c, s.fromClient, s.frameStart);
    }
    if v.StatusClient? {
      var t := s.(stage := StatusRequest, frameStart := |s.fromClient|);
      NoWriteStays(t, Op(CoRead, InFlight, 0, 0));
    }
  }

  lemma {:induction false} RequestRead(c: ServerConfig, s: SessionState)
    requires s.stage == StatusRequest && Talking(c, s) && Resumable(c, s)
    ensures var r := ScanFrame(CurrentFrame(s), 1, 1);
      r.Body? && r.body[0] == 0 ==> Requested(c, s.fromClient, s.frameStart, |s.fromClient|)
  {
    hide Intercept, ScanFrame;
    if ScanFrame(CurrentFrame(s), 1, 1).Body? {
      FrameDecidedNow(s.fromClient, s.frameStart, 1);
    }
  }

  lemma {:induction false} RequestTalk(c: ServerConfig, s: SessionState, inline: bool)
    requires NoWrite(s) && s.stage == StatusRequest && Talking(c, s) && Resumable(c, s)
    ensures Talk(c, ResumeRead(c, s, inline))
  {
    hide Intercept, ScanFrame, StatusResponse, PingReply, Due, Leave, Finish, Throw, Pinged, Opening, CancelWaits,
         Requested, AsksStatus, Resumable;
    LeaveTalk(c, s, true, inline);
    LeaveTalk(c, s, false, inline);
    NoWriteStays(s, Op(CoRead, InFlight, 0, 0));
    RequestRead(c, s);
  }

  lemma {:induction false} PingTalk(c: ServerConfig, s: SessionState, inline: bool)
    requires NoWrite(s) && s.stage == Pinging && Talking(c, s) && s.toClient <= Due(c, s.fromClient)
    ensures Talk(c, ResumeRead(c, s, inline))
  {
    hide Intercept, ScanFrame, StatusResponse, Due, Leave, Finish, Throw, Frame, Requested, Opening;
    LeaveTalk(c, s, true, inline);
    LeaveTalk(c, s, false, inline);
    NoWriteStays(s, Op(CoRead, InFlight, 0, 0));
  }

  lemma {:induction false} OpeningIs(c: ServerConfig, received: Bytes, start: nat)
    requires AsksStatus(c, received, start)
    ensures Opening(c, received) == start
  {
  }

  lemma {:induction false} WriteTalk(c: ServerConfig, s: SessionState, o: Op)
    requires NoWrite(s) && (s.stage == StatusReply || s.stage == PongReply) && Talking(c, s)
    requires o.kind == CoWrite && o.status == Succeeded && Writing(c, s, o)
    requires s.toClient <= Due(c, s.fromClient)
    ensures Talk(c, ResumeWrite(s))
  {
    hide ScanFrame, Intercept, StatusResponse, Due, Finish, Frame, Pinged;
    LeaveTalk(c, s, false, true);
    if s.stage == StatusReply {
      OpeningIs(c, s.fromClient, s.frameStart);
      hide Requested, Opening;
      assert s.reply[..|s.reply|] == s.reply;
      var t := s.(stage := Pinging, frameStart := |s.fromClient|);
      NoWriteStays(t, Op(CoRead, InFlight, 0, 0));
    }
  }

  lemma {:induction false} StartTalk(c: ServerConfig, s: SessionState)
    requires NoWrite(s) && s.toClient == []
    ensures Talk(c, StartCoroutine(s))
  {
    hide Due, CancelWaits;
    NoWriteStays(s.(stage := Handshaking), Op(CoRead, InFlight, 0, 0));
    NoWriteStays(ArmDeadline(s.(stage := Handshaking)), Op(CoRead, InFlight, 0, 0));
  }

  lemma {:induction false} QuietNoWrite(s: SessionState)
    requires Quiet(s)
    ensures NoWrite(s)
  {
  }

  /** What a handler of the coroutine meets, with its operation taken out. */
  ghost predicate AtHandler(c: ServerConfig, t: SessionState, o: Op) {
    && NoWrite(t) && Talking(c, t) && Writing(c, t, o)
    && t.toClient <= Due(c, t.fromClient)
    && (o.kind == CoStart || t.stage == Handshaking ==> t.toClient == [])
    && (o.kind == CoRead && o.status == Succeeded ==>
          && Resumable(c, t)
          && (t.stage == Handshaking ==> t.frameStart == 0)
          && (t.stage == Handshaking || t.stage == StatusRequest || t.stage == Pinging))
    && (o.kind == CoWrite ==> t.stage == StatusReply || t.stage == PongReply)
  }

  lemma {:induction false} SameTalking(c: ServerConfig, s: SessionState, t: SessionState, o: Op)
    requires SameData(s, t) && Talking(c, s) && Writing(c, s, o)
    ensures Talking(c, t) && Writing(c, t, o)
  {
    hide Requested, AsksStatus, Pinged, StatusResponse, Opening, Due;
  }

  lemma {:induction false} ItsTalk(c: ServerConfig, s: SessionState, i: nat)
    requires i < |s.pending| && Talk(c, s) && s.login.None?
    ensures Talking(c, s) && Writing(c, s, s.pending[i])
  {
    hide Talking, Writing;
    assert s.pending[i] in s.pending;
  }

  lemma {:induction false} TakenTalk(c: ServerConfig, s: SessionState, i: nat)
    requires i < |s.pending| && TagOf(s.pending[i]) == Control && s.pending[i].kind != Connect
    requires Inv(c, s) && Talk(c, s) && s.login.None?
    ensures AtHandler(c, Without(s, i), s.pending[i])
  {
    hide Inv, Core, OpOk, Tags, Due, Talk, Talking, Writing, Resumable, Remove, Quiet, NoWrite;
    var o, t := s.pending[i], Without(s, i);
    SentIsDue(c, s);
    ItsTalk(c, s, i);
    TakeOut(c, s, i);
    SameTalking(c, s, t, o);
    QuietNoWrite(t);
    if s.stage == Spawned || s.stage == Handshaking {
      NothingSent(c, s);
    }
    if o.kind == CoRead && o.status == Succeeded {
      ReadResumable(c, t, o);
    }
  }

  lemma {:induction false} ReadTalk(c: ServerConfig, t: SessionState, o: Op, choice: bool)
    requires o.kind == CoRead && o.status == Succeeded && AtHandler(c, t, o)
    ensures Talk(c, ResumeRead(c, t, choice))
  {
    hide Talk, Talking, Writing, Due, ResumeRead, Resumable, NoWrite;
    if t.stage == Handshaking {
      HandshakeTalk(c, t, choice);
    } else if t.stage == StatusRequest {
      RequestTalk(c, t, choice);
    } else {
      PingTalk(c, t, choice);
    }
  }

  /** A handler of the coroutine keeps the conversation. */
  lemma {:induction false} CoroutineTalk(c: ServerConfig, t: SessionState, o: Op, choice: bool)
    requires TagOf(o) == Control && o.kind != Connect && AtHandler(c, t, o)
    ensures Talk(c, Handle(c, t, o, choice))
  {
    hide Talk, Talking, Writing, Due, StartCoroutine, ResumeRead, ResumeWrite, Throw, Resumable, NoWrite;
    match o.kind
    case CoStart => StartTalk(c, t);
    case CoRead =>
      if o.status == Succeeded {
        ReadTalk(c, t, o, choice);
      } else {
        LeaveTalk(c, t, true, choice);
      }
    case CoWrite =>
      if o.status == Succeeded {
        WriteTalk(c, t, o);
      } else {
        LeaveTalk(c, t, true, choice);
      }
    case _ =>
  }

  lemma {:induction false} NothingSent(c: ServerConfig, s: SessionState)
    requires Inv(c, s) && (s.stage == Spawned || s.stage == Handshaking)
    ensures s.toClient == []
  {
    hide Flags, Exclusive, Timers, Ops, Alive, Generation, Conserved;
  }

  /** With a login, or once relaying, there is no conversation to keep. */
  lemma {:induction false} LoginTalk(c: ServerConfig, s: SessionState, o: Op, choice: bool)
    requires s.login.Some? && o.kind != CoStart && o.kind != CoRead && o.kind != CoWrite
    ensures Talk(c, Handle(c, s, o, choice))
  {
    hide CancelWaits, Talking;
  }

  lemma {:induction false} EndTalk(c: ServerConfig, s: SessionState)
    requires Talk(c, s)
    ensures Talk(c, End(s))
  {
    hide Talk, CancelWaits;
    CancelledMembers(s.pending);
    SameTalk(c, s, End(s));
  }

  lemma {:induction false} WithoutTalk(c: ServerConfig, s: SessionState, i: nat)
    requires i < |s.pending| && Talk(c, s)
    ensures Talk(c, Without(s, i))
  {
    hide Talk, Remove;
    RemovedMembers(s.pending, i);
    SameTalk(c, s, Without(s, i));
  }

  lemma {:induction false} LoginByKind(c: ServerConfig, s: SessionState, i: nat)
    requires i < |s.pending| && Inv(c, s)
    ensures var o := s.pending[i];
      && (TagOf(o) == Up || TagOf(o) == Down || o.kind == Connect ==> s.login.Some?)
      && (o.kind == CoStart || o.kind == CoRead || o.kind == CoWrite ==> s.login.None?)
  {
    hide Tags, Remove, Flags, Exclusive, Timers, Ops, Alive, Generation, Conserved, Quiet, OpOk;
    TakeOut(c, s, i);
  }

  lemma {:induction false} OtherHandlerTalk(c: ServerConfig, t: SessionState, o: Op, choice: bool)
    requires Talk(c, t) && (o.kind == Wait || o.kind == EndCall)
    ensures Talk(c, Handle(c, t, o, choice))
  {
    hide Talk, End;
    EndTalk(c, t);
  }

  lemma {:induction false} RunTalk(c: ServerConfig, s: SessionState, i: nat, choice: bool)
    requires i < |s.pending| && Inv(c, s) && Talk(c, s)
    ensures Talk(c, Handle(c, Without(s, i), s.pending[i], choice))
  {
    var o, t := s.pending[i], Without(s, i);
    LoginByKind(c, s, i);
    hide Inv, Talk, Remove, Handle, AtHandler;
    if o.kind == Wait || o.kind == EndCall {
      WithoutTalk(c, s, i);
      OtherHandlerTalk(c, t, o, choice);
    } else if o.kind == CoStart || o.kind == CoRead || o.kind == CoWrite {
      TakenTalk(c, s, i);
      CoroutineTalk(c, t, o, choice);
    } else {
      LoginTalk(c, t, o, choice);
    }
  }

  // ---- the environment ----

  /** Only the operation at `i` changed; if it is a write of the coroutine it still fits. */
  lemma {:induction false} ReplaceTalk(c: ServerConfig, s: SessionState, t: SessionState, i: nat, o: Op)
    requires i < |s.pending| && t.pending == s.pending[i := o]
    requires t.login == s.login
    requires s.login.None? ==> Talking(c, t) && Writing(c, t, o)
    requires s.login.None? ==> forall p :: p in s.pending && p.kind == CoWrite && p != s.pending[i] ==> Writing(c, t, p)
    requires forall k :: 0 <= k < |s.pending| && k != i && s.pending[k].kind == CoWrite ==> s.pending[k] != s.pending[i]
    ensures Talk(c, t)
  {
    hide Talking;
    forall p | p in t.pending
      ensures s.login.None? ==> Writing(c, t, p)
    {
      var k :| 0 <= k < |t.pending| && t.pending[k] == p;
      if k != i {
        assert s.pending[k] in s.pending;
      }
    }
  }

  /** No other operation is a write of the coroutine. */
  lemma {:induction false} OneWrite(c: ServerConfig, s: SessionState, i: nat)
    requires i < |s.pending| && Inv(c, s)
    requires TagOf(s.pending[i]) == Control
    ensures forall k :: 0 <= k < |s.pending| && k != i ==> s.pending[k].kind != CoWrite
    ensures s.pending[i].kind == ControlKind(s.stage) && HasControl(s.stage)
    ensures s.stage != Connecting ==> s.login.None?
    ensures OpOk(c, s, s.pending[i])
  {
    hide Tags, Flags, Timers, Alive, Generation, Conserved, OpOk;
    OnlyOne(s.pending, i);
    TagsMember(s.pending, Control);
    assert s.pending[i] in s.pending;
  }

  lemma {:induction false} ReceiveTalk(c: ServerConfig, s: SessionState, i: nat, data: Bytes)
    requires i < |s.pending| && s.pending[i].kind == CoRead && s.pending[i].status == InFlight
    requires Inv(c, s) && Talk(c, s)
    ensures Talk(c, Receive(s, i, data))
  {
    OneWrite(c, s, i);
    if s.stage == Handshaking {
      NothingSent(c, s);
    }
    hide Inv, OpOk, Due, Intercept, ScanFrame, Requested, AsksStatus, StatusResponse, Opening;
    assert Talking(c, s);
    var t := Receive(s, i, data);
    if s.stage == StatusRequest {
      StillAsks(c, s.fromClient, data, s.frameStart);
    } else if s.stage == Pinging {
      var start := Opening(c, s.fromClient);
      StillRequested(c, s.fromClient, data, start, s.frameStart);
      OpeningOf(c, t.fromClient, start, s.frameStart);
    }
    ReplaceTalk(c, s, t, i, s.pending[i].(status := Succeeded, arg := |data|));
  }

  lemma {:induction false} OpeningOf(c: ServerConfig, received: Bytes, start: nat, next: nat)
    requires Requested(c, received, start, next)
    ensures Opening(c, received) == start
  {
    hide ScanFrame, Intercept;
  }

  lemma {:induction false} SendTalk(c: ServerConfig, s: SessionState, i: nat, n: nat)
    requires i < |s.pending| && s.pending[i].kind == CoWrite && s.pending[i].status == InFlight
    requires 1 <= n && s.pending[i].done + n <= |s.reply|
    requires Inv(c, s) && Talk(c, s)
    ensures Talk(c, Send(s, i, n))
  {
    hide Inv, Talking, Slice, Writing, Send, OpOk;
    OneWrite(c, s, i);
    var o := s.pending[i];
    assert o in s.pending;
    SendIs(s, i, n);
    SentWriting(c, s, Send(s, i, n), o, n);
    ReplaceTalk(c, s, Send(s, i, n), i, Sent(s, o, n));
  }

  function Sent(s: SessionState, o: Op, n: nat): Op {
    o.(done := o.done + n, status := if o.done + n == |s.reply| then Succeeded else InFlight)
  }

  lemma {:induction false} SendIs(s: SessionState, i: nat, n: nat)
    requires i < |s.pending| && s.pending[i].kind == CoWrite
    ensures Send(s, i, n) == s.(pending := s.pending[i := Sent(s, s.pending[i], n)],
                                toClient := s.toClient + Slice(s.reply, s.pending[i].done, n))
  {
    hide Slice;
  }

  lemma {:induction false} NextSlice(s: Bytes, from: nat, n: nat)
    requires from + n <= |s|
    ensures s[..from + n] == s[..from] + Slice(s, from, n)
  {
  }

  lemma {:induction false} SentWriting(c: ServerConfig, s: SessionState, t: SessionState, o: Op, n: nat)
    requires o.kind == CoWrite && o.done + n <= |s.reply|
    requires s.stage == StatusReply || s.stage == PongReply
    requires t == s.(pending := t.pending, toClient := s.toClient + Slice(s.reply, o.done, n))
    requires Talking(c, s) && Writing(c, s, o)
    ensures Talking(c, t)
    ensures Writing(c, t, Sent(s, o, n))
  {
    hide Due, Requested, AsksStatus, Pinged, StatusResponse, Opening, Slice;
    NextSlice(s.reply, o.done, n);
  }

  lemma {:induction false} FailTalk(c: ServerConfig, s: SessionState, i: nat)
    requires i < |s.pending| && s.pending[i].kind == CoWrite && s.pending[i].status == InFlight
    requires Inv(c, s) && Talk(c, s)
    ensures Talk(c, Complete(s, i, s.pending[i].(status := Failed)))
  {
    OneWrite(c, s, i);
    hide Inv, Due, Requested, AsksStatus, Pinged, StatusResponse, Opening;
    assert s.pending[i] in s.pending && Talking(c, s) && Writing(c, s, s.pending[i]);
    ReplaceTalk(c, s, Complete(s, i, s.pending[i].(status := Failed)), i, s.pending[i].(status := Failed));
  }

  /** The relay moves bytes only after a login. */
  lemma {:induction false} RelayTalk(c: ServerConfig, s: SessionState, e: Event)
    requires Enabled(s, e) && Inv(c, s) && (e.Arrive? || e.Deliver?)
    requires TagOf(s.pending[e.i]) != Control
    ensures Talk(c, Step(c, s, e))
  {
    LoginByKind(c, s, e.i);
    hide Inv, Talking, Overwrite, Slice, Complete, Writing;
  }

  /** A completion that is no write of the coroutine. */
  lemma {:induction false} CompletedTalk(c: ServerConfig, s: SessionState, i: nat, status: Status)
    requires i < |s.pending| && s.pending[i].kind != CoWrite && Talk(c, s)
    ensures Talk(c, Complete(s, i, s.pending[i].(status := status)))
  {
    hide Talk;
    var t := Complete(s, i, s.pending[i].(status := status));
    forall p | p in t.pending && p.kind == CoWrite
      ensures p in s.pending
    {
      var k :| 0 <= k < |t.pending| && t.pending[k] == p;
      assert k != i ==> s.pending[k] in s.pending;
    }
    SameTalk(c, s, t);
  }

  /** Events on other operations: a wait, a connect, or, with a login, the relay. */
  lemma {:induction false} OtherTalk(c: ServerConfig, s: SessionState, e: Event)
    requires Enabled(s, e) && Inv(c, s) && Talk(c, s)
    requires e.Arrive? || e.Deliver? || e.Connected? || e.Expire? || e.Fail?
    requires s.pending[e.i].kind != CoWrite && (e.Arrive? ==> s.pending[e.i].kind != CoRead)
    ensures Talk(c, Step(c, s, e))
  {
    hide Inv, Talk, Complete, Receive, Send;
    match e
    case Arrive(_, _) => RelayTalk(c, s, e);
    case Deliver(_, _) => RelayTalk(c, s, e);
    case Fail(i) => CompletedTalk(c, s, i, Failed);
    case Connected(i) => CompletedTalk(c, s, i, Succeeded);
    case Expire(i) => CompletedTalk(c, s, i, Succeeded);
    case _ =>
  }

  lemma {:induction false} CreatedNoWrite(c: ServerConfig, s: SessionState)
    requires Inv(c, s) && s.stage == Created
    ensures NoWrite(s) && s.toClient == []
    ensures NoWrite(s.(stage := Spawned, sourceOpen := true))
  {
    hide Tags, Flags, Exclusive, Timers, Ops, Alive, Generation, Conserved;
    CreatedQuiet(c, s);
  }

  lemma {:induction false} SpawnTalk(c: ServerConfig, s: SessionState, inline: bool)
    requires Enabled(s, Spawn(inline)) && Inv(c, s) && Talk(c, s)
    ensures Talk(c, Step(c, s, Spawn(inline)))
  {
    hide Inv, Talk, StartCoroutine, Due, NoWrite;
    CreatedNoWrite(c, s);
    var t := s.(stage := Spawned, sourceOpen := true);
    StartTalk(c, t);
    NoWriteStays(t, Op(CoStart, Succeeded, 0, 0));
    OverTalk(c, t, Begin(t, Op(CoStart, Succeeded, 0, 0)));
  }

  lemma {:induction false} CallEndTalk(c: ServerConfig, s: SessionState, inline: bool)
    requires Talk(c, s)
    ensures Talk(c, DispatchEnd(s, inline))
  {
    hide Talk, End;
    EndTalk(c, s);
    SameTalk(c, s, Begin(s, Op(EndCall, Succeeded, 0, 0)));
  }

  lemma {:induction false} StepTalk(c: ServerConfig, s: SessionState, e: Event)
    requires Enabled(s, e) && Inv(c, s) && Talk(c, s)
    ensures Talk(c, Step(c, s, e))
  {
    hide Inv, Talk, Handle, Receive, Send, Complete, StartCoroutine, DispatchEnd, Remove;
    if e.Run? {
      RunTalk(c, s, e.i, e.choice);
    } else if e.Spawn? {
      SpawnTalk(c, s, e.inline);
    } else if e.CallEnd? {
      CallEndTalk(c, s, e.inline);
    } else if e.Arrive? && s.pending[e.i].kind == CoRead {
      ReceiveTalk(c, s, e.i, e.data);
    } else if e.Deliver? && s.pending[e.i].kind == CoWrite {
      SendTalk(c, s, e.i, e.n);
    } else if e.Fail? && s.pending[e.i].kind == CoWrite {
      FailTalk(c, s, e.i);
    } else {
      OtherTalk(c, s, e);
    }
  }

  lemma {:induction false} AfterTalk(c: ServerConfig, s: SessionState, events: seq<Event>)
    requires Inv(c, s) && Talk(c, s) && Possible(c, s, events)
    ensures Talk(c, After(c, s, events)) && Inv(c, After(c, s, events))
    decreases |events|
  {
    if events != [] {
      hide Inv, Talk;
      StepInv(c, s, events[0]);
      StepTalk(c, s, events[0]);
      AfterTalk(c, Step(c, s, events[0]), events[1..]);
    }
  }

  /** In every run a client without a login has been sent a beginning of the replies due to
      what it sent, the replies the reader's own contract speaks of, and nothing else. */
  lemma {:induction false} RepliesAreDue(c: ServerConfig, events: seq<Event>)
    requires Possible(c, NewSession(), events)
    ensures var s := After(c, NewSession(), events);
      s.login.None? ==> s.toClient <= Due(c, s.fromClient)
  {
    NewSessionInv(c);
    assert Talk(c, NewSession());
    hide Inv, Talk, Due;
    AfterTalk(c, NewSession(), events);
    var s := After(c, NewSession(), events);
    if s.login.None? {
      SentIsDue(c, s);
    }
  }

  // ---- conversations that come to an end ----

  /** The client was sent all that is due. */
  ghost predicate Settled(c: ServerConfig, s: SessionState) {
    s.toClient == Due(c, s.fromClient)
  }

  ghost predicate Answered(c: ServerConfig, s: SessionState) {
    s.login.None? && s.stage == Closed ==> Settled(c, s)
  }

  /** The coroutine is thrown out of a read or write that failed. */
  predicate BreaksOff(s: SessionState, e: Event) {
    && e.Run? && e.i < |s.pending| && s.pending[e.i].status == Failed
    && (s.pending[e.i].kind == CoRead || s.pending[e.i].kind == CoWrite)
  }

  predicate Unbroken(c: ServerConfig, s: SessionState, events: seq<Event>)
    requires Possible(c, s, events)
    decreases |events|
  {
    events != [] ==> !BreaksOff(s, events[0]) && Unbroken(c, Step(c, s, events[0]), events[1..])
  }

  lemma {:induction false} LeaveAnswered(c: ServerConfig, s: SessionState, thrown: bool, inline: bool)
    requires Settled(c, s)
    ensures Answered(c, Leave(s, thrown, inline)) && Answered(c, Finish(s)) && Answered(c, Throw(s, inline))
  {
    hide Due, CancelWaits;
  }

  lemma {:induction false} NoneDue(c: ServerConfig, s: SessionState)
    requires s.toClient == [] && !Intercept(c, s.fromClient).StatusClient?
    ensures Settled(c, s)
  {
    hide Intercept;
  }

  lemma {:induction false} HandshakeAnswered(c: ServerConfig, s: SessionState, inline: bool)
    requires s.stage == Handshaking && s.frameStart == 0 && s.toClient == []
    ensures Answered(c, ResumeRead(c, s, inline))
  {
    assert CurrentFrame(s) == s.fromClient;
    hide Intercept, Settled, Leave, Throw, StartConnect, CurrentFrame;
    if Intercept(c, s.fromClient).Login? || Intercept(c, s.fromClient).Refused? {
      NoneDue(c, s);
      LeaveAnswered(c, s, true, inline);
      LeaveAnswered(c, s, false, inline);
      LoginStarts(c, s);
    }
  }

  lemma {:induction false} LoginStarts(c: ServerConfig, s: SessionState)
    ensures forall used, h, wire :: |wire| <= |s.outgoing| ==> StartConnect(s, used, h, wire).login.Some?
  {
    hide CancelWaits, Overwrite;
  }

  lemma {:induction false} RequestAnswered(c: ServerConfig, s: SessionState, inline: bool)
    requires s.stage == StatusRequest && Talking(c, s)
    ensures Answered(c, ResumeRead(c, s, inline))
  {
    hide Intercept, ScanFrame, StatusResponse, PingReply, Leave, Finish, CancelWaits;
    var r := ScanFrame(CurrentFrame(s), 1, 1);
    if r.Reject? || (r.Body? && r.body[0] != 0) {
      LeaveAnswered(c, s, true, inline);
      LeaveAnswered(c, s, false, inline);
    }
  }

  lemma {:induction false} PingAnswered(c: ServerConfig, s: SessionState, inline: bool)
    requires s.stage == Pinging && Talking(c, s)
    ensures Answered(c, ResumeRead(c, s, inline))
  {
    hide Intercept, ScanFrame, StatusResponse, Frame, Leave, Finish, CancelWaits, Requested, Opening, Due;
    RequestedReplies(c, s.fromClient, Opening(c, s.fromClient), s.frameStart);
    var r := ScanFrame(CurrentFrame(s), 9, 9);
    if r.Reject? || (r.Body? && r.body[0] != 1) {
      LeaveAnswered(c, s, true, inline);
      LeaveAnswered(c, s, false, inline);
    }
  }

  lemma {:induction false} WriteAnswered(c: ServerConfig, s: SessionState, o: Op)
    requires (s.stage == StatusReply || s.stage == PongReply) && Talking(c, s)
    requires o.kind == CoWrite && o.status == Succeeded && Writing(c, s, o)
    ensures Answered(c, ResumeWrite(s))
  {
    hide ScanFrame, Intercept, StatusResponse, Due, Finish, Pinged, Requested, Opening;
    if s.stage == PongReply {
      PingedReplies(c, s.fromClient, Opening(c, s.fromClient), s.frameStart, s.reply);
      assert s.reply[..|s.reply|] == s.reply;
      LeaveAnswered(c, s, false, true);
    }
  }

  lemma {:induction false} NothingDue(c: ServerConfig, s: SessionState)
    requires s.fromClient == [] && s.toClient == []
    ensures Settled(c, s)
  {
    EmptyScan(c, 1, MAX_PACKET_BYTES);
  }

  lemma {:induction false} StartAnswered(c: ServerConfig, s: SessionState)
    requires s.fromClient == [] && s.toClient == []
    ensures Answered(c, StartCoroutine(s))
  {
    NothingDue(c, s);
    hide Due, CancelWaits;
  }

  lemma {:induction false} NothingReceived(c: ServerConfig, s: SessionState)
    requires Inv(c, s) && (s.stage == Created || s.stage == Spawned)
    ensures s.fromClient == [] && s.toClient == []
  {
    hide Flags, Exclusive, Timers, Ops, Alive, Generation, Conserved;
  }

  /** A handler of the coroutine that is not thrown out answers before it ends. */
  lemma {:induction false} CoroutineAnswered(c: ServerConfig, t: SessionState, o: Op, choice: bool)
    requires TagOf(o) == Control && o.kind != Connect && AtHandler(c, t, o)
    requires o.kind == CoStart ==> t.fromClient == []
    requires o.kind == CoRead || o.kind == CoWrite ==> o.status == Succeeded
    ensures Answered(c, Handle(c, t, o, choice))
  {
    hide Answered, Talking, Writing, Due, StartCoroutine, ResumeRead, ResumeWrite, Resumable, NoWrite;
    match o.kind
    case CoStart => StartAnswered(c, t);
    case CoWrite => WriteAnswered(c, t, o);
    case CoRead =>
      if t.stage == Handshaking {
        HandshakeAnswered(c, t, choice);
      } else if t.stage == StatusRequest {
        RequestAnswered(c, t, choice);
      } else {
        PingAnswered(c, t, choice);
      }
    case _ =>
  }

  lemma {:induction false} LoginAnswered(c: ServerConfig, s: SessionState, o: Op, choice: bool)
    requires s.login.Some? && o.kind != CoStart && o.kind != CoRead && o.kind != CoWrite
    ensures Answered(c, Handle(c, s, o, choice))
  {
    hide CancelWaits, Due;
  }

  lemma {:induction false} EndAnswered(c: ServerConfig, s: SessionState, o: Op, choice: bool)
    requires Answered(c, s) && (o.kind == Wait || o.kind == EndCall)
    ensures Answered(c, Handle(c, s, o, choice))
  {
    hide CancelWaits, Due;
  }

  lemma {:induction false} RunAnswered(c: ServerConfig, s: SessionState, i: nat, choice: bool)
    requires i < |s.pending| && Inv(c, s) && Talk(c, s) && Answered(c, s) && s.pending[i].status != InFlight
    requires !BreaksOff(s, Run(i, choice))
    ensures Answered(c, Handle(c, Without(s, i), s.pending[i], choice))
  {
    var o, t := s.pending[i], Without(s, i);
    assert Answered(c, t);
    LoginByKind(c, s, i);
    if o.kind == CoStart {
      StartKind(c, s, i);
      NothingReceived(c, s);
    }
    hide Inv, Talk, Remove, Handle, AtHandler, Answered;
    if o.kind == Wait || o.kind == EndCall {
      EndAnswered(c, t, o, choice);
    } else if o.kind == CoStart || o.kind == CoRead || o.kind == CoWrite {
      TakenTalk(c, s, i);
      CoroutineAnswered(c, t, o, choice);
    } else {
      LoginAnswered(c, t, o, choice);
    }
  }

  lemma {:induction false} StartKind(c: ServerConfig, s: SessionState, i: nat)
    requires i < |s.pending| && Inv(c, s) && s.pending[i].kind == CoStart
    ensures s.stage == Spawned
  {
    hide Inv, Core, Tags, Remove, OpOk, Quiet;
    TakeOut(c, s, i);
  }

  /** Nothing moves when the coroutine is over and there was no login. */
  lemma {:induction false} NoTraffic(c: ServerConfig, s: SessionState, i: nat)
    requires i < |s.pending| && Inv(c, s) && s.login.None? && s.stage == Closed
    ensures !IsRead(s.pending[i].kind) && !IsWrite(s.pending[i].kind)
  {
    hide Inv, Core, Tags, Remove, OpOk, Quiet;
    TakeOut(c, s, i);
  }

  lemma {:induction false} SameAnswered(c: ServerConfig, s: SessionState, t: SessionState)
    requires Answered(c, s) && t.login == s.login && t.stage == s.stage
    requires s.login.None? && s.stage == Closed ==> t.fromClient == s.fromClient && t.toClient == s.toClient
    ensures Answered(c, t)
  {
    hide Due;
  }

  lemma {:induction false} ReceiveStays(s: SessionState, i: nat, data: Bytes)
    requires i < |s.pending|
    ensures Receive(s, i, data).stage == s.stage && Receive(s, i, data).login == s.login
  {
    var t := Complete(s, i, s.pending[i].(status := Succeeded, arg := |data|));
    assert t.stage == s.stage && t.login == s.login;
    hide Overwrite, Complete;
  }

  lemma {:induction false} SendStays(s: SessionState, i: nat, n: nat)
    requires i < |s.pending|
    ensures Send(s, i, n).stage == s.stage && Send(s, i, n).login == s.login
  {
    var o := s.pending[i];
    var to := o.done + n;
    var t := Complete(s, i, o.(done := to, status := if to == WriteLength(s, o) then Succeeded else InFlight));
    assert t.stage == s.stage && t.login == s.login;
    hide Slice, Complete, WriteLength;
  }

  lemma {:induction false} TrafficAnswered(c: ServerConfig, s: SessionState, e: Event)
    requires Inv(c, s) && Answered(c, s) && Enabled(s, e) && (e.Arrive? || e.Deliver?)
    ensures Answered(c, Step(c, s, e))
  {
    hide Inv, Settled, SocketOpen, Receive, Send;
    if s.login.None? && s.stage == Closed {
      NoTraffic(c, s, e.i);
    } else if e.Arrive? {
      ReceiveStays(s, e.i, e.data);
    } else {
      SendStays(s, e.i, e.n);
    }
  }

  lemma {:induction false} DispatchAnswered(c: ServerConfig, s: SessionState, inline: bool)
    requires Answered(c, s)
    ensures Answered(c, DispatchEnd(s, inline))
  {
    hide Answered, CancelWaits;
    SameAnswered(c, s, DispatchEnd(s, inline));
  }

  lemma {:induction false} OtherAnswered(c: ServerConfig, s: SessionState, e: Event)
    requires Inv(c, s) && Answered(c, s) && Enabled(s, e) && !e.Run? && !e.Spawn?
    ensures Answered(c, Step(c, s, e))
  {
    hide Inv, Answered, Receive, Send, DispatchEnd;
    match e
    case Arrive(_, _) => TrafficAnswered(c, s, e);
    case Deliver(_, _) => TrafficAnswered(c, s, e);
    case CallEnd(inline) => DispatchAnswered(c, s, inline);
    case Connected(_) => SameAnswered(c, s, Step(c, s, e));
    case Expire(_) => SameAnswered(c, s, Step(c, s, e));
    case Fail(_) => SameAnswered(c, s, Step(c, s, e));
    case _ =>
  }

  lemma {:induction false} StepAnswered(c: ServerConfig, s: SessionState, e: Event)
    requires Inv(c, s) && Talk(c, s) && Answered(c, s) && Enabled(s, e) && !BreaksOff(s, e)
    ensures Answered(c, Step(c, s, e))
  {
    hide Inv, Talk, Answered, Handle, StartCoroutine;
    if e.Run? {
      RunAnswered(c, s, e.i, e.choice);
    } else if e.Spawn? {
      NothingReceived(c, s);
      SpawnAnswered(c, s, e.inline);
    } else {
      OtherAnswered(c, s, e);
    }
  }

  lemma {:induction false} SpawnAnswered(c: ServerConfig, s: SessionState, inline: bool)
    requires Enabled(s, Spawn(inline)) && s.fromClient == [] && s.toClient == []
    ensures Answered(c, Step(c, s, Spawn(inline)))
  {
    hide StartCoroutine, Due;
    StartAnswered(c, s.(stage := Spawned, sourceOpen := true));
  }

  lemma {:induction false} AfterAnswered(c: ServerConfig, s: SessionState, events: seq<Event>)
    requires Inv(c, s) && Talk(c, s) && Answered(c, s) && Possible(c, s, events) && Unbroken(c, s, events)
    ensures Answered(c, After(c, s, events))
    decreases |events|
  {
    if events != [] {
      hide Inv, Talk, Answered, BreaksOff;
      StepInv(c, s, events[0]);
      StepTalk(c, s, events[0]);
      StepAnswered(c, s, events[0]);
      AfterAnswered(c, Step(c, s, events[0]), events[1..]);
    }
  }

  /** When the coroutine of a client without a login is over, and was not thrown out of a
      read or write that failed, the client has been sent all the replies it is due. */
  lemma {:induction false} AllRepliesSent(c: ServerConfig, events: seq<Event>)
    requires Possible(c, NewSession(), events) && Unbroken(c, NewSession(), events)
    ensures var s := After(c, NewSession(), events);
      s.login.None? && s.stage == Closed ==> s.toClient == Due(c, s.fromClient)
  {
    NewSessionInv(c);
    assert Talk(c, NewSession()) && Answered(c, NewSession());
    hide Inv, Talk, Due;
    AfterAnswered(c, NewSession(), events);
  }
}
