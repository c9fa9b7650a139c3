/** What holds of a session at every moment of every run. */
module SessionInvariants {
  import opened Basics
  import opened VarInt
  import opened Protocol
  import opened Framing
  import opened Config
  import opened Reader
  import opened Outstanding
  import opened SessionMachine

  // ---- the invariant ----

  /** The stages with a coroutine or a connect under way. */
  ghost predicate HasControl(g: Stage) {
    g != Created && g != Relaying && g != Closed
  }

  function ControlKind(g: Stage): Kind {
    match g
    case Spawned => CoStart
    case StatusReply => CoWrite
    case PongReply => CoWrite
    case Connecting => Connect
    case _ => CoRead
  }

  /** The stages guarded by a deadline. */
  ghost predicate Armed(g: Stage) {
    HasControl(g) && g != Spawned
  }

  ghost predicate Flags(s: SessionState) {
    && |s.outgoing| == |s.incoming| == SESSION_BUFFER_SIZE
    && s.outWindow.lo <= s.outWindow.hi <= SESSION_BUFFER_SIZE
    && s.inWindow.lo <= s.inWindow.hi <= SESSION_BUFFER_SIZE
    && s.onClosed == !s.shutdownInitiated
    && s.erasesPosted == (if s.shutdownInitiated then 1 else 0)
    && (s.shutdownInitiated ==> !s.sourceOpen && (s.destOpen ==> s.stage == Connecting || s.stage == Closed))
    && (!s.shutdownInitiated && s.stage != Created ==> s.sourceOpen)
    && (!s.shutdownInitiated && (s.stage == Connecting || s.stage == Relaying) ==> s.destOpen)
  }

  /** At most one operation of each kind that must not overlap, and only where the
      session can have one. */
  ghost predicate Exclusive(s: SessionState) {
    var t := Tags(s.pending);
    && t[Control] <= (if HasControl(s.stage) then 1 else 0)
    && t[Up] <= (if s.stage == Relaying then 1 else 0)
    && t[Down] <= (if s.stage == Relaying then 1 else 0)
    && forall o :: o in s.pending && TagOf(o) == Control ==> o.kind == ControlKind(s.stage)
  }

  /** Waits carry distinct generations up to the current one; a wait of an earlier
      generation is no longer in flight, one of the current generation was not aborted. */
  ghost predicate Timers(s: SessionState) {
    && s.deadlineGeneration <= 4
    && (forall g :: Tags(s.pending)[Timer(g)] <= if g <= s.deadlineGeneration then 1 else 0)
    && (forall o :: o in s.pending && o.kind == Wait ==>
          (o.arg == s.deadlineGeneration ==> o.status != Failed)
          && (o.status == InFlight ==> o.arg == s.deadlineGeneration))
    && (s.stage == Created || s.stage == Spawned || s.stage == Relaying ==>
          Tags(s.pending)[Timer(s.deadlineGeneration)] == 0)
  }

  /** The bytes of a window. */
  function Undelivered(buffer: Bytes, w: Window): Bytes {
    if w.lo <= w.hi then Slice(buffer, w.lo, w.hi - w.lo) else []
  }

  /** Upstream goes the rewritten frame, then exactly what the client sent after its own
      frame; to the client goes exactly what came from upstream. What was read and not
      yet delivered is in the buffer. */
  ghost predicate Conserved(c: ServerConfig, s: SessionState, l: LoginFrame) {
    && l.used <= |s.fromClient|
    && Intercept(c, s.fromClient[..l.used]) == Login(l.used, l.handshake, l.wire)
    && s.toServer + Undelivered(s.outgoing, s.outWindow) == l.wire + s.fromClient[l.used..]
    && s.toClient + Undelivered(s.incoming, s.inWindow) == s.fromServer
  }

  ghost predicate Streams(c: ServerConfig, s: SessionState) {
    && s.frameStart <= |s.fromClient|
    && (s.stage == Connecting || s.stage == Relaying ==> s.login.Some?)
    && (s.login.Some? ==> s.stage == Connecting || s.stage == Relaying || s.stage == Closed)
    && (s.login.None? ==>
          s.toServer == [] && s.fromServer == [] && s.outWindow == Window(0, 0) && s.inWindow == Window(0, 0))
    && (s.stage == Created || s.stage == Spawned ==> s.fromClient == [])
    && (s.stage == Created || s.stage == Spawned || s.stage == Handshaking ==>
          s.toClient == [] && s.frameStart == 0)
    && (s.login.Some? ==> Conserved(c, s, s.login.value))
    && (s.stage == Connecting ==>
          && s.outWindow == Window(0, |s.login.value.wire|) && s.toServer == []
          && s.inWindow == Window(0, 0) && s.fromServer == [])
  }

  /** The coroutine needs more than `received` to go on. */
  ghost predicate Waiting(c: ServerConfig, s: SessionState, received: Bytes) {
    match s.stage
    case Handshaking => Intercept(c, Drop(received, s.frameStart)).Undecided?
    case StatusRequest => ScanFrame(Drop(received, s.frameStart), 1, 1).More?
    case Pinging => ScanFrame(Drop(received, s.frameStart), 9, 9).More?
    case _ => false
  }

  /** A window is what its operation says: a write in flight has its rest to deliver, a
      completed read has what it read, nothing else leaves anything. */
  ghost predicate WindowOk(o: Op, w: Window, read: bool) {
    if read then
      if o.status == Succeeded then w == Window(0, o.arg) && 1 <= o.arg <= SESSION_BUFFER_SIZE else w.lo == w.hi
    else
      && o.arg <= SESSION_BUFFER_SIZE
      && (o.status == InFlight ==> w == Window(o.done, o.arg) && o.done < o.arg)
      && (o.status == Succeeded ==> w.lo == w.hi)
  }

  ghost predicate OpOk(c: ServerConfig, s: SessionState, o: Op) {
    match o.kind
    case CoRead =>
      if o.status == Succeeded
      then s.frameStart < |s.fromClient| && Waiting(c, s, s.fromClient[..|s.fromClient| - 1])
      else Waiting(c, s, s.fromClient)
    case CoWrite => o.done <= |s.reply| && (o.status == InFlight ==> o.done < |s.reply|)
    case Connect => s.login.Some? && o.arg == |s.login.value.wire|
    case WriteDest => WindowOk(o, s.outWindow, false)
    case ReadSource => WindowOk(o, s.outWindow, true)
    case WriteSource => WindowOk(o, s.inWindow, false)
    case ReadDest => WindowOk(o, s.inWindow, true)
    case Wait => true
    case _ => o.status == Succeeded
  }

  ghost predicate Ops(c: ServerConfig, s: SessionState) {
    forall o :: o in s.pending ==> OpOk(c, s, o)
  }

  ghost predicate Core(c: ServerConfig, s: SessionState) {
    Flags(s) && Exclusive(s) && Timers(s) && Streams(c, s) && Ops(c, s)
  }

  /** Something is outstanding that takes the session on. */
  ghost predicate Alive(s: SessionState) {
    var t := Tags(s.pending);
    && (HasControl(s.stage) ==> t[Control] >= 1)
    && (!s.shutdownInitiated && s.stage == Relaying ==> t[Up] >= 1 && t[Down] >= 1)
    && (!s.shutdownInitiated && s.stage == Closed ==> t[Ending] >= 1)
    && (!s.shutdownInitiated && Armed(s.stage) ==> t[Timer(s.deadlineGeneration)] >= 1)
  }

  /** How often the generation was advanced, but for End. */
  function Advances(g: Stage): nat {
    match g
    case Created => 0
    case Spawned => 0
    case Connecting => 2
    case Relaying => 3
    case Closed => 3
    case _ => 1
  }

  ghost predicate Generation(s: SessionState) {
    var n := Advances(s.stage) + if s.shutdownInitiated then 1 else 0;
    if s.stage == Closed then s.deadlineGeneration <= n else s.deadlineGeneration == n
  }

  ghost predicate Inv(c: ServerConfig, s: SessionState) {
    Core(c, s) && Alive(s) && Generation(s)
  }

  // ---- what the building blocks of the handlers keep ----

  function Without(s: SessionState, i: nat): SessionState
    requires i < |s.pending|
  {
    s.(pending := Remove(s.pending, i))
  }

  /** Both have the same data in buffers, streams and coroutine. */
  ghost predicate SameData(s: SessionState, t: SessionState) {
    && s.outgoing == t.outgoing && s.incoming == t.incoming
    && s.stage == t.stage && s.frameStart == t.frameStart && s.reply == t.reply && s.login == t.login
    && s.fromClient == t.fromClient && s.toClient == t.toClient
    && s.fromServer == t.fromServer && s.toServer == t.toServer
    && s.outWindow == t.outWindow && s.inWindow == t.inWindow
  }

  lemma {:induction false} SameDataStreams(c: ServerConfig, s: SessionState, t: SessionState)
    requires SameData(s, t) && Streams(c, s)
    ensures Streams(c, t)
  {
    hide Intercept, Undelivered;
  }

  lemma {:induction false} SameDataOp(c: ServerConfig, s: SessionState, t: SessionState, o: Op)
    requires SameData(s, t) && OpOk(c, s, o)
    ensures OpOk(c, t, o)
  {
    hide Intercept, ScanFrame;
  }

  /** Operations that were there, or are no relay or coroutine operations. */
  lemma {:induction false} SameDataOps(c: ServerConfig, s: SessionState, t: SessionState)
    requires SameData(s, t) && Ops(c, s)
    requires forall o :: o in t.pending ==> o in s.pending || o.kind == Wait
    ensures Ops(c, t)
  {
    forall o | o in t.pending
      ensures OpOk(c, t, o)
    {
      if o in s.pending {
        SameDataOp(c, s, t, o);
      }
    }
  }

  lemma {:induction false} RemovedMembers(ops: seq<Op>, i: nat)
    requires i < |ops|
    ensures forall o :: o in Remove(ops, i) ==> o in ops
  {
    forall o | o in Remove(ops, i)
      ensures o in ops
    {
      assert o in ops[..i] || o in ops[i + 1..];
    }
  }

  lemma {:induction false} RemoveCore(c: ServerConfig, s: SessionState, i: nat)
    requires Core(c, s) && i < |s.pending|
    ensures Core(c, Without(s, i))
  {
    hide Tags, OpOk, Streams, Remove, Ops;
    TagsRemove(s.pending, i);
    RemovedMembers(s.pending, i);
    SameDataStreams(c, s, Without(s, i));
    SameDataOps(c, s, Without(s, i));
  }

  lemma {:induction false} CancelledMembers(ops: seq<Op>)
    ensures forall o :: o in CancelWaits(ops) && o.kind != Wait ==> o in ops
    ensures forall o :: o in CancelWaits(ops) && o.kind == Wait ==>
      o.status != InFlight && Timer(o.arg) in Tags(ops)
  {
    hide Tags;
    forall o | o in CancelWaits(ops)
      ensures o.kind != Wait ==> o in ops
      ensures o.kind == Wait ==> o.status != InFlight && Timer(o.arg) in Tags(ops)
    {
      var k :| 0 <= k < |ops| && CancelWaits(ops)[k] == o;
      assert ops[k] in ops;
      TagsMember(ops, Timer(o.arg));
    }
  }

  function Advanced(s: SessionState): SessionState {
    s.(deadlineGeneration := NextGeneration(s.deadlineGeneration), pending := CancelWaits(s.pending))
  }

  /** Advancing the generation and cancelling the timer, as End and the connect handler do. */
  lemma {:induction false} AdvanceCore(c: ServerConfig, s: SessionState)
    requires Core(c, s) && s.deadlineGeneration < 4
    ensures var t := Advanced(s);
      && Core(c, t)
      && t.deadlineGeneration == s.deadlineGeneration + 1
      && Tags(t.pending) == Tags(s.pending)
      && Tags(t.pending)[Timer(t.deadlineGeneration)] == 0
  {
    hide Tags, OpOk, Streams, Ops, CancelWaits;
    TagsCancel(s.pending);
    CancelledMembers(s.pending);
    SameDataStreams(c, s, Advanced(s));
    SameDataOps(c, s, Advanced(s));
  }

  lemma {:induction false} EndCore(c: ServerConfig, s: SessionState)
    requires Core(c, s) && (s.deadlineGeneration < 4 || s.shutdownInitiated)
    ensures Core(c, End(s)) && Tags(End(s).pending) == Tags(s.pending)
  {
    hide Tags, OpOk, Streams, Ops, CancelWaits;
    if !s.shutdownInitiated {
      AdvanceCore(c, s);
      SameDataStreams(c, s, End(s));
      SameDataOps(c, Advanced(s), End(s));
    }
  }

  lemma {:induction false} BeginCore(c: ServerConfig, s: SessionState, o: Op)
    requires Core(c, s) && OpOk(c, s, o) && o.kind != Wait
    requires TagOf(o) == Control ==>
      HasControl(s.stage) && o.kind == ControlKind(s.stage) && Tags(s.pending)[Control] == 0
    requires TagOf(o) == Up || TagOf(o) == Down ==> s.stage == Relaying && Tags(s.pending)[TagOf(o)] == 0
    ensures Core(c, Begin(s, o))
    ensures Tags(Begin(s, o).pending) == Tags(s.pending) + multiset{TagOf(o)}
  {
    hide Tags, OpOk, Streams;
    TagsAppend(s.pending, o);
    SameDataStreams(c, s, Begin(s, o));
    forall p | p in s.pending + [o]
      ensures OpOk(c, Begin(s, o), p)
    {
      assert p == o || p in s.pending;
      SameDataOp(c, s, Begin(s, o), p);
    }
  }

  lemma {:induction false} ArmCore(c: ServerConfig, s: SessionState)
    requires Core(c, s) && s.deadlineGeneration < 4 && Armed(s.stage)
    ensures Core(c, ArmDeadline(s))
    ensures ArmDeadline(s).deadlineGeneration == s.deadlineGeneration + 1
    ensures Tags(ArmDeadline(s).pending) == Tags(s.pending) + multiset{Timer(s.deadlineGeneration + 1)}
  {
    hide Tags, OpOk, Streams, Ops, CancelWaits;
    AdvanceCore(c, s);
    var t := Advanced(s);
    TagsAppend(t.pending, Op(Wait, InFlight, t.deadlineGeneration, 0));
    SameDataStreams(c, t, ArmDeadline(s));
    SameDataOps(c, t, ArmDeadline(s));
  }

  /** Only waits and calls of End are outstanding. */
  ghost predicate Quiet(s: SessionState) {
    forall o :: o in s.pending ==> o.kind == Wait || (o.kind == EndCall && o.status == Succeeded)
  }

  /** The coroutine is not writing. */
  ghost predicate NoWrite(s: SessionState) {
    forall o :: o in s.pending ==> o.kind != CoWrite
  }

  lemma {:induction false} QuietTags(c: ServerConfig, s: SessionState)
    requires Ops(c, s)
    requires Tags(s.pending)[Control] == Tags(s.pending)[Up] == Tags(s.pending)[Down] == 0
    ensures Quiet(s)
  {
    hide Tags;
    TagsMember(s.pending, Control);
    TagsMember(s.pending, Up);
    TagsMember(s.pending, Down);
    forall o | o in s.pending
      ensures o.kind == Wait || (o.kind == EndCall && o.status == Succeeded)
    {
      assert OpOk(c, s, o);
      assert TagOf(o) != Control && TagOf(o) != Up && TagOf(o) != Down;
    }
  }

  lemma {:induction false} QuietCore(c: ServerConfig, s: SessionState)
    requires Quiet(s) && Flags(s) && Timers(s) && Streams(c, s)
    ensures Core(c, s)
    ensures Tags(s.pending)[Control] == Tags(s.pending)[Up] == Tags(s.pending)[Down] == 0
  {
    hide Tags, Streams;
    TagsMember(s.pending, Control);
    TagsMember(s.pending, Up);
    TagsMember(s.pending, Down);
    assert forall o :: o in s.pending ==> OpOk(c, s, o);
  }

  lemma {:induction false} QuietCoreTags(c: ServerConfig, s: SessionState)
    requires Quiet(s)
    ensures Tags(s.pending)[Control] == Tags(s.pending)[Up] == Tags(s.pending)[Down] == 0
  {
    hide Tags;
    TagsMember(s.pending, Control);
    TagsMember(s.pending, Up);
    TagsMember(s.pending, Down);
  }

  /** Taking an operation out for its handler to run. */
  lemma {:induction false} TakeOut(c: ServerConfig, s: SessionState, i: nat)
    requires Inv(c, s) && i < |s.pending|
    ensures var o, t := s.pending[i], Without(s, i);
      && Core(c, t) && OpOk(c, t, o) && SameData(s, t)
      && Tags(s.pending) == Tags(t.pending) + multiset{TagOf(o)}
      && (TagOf(o) == Control ==> HasControl(s.stage) && o.kind == ControlKind(s.stage) && Quiet(t))
      && (TagOf(o) == Up || TagOf(o) == Down ==> s.stage == Relaying && Tags(t.pending)[TagOf(o)] == 0)
  {
    hide Tags, OpOk, Streams;
    var o, t := s.pending[i], Without(s, i);
    RemoveCore(c, s, i);
    TagsRemove(s.pending, i);
    assert o in s.pending;
    assert OpOk(c, s, o);
    SameDataOp(c, s, t, o);
    TagsMember(s.pending, TagOf(o));
    if TagOf(o) == Control {
      QuietTags(c, t);
    }
  }

  lemma {:induction false} EndCallOk(c: ServerConfig, s: SessionState)
    ensures OpOk(c, s, Op(EndCall, Succeeded, 0, 0))
  {
  }

  lemma {:induction false} FirstReadOk(c: ServerConfig, s: SessionState)
    requires s.stage == Handshaking && s.fromClient == [] && s.frameStart == 0
    ensures OpOk(c, s, Op(CoRead, InFlight, 0, 0))
  {
    hide Intercept;
    EmptyScan(c, 1, MAX_PACKET_BYTES);
  }

  lemma {:induction false} ConnectOk(c: ServerConfig, s: SessionState)
    requires s.login.Some?
    ensures OpOk(c, s, Op(Connect, InFlight, |s.login.value.wire|, 0))
  {
  }

  /** The generation leaves room for one more advance unless the session is shut down. */
  ghost predicate Room(s: SessionState) {
    s.deadlineGeneration <= if s.shutdownInitiated then 4 else 3
  }

  // ---- the handlers ----

  lemma {:induction false} CloseCore(c: ServerConfig, s: SessionState)
    requires Core(c, s) && Quiet(s) && !(s.stage == Created || s.stage == Spawned)
    ensures Core(c, s.(stage := Closed)) && Quiet(s.(stage := Closed))
  {
    hide Tags, OpOk, Ops, Undelivered, Intercept;
    QuietCore(c, s.(stage := Closed));
  }

  lemma {:induction false} FinishInv(c: ServerConfig, s: SessionState)
    requires Core(c, s) && Quiet(s) && Room(s) && !(s.stage == Created || s.stage == Spawned)
    ensures Inv(c, Finish(s))
  {
    hide Core, CancelWaits, Tags, Quiet;
    CloseCore(c, s);
    EndCore(c, s.(stage := Closed));
  }

  lemma {:induction false} ThrowInv(c: ServerConfig, s: SessionState, inline: bool)
    requires Core(c, s) && Quiet(s) && Room(s) && !(s.stage == Created || s.stage == Spawned)
    ensures Inv(c, Throw(s, inline))
  {
    hide Core, Inv, Quiet, Room, Finish, End, Begin;
    if inline {
      FinishInv(c, s);
      FinishIsEnd(s);
    } else {
      ThrowQueuedInv(c, s);
    }
  }

  lemma {:induction false} FinishIsEnd(s: SessionState)
    ensures Finish(s) == End(s.(stage := Closed))
  {
    hide End;
  }

  lemma {:induction false} ThrowQueuedInv(c: ServerConfig, s: SessionState)
    requires Core(c, s) && Quiet(s) && Room(s) && !(s.stage == Created || s.stage == Spawned)
    ensures Inv(c, Begin(s.(stage := Closed), Op(EndCall, Succeeded, 0, 0)))
  {
    hide Core, Tags, OpOk, Quiet;
    CloseCore(c, s);
    EndCallOk(c, s.(stage := Closed));
    BeginCore(c, s.(stage := Closed), Op(EndCall, Succeeded, 0, 0));
  }

  lemma {:induction false} LeaveInv(c: ServerConfig, s: SessionState, thrown: bool, inline: bool)
    requires Core(c, s) && Quiet(s) && Room(s) && !(s.stage == Created || s.stage == Spawned)
    ensures Inv(c, Leave(s, thrown, inline))
  {
    hide Throw, Finish, Core, Inv, Room, Quiet;
    if thrown {
      ThrowInv(c, s, inline);
    } else {
      FinishInv(c, s);
    }
  }

  /** The coroutine goes on to its next read or write. */
  lemma {:induction false} AwaitInv(c: ServerConfig, s: SessionState, o: Op)
    requires Quiet(s) && Flags(s) && Timers(s) && Streams(c, s) && Generation(s)
    requires Armed(s.stage) && s.stage != Connecting
    requires !s.shutdownInitiated ==> Tags(s.pending)[Timer(s.deadlineGeneration)] >= 1
    requires o.kind == ControlKind(s.stage) && OpOk(c, s, o)
    ensures Inv(c, Begin(s, o))
  {
    hide Tags, OpOk, Ops, Streams;
    QuietCore(c, s);
    BeginCore(c, s, o);
  }

  lemma {:induction false} EmptyScan(c: ServerConfig, lo: nat, hi: nat)
    ensures ScanFrame([], lo, hi).More? && Intercept(c, []).Undecided?
  {
  }

  lemma {:induction false} BeginHandshake(c: ServerConfig, s: SessionState)
    requires Core(c, s) && Quiet(s) && s.stage == Spawned
    ensures Core(c, s.(stage := Handshaking)) && Core(c, s.(stage := Closed))
    ensures s.fromClient == [] && s.frameStart == 0
    ensures Tags(s.pending)[Control] == Tags(s.pending)[Up] == Tags(s.pending)[Down] == 0
  {
    hide Tags, OpOk, Ops, Conserved, Intercept;
    QuietCore(c, s.(stage := Handshaking));
    QuietCore(c, s.(stage := Closed));
  }

  lemma {:induction false} StartCoroutineInv(c: ServerConfig, s: SessionState)
    requires Core(c, s) && Quiet(s) && s.stage == Spawned && Generation(s)
    ensures Inv(c, StartCoroutine(s))
  {
    hide Core, Tags, OpOk, CancelWaits;
    BeginHandshake(c, s);
    if !s.shutdownInitiated {
      var t := s.(stage := Handshaking);
      ArmCore(c, t);
      FirstReadOk(c, ArmDeadline(t));
      BeginCore(c, ArmDeadline(t), Op(CoRead, InFlight, 0, 0));
    }
  }

  /** What the coroutine knows when it resumes with its latest byte. */
  ghost predicate Resumable(c: ServerConfig, s: SessionState) {
    && s.frameStart < |s.fromClient|
    && Waiting(c, s, s.fromClient[..|s.fromClient| - 1])
  }

  /** The last byte decided: the login frame is all that was read. */
  lemma {:induction false} DecidedNow(c: ServerConfig, s: SessionState)
    requires s.stage == Handshaking && s.frameStart == 0 && Resumable(c, s)
    requires Intercept(c, CurrentFrame(s)).Login?
    ensures Intercept(c, CurrentFrame(s)).used == |s.fromClient|
    ensures CurrentFrame(s) == s.fromClient
  {
    hide Intercept;
    var n := |s.fromClient|;
    assert Drop(s.fromClient, 0) == s.fromClient;
    assert Drop(s.fromClient[..n - 1], 0) == s.fromClient[..n - 1];
    InterceptIsOnline(c, s.fromClient, n - 1);
  }

  lemma {:induction false} StoredConserved(c: ServerConfig, s: SessionState, h: Handshake, wire: Bytes)
    requires Core(c, s) && s.stage == Handshaking
    requires |wire| <= |s.outgoing| && Intercept(c, s.fromClient) == Login(|s.fromClient|, h, wire)
    ensures var t := Stored(s, |s.fromClient|, h, wire);
      Flags(t) && Timers(t) && Streams(c, t)
  {
    hide Intercept, Tags, Ops;
    assert s.fromClient[..|s.fromClient|] == s.fromClient;
    assert Overwrite(s.outgoing, 0, wire)[0..0 + |wire|] == wire;
  }

  lemma {:induction false} StartConnectInv(c: ServerConfig, s: SessionState, h: Handshake, wire: Bytes)
    requires Core(c, s) && Quiet(s) && s.stage == Handshaking && Generation(s)
    requires !s.shutdownInitiated ==> Tags(s.pending)[Timer(s.deadlineGeneration)] >= 1
    requires |wire| <= |s.outgoing| && Intercept(c, s.fromClient) == Login(|s.fromClient|, h, wire)
    ensures Inv(c, StartConnect(s, |s.fromClient|, h, wire))
  {
    hide Core, Tags, OpOk, CancelWaits, Overwrite, Intercept, Streams, Flags, Timers;
    var t := Stored(s, |s.fromClient|, h, wire);
    StoredConserved(c, s, h, wire);
    QuietCore(c, t);
    ArmCore(c, t);
    ConnectOk(c, ArmDeadline(t));
    BeginCore(c, ArmDeadline(t), Op(Connect, InFlight, |wire|, 0));
  }

  lemma {:induction false} LoginStored(c: ServerConfig, s: SessionState)
    requires |s.outgoing| == 4096
    ensures var v := Intercept(c, CurrentFrame(s)); v.Login? ==> |v.wire| <= |s.outgoing|
  {
    hide Intercept, CurrentFrame;
    var v := Intercept(c, CurrentFrame(s));
    if v.Login? {
      LoginRewritten(c, CurrentFrame(s), v.used, v.handshake, []);
    }
  }

  lemma {:induction false} SameFrame(s: SessionState, t: SessionState)
    requires t.fromClient == s.fromClient && t.frameStart == s.frameStart
    ensures CurrentFrame(t) == CurrentFrame(s)
  {
  }

  /** A session between two steps of its coroutine. */
  ghost predicate Paused(c: ServerConfig, s: SessionState) {
    && Core(c, s) && Quiet(s) && Generation(s)
    && Armed(s.stage) && s.stage != Connecting
    && (!s.shutdownInitiated ==> Tags(s.pending)[Timer(s.deadlineGeneration)] >= 1)
  }

  lemma {:induction false} NextByte(c: ServerConfig, s: SessionState)
    requires Paused(c, s) && Waiting(c, s, s.fromClient)
    ensures Inv(c, AwaitByte(s))
  {
    hide Tags, Intercept, ScanFrame, Streams, Flags, Timers, Ops;
    AwaitInv(c, s, Op(CoRead, InFlight, 0, 0));
  }

  lemma {:induction false} NextFrame(c: ServerConfig, s: SessionState, stage: Stage)
    requires Paused(c, s) && (stage == StatusRequest || stage == Pinging)
    ensures Inv(c, AwaitByte(s.(stage := stage, frameStart := |s.fromClient|)))
  {
    var t := s.(stage := stage, frameStart := |s.fromClient|);
    assert Waiting(c, t, t.fromClient) by {
      EmptyScan(c, 1, 1);
      EmptyScan(c, 9, 9);
    }
    hide Tags, Waiting, Conserved;
    AwaitInv(c, t, Op(CoRead, InFlight, 0, 0));
  }

  lemma {:induction false} NextWrite(c: ServerConfig, s: SessionState, stage: Stage, reply: Bytes)
    requires Paused(c, s) && (stage == StatusReply || stage == PongReply) && reply != []
    ensures Inv(c, AwaitWrite(s.(stage := stage), reply))
  {
    hide Tags, Conserved;
    AwaitInv(c, s.(stage := stage, reply := reply), Op(CoWrite, InFlight, 0, 0));
  }

  lemma {:induction false} LeavePaused(c: ServerConfig, s: SessionState, thrown: bool, inline: bool)
    requires Paused(c, s)
    ensures Inv(c, Leave(s, thrown, inline))
  {
    hide Core, Quiet, Inv, Leave;
    LeaveInv(c, s, thrown, inline);
  }

  lemma {:induction false} ResumeHandshake(c: ServerConfig, s: SessionState, inline: bool)
    requires Paused(c, s) && s.stage == Handshaking && Resumable(c, s) && s.frameStart == 0
    ensures Inv(c, ResumeRead(c, s, inline))
  {
    hide Inv, Intercept, Leave, StartConnect, AwaitByte, Throw, Core, Quiet;
    match Intercept(c, CurrentFrame(s))
    case Undecided =>
      NextByte(c, s);
    case Refused(_, thrown) =>
      LeavePaused(c, s, thrown, inline);
    case StatusClient(_) =>
      NextFrame(c, s, StatusRequest);
    case Login(used, h, wire) =>
      DecidedNow(c, s);
      if |wire| > |s.outgoing| {
        ThrowPaused(c, s, inline);
      } else {
        StartConnectInv(c, s, h, wire);
      }
  }

  lemma {:induction false} ThrowPaused(c: ServerConfig, s: SessionState, inline: bool)
    requires Paused(c, s)
    ensures Inv(c, Throw(s, inline))
  {
    hide Core, Quiet, Inv, Throw;
    ThrowInv(c, s, inline);
  }

  lemma {:induction false} FinishPaused(c: ServerConfig, s: SessionState)
    requires Paused(c, s)
    ensures Inv(c, Finish(s))
  {
    hide Core, Quiet, Inv, Finish;
    FinishInv(c, s);
  }

  lemma {:induction false} ResumeStatus(c: ServerConfig, s: SessionState, inline: bool)
    requires Paused(c, s) && (s.stage == StatusRequest || s.stage == Pinging)
    ensures Inv(c, ResumeRead(c, s, inline))
  {
    hide Inv, Intercept, ScanFrame, Leave, AwaitByte, AwaitWrite, Throw, Finish, Core, Quiet, Frame;
    var request := s.stage == StatusRequest;
    var n := if request then 1 else 9;
    match ScanFrame(CurrentFrame(s), n, n)
    case More =>
      NextByte(c, s);
    case Reject(_, thrown) =>
      LeavePaused(c, s, thrown, inline);
    case Body(_, body) =>
      if body[0] != (if request then 0 else 1) {
        FinishPaused(c, s);
      } else {
        FrameNotEmpty(Encode(0) + Encode(|c.statusJson|) + c.statusJson);
        FrameNotEmpty(body);
        NextWrite(c, s, if request then StatusReply else PongReply,
                  if request then StatusResponse(c) else Frame(body));
      }
  }

  lemma {:induction false} ResumeWriteInv(c: ServerConfig, s: SessionState)
    requires Paused(c, s) && (s.stage == StatusReply || s.stage == PongReply)
    ensures Inv(c, ResumeWrite(s))
  {
    hide Inv, AwaitByte, Finish, Core, Quiet;
    if s.stage == StatusReply {
      NextFrame(c, s, Pinging);
    } else {
      FinishPaused(c, s);
    }
  }

  // ---- connecting and relaying ----

  lemma {:induction false} WireFits(c: ServerConfig, s: SessionState)
    requires Core(c, s) && s.login.Some?
    ensures 1 <= |s.login.value.wire| <= SESSION_BUFFER_SIZE
  {
    hide Intercept, ScanFrame, Parse, Tags, Ops;
    var l := s.login.value;
    LoginRewritten(c, s.fromClient[..l.used], l.used, l.handshake, []);
  }

  /** The relay starts with the stored packet still to deliver. */
  lemma {:induction false} BeginRelay(c: ServerConfig, s: SessionState)
    requires Core(c, s) && Quiet(s) && s.stage == Connecting && !s.shutdownInitiated
    requires Tags(s.pending)[Timer(s.deadlineGeneration)] == 0
    ensures Core(c, s.(stage := Relaying)) && Quiet(s.(stage := Relaying))
    ensures var n := |s.login.value.wire|;
      && OpOk(c, s.(stage := Relaying), Op(WriteDest, InFlight, n, 0))
      && OpOk(c, s.(stage := Relaying), Op(ReadDest, InFlight, 0, 0))
  {
    hide Intercept, Tags, Undelivered;
    WireFits(c, s);
    QuietCore(c, s.(stage := Relaying));
  }

  lemma {:induction false} RelayInv(c: ServerConfig, s: SessionState, length: nat)
    requires Core(c, s) && Quiet(s) && s.stage == Connecting && !s.shutdownInitiated
    requires s.deadlineGeneration == 3 && Tags(s.pending)[Timer(s.deadlineGeneration)] == 0
    requires length == |s.login.value.wire|
    ensures Inv(c, StartRelay(StartRelay(s.(stage := Relaying), WriteDest, length), ReadDest, 0))
  {
    hide Core, Tags, OpOk;
    BeginRelay(c, s);
    var t := s.(stage := Relaying);
    var w, r := Op(WriteDest, InFlight, length, 0), Op(ReadDest, InFlight, 0, 0);
    QuietCoreTags(c, t);
    BeginCore(c, t, w);
    SameDataOp(c, t, Begin(t, w), r);
    BeginCore(c, Begin(t, w), r);
  }

  lemma {:induction false} OnConnectInv(c: ServerConfig, s: SessionState, ok: bool, length: nat, optionsSet: bool)
    requires Core(c, s) && Quiet(s) && Generation(s) && s.stage == Connecting
    requires s.login.Some? && length == |s.login.value.wire|
    ensures Inv(c, OnConnect(s, ok, length, optionsSet))
  {
    hide Core, Tags, OpOk, CancelWaits, StartRelay, End, Inv;
    AdvanceCore(c, s);
    var t := Advanced(s);
    assert Quiet(t) by {
      QuietCoreTags(c, s);
      CoreOps(c, t);
      QuietTags(c, t);
    }
    if t.shutdownInitiated {
      CloseCore(c, t);
      ClosedInv(c, t.(stage := Closed));
    } else if !ok || !optionsSet {
      FinishInv(c, t);
      FinishIsEnd(t);
    } else {
      RelayInv(c, t, length);
    }
  }

  lemma {:induction false} CoreOps(c: ServerConfig, s: SessionState)
    requires Core(c, s)
    ensures Ops(c, s)
  {
  }

  lemma {:induction false} ClosedInv(c: ServerConfig, s: SessionState)
    requires Core(c, s) && s.stage == Closed && s.shutdownInitiated && s.deadlineGeneration <= 4
    ensures Inv(c, s)
  {
    hide Core;
  }

  /** A relay operation was handled: its direction has none outstanding. */
  lemma {:induction false} OnRelayInv(c: ServerConfig, s: SessionState, ok: bool, next: Kind, length: nat)
    requires Core(c, s) && Generation(s) && s.stage == Relaying
    requires var o := Op(next, InFlight, length, 0);
      && (TagOf(o) == Up || TagOf(o) == Down) && Tags(s.pending)[TagOf(o)] == 0
      && (ok ==> OpOk(c, s, o))
    requires !s.shutdownInitiated ==> Tags(s.pending)[Up] >= 1 || Tags(s.pending)[Down] >= 1
    ensures Inv(c, OnRelay(s, ok, next, length))
  {
    hide Core, Tags, OpOk, CancelWaits;
    if !ok {
      EndCore(c, s);
    } else if !s.shutdownInitiated {
      BeginCore(c, s, Op(next, InFlight, length, 0));
    }
  }

  lemma {:induction false} EndInv(c: ServerConfig, s: SessionState)
    requires Core(c, s) && Generation(s) && (HasControl(s.stage) ==> Tags(s.pending)[Control] >= 1)
    requires s.shutdownInitiated || s.stage != Closed || s.deadlineGeneration <= 3
    ensures Inv(c, End(s))
  {
    hide Core, Tags, CancelWaits;
    EndCore(c, s);
  }

  /** The operation that alternates with a completed one of the relay. */
  function Alternate(o: Op): Op {
    match o.kind
    case ReadSource => Op(WriteDest, InFlight, o.arg, 0)
    case WriteDest => Op(ReadSource, InFlight, 0, 0)
    case ReadDest => Op(WriteSource, InFlight, o.arg, 0)
    case _ => Op(ReadDest, InFlight, 0, 0)
  }

  lemma {:induction false} AlternateOk(c: ServerConfig, s: SessionState, o: Op)
    requires (TagOf(o) == Up || TagOf(o) == Down) && o.status == Succeeded && OpOk(c, s, o)
    ensures OpOk(c, s, Alternate(o)) && TagOf(Alternate(o)) == TagOf(o)
  {
  }

  /** `o` was taken out of a session, and its handler may run. */
  ghost predicate Taken(c: ServerConfig, t: SessionState, o: Op) {
    && Core(c, t) && Generation(t) && OpOk(c, t, o)
    && (TagOf(o) == Control ==> HasControl(t.stage) && o.kind == ControlKind(t.stage) && Quiet(t))
    && (TagOf(o) == Control && o.kind != CoStart && o.kind != Connect ==> Paused(c, t))
    && (TagOf(o) == Up || TagOf(o) == Down ==>
          && t.stage == Relaying && Tags(t.pending)[TagOf(o)] == 0
          && (!t.shutdownInitiated ==> Tags(t.pending)[Up] >= 1 || Tags(t.pending)[Down] >= 1))
    && (o.kind == Wait ==> AliveBut(t, o.arg == t.deadlineGeneration))
    && (o.kind == EndCall ==> HasControl(t.stage) ==> Tags(t.pending)[Control] >= 1)
  }

  /** Alive, except perhaps for the wait of the current generation. */
  ghost predicate AliveBut(t: SessionState, current: bool) {
    && (!current ==> Alive(t))
    && (HasControl(t.stage) ==> Tags(t.pending)[Control] >= 1)
  }

  lemma {:induction false} TakenOut(c: ServerConfig, s: SessionState, i: nat)
    requires i < |s.pending| && Inv(c, s)
    ensures Taken(c, Without(s, i), s.pending[i])
  {
    hide Core, Tags, OpOk, Remove, Quiet;
    TakeOut(c, s, i);
  }

  lemma {:induction false} HandleRelay(c: ServerConfig, t: SessionState, o: Op, choice: bool)
    requires TagOf(o) == Up || TagOf(o) == Down
    requires Taken(c, t, o)
    ensures Inv(c, Handle(c, t, o, choice))
  {
    hide Inv, Core, Generation, Tags, OpOk, OnRelay, Paused, Quiet, AliveBut;
    if o.status == Succeeded {
      AlternateOk(c, t, o);
    }
    OnRelayInv(c, t, o.status == Succeeded, Alternate(o).kind, Alternate(o).arg);
  }

  lemma {:induction false} HandleConnect(c: ServerConfig, t: SessionState, o: Op, choice: bool)
    requires o.kind == Connect
    requires Taken(c, t, o)
    ensures Inv(c, Handle(c, t, o, choice))
  {
    hide Inv, Core, Generation, Tags, OnConnect, Paused, Quiet, AliveBut;
    OnConnectInv(c, t, o.status == Succeeded, o.arg, choice);
  }

  lemma {:induction false} ReadResumable(c: ServerConfig, s: SessionState, o: Op)
    requires o.kind == CoRead && o.status == Succeeded
    requires Core(c, s) && OpOk(c, s, o)
    ensures Resumable(c, s)
    ensures s.stage == Handshaking ==> s.frameStart == 0
    ensures s.stage == Handshaking || s.stage == StatusRequest || s.stage == Pinging
  {
    hide Intercept, ScanFrame, Flags, Exclusive, Timers, Ops, Conserved;
  }

  lemma {:induction false} HandleCoroutine(c: ServerConfig, t: SessionState, o: Op, choice: bool)
    requires o.kind == CoStart || o.kind == CoRead || o.kind == CoWrite
    requires Taken(c, t, o)
    ensures Inv(c, Handle(c, t, o, choice))
  {
    hide Inv, Core, Generation, Tags, OpOk, Paused, Quiet, AliveBut,
         Resumable, StartCoroutine, Throw, ResumeWrite, ResumeRead;
    if o.kind == CoStart {
      StartCoroutineInv(c, t);
    } else if o.status != Succeeded {
      ThrowPaused(c, t, choice);
    } else if o.kind == CoWrite {
      ResumeWriteInv(c, t);
    } else {
      ReadResumable(c, t, o);
      if t.stage == Handshaking {
        ResumeHandshake(c, t, choice);
      } else {
        ResumeStatus(c, t, choice);
      }
    }
  }

  lemma {:induction false} HandleOther(c: ServerConfig, t: SessionState, o: Op, choice: bool)
    requires o.kind == Wait || o.kind == EndCall
    requires Taken(c, t, o)
    ensures o.status == Succeeded || o.arg != t.deadlineGeneration ==> Inv(c, Handle(c, t, o, choice))
  {
    hide Core, Tags, OpOk, Quiet, Paused, CancelWaits;
    if o.kind == EndCall || o.arg == t.deadlineGeneration {
      EndInv(c, t);
    }
  }

  lemma {:induction false} RunInv(c: ServerConfig, s: SessionState, i: nat, choice: bool)
    requires i < |s.pending| && s.pending[i].status != InFlight
    requires Inv(c, s)
    ensures Inv(c, Handle(c, Without(s, i), s.pending[i], choice))
  {
    var o, t := s.pending[i], Without(s, i);
    assert o.kind == Wait ==> o.status == Succeeded || o.arg != t.deadlineGeneration by {
      hide Tags, Remove, Flags, Exclusive, Streams, Ops, Alive;
      assert o in s.pending;
    }
    hide Inv, Taken, Handle, Remove;
    TakenOut(c, s, i);
    match o.kind
    case CoStart => HandleCoroutine(c, t, o, choice);
    case CoRead => HandleCoroutine(c, t, o, choice);
    case CoWrite => HandleCoroutine(c, t, o, choice);
    case Connect => HandleConnect(c, t, o, choice);
    case Wait => HandleOther(c, t, o, choice);
    case EndCall => EndCallInv(c, t, o, choice);
    case _ => HandleRelay(c, t, o, choice);
  }

  lemma {:induction false} EndCallInv(c: ServerConfig, t: SessionState, o: Op, choice: bool)
    requires o.kind == EndCall && Taken(c, t, o)
    ensures Inv(c, Handle(c, t, o, choice))
  {
    hide Core, Tags, Quiet, Paused, CancelWaits, Inv;
    HandleOther(c, t, o, choice);
  }

  // ---- the environment ----

  /** An operation changed its status, and perhaps the data it works on. */
  lemma {:induction false} ReplaceInv(c: ServerConfig, s: SessionState, t: SessionState, i: nat, o: Op)
    requires i < |s.pending| && Inv(c, s)
    requires t.pending == s.pending[i := o] && TagOf(o) == TagOf(s.pending[i]) && o.kind == s.pending[i].kind
    requires t.stage == s.stage && t.shutdownInitiated == s.shutdownInitiated
    requires t.deadlineGeneration == s.deadlineGeneration
    requires o.kind == Wait ==> o.status == Succeeded
    requires Flags(t) && Streams(c, t) && OpOk(c, t, o)
    requires forall p :: p in s.pending && TagOf(p) != TagOf(o) ==> OpOk(c, t, p)
    requires TagOf(o) != Ending
    ensures Inv(c, t)
  {
    hide OpOk, Streams, Flags, Tags;
    ReplacedMembers(s, i, o);
    assert s.pending[i] in s.pending;
    TagsReplace(s.pending, i, o);
  }

  lemma {:induction false} ReplacedMembers(s: SessionState, i: nat, o: Op)
    requires i < |s.pending| && TagOf(o) == TagOf(s.pending[i]) && TagOf(o) != Ending
    requires Exclusive(s) && Timers(s)
    ensures forall p :: p in s.pending[i := o] ==> p == o || (p in s.pending && TagOf(p) != TagOf(o))
  {
    hide Tags;
    assert Tags(s.pending)[TagOf(o)] <= 1 by {
      match TagOf(o)
      case Timer(g) => assert Tags(s.pending)[Timer(g)] <= 1;
      case _ =>
    }
    OnlyOne(s.pending, i);
    forall p | p in s.pending[i := o]
      ensures p == o || (p in s.pending && TagOf(p) != TagOf(o))
    {
      var k :| 0 <= k < |s.pending| && s.pending[i := o][k] == p;
      if k != i {
        assert s.pending[k] in s.pending;
      }
    }
  }

  lemma {:induction false} StatusInv(c: ServerConfig, s: SessionState, t: SessionState, i: nat, o: Op)
    requires i < |s.pending| && Inv(c, s)
    requires t.pending == s.pending[i := o] && TagOf(o) == TagOf(s.pending[i]) && o.kind == s.pending[i].kind
    requires t.shutdownInitiated == s.shutdownInitiated && t.deadlineGeneration == s.deadlineGeneration
    requires o.kind == Wait ==> o.status == Succeeded
    requires SameData(s, t) && Flags(t) && OpOk(c, s, o) && TagOf(o) != Ending
    ensures Inv(c, t)
  {
    hide OpOk, Streams, Flags, Tags, Exclusive, Timers, Alive, Generation;
    SameDataStreams(c, s, t);
    SameDataOp(c, s, t, o);
    forall p | p in s.pending
      ensures OpOk(c, t, p)
    {
      SameDataOp(c, s, t, p);
    }
    hide Inv, SameData;
    ReplaceInv(c, s, t, i, o);
  }

  /** The operations beside the coroutine's or the relay's. */
  lemma {:induction false} Others(c: ServerConfig, s: SessionState, i: nat)
    requires i < |s.pending| && Inv(c, s)
    requires TagOf(s.pending[i]) == Control || TagOf(s.pending[i]) == Up || TagOf(s.pending[i]) == Down
    ensures forall o :: o in s.pending && TagOf(o) != TagOf(s.pending[i]) ==>
      TagOf(o) != Control && (TagOf(s.pending[i]) == Control ==> TagOf(o) != Up && TagOf(o) != Down)
    ensures TagOf(s.pending[i]) == Control ==> s.pending[i].kind == ControlKind(s.stage)
    ensures TagOf(s.pending[i]) != Control ==> s.stage == Relaying
    ensures OpOk(c, s, s.pending[i]) && Streams(c, s) && Flags(s)
  {
    hide Tags, OpOk, Streams, Flags;
    TagsMember(s.pending, Control);
    TagsMember(s.pending, Up);
    TagsMember(s.pending, Down);
    assert s.pending[i] in s.pending;
  }

  lemma {:induction false} OtherOpOk(c: ServerConfig, s: SessionState, t: SessionState, o: Op)
    requires OpOk(c, s, o) && TagOf(o) != Control
    requires TagOf(o) == Up ==> s.outWindow == t.outWindow
    requires TagOf(o) == Down ==> s.inWindow == t.inWindow
    ensures OpOk(c, t, o)
  {
  }

  lemma {:induction false} OtherOpsOk(c: ServerConfig, s: SessionState, t: SessionState, i: nat)
    requires i < |s.pending| && Inv(c, s)
    requires TagOf(s.pending[i]) == Control || TagOf(s.pending[i]) == Up || TagOf(s.pending[i]) == Down
    requires TagOf(s.pending[i]) == Up ==> s.inWindow == t.inWindow
    requires TagOf(s.pending[i]) == Down ==> s.outWindow == t.outWindow
    ensures forall p :: p in s.pending && TagOf(p) != TagOf(s.pending[i]) ==> OpOk(c, t, p)
  {
    hide OpOk, Tags, Streams, Flags, Exclusive, Timers, Alive, Generation;
    Others(c, s, i);
    forall p | p in s.pending && TagOf(p) != TagOf(s.pending[i])
      ensures OpOk(c, t, p)
    {
      OtherOpOk(c, s, t, p);
    }
  }

  lemma {:induction false} ReceiveByteOk(c: ServerConfig, s: SessionState, i: nat, o: Op, data: Bytes)
    requires o.kind == CoRead && |data| == 1 && o.status == InFlight && OpOk(c, s, o)
    requires o.kind == ControlKind(s.stage)
    requires Flags(s) && Streams(c, s)
    ensures var t := s.(fromClient := s.fromClient + data);
      OpOk(c, t, o.(status := Succeeded, arg := |data|)) && Flags(t) && Streams(c, t)
  {
    hide Conserved, Intercept, ScanFrame;
    var t := s.(fromClient := s.fromClient + data);
    assert t.fromClient[..|t.fromClient| - 1] == s.fromClient;
  }

  lemma {:induction false} EmptyWindow(buffer: Bytes, w: Window)
    requires w.lo == w.hi
    ensures Undelivered(buffer, w) == []
  {
  }

  lemma {:induction false} OverwriteWindow(buffer: Bytes, data: Bytes)
    requires |data| <= |buffer|
    ensures Undelivered(Overwrite(buffer, 0, data), Window(0, |data|)) == data
  {
    assert Overwrite(buffer, 0, data)[0..0 + |data|] == data;
  }

  lemma {:induction false} StreamGrows(s: Bytes, n: nat, data: Bytes)
    requires n <= |s|
    ensures (s + data)[..n] == s[..n] && (s + data)[n..] == s[n..] + data
  {
  }

  lemma {:induction false} ReceiveConserved(c: ServerConfig, s: SessionState, l: LoginFrame, data: Bytes)
    requires |s.outgoing| == SESSION_BUFFER_SIZE && 1 <= |data| <= SESSION_BUFFER_SIZE
    requires Conserved(c, s, l) && Undelivered(s.outgoing, s.outWindow) == []
    ensures Conserved(c, s.(fromClient := s.fromClient + data, outgoing := Overwrite(s.outgoing, 0, data),
                            outWindow := Window(0, |data|)), l)
  {
    hide Intercept, Overwrite, Undelivered;
    StreamGrows(s.fromClient, l.used, data);
    OverwriteWindow(s.outgoing, data);
    assert l.wire + (s.fromClient[l.used..] + data) == (l.wire + s.fromClient[l.used..]) + data;
  }

  lemma {:induction false} ReceiveSourceOk(c: ServerConfig, s: SessionState, o: Op, data: Bytes)
    requires o.kind == ReadSource && o.status == InFlight && OpOk(c, s, o)
    requires 1 <= |data| <= SESSION_BUFFER_SIZE && s.stage == Relaying
    requires Flags(s) && Streams(c, s)
    ensures var t := s.(fromClient := s.fromClient + data, outgoing := Overwrite(s.outgoing, 0, data),
                        outWindow := Window(0, |data|));
      OpOk(c, t, o.(status := Succeeded, arg := |data|)) && Flags(t) && Streams(c, t)
  {
    hide Conserved, Undelivered, Overwrite;
    EmptyWindow(s.outgoing, s.outWindow);
    ReceiveConserved(c, s, s.login.value, data);
  }

  lemma {:induction false} ReceiveDestOk(c: ServerConfig, s: SessionState, o: Op, data: Bytes)
    requires o.kind == ReadDest && o.status == InFlight && OpOk(c, s, o)
    requires 1 <= |data| <= SESSION_BUFFER_SIZE && s.stage == Relaying
    requires Flags(s) && Streams(c, s)
    ensures var t := s.(fromServer := s.fromServer + data, incoming := Overwrite(s.incoming, 0, data),
                        inWindow := Window(0, |data|));
      OpOk(c, t, o.(status := Succeeded, arg := |data|)) && Flags(t) && Streams(c, t)
  {
    hide Intercept, Undelivered, Overwrite;
    EmptyWindow(s.incoming, s.inWindow);
    OverwriteWindow(s.incoming, data);
  }

  /** An operation moved data: `u` is the session with the data moved. */
  lemma {:induction false} MovedInv(c: ServerConfig, s: SessionState, u: SessionState, i: nat, o: Op)
    requires i < |s.pending| && Inv(c, s)
    requires TagOf(o) == TagOf(s.pending[i]) && o.kind == s.pending[i].kind
    requires TagOf(o) == Control || TagOf(o) == Up || TagOf(o) == Down
    requires TagOf(o) == Up ==> s.inWindow == u.inWindow
    requires TagOf(o) == Down ==> s.outWindow == u.outWindow
    requires u.stage == s.stage && u.shutdownInitiated == s.shutdownInitiated
    requires u.deadlineGeneration == s.deadlineGeneration
    requires Flags(u) && Streams(c, u) && OpOk(c, u, o)
    ensures Inv(c, u.(pending := s.pending[i := o]))
  {
    hide Inv, OpOk, Flags, Streams;
    var t := u.(pending := s.pending[i := o]);
    PendingOnly(c, u, t, o);
    OtherOpsOk(c, s, t, i);
    ReplaceInv(c, s, t, i, o);
  }

  lemma {:induction false} ReceiveInv(c: ServerConfig, s: SessionState, i: nat, data: Bytes)
    requires i < |s.pending| && s.pending[i].status == InFlight && IsRead(s.pending[i].kind)
    requires 1 <= |data| <= ReadLimit(s.pending[i].kind)
    requires Inv(c, s)
    ensures Inv(c, Receive(s, i, data))
  {
    hide Inv, OpOk, Flags, Streams, Overwrite;
    var o := s.pending[i];
    var o' := o.(status := Succeeded, arg := |data|);
    Others(c, s, i);
    BufferSizes(s);
    if o.kind == CoRead {
      ReceiveByteOk(c, s, i, o, data);
      MovedInv(c, s, s.(fromClient := s.fromClient + data), i, o');
    } else if o.kind == ReadSource {
      ReceiveSourceOk(c, s, o, data);
      MovedInv(c, s, s.(fromClient := s.fromClient + data, outgoing := Overwrite(s.outgoing, 0, data),
                        outWindow := Window(0, |data|)), i, o');
    } else {
      ReceiveDestOk(c, s, o, data);
      MovedInv(c, s, s.(fromServer := s.fromServer + data, incoming := Overwrite(s.incoming, 0, data),
                        inWindow := Window(0, |data|)), i, o');
    }
  }

  lemma {:induction false} BufferSizes(s: SessionState)
    requires Flags(s)
    ensures |s.outgoing| == |s.incoming| == SESSION_BUFFER_SIZE
  {
  }

  lemma {:induction false} PendingOnly(c: ServerConfig, u: SessionState, t: SessionState, o: Op)
    requires t == u.(pending := t.pending) && OpOk(c, u, o) && Flags(u) && Streams(c, u)
    ensures OpOk(c, t, o) && Flags(t) && Streams(c, t)
  {
    hide OpOk, Streams;
    SameDataOp(c, u, t, o);
    SameDataStreams(c, u, t);
  }

  /** What leaves a window is its front. */
  lemma {:induction false} WindowMoves(sent: Bytes, buffer: Bytes, done: nat, n: nat, end: nat)
    requires done + n <= end <= |buffer|
    ensures sent + Undelivered(buffer, Window(done, end))
         == sent + Slice(buffer, done, n) + Undelivered(buffer, Window(done + n, end))
  {
    assert buffer[done..end] == buffer[done..done + n] + buffer[done + n..end];
  }

  lemma {:induction false} SendDestOk(c: ServerConfig, s: SessionState, o: Op, n: nat)
    requires o.kind == WriteDest && o.status == InFlight && OpOk(c, s, o)
    requires 1 <= n && o.done + n <= o.arg && s.stage == Relaying
    requires Flags(s) && Streams(c, s)
    ensures var to := o.done + n;
      var t := s.(toServer := s.toServer + Slice(s.outgoing, o.done, n), outWindow := Window(to, o.arg));
      && OpOk(c, t, o.(done := to, status := if to == o.arg then Succeeded else InFlight))
      && Flags(t) && Streams(c, t)
  {
    hide Intercept, Undelivered, Slice;
    WindowMoves(s.toServer, s.outgoing, o.done, n, o.arg);
  }

  lemma {:induction false} SendSourceOk(c: ServerConfig, s: SessionState, o: Op, n: nat)
    requires o.kind == WriteSource && o.status == InFlight && OpOk(c, s, o)
    requires 1 <= n && o.done + n <= o.arg && s.stage == Relaying
    requires Flags(s) && Streams(c, s)
    ensures var to := o.done + n;
      var t := s.(toClient := s.toClient + Slice(s.incoming, o.done, n), inWindow := Window(to, o.arg));
      && OpOk(c, t, o.(done := to, status := if to == o.arg then Succeeded else InFlight))
      && Flags(t) && Streams(c, t)
  {
    hide Intercept, Undelivered, Slice;
    WindowMoves(s.toClient, s.incoming, o.done, n, o.arg);
  }

  lemma {:induction false} SendReplyOk(c: ServerConfig, s: SessionState, o: Op, n: nat)
    requires o.kind == CoWrite && o.status == InFlight && OpOk(c, s, o) && o.kind == ControlKind(s.stage)
    requires 1 <= n && o.done + n <= |s.reply|
    requires Flags(s) && Streams(c, s)
    ensures var to := o.done + n;
      var t := s.(toClient := s.toClient + Slice(s.reply, o.done, n));
      && OpOk(c, t, o.(done := to, status := if to == |s.reply| then Succeeded else InFlight))
      && Flags(t) && Streams(c, t)
  {
    hide Conserved, Intercept;
  }

  lemma {:induction false} SendInv(c: ServerConfig, s: SessionState, i: nat, n: nat)
    requires i < |s.pending| && s.pending[i].status == InFlight && IsWrite(s.pending[i].kind)
    requires 1 <= n && s.pending[i].done + n <= WriteLength(s, s.pending[i])
    requires Inv(c, s)
    ensures Inv(c, Send(s, i, n))
  {
    hide Inv, OpOk, Flags, Streams, Slice;
    var o := s.pending[i];
    var to := o.done + n;
    var o' := o.(done := to, status := if to == WriteLength(s, o) then Succeeded else InFlight);
    Others(c, s, i);
    if o.kind == CoWrite {
      SendReplyOk(c, s, o, n);
      MovedInv(c, s, s.(toClient := s.toClient + Slice(s.reply, o.done, n)), i, o');
    } else if o.kind == WriteDest {
      SendDestOk(c, s, o, n);
      MovedInv(c, s, s.(toServer := s.toServer + Slice(s.outgoing, o.done, n), outWindow := Window(to, o.arg)), i, o');
    } else {
      SendSourceOk(c, s, o, n);
      MovedInv(c, s, s.(toClient := s.toClient + Slice(s.incoming, o.done, n), inWindow := Window(to, o.arg)), i, o');
    }
  }

  // ---- every event, every run ----

  lemma {:induction false} CompletedInv(c: ServerConfig, s: SessionState, i: nat, status: Status)
    requires i < |s.pending| && s.pending[i].status == InFlight && status != InFlight
    requires Inv(c, s)
    requires if status == Succeeded then s.pending[i].kind == Connect || s.pending[i].kind == Wait
             else IsRead(s.pending[i].kind) || IsWrite(s.pending[i].kind) || s.pending[i].kind == Connect
    ensures Inv(c, Complete(s, i, s.pending[i].(status := status)))
  {
    hide Inv, OpOk, Complete, Flags;
    var o := s.pending[i];
    var o' := o.(status := status);
    var t := s.(pending := s.pending[i := o']);
    if o.kind != Wait {
      Others(c, s, i);
    }
    CompletedOk(c, s, o, status);
    InvFlags(c, s);
    PendingFlags(s, t);
    StatusInv(c, s, t, i, o');
    CompleteIs(s, i, o');
  }

  lemma {:induction false} CompleteIs(s: SessionState, i: nat, o: Op)
    requires i < |s.pending|
    ensures Complete(s, i, o) == s.(pending := s.pending[i := o])
  {
  }

  lemma {:induction false} CompletedOk(c: ServerConfig, s: SessionState, o: Op, status: Status)
    requires o.status == InFlight && status != InFlight
    requires if status == Succeeded then o.kind == Connect || o.kind == Wait
             else IsRead(o.kind) || IsWrite(o.kind) || o.kind == Connect
    requires o.kind != Wait ==> OpOk(c, s, o)
    ensures OpOk(c, s, o.(status := status))
  {
    hide Waiting;
  }

  lemma {:induction false} InvFlags(c: ServerConfig, s: SessionState)
    requires Inv(c, s)
    ensures Flags(s)
  {
  }

  lemma {:induction false} PendingFlags(s: SessionState, t: SessionState)
    requires Flags(s) && t == s.(pending := t.pending)
    ensures Flags(t)
  {
  }

  lemma {:induction false} CreatedQuiet(c: ServerConfig, s: SessionState)
    requires Core(c, s) && s.stage == Created
    ensures Quiet(s)
  {
    hide Tags, Timers, Streams, Ops;
    QuietTags(c, s);
  }

  lemma {:induction false} SpawnedCore(c: ServerConfig, s: SessionState)
    requires Core(c, s) && Quiet(s) && s.stage == Created && !s.shutdownInitiated
    ensures Core(c, s.(stage := Spawned, sourceOpen := true)) && Quiet(s.(stage := Spawned, sourceOpen := true))
  {
    hide Tags, Conserved, Ops;
    QuietCore(c, s.(stage := Spawned, sourceOpen := true));
  }

  lemma {:induction false} SpawnInv(c: ServerConfig, s: SessionState, inline: bool)
    requires Inv(c, s) && s.stage == Created && !s.shutdownInitiated
    ensures Inv(c, Step(c, s, Spawn(inline)))
  {
    hide Core, Quiet, Alive;
    var t := s.(stage := Spawned, sourceOpen := true);
    CreatedQuiet(c, s);
    SpawnedCore(c, s);
    assert Generation(t);
    hide Inv, Generation;
    if inline {
      StartCoroutineInv(c, t);
    } else {
      SpawnQueuedInv(c, t);
    }
  }

  lemma {:induction false} SpawnQueuedInv(c: ServerConfig, t: SessionState)
    requires Core(c, t) && Quiet(t) && Generation(t) && t.stage == Spawned
    ensures Inv(c, Begin(t, Op(CoStart, Succeeded, 0, 0)))
  {
    hide Core, Tags, Quiet;
    QuietCoreTags(c, t);
    BeginCore(c, t, Op(CoStart, Succeeded, 0, 0));
  }

  lemma {:induction false} CallEndInv(c: ServerConfig, s: SessionState, inline: bool)
    requires Inv(c, s)
    ensures Inv(c, DispatchEnd(s, inline))
  {
    hide Core, Tags, OpOk;
    if inline {
      EndInv(c, s);
    } else {
      EndCallOk(c, s);
      BeginCore(c, s, Op(EndCall, Succeeded, 0, 0));
    }
  }

  lemma {:induction false} StepInv(c: ServerConfig, s: SessionState, e: Event)
    requires Inv(c, s) && Enabled(s, e)
    ensures Inv(c, Step(c, s, e))
  {
    hide Inv, Handle, Receive, Send, DispatchEnd, Complete, StartCoroutine;
    match e
    case Arrive(i, data) => ReceiveInv(c, s, i, data);
    case Deliver(i, n) => SendInv(c, s, i, n);
    case Connected(i) => CompletedInv(c, s, i, Succeeded);
    case Expire(i) => CompletedInv(c, s, i, Succeeded);
    case Fail(i) => CompletedInv(c, s, i, Failed);
    case Run(i, choice) => RunInv(c, s, i, choice);
    case Spawn(inline) => SpawnInv(c, s, inline);
    case CallEnd(inline) => CallEndInv(c, s, inline);
  }

  lemma {:induction false} NewSessionInv(c: ServerConfig)
    ensures Inv(c, NewSession())
  {
    var s := NewSession();
    assert Tags(s.pending) == multiset{};
  }

  /** The invariant holds throughout every run. */
  lemma {:induction false} AfterInv(c: ServerConfig, s: SessionState, events: seq<Event>)
    requires Inv(c, s) && Possible(c, s, events)
    ensures Inv(c, After(c, s, events))
    decreases |events|
  {
    if events != [] {
      hide Inv;
      StepInv(c, s, events[0]);
      AfterInv(c, Step(c, s, events[0]), events[1..]);
    }
  }
}
