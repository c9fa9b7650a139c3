/** What a session promises over all its runs. */
module SessionTheorems {
  import opened Basics
  import opened Protocol
  import opened Framing
  import opened Config
  import opened Reader
  import opened Outstanding
  import opened SessionMachine
  import opened SessionInvariants

  // ---- conservation ----

  /** `l` is the login frame at the front of `s`. */
  ghost predicate StartsWithLogin(s: Bytes, l: LoginFrame) {
    var frame := ScanFrame(s, 1, MAX_PACKET_BYTES);
    && frame.Body? && frame.used == l.used <= |s|
    && Parse(frame.body) == Some(l.handshake)
    && l.handshake.nextState == 2
  }

  /** In every run the upstream server has received nothing, or there was a login frame
      and what was delivered, with what waits in the buffer, is the client's handshake
      under the configured host and port and then exactly the bytes the client sent
      after its frame. The other direction is copied unchanged. */
  lemma {:induction false} StreamsConserved(c: ServerConfig, events: seq<Event>)
    requires Possible(c, NewSession(), events)
    ensures var s := After(c, NewSession(), events);
      match s.login
      case None => s.toServer == [] && s.fromServer == []
      case Some(l) =>
        && StartsWithLogin(s.fromClient, l)
        && s.toServer + Undelivered(s.outgoing, s.outWindow)
           == Redirected(c, l.handshake) + s.fromClient[l.used..]
        && s.toClient + Undelivered(s.incoming, s.inWindow) == s.fromServer
  {
    hide Inv, StartsWithLogin, Undelivered, Redirected;
    NewSessionInv(c);
    AfterInv(c, NewSession(), events);
    LoginConserved(c, After(c, NewSession(), events));
  }

  lemma {:induction false} LoginConserved(c: ServerConfig, s: SessionState)
    requires Inv(c, s)
    ensures s.login.None? ==> s.toServer == [] && s.fromServer == []
    ensures s.login.Some? ==>
      && StartsWithLogin(s.fromClient, s.login.value)
      && s.login.value.wire == Redirected(c, s.login.value.handshake)
      && s.login.value.used <= |s.fromClient|
      && s.toServer + Undelivered(s.outgoing, s.outWindow)
         == Redirected(c, s.login.value.handshake) + s.fromClient[s.login.value.used..]
      && s.toClient + Undelivered(s.incoming, s.inWindow) == s.fromServer
  {
    hide Flags, Exclusive, Timers, Ops, Alive, Generation, Undelivered, Intercept, StartsWithLogin, Redirected;
    if s.login.Some? {
      WholeStream(c, s.fromClient, s.login.value);
      LoginMeans(c, s.fromClient, s.login.value);
    }
  }

  lemma {:induction false} WholeStream(c: ServerConfig, s: Bytes, l: LoginFrame)
    requires l.used <= |s| && Intercept(c, s[..l.used]) == Login(l.used, l.handshake, l.wire)
    ensures Intercept(c, s) == Login(l.used, l.handshake, l.wire)
  {
    hide Intercept;
    InterceptIsOnline(c, s, l.used);
  }

  lemma {:induction false} LoginMeans(c: ServerConfig, s: Bytes, l: LoginFrame)
    requires Intercept(c, s) == Login(l.used, l.handshake, l.wire) && l.used <= |s|
    ensures StartsWithLogin(s, l) && l.wire == Redirected(c, l.handshake)
  {
    hide ScanFrame, Parse, Frame, Payload;
  }

  // ---- exclusion ----

  /** Two different outstanding operations never read the same socket, never write the
      same socket, and never use the same relay buffer; a connect is alone on its socket. */
  lemma {:induction false} SocketsExclusive(c: ServerConfig, s: SessionState, i: nat, j: nat)
    requires i < |s.pending| && j < |s.pending| && i != j
    requires Inv(c, s)
    ensures var k, l := s.pending[i].kind, s.pending[j].kind;
      && !(IsRead(k) && IsRead(l) && OnSource(k) == OnSource(l))
      && !(IsWrite(k) && IsWrite(l) && OnSource(k) == OnSource(l))
      && !(k in {ReadSource, WriteDest} && l in {ReadSource, WriteDest})
      && !(k in {ReadDest, WriteSource} && l in {ReadDest, WriteSource})
      && (k == Connect ==> l == Wait || l == EndCall)
  {
    hide Tags, Flags, Timers, Streams, Ops, Generation, Alive;
    var o, p := s.pending[i], s.pending[j];
    TagsMember(s.pending, TagOf(o));
    TagsMember(s.pending, TagOf(p));
    assert o in s.pending && p in s.pending;
    if TagOf(o) == Control || TagOf(o) == Up || TagOf(o) == Down {
      OnlyOne(s.pending, i);
    }
  }

  /** A live relay has both sockets open and exactly one operation in each direction. */
  lemma {:induction false} RelayAlternates(c: ServerConfig, s: SessionState)
    requires Inv(c, s) && s.stage == Relaying && !s.shutdownInitiated
    ensures s.sourceOpen && s.destOpen
    ensures Tags(s.pending)[Up] == 1 && Tags(s.pending)[Down] == 1 && Tags(s.pending)[Control] == 0
  {
    hide Tags, Timers, Streams, Ops, Generation;
    assert Exclusive(s) && Alive(s);
  }

  /** A buffer is filled only when nothing of its previous content is left to deliver. */
  lemma {:induction false} RefilledWhenEmpty(c: ServerConfig, s: SessionState, i: nat, data: Bytes)
    requires Inv(c, s) && Enabled(s, Arrive(i, data))
    ensures s.pending[i].kind == ReadSource ==> Undelivered(s.outgoing, s.outWindow) == []
    ensures s.pending[i].kind == ReadDest ==> Undelivered(s.incoming, s.inWindow) == []
  {
    hide Tags, Flags, Timers, Streams, Generation, Alive, Exclusive;
    assert s.pending[i] in s.pending;
    assert OpOk(c, s, s.pending[i]);
    EmptyWindowIf(s.outgoing, s.outWindow);
    EmptyWindowIf(s.incoming, s.inWindow);
  }

  lemma {:induction false} EmptyWindowIf(buffer: Bytes, w: Window)
    ensures w.lo == w.hi ==> Undelivered(buffer, w) == []
  {
  }

  lemma {:induction false} ReadWindows(c: ServerConfig, s: SessionState, o: Op)
    requires Inv(c, s) && o in s.pending && o.status == InFlight
    ensures o.kind == ReadSource ==> s.outWindow.lo == s.outWindow.hi
    ensures o.kind == ReadDest ==> s.inWindow.lo == s.inWindow.hi
    ensures o.kind == ReadSource || o.kind == ReadDest ==> s.stage == Relaying
  {
    hide Tags, Flags, Timers, Streams, Generation, Alive;
    TagsMember(s.pending, TagOf(o));
    assert OpOk(c, s, o);
  }

  lemma {:induction false} RelayHasLogin(c: ServerConfig, s: SessionState)
    requires Inv(c, s) && s.stage == Relaying
    ensures s.login.Some?
  {
    hide Flags, Exclusive, Timers, Ops, Alive, Generation, Conserved;
  }

  /** A direction that waits for bytes has passed on all it has read. */
  lemma {:induction false} NothingHeldBack(c: ServerConfig, s: SessionState, o: Op)
    requires Inv(c, s) && o in s.pending && o.status == InFlight
    requires o.kind == ReadSource || o.kind == ReadDest
    ensures s.login.Some? && s.login.value.used <= |s.fromClient|
    ensures o.kind == ReadSource ==>
      s.toServer == Redirected(c, s.login.value.handshake) + s.fromClient[s.login.value.used..]
    ensures o.kind == ReadDest ==> s.toClient == s.fromServer
  {
    hide Inv, Undelivered, Redirected, StartsWithLogin;
    ReadWindows(c, s, o);
    RelayHasLogin(c, s);
    LoginConserved(c, s);
    EmptyWindowIf(s.outgoing, s.outWindow);
    EmptyWindowIf(s.incoming, s.inWindow);
  }

  // ---- shutdown ----

  /** The part of a session that no step may change once it is shut down. */
  ghost predicate SameTraffic(s: SessionState, t: SessionState) {
    && t.shutdownInitiated
    && s.fromClient == t.fromClient && s.toClient == t.toClient
    && s.fromServer == t.fromServer && s.toServer == t.toServer
    && t.erasesPosted == s.erasesPosted && t.sourceOpen == s.sourceOpen
    && Tags(t.pending)[Up] <= Tags(s.pending)[Up] && Tags(t.pending)[Down] <= Tags(s.pending)[Down]
  }

  lemma {:induction false} SocketsClosed(c: ServerConfig, s: SessionState, i: nat)
    requires i < |s.pending| && Inv(c, s) && s.shutdownInitiated
    requires IsRead(s.pending[i].kind) || IsWrite(s.pending[i].kind)
    ensures !SocketOpen(s, s.pending[i].kind)
  {
    hide Tags, Timers, Streams, Ops, Generation, Alive;
    TagsMember(s.pending, Up);
    TagsMember(s.pending, Down);
    assert s.pending[i] in s.pending;
  }

  lemma {:induction false} ClosedForTraffic(c: ServerConfig, s: SessionState, e: Event)
    requires Inv(c, s) && s.shutdownInitiated && Enabled(s, e)
    ensures !e.Arrive? && !e.Deliver?
  {
    hide Inv;
    if e.Arrive? || e.Deliver? {
      SocketsClosed(c, s, e.i);
    }
  }

  lemma {:induction false} BeginTraffic(s: SessionState, t: SessionState, o: Op)
    requires SameTraffic(s, t) && TagOf(o) != Up && TagOf(o) != Down
    ensures SameTraffic(s, Begin(t, o))
  {
    hide Tags;
    TagsAppend(t.pending, o);
  }

  lemma {:induction false} AdvanceTraffic(s: SessionState, t: SessionState)
    requires SameTraffic(s, t)
    ensures SameTraffic(s, Advanced(t)) && SameTraffic(s, ArmDeadline(t))
  {
    hide Tags, CancelWaits;
    TagsCancel(t.pending);
    BeginTraffic(s, Advanced(t), Op(Wait, InFlight, NextGeneration(t.deadlineGeneration), 0));
  }

  lemma {:induction false} LeaveTraffic(s: SessionState, t: SessionState, thrown: bool, inline: bool)
    requires SameTraffic(s, t)
    ensures SameTraffic(s, Leave(t, thrown, inline)) && SameTraffic(s, Finish(t)) && SameTraffic(s, Throw(t, inline))
  {
    hide Tags;
    BeginTraffic(s, t.(stage := Closed), Op(EndCall, Succeeded, 0, 0));
  }

  lemma {:induction false} ConnectTraffic(s: SessionState, used: nat, h: Handshake, wire: Bytes)
    requires s.shutdownInitiated && |wire| <= |s.outgoing|
    ensures SameTraffic(s, StartConnect(s, used, h, wire))
  {
    hide Tags, ArmDeadline, Overwrite;
    var stored := Stored(s, used, h, wire);
    AdvanceTraffic(s, stored);
    BeginTraffic(s, ArmDeadline(stored), Op(Connect, InFlight, |wire|, 0));
  }

  lemma {:induction false} AwaitTraffic(s: SessionState, t: SessionState, reply: Bytes)
    requires SameTraffic(s, t)
    ensures SameTraffic(s, AwaitByte(t)) && SameTraffic(s, AwaitWrite(t, reply))
  {
    hide Tags;
    BeginTraffic(s, t, Op(CoRead, InFlight, 0, 0));
    BeginTraffic(s, t.(reply := reply), Op(CoWrite, InFlight, 0, 0));
  }

  lemma {:induction false} ResumeTraffic(c: ServerConfig, s: SessionState, inline: bool)
    requires s.shutdownInitiated
    ensures SameTraffic(s, ResumeRead(c, s, inline))
  {
    hide Tags, Intercept, ScanFrame, Frame, StatusResponse, CurrentFrame, Leave, Finish, Throw, StartConnect,
         AwaitByte, AwaitWrite;
    LeaveTraffic(s, s, false, inline);
    LeaveTraffic(s, s, true, inline);
    match s.stage
    case Handshaking =>
      AwaitTraffic(s, s, []);
      AwaitTraffic(s, s.(stage := StatusRequest, frameStart := |s.fromClient|), []);
      var v := Intercept(c, CurrentFrame(s));
      if v.Login? && |v.wire| <= |s.outgoing| {
        ConnectTraffic(s, v.used, v.handshake, v.wire);
      }
    case StatusRequest =>
      AwaitTraffic(s, s, []);
      AwaitTraffic(s, s.(stage := StatusReply), StatusResponse(c));
    case Pinging =>
      AwaitTraffic(s, s, []);
      var r := ScanFrame(CurrentFrame(s), 9, 9);
      if r.Body? {
        AwaitTraffic(s, s.(stage := PongReply), Frame(r.body));
      }
    case _ =>
  }

  /** Handlers that run after shutdown: all they can begin is the coroutine's business. */
  lemma {:induction false} HandleAfterShutdown(c: ServerConfig, s: SessionState, o: Op, choice: bool)
    requires s.shutdownInitiated
    ensures SameTraffic(s, Handle(c, s, o, choice))
  {
    hide Tags, CancelWaits, ResumeRead, Throw, Finish, AwaitByte;
    match o.kind
    case CoRead =>
      ResumeTraffic(c, s, choice);
      LeaveTraffic(s, s, true, choice);
    case CoWrite =>
      LeaveTraffic(s, s, true, choice);
      AwaitTraffic(s, s.(stage := Pinging, frameStart := |s.fromClient|), []);
    case Connect =>
      AdvanceTraffic(s, s);
    case _ =>
  }

  lemma {:induction false} CompleteTraffic(s: SessionState, i: nat, status: Status)
    requires i < |s.pending| && s.shutdownInitiated
    ensures SameTraffic(s, Complete(s, i, s.pending[i].(status := status)))
  {
    hide Tags;
    TagsReplace(s.pending, i, s.pending[i].(status := status));
  }

  lemma {:induction false} RunTraffic(c: ServerConfig, s: SessionState, i: nat, choice: bool)
    requires i < |s.pending| && s.shutdownInitiated
    ensures SameTraffic(s, Handle(c, Without(s, i), s.pending[i], choice))
  {
    hide Tags, Handle;
    TagsRemove(s.pending, i);
    HandleAfterShutdown(c, Without(s, i), s.pending[i], choice);
  }

  /** Once a session is shut down no relay operation is started, no byte moves, and no
      further erase is posted, whatever was queued before and whatever connects late. */
  lemma {:induction false} NoRelayAfterShutdown(c: ServerConfig, s: SessionState, e: Event)
    requires Inv(c, s) && s.shutdownInitiated && Enabled(s, e)
    ensures SameTraffic(s, Step(c, s, e))
  {
    hide Inv, Handle, SameTraffic, Complete, Remove, Receive, Send, StartCoroutine, DispatchEnd, SocketOpen,
         WriteLength;
    ClosedForTraffic(c, s, e);
    match e
    case Run(i, choice) => RunTraffic(c, s, i, choice);
    case Connected(i) => CompleteTraffic(s, i, Succeeded);
    case Expire(i) => CompleteTraffic(s, i, Succeeded);
    case Fail(i) => CompleteTraffic(s, i, Failed);
    case CallEnd(inline) => LastEndTraffic(s, inline);
    case _ =>
  }

  lemma {:induction false} LastEndTraffic(s: SessionState, inline: bool)
    requires s.shutdownInitiated
    ensures SameTraffic(s, DispatchEnd(s, inline))
  {
    hide Tags;
    BeginTraffic(s, s, Op(EndCall, Succeeded, 0, 0));
  }

  /** ... throughout any run. */
  lemma {:induction false} ShutdownIsFinal(c: ServerConfig, s: SessionState, events: seq<Event>)
    requires Inv(c, s) && s.shutdownInitiated && Possible(c, s, events)
    ensures SameTraffic(s, After(c, s, events))
    decreases |events|
  {
    if events != [] {
      hide Inv, Tags;
      StepInv(c, s, events[0]);
      NoRelayAfterShutdown(c, s, events[0]);
      ShutdownIsFinal(c, Step(c, s, events[0]), events[1..]);
    }
  }

  lemma {:induction false} StillShutDown(c: ServerConfig, s: SessionState, e: Event)
    requires Inv(c, s) && s.shutdownInitiated && Enabled(s, e)
    ensures Step(c, s, e).shutdownInitiated
  {
    hide Inv;
    NoRelayAfterShutdown(c, s, e);
  }

  // ---- progress ----

  /** A session that was started and not shut down can always go on, and not by failing: some
      operation other than a wait can succeed, at least in part, or its handler can run. */
  lemma {:induction false} NotStuck(c: ServerConfig, s: SessionState)
    requires Inv(c, s) && !s.shutdownInitiated && s.stage != Created
    ensures exists i, e :: 0 <= i < |s.pending| && s.pending[i].kind != Wait && MovesOn(s, i, e)
  {
    hide Tags, Timers, Streams, Generation;
    var t := if HasControl(s.stage) then Control else if s.stage == Relaying then Up else Ending;
    TagsMember(s.pending, t);
    var o :| o in s.pending && TagOf(o) == t;
    var i :| 0 <= i < |s.pending| && s.pending[i] == o;
    assert OpOk(c, s, o);
    assert MovesOn(s, i, if o.status != InFlight then Run(i, true) else if IsRead(o.kind) then Arrive(i, [0])
                         else if IsWrite(o.kind) then Deliver(i, 1) else Connected(i));
  }

  /** `e` brings the operation at `i` forward, or runs its handler. */
  predicate MovesOn(s: SessionState, i: nat, e: Event) {
    Enabled(s, e) && (e == Arrive(i, [0]) || e == Deliver(i, 1) || e == Connected(i) || e == Run(i, true))
  }

  // ---- deadlines ----

  /** The generation counter ends far below its 64 bits in every run. */
  lemma {:induction false} GenerationBounded(c: ServerConfig, events: seq<Event>)
    requires Possible(c, NewSession(), events)
    ensures After(c, NewSession(), events).deadlineGeneration <= 4
  {
    hide Core, Alive;
    NewSessionInv(c);
    AfterInv(c, NewSession(), events);
    assert Generation(After(c, NewSession(), events));
  }

  /** Waits have different generations, none of the future. While a handshake or a connect
      is under way one of them is current, and it was not aborted; while relaying none is. */
  lemma {:induction false} CurrentWait(c: ServerConfig, s: SessionState)
    requires Inv(c, s)
    ensures forall i, j :: 0 <= i < j < |s.pending| && s.pending[i].kind == Wait && s.pending[j].kind == Wait ==>
      s.pending[i].arg != s.pending[j].arg
    ensures forall o :: o in s.pending && o.kind == Wait ==> o.arg <= s.deadlineGeneration
    ensures !s.shutdownInitiated && Armed(s.stage) ==>
      exists o :: o in s.pending && o.kind == Wait && o.arg == s.deadlineGeneration && o.status != Failed
    ensures s.stage == Relaying ==>
      forall o :: o in s.pending && o.kind == Wait ==> o.arg != s.deadlineGeneration
  {
    hide Tags, Flags, Streams, Ops, Generation, Exclusive;
    forall i, j | 0 <= i < j < |s.pending| && s.pending[i].kind == Wait && s.pending[j].kind == Wait
      ensures s.pending[i].arg != s.pending[j].arg
    {
      OnlyOne(s.pending, i);
    }
    forall o | o in s.pending && o.kind == Wait
      ensures Tags(s.pending)[Timer(o.arg)] > 0
    {
      TagsMember(s.pending, Timer(o.arg));
    }
    TagsMember(s.pending, Timer(s.deadlineGeneration));
  }

  /** A deadline that expired in the queue ends the session exactly when it is still the
      current one; in a relay it never is, and its handler does nothing. */
  lemma {:induction false} ExpiryHandled(c: ServerConfig, s: SessionState, i: nat, choice: bool)
    requires i < |s.pending| && s.pending[i].kind == Wait && s.pending[i].status == Succeeded
    requires Inv(c, s) && !s.shutdownInitiated
    ensures var t := Step(c, s, Run(i, choice));
      && (t.shutdownInitiated <==> s.pending[i].arg == s.deadlineGeneration)
      && (!t.shutdownInitiated ==> t == Without(s, i))
      && (s.stage == Relaying ==> t == Without(s, i))
  {
    hide Inv, Remove, CancelWaits;
    assert s.stage == Relaying ==> s.pending[i].arg != s.deadlineGeneration by {
      CurrentWait(c, s);
      assert s.pending[i] in s.pending;
    }
  }
}
