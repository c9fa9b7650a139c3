/** All layers together: what every client, the upstream server and the operator of the
    proxy can rely on in every run of the whole program. */
module EndToEnd {
  import opened Basics
  import opened Protocol
  import opened Framing
  import opened Config
  import opened Reader
  import opened Outstanding
  import opened SessionMachine
  import opened SessionInvariants
  import opened SessionTheorems
  import opened StatusConversation
  import opened SystemMachine
  import opened SystemInvariants
  import opened SystemTheorems

  // ---- every session of the program is a run of the session machine ----

  ghost predicate IsRun(c: ServerConfig, s: SessionState) {
    exists events :: Possible(c, NewSession(), events) && After(c, NewSession(), events) == s
  }

  ghost predicate AllRuns(c: ServerConfig, y: System) {
    forall id :: 0 <= id < |y.sessions| ==> IsRun(c, y.sessions[id])
  }

  lemma {:induction false} RunGoesOn(c: ServerConfig, s: SessionState, e: Event)
    requires IsRun(c, s) && Enabled(s, e)
    ensures IsRun(c, Step(c, s, e))
  {
    hide Enabled, Step;
    var events :| Possible(c, NewSession(), events) && After(c, NewSession(), events) == s;
    AfterOneMore(c, NewSession(), events, e);
  }

  lemma {:induction false} NewIsRun(c: ServerConfig)
    ensures IsRun(c, NewSession())
  {
    assert Possible(c, NewSession(), []) && After(c, NewSession(), []) == NewSession();
  }

  // ---- what a step of the program is for one session ----

  /** `e` takes the session `id` from `y` to `z`; if it is the session's own, it is all that
      happens. */
  ghost predicate MovedBy(c: ServerConfig, y: System, z: System, a: Action, id: nat, e: Event)
    requires id < |y.sessions| && id < |z.sessions|
  {
    && Enabled(y.sessions[id], e) && z.sessions[id] == Step(c, y.sessions[id], e)
    && (Own(e) ==> a == InSession(id, e))
  }

  /** The session `id` is new, or as it was, or takes one step. */
  ghost predicate MovesAtMost(c: ServerConfig, y: System, z: System, a: Action, id: nat) {
    && id < |z.sessions|
    && if id >= |y.sessions| then z.sessions[id] == NewSession()
       else z.sessions[id] == y.sessions[id] || exists e :: MovedBy(c, y, z, a, id, e)
  }

  lemma {:induction false} NewMoves(c: ServerConfig, y: System, z: System, a: Action, id: nat)
    requires |y.sessions| <= |z.sessions| <= |y.sessions| + 1 && z.sessions[..|y.sessions|] == y.sessions
    requires |z.sessions| > |y.sessions| ==> z.sessions[|y.sessions|] == NewSession()
    requires id < |z.sessions|
    ensures MovesAtMost(c, y, z, a, id)
  {
    hide NewSession;
    if id < |y.sessions| {
      assert z.sessions[..|y.sessions|][id] == y.sessions[id];
    }
  }

  /** One session took a step, and perhaps one was made. */
  lemma {:induction false} OneMoves(c: ServerConfig, y: System, z: System, a: Action, k: nat, e: Event, id: nat)
    requires k < |y.sessions| <= |z.sessions| <= |y.sessions| + 1 && Enabled(y.sessions[k], e)
    requires z.sessions[..|y.sessions|] == y.sessions[k := Step(c, y.sessions[k], e)]
    requires |z.sessions| > |y.sessions| ==> z.sessions[|y.sessions|] == NewSession()
    requires Own(e) ==> a == InSession(k, e)
    requires id < |z.sessions|
    ensures MovesAtMost(c, y, z, a, id)
  {
    hide NewSession, Enabled, Step;
    if id < |y.sessions| {
      assert z.sessions[..|y.sessions|][id] == z.sessions[id];
      assert id == k ==> MovedBy(c, y, z, a, k, e);
    }
  }

  lemma {:induction false} AcceptSessions(y: System)
    ensures var z := AcceptConnections(y);
      && |y.sessions| <= |z.sessions| <= |y.sessions| + 1 && z.sessions[..|y.sessions|] == y.sessions
      && (|z.sessions| > |y.sessions| ==> z.sessions[|y.sessions|] == NewSession())
  {
    hide NewSession;
  }

  /** The handler of an accept ends the session it holds, or starts it. */
  lemma {:induction false} OnAcceptMoves(c: ServerConfig, y: System, k: nat, outcome: Outcome, inline: bool,
                                         a: Action, id: nat)
    requires k < |y.sessions| && (outcome == Accepted ==> Enabled(y.sessions[k], Spawn(inline)))
    requires id < |OnAccept(c, y, k, outcome, inline).sessions|
    ensures MovesAtMost(c, y, OnAccept(c, y, k, outcome, inline), a, id)
  {
    hide AcceptConnections, Update, Step, Enabled, NewSession, MovesAtMost, DispatchEnd;
    var z := OnAccept(c, y, k, outcome, inline);
    var end, start := DispatchEnd(y.sessions[k], inline), Spawn(inline);
    CallEnds(c, y.sessions[k], inline);
    UpdateKeeps(y, k, end);
    AcceptSessions(EndSession(y, k, inline));
    if outcome == Accepted && !y.stopping && |y.registry| < c.maxConnections {
      var s := Step(c, y.sessions[k], start);
      UpdateKeeps(Register(y, k), k, s);
      AcceptSessions(Update(Register(y, k), k, s));
      OneMoves(c, y, z, a, k, start, id);
    } else {
      OneMoves(c, y, z, a, k, CallEnd(inline), id);
    }
  }

  lemma {:induction false} CallEnds(c: ServerConfig, s: SessionState, inline: bool)
    ensures Enabled(s, CallEnd(inline)) && Step(c, s, CallEnd(inline)) == DispatchEnd(s, inline)
  {
  }

  /** What the server does to a session, in any step, is to make, start or end it. */
  lemma {:induction false} ActMoves(c: ServerConfig, y: System, a: Action, id: nat)
    requires Can(y, a) && id < |Act(c, y, a).sessions|
    ensures MovesAtMost(c, y, Act(c, y, a), a, id)
  {
    hide AcceptConnections, Update, Step, Enabled, OnAccept, Remove, NewSession, MovesAtMost, DispatchEnd;
    var z := Act(c, y, a);
    match a
    case StartServer =>
      AcceptSessions(Post(y.(started := true), Signal(Underway)));
      NewMoves(c, y, z, a, id);
    case RunTask(i, inline) =>
      var u := y.(tasks := Remove(y.tasks, i));
      AcceptSessions(u);
      if y.tasks[i].Accept? {
        OnAcceptMoves(c, u, y.tasks[i].id, y.tasks[i].outcome, inline, a, id);
        SameMoves(c, u, y, z, a, id);
      } else {
        NewMoves(c, y, z, a, id);
      }
    case EndNext(k, inline) =>
      CallEnds(c, y.sessions[k], inline);
      UpdateKeeps(y, k, DispatchEnd(y.sessions[k], inline));
      OneMoves(c, y, z, a, k, CallEnd(inline), id);
    case InSession(k, e) =>
      UpdateKeeps(y, k, Step(c, y.sessions[k], e));
      OneMoves(c, y, z, a, k, e, id);
    case _ => NewMoves(c, y, z, a, id);
  }

  lemma {:induction false} SameMoves(c: ServerConfig, u: System, y: System, z: System, a: Action, id: nat)
    requires u.sessions == y.sessions && MovesAtMost(c, u, z, a, id)
    ensures MovesAtMost(c, y, z, a, id)
  {
    hide Step, Enabled, NewSession;
    if id < |y.sessions| && z.sessions[id] != y.sessions[id] {
      var e :| MovedBy(c, u, z, a, id, e);
      assert MovedBy(c, y, z, a, id, e);
    }
  }

  lemma {:induction false} ActRuns(c: ServerConfig, y: System, a: Action)
    requires AllRuns(c, y) && Can(y, a)
    ensures AllRuns(c, Act(c, y, a))
  {
    hide IsRun, Act, Can, Step, Enabled, NewSession;
    var z := Act(c, y, a);
    NewIsRun(c);
    forall id | 0 <= id < |z.sessions|
      ensures IsRun(c, z.sessions[id])
    {
      ActMoves(c, y, a, id);
      if id < |y.sessions| && z.sessions[id] != y.sessions[id] {
        var e :| MovedBy(c, y, z, a, id, e);
        RunGoesOn(c, y.sessions[id], e);
      }
    }
  }

  /** Whatever the server and the other sessions do, each session lives a run of its own. */
  lemma {:induction false} SessionsAreRuns(c: ServerConfig, y: System, actions: seq<Action>)
    requires AllRuns(c, y) && Feasible(c, y, actions)
    ensures AllRuns(c, Reached(c, y, actions))
    decreases |actions|
  {
    if actions != [] {
      hide AllRuns, Act, Can;
      ActRuns(c, y, actions[0]);
      SessionsAreRuns(c, Act(c, y, actions[0]), actions[1..]);
    }
  }

  // ---- conversations that come to an end ----

  /** No step throws the coroutine of session `id` out of a read or write that failed. */
  predicate NeverBreaksOff(c: ServerConfig, y: System, actions: seq<Action>, id: nat)
    requires Feasible(c, y, actions)
    decreases |actions|
  {
    actions != [] ==>
      && (actions[0].InSession? && actions[0].id == id ==> !BreaksOff(y.sessions[id], actions[0].event))
      && NeverBreaksOff(c, Act(c, y, actions[0]), actions[1..], id)
  }

  /** What a session's own run keeps while it does not break off. */
  ghost predicate KeepsAnswering(c: ServerConfig, y: System, id: nat) {
    id < |y.sessions| ==> var s := y.sessions[id]; Inv(c, s) && Talk(c, s) && Answered(c, s)
  }

  lemma {:induction false} NewAnswers(c: ServerConfig)
    ensures Inv(c, NewSession()) && Talk(c, NewSession()) && Answered(c, NewSession())
  {
    NewSessionInv(c);
  }

  lemma {:induction false} ActAnswers(c: ServerConfig, y: System, a: Action, id: nat)
    requires KeepsAnswering(c, y, id) && Can(y, a)
    requires a.InSession? && a.id == id ==> !BreaksOff(y.sessions[id], a.event)
    ensures KeepsAnswering(c, Act(c, y, a), id)
  {
    hide Inv, Talk, Answered, Act, Step, Enabled, NewSession, BreaksOff;
    var z := Act(c, y, a);
    NewAnswers(c);
    if id < |z.sessions| {
      ActMoves(c, y, a, id);
      if id < |y.sessions| && z.sessions[id] != y.sessions[id] {
        var e :| MovedBy(c, y, z, a, id, e);
        OnlyOwnBreaks(y.sessions[id], e);
        StepInv(c, y.sessions[id], e);
        StepTalk(c, y.sessions[id], e);
        StepAnswered(c, y.sessions[id], e);
      }
    }
  }

  lemma {:induction false} OnlyOwnBreaks(s: SessionState, e: Event)
    ensures BreaksOff(s, e) ==> Own(e)
  {
  }

  lemma {:induction false} ReachedAnswers(c: ServerConfig, y: System, actions: seq<Action>, id: nat)
    requires KeepsAnswering(c, y, id) && Feasible(c, y, actions) && NeverBreaksOff(c, y, actions, id)
    ensures KeepsAnswering(c, Reached(c, y, actions), id)
    decreases |actions|
  {
    if actions != [] {
      hide KeepsAnswering, Act, Can, BreaksOff;
      ActAnswers(c, y, actions[0], id);
      ReachedAnswers(c, Act(c, y, actions[0]), actions[1..], id);
    }
  }

  // ---- the promise of the proxy ----

  /** A client that is no login client reaches nobody, and hears only what it is due. That it
      hears all of it, unless its conversation breaks off, is said below. */
  ghost predicate StatusOnly(c: ServerConfig, s: SessionState) {
    s.toServer == [] && s.fromServer == [] && s.toClient <= Due(c, s.fromClient)
  }

  /** A direction that waits for more bytes has passed on all it has read. */
  ghost predicate PassedOn(c: ServerConfig, s: SessionState, l: LoginFrame)
    requires l.used <= |s.fromClient|
  {
    forall o :: o in s.pending && o.status == InFlight ==>
      && (o.kind == ReadSource ==> s.toServer == Redirected(c, l.handshake) + s.fromClient[l.used..])
      && (o.kind == ReadDest ==> s.toClient == s.fromServer)
  }

  lemma {:induction false} PassesOn(c: ServerConfig, s: SessionState, l: LoginFrame)
    requires Inv(c, s) && s.login == Some(l) && l.used <= |s.fromClient|
    ensures PassedOn(c, s, l)
  {
    hide Inv, Redirected;
    forall o | o in s.pending && o.status == InFlight && (o.kind == ReadSource || o.kind == ReadDest)
      ensures o.kind == ReadSource ==> s.toServer == Redirected(c, l.handshake) + s.fromClient[l.used..]
      ensures o.kind == ReadDest ==> s.toClient == s.fromServer
    {
      NothingHeldBack(c, s, o);
    }
  }

  /** A login client is connected through: upstream goes its handshake under the configured
      host and port and then its own bytes, back come the bytes of the server. What is
      missing on either side waits in a buffer, and nothing is while more bytes are awaited. The reader takes the same decision on
      any stream that begins like this one. */
  ghost predicate ConnectedThrough(c: ServerConfig, s: SessionState, l: LoginFrame) {
    var sent := Redirected(c, l.handshake);
    && StartsWithLogin(s.fromClient, l)
    && s.toServer + Undelivered(s.outgoing, s.outWindow) == sent + s.fromClient[l.used..]
    && s.toClient + Undelivered(s.incoming, s.inWindow) == s.fromServer
    && PassedOn(c, s, l)
    && (forall more :: Intercept(c, s.fromClient + more) == Login(l.used, l.handshake, sent))
    && (|s.toServer| >= |sent| ==>
          Reads(s.toServer, |sent|, Handshake(l.handshake.protocol, c.handshakeHost, c.upstreamPort, 2)))
  }

  /** The receiver of `s` reads this handshake from its first `used` bytes. */
  ghost predicate Reads(s: Bytes, used: nat, h: Handshake) {
    var frame := ScanFrame(s, 1, MAX_PACKET_BYTES);
    frame.Body? && frame.used == used && Parse(frame.body) == Some(h)
  }

  /** For every run of the program and every client in it. */
  lemma {:induction false} ProxyEndToEnd(c: ServerConfig, actions: seq<Action>, id: nat)
    requires Feasible(c, NewSystem(), actions) && id < |Reached(c, NewSystem(), actions).sessions|
    ensures var y := Reached(c, NewSystem(), actions);
      var s := y.sessions[id];
      && (match s.login
          case None => StatusOnly(c, s)
          case Some(l) => ConnectedThrough(c, s, l))
      && (NeverBreaksOff(c, NewSystem(), actions, id) && s.login.None? && s.stage == Closed ==>
            s.toClient == Due(c, s.fromClient))
      && |y.registry| <= c.maxConnections
      && (y.started && Quiescent(y) ==> y.stopping && y.registry == {} && s.shutdownInitiated)
  {
    hide IsRun, Act, Can, StatusOnly, ConnectedThrough, SessionsOk, TasksOk, Named, Quiescent;
    NewSystemInv(c);
    ReachedInv(c, NewSystem(), actions);
    assert AllRuns(c, NewSystem());
    SessionsAreRuns(c, NewSystem(), actions);
    var y := Reached(c, NewSystem(), actions);
    RunPromise(c, y.sessions[id]);
    if y.started && Quiescent(y) {
      QuietSystem(c, y);
    }
    if NeverBreaksOff(c, NewSystem(), actions, id) {
      RepliesComplete(c, actions, id);
    }
  }

  /** AllRepliesSent, for every client in every run of the program. */
  lemma {:induction false} RepliesComplete(c: ServerConfig, actions: seq<Action>, id: nat)
    requires Feasible(c, NewSystem(), actions) && id < |Reached(c, NewSystem(), actions).sessions|
    requires NeverBreaksOff(c, NewSystem(), actions, id)
    ensures var s := Reached(c, NewSystem(), actions).sessions[id];
      s.login.None? && s.stage == Closed ==> s.toClient == Due(c, s.fromClient)
  {
    hide Inv, Talk, Due, Act, Can, NeverBreaksOff;
    ReachedAnswers(c, NewSystem(), actions, id);
  }

  lemma {:induction false} RunPromise(c: ServerConfig, s: SessionState)
    requires IsRun(c, s)
    ensures match s.login
      case None => StatusOnly(c, s)
      case Some(l) => ConnectedThrough(c, s, l)
  {
    hide Inv, Due, StartsWithLogin, Undelivered, Redirected, Intercept, Reads, PassedOn;
    var events :| Possible(c, NewSession(), events) && After(c, NewSession(), events) == s;
    StreamsConserved(c, events);
    if s.login.None? {
      RepliesAreDue(c, events);
    } else {
      NewSessionInv(c);
      AfterInv(c, NewSession(), events);
      LoginDecision(c, s, s.login.value);
      PassesOn(c, s, s.login.value);
      if |s.toServer| >= |Redirected(c, s.login.value.handshake)| {
        UpstreamReads(c, s, s.login.value);
      }
    }
  }

  lemma {:induction false} LoginDecision(c: ServerConfig, s: SessionState, l: LoginFrame)
    requires Inv(c, s) && s.login == Some(l)
    ensures forall more :: Intercept(c, s.fromClient + more) == Login(l.used, l.handshake, Redirected(c, l.handshake))
    ensures l.handshake.nextState == 2 && Valid(Redirect(c, l.handshake))
    ensures l.used <= |s.fromClient|
  {
    hide Flags, Exclusive, Timers, Ops, Alive, Generation, Undelivered, Intercept, StartsWithLogin, Redirected;
    LoginConserved(c, s);
    forall more
      ensures Intercept(c, s.fromClient + more) == Login(l.used, l.handshake, Redirected(c, l.handshake))
    {
      assert (s.fromClient + more)[..l.used] == s.fromClient[..l.used];
      WholeStream(c, s.fromClient + more, l);
    }
    ValidRewrite(c, s.fromClient[..l.used], l);
  }

  lemma {:induction false} ValidRewrite(c: ServerConfig, s: Bytes, l: LoginFrame)
    requires Intercept(c, s) == Login(l.used, l.handshake, l.wire)
    ensures l.handshake.nextState == 2 && Valid(Redirect(c, l.handshake))
  {
    hide ScanFrame, Parse, Frame, Payload;
  }

  lemma {:induction false} UpstreamReads(c: ServerConfig, s: SessionState, l: LoginFrame)
    requires l.used <= |s.fromClient|
    requires l.handshake.nextState == 2 && Valid(Redirect(c, l.handshake))
    requires s.toServer + Undelivered(s.outgoing, s.outWindow) == Redirected(c, l.handshake) + s.fromClient[l.used..]
    requires |s.toServer| >= |Redirected(c, l.handshake)|
    ensures Reads(s.toServer, |Redirected(c, l.handshake)|,
                  Handshake(l.handshake.protocol, c.handshakeHost, c.upstreamPort, 2))
  {
    hide ScanFrame, Parse, Frame, Payload, Undelivered, Valid;
    var sent := Redirected(c, l.handshake);
    var rest := s.toServer[|sent|..];
    assert s.toServer == sent + rest by {
      assert s.toServer[..|sent|] == (sent + s.fromClient[l.used..])[..|sent|] == sent;
    }
    SerializedHandshake(Redirect(c, l.handshake), rest);
  }
}
