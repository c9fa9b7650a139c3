/** End is not always the last word on the upstream socket: when it is, and when a connect
    opens the socket again. */
module UpstreamSocket {
  import opened Basics
  import opened Config
  import opened Framing
  import opened Reader
  import opened Outstanding
  import opened SessionMachine
  import opened SessionInvariants
  import opened SessionTheorems

  /** The coroutine has the last byte of a login frame and only waits to resume. */
  ghost predicate LoginQueued(c: ServerConfig, s: SessionState) {
    && s.stage == Handshaking
    && (exists o :: o in s.pending && IsReadDone(o))
    && Intercept(c, CurrentFrame(s)).Login?
  }

  predicate IsReadDone(o: Op) {
    o.kind == CoRead && o.status == Succeeded
  }

  // ---- one step ----

  /** The one step that opens the socket of a session that was shut down. */
  ghost predicate TakesLogin(c: ServerConfig, s: SessionState, e: Event)
    requires Enabled(s, e)
  {
    e.Run? && IsReadDone(s.pending[e.i]) && s.stage == Handshaking && Intercept(c, CurrentFrame(s)).Login?
  }

  lemma {:induction false} OpensExactly(c: ServerConfig, s: SessionState, e: Event)
    requires Inv(c, s) && s.shutdownInitiated && !s.destOpen && Enabled(s, e)
    ensures Step(c, s, e).destOpen <==> TakesLogin(c, s, e)
  {
    hide Intercept, ScanFrame, Tags, Timers, Streams, Ops, Alive, Generation, Exclusive, CancelWaits, StatusResponse;
    LoginStored(c, s);
  }

  // ---- no step makes another one possible ----

  /** If `t` is still handshaking it waits with the same bytes, and for no new read. */
  ghost predicate NoNewRead(s: SessionState, t: SessionState) {
    t.stage == Handshaking ==>
      && s.stage == Handshaking && t.frameStart == s.frameStart && t.fromClient == s.fromClient
      && forall o :: o in t.pending && IsReadDone(o) ==> o in s.pending
  }

  lemma {:induction false} NoNewLogin(c: ServerConfig, s: SessionState, t: SessionState)
    requires NoNewRead(s, t) && LoginQueued(c, t)
    ensures LoginQueued(c, s)
  {
    hide Intercept;
  }

  /** Handlers that leave the coroutine alone. */
  lemma {:induction false} HandledNoRead(c: ServerConfig, s: SessionState, o: Op, choice: bool)
    requires s.shutdownInitiated && o.kind != CoRead
    requires TagOf(o) == Control ==> s.stage != Handshaking || o.kind == CoStart
    ensures NoNewRead(s, Handle(c, s, o, choice))
  {
    hide CancelWaits;
  }

  /** The coroutine resumes and at best waits for a byte that cannot come. */
  lemma {:induction false} ResumedNoRead(c: ServerConfig, s: SessionState, o: Op, choice: bool)
    requires o.kind == CoRead && Quiet(s)
    ensures NoNewRead(s, Handle(c, s, o, choice))
  {
    hide Intercept, ScanFrame, StatusResponse, CurrentFrame, Quiet, Leave, Throw, Finish, StartConnect;
    StillQuiet(s);
    LeftHandshake(s, choice);
  }

  lemma {:induction false} LeftHandshake(s: SessionState, inline: bool)
    ensures Throw(s, inline).stage == Finish(s).stage == Closed
    ensures forall thrown :: Leave(s, thrown, inline).stage == Closed
    ensures forall used, h, wire :: |wire| <= |s.outgoing| ==> StartConnect(s, used, h, wire).stage == Connecting
  {
    hide CancelWaits, Overwrite;
  }

  lemma {:induction false} StillQuiet(s: SessionState)
    requires Quiet(s)
    ensures forall o :: o in AwaitByte(s).pending ==> !IsReadDone(o)
  {
  }

  lemma {:induction false} RunNoRead(c: ServerConfig, s: SessionState, i: nat, choice: bool)
    requires i < |s.pending| && Inv(c, s) && s.shutdownInitiated
    ensures NoNewRead(s, Handle(c, Without(s, i), s.pending[i], choice))
  {
    var o, t := s.pending[i], Without(s, i);
    hide Inv, Core, Tags, OpOk, Remove, Quiet, Handle;
    RemovedMembers(s.pending, i);
    TakeOut(c, s, i);
    if o.kind == CoRead {
      ResumedNoRead(c, t, o, choice);
    } else {
      HandledNoRead(c, t, o, choice);
    }
  }

  lemma {:induction false} CompletedNoRead(s: SessionState, i: nat, o: Op)
    requires i < |s.pending| && !IsReadDone(o)
    ensures NoNewRead(s, Complete(s, i, o))
  {
    forall p | p in s.pending[i := o] && IsReadDone(p)
      ensures p in s.pending
    {
      var k :| 0 <= k < |s.pending| && s.pending[i := o][k] == p;
      assert s.pending[k] == p;
    }
  }

  lemma {:induction false} StepNoRead(c: ServerConfig, s: SessionState, e: Event)
    requires Inv(c, s) && s.shutdownInitiated && Enabled(s, e)
    ensures NoNewRead(s, Step(c, s, e))
  {
    ClosedForTraffic(c, s, e);
    hide Inv, Handle, Complete, Remove, Receive, Send, StartCoroutine, NoNewRead;
    match e
    case Run(i, choice) => RunNoRead(c, s, i, choice);
    case Connected(i) => CompletedNoRead(s, i, s.pending[i].(status := Succeeded));
    case Expire(i) => CompletedNoRead(s, i, s.pending[i].(status := Succeeded));
    case Fail(i) => CompletedNoRead(s, i, s.pending[i].(status := Failed));
    case CallEnd(inline) => CalledNoRead(s, inline);
    case _ =>
  }

  lemma {:induction false} CalledNoRead(s: SessionState, inline: bool)
    requires s.shutdownInitiated
    ensures NoNewRead(s, DispatchEnd(s, inline))
  {
  }

  // ---- whole runs ----

  /** Some run from here has the upstream socket open at its end. */
  ghost predicate CanReopen(c: ServerConfig, s: SessionState) {
    exists events :: Possible(c, s, events) && After(c, s, events).destOpen
  }

  lemma {:induction false} ReopensOnlyIf(c: ServerConfig, s: SessionState, events: seq<Event>)
    requires Inv(c, s) && s.shutdownInitiated && !s.destOpen
    requires Possible(c, s, events) && After(c, s, events).destOpen
    ensures LoginQueued(c, s)
    decreases |events|
  {
    if events != [] {
      hide Inv, Enabled, Step, LoginQueued, NoNewRead, SameTraffic;
      var e := events[0];
      var t := Step(c, s, e);
      if t.destOpen {
        OpensExactly(c, s, e);
        TakesQueued(c, s, e);
      } else {
        StepInv(c, s, e);
        StillShutDown(c, s, e);
        ReopensOnlyIf(c, t, events[1..]);
        StepNoRead(c, s, e);
        NoNewLogin(c, s, t);
      }
    }
  }

  lemma {:induction false} TakesQueued(c: ServerConfig, s: SessionState, e: Event)
    requires Enabled(s, e) && TakesLogin(c, s, e)
    ensures LoginQueued(c, s)
  {
    hide Intercept;
    assert s.pending[e.i] in s.pending;
  }

  /** After a shutdown the socket can be open again in some run exactly when the coroutine
      has a complete login frame and only waits to resume. */
  lemma {:induction false} ReopensExactly(c: ServerConfig, s: SessionState)
    requires Inv(c, s) && s.shutdownInitiated && !s.destOpen
    ensures CanReopen(c, s) <==> LoginQueued(c, s)
  {
    hide Inv;
    if CanReopen(c, s) {
      var events :| Possible(c, s, events) && After(c, s, events).destOpen;
      ReopensOnlyIf(c, s, events);
    }
    if LoginQueued(c, s) {
      Reopens(c, s);
    }
  }

  lemma {:induction false} Reopens(c: ServerConfig, s: SessionState)
    requires Inv(c, s) && s.shutdownInitiated && !s.destOpen && LoginQueued(c, s)
    ensures CanReopen(c, s)
  {
    hide Inv, Intercept;
    var o :| o in s.pending && IsReadDone(o);
    var i :| 0 <= i < |s.pending| && s.pending[i] == o;
    var e := Run(i, true);
    assert Enabled(s, e);
    OpensExactly(c, s, e);
    hide Enabled, Step;
    assert Possible(c, Step(c, s, e), [e][1..]);
    assert Possible(c, s, [e]) && After(c, s, [e]) == Step(c, s, e);
  }

  /** So whoever calls End can tell beforehand whether it closes the socket for good. */
  lemma {:induction false} EndCloses(c: ServerConfig, s: SessionState)
    requires Inv(c, s) && !s.shutdownInitiated
    ensures CanReopen(c, End(s)) <==> LoginQueued(c, s)
  {
    hide Inv, LoginQueued, CancelWaits, CanReopen;
    StepInv(c, s, CallEnd(true));
    EndQueued(c, s);
    ReopensExactly(c, End(s));
  }

  lemma {:induction false} EndQueued(c: ServerConfig, s: SessionState)
    ensures LoginQueued(c, End(s)) <==> LoginQueued(c, s)
  {
    hide Intercept;
    forall o | IsReadDone(o)
      ensures o in CancelWaits(s.pending) <==> o in s.pending
    {
      SameReads(s.pending, o);
    }
  }

  lemma {:induction false} SameReads(ops: seq<Op>, o: Op)
    requires IsReadDone(o)
    ensures o in CancelWaits(ops) <==> o in ops
  {
    if o in ops {
      var k :| 0 <= k < |ops| && ops[k] == o;
      assert CancelWaits(ops)[k] == o;
    }
    if o in CancelWaits(ops) {
      var k :| 0 <= k < |ops| && CancelWaits(ops)[k] == o;
      assert ops[k] == o;
    }
  }
}
