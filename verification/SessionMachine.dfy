/** One client connection as a machine: its state, the functions of the session and its
    handlers as functions on that state, and every event that can happen to it. */
module SessionMachine {
  import opened Basics
  import opened Protocol
  import opened Framing
  import opened Config
  import opened Reader
  import opened Outstanding

  const SESSION_BUFFER_SIZE := 4096

  /** Where the session is: not started, queued to start, at one of the reads or writes
      of the handshake coroutine, connecting upstream, relaying, or past all of it. */
  datatype Stage =
    | Created | Spawned
    | Handshaking | StatusRequest | StatusReply | Pinging | PongReply
    | Connecting | Relaying | Closed

  /** The part of a buffer that was read but not yet delivered. */
  datatype Window = Window(lo: nat, hi: nat)

  /** The login frame that was intercepted: its length, its content, its replacement. */
  datatype LoginFrame = LoginFrame(used: nat, handshake: Handshake, wire: Bytes)

  /** The fields of the session, its outstanding operations, the local state of its
      coroutine, and the bytes that went through its two sockets so far. */
  datatype SessionState = SessionState(
    shutdownInitiated: bool,
    deadlineGeneration: uint64,
    onClosed: bool,
    sourceOpen: bool,
    destOpen: bool,
    outgoing: Bytes,
    incoming: Bytes,
    pending: seq<Op>,
    stage: Stage,
    frameStart: nat,
    reply: Bytes,
    login: Option<LoginFrame>,
    fromClient: Bytes,
    toClient: Bytes,
    fromServer: Bytes,
    toServer: Bytes,
    outWindow: Window,
    inWindow: Window,
    erasesPosted: nat)

  function Zeros(n: nat): Bytes {
    seq(n, _ => 0)
  }

  function NewSession(): SessionState {
    SessionState(false, 0, true, false, false, Zeros(SESSION_BUFFER_SIZE), Zeros(SESSION_BUFFER_SIZE), [],
            Created, 0, [], None, [], [], [], [], Window(0, 0), Window(0, 0), 0)
  }

  function Begin(s: SessionState, o: Op): SessionState {
    s.(pending := s.pending + [o])
  }

  // ---- the functions of the session ----

  function NextGeneration(g: uint64): uint64 {
    (g + 1) % TWO_TO_THE_64
  }

  function ArmDeadline(s: SessionState): SessionState {
    var g := NextGeneration(s.deadlineGeneration);
    Begin(s.(deadlineGeneration := g, pending := CancelWaits(s.pending)), Op(Wait, InFlight, g, 0))
  }

  /** End on the strand of the session; `onClosed` is called by posting an erase. */
  function End(s: SessionState): SessionState {
    if s.shutdownInitiated then s
    else s.(shutdownInitiated := true,
            deadlineGeneration := NextGeneration(s.deadlineGeneration),
            pending := CancelWaits(s.pending),
            sourceOpen := false,
            destOpen := false,
            onClosed := false,
            erasesPosted := s.erasesPosted + if s.onClosed then 1 else 0)
  }

  /** End called from another strand: dispatch runs it at once or queues it. */
  function DispatchEnd(s: SessionState, inline: bool): SessionState {
    if inline then End(s) else Begin(s, Op(EndCall, Succeeded, 0, 0))
  }

  /** The four relay operations. */
  function StartRelay(s: SessionState, kind: Kind, length: nat): SessionState {
    if s.shutdownInitiated then s else Begin(s, Op(kind, InFlight, length, 0))
  }

  // ---- the coroutine ----

  function AwaitByte(s: SessionState): SessionState {
    Begin(s, Op(CoRead, InFlight, 0, 0))
  }

  function AwaitWrite(s: SessionState, reply: Bytes): SessionState {
    Begin(s.(reply := reply), Op(CoWrite, InFlight, 0, 0))
  }

  /** Start from its first statement to its first suspension. */
  function StartCoroutine(s: SessionState): SessionState {
    if s.shutdownInitiated then s.(stage := Closed)
    else AwaitByte(ArmDeadline(s.(stage := Handshaking)))
  }

  /** Interception returned false. */
  function Finish(s: SessionState): SessionState {
    End(s.(stage := Closed))
  }

  /** An exception left the coroutine: its completion handler calls End. */
  function Throw(s: SessionState, inline: bool): SessionState {
    DispatchEnd(s.(stage := Closed), inline)
  }

  function Leave(s: SessionState, thrown: bool, inline: bool): SessionState {
    if thrown then Throw(s, inline) else Finish(s)
  }

  lemma {:induction false} LeaveByThrow(s: SessionState, inline: bool)
    ensures Leave(s, true, inline) == Throw(s, inline)
  {
  }

  lemma {:induction false} LeaveByReturn(s: SessionState, inline: bool)
    ensures Leave(s, false, inline) == Finish(s)
  {
  }

  /** The packet is in the buffer and the socket to connect is open. */
  function Stored(s: SessionState, used: nat, handshake: Handshake, wire: Bytes): SessionState
    requires |wire| <= |s.outgoing|
  {
    s.(outgoing := Overwrite(s.outgoing, 0, wire),
       outWindow := Window(0, |wire|),
       login := Some(LoginFrame(used, handshake, wire)),
       stage := Connecting,
       destOpen := true)
  }

  /** Interception returned true: the packet is stored, and Start goes on to connect
      without looking at `shutdownInitiated` again. The connect opens its socket, also
      when End has closed it. */
  function StartConnect(s: SessionState, used: nat, handshake: Handshake, wire: Bytes): SessionState
    requires |wire| <= |s.outgoing|
  {
    Begin(ArmDeadline(Stored(s, used, handshake, wire)), Op(Connect, InFlight, |wire|, 0))
  }

  /** The bytes of the frame the coroutine is reading. */
  function CurrentFrame(s: SessionState): Bytes {
    Drop(s.fromClient, s.frameStart)
  }

  /** The coroutine resumes with one more byte. */
  function ResumeRead(c: ServerConfig, s: SessionState, inline: bool): SessionState {
    var frame := CurrentFrame(s);
    match s.stage
    case Handshaking =>
      (match Intercept(c, frame)
       case Undecided => AwaitByte(s)
       case Refused(_, thrown) => Leave(s, thrown, inline)
       case StatusClient(_) => AwaitByte(s.(stage := StatusRequest, frameStart := |s.fromClient|))
       case Login(used, handshake, wire) =>
         if |wire| > |s.outgoing| then Throw(s, inline) else StartConnect(s, used, handshake, wire))
    case StatusRequest =>
      (match ScanFrame(frame, 1, 1)
       case More => AwaitByte(s)
       case Reject(_, thrown) => Leave(s, thrown, inline)
       case Body(_, body) =>
         if body[0] != 0 then Finish(s) else AwaitWrite(s.(stage := StatusReply), StatusResponse(c)))
    case Pinging =>
      (match ScanFrame(frame, 9, 9)
       case More => AwaitByte(s)
       case Reject(_, thrown) => Leave(s, thrown, inline)
       case Body(_, body) =>
         if body[0] != 1 then Finish(s) else AwaitWrite(s.(stage := PongReply), Frame(body)))
    case _ => s
  }

  /** The coroutine resumes after a complete write. */
  function ResumeWrite(s: SessionState): SessionState {
    if s.stage == StatusReply then AwaitByte(s.(stage := Pinging, frameStart := |s.fromClient|))
    else Finish(s)
  }

  // ---- the handlers ----

  function OnConnect(s: SessionState, ok: bool, length: nat, optionsSet: bool): SessionState {
    var t := s.(deadlineGeneration := NextGeneration(s.deadlineGeneration), pending := CancelWaits(s.pending));
    if t.shutdownInitiated then t.(stage := Closed)
    else if !ok || !optionsSet then End(t.(stage := Closed))
    else StartRelay(StartRelay(t.(stage := Relaying), WriteDest, length), ReadDest, 0)
  }

  /** The handler of a relay operation: on to the operation it alternates with. */
  function OnRelay(s: SessionState, ok: bool, next: Kind, length: nat): SessionState {
    if ok then StartRelay(s, next, length) else End(s)
  }

  function OnWait(s: SessionState, ok: bool, generation: nat): SessionState {
    if ok && generation == s.deadlineGeneration then End(s) else s
  }

  /** The handler of `o`, which is no longer outstanding. `choice` is what the handler
      meets: whether the socket options can be set, or whether the completion handler of
      the coroutine runs at once. */
  function Handle(c: ServerConfig, s: SessionState, o: Op, choice: bool): SessionState {
    var ok := o.status == Succeeded;
    match o.kind
    case CoStart => StartCoroutine(s)
    case CoRead => if ok then ResumeRead(c, s, choice) else Throw(s, choice)
    case CoWrite => if ok then ResumeWrite(s) else Throw(s, choice)
    case Connect => OnConnect(s, ok, o.arg, choice)
    case ReadSource => OnRelay(s, ok, WriteDest, o.arg)
    case WriteDest => OnRelay(s, ok, ReadSource, 0)
    case ReadDest => OnRelay(s, ok, WriteSource, o.arg)
    case WriteSource => OnRelay(s, ok, ReadDest, 0)
    case Wait => OnWait(s, ok, o.arg)
    case EndCall => End(s)
  }

  // ---- what can happen ----

  /** The environment completes or advances an operation, a strand runs the handler of a
      completed one, or the server starts or ends the session. */
  datatype Event =
    | Arrive(i: nat, data: Bytes)
    | Deliver(i: nat, n: nat)
    | Connected(i: nat)
    | Expire(i: nat)
    | Fail(i: nat)
    | Run(i: nat, choice: bool)
    | Spawn(inline: bool)
    | CallEnd(inline: bool)

  predicate IsRead(k: Kind) {
    k == CoRead || k == ReadSource || k == ReadDest
  }

  predicate IsWrite(k: Kind) {
    k == CoWrite || k == WriteSource || k == WriteDest
  }

  predicate OnSource(k: Kind) {
    k == CoRead || k == CoWrite || k == ReadSource || k == WriteSource
  }

  /** The socket of a read or write is open. */
  predicate SocketOpen(s: SessionState, k: Kind) {
    if OnSource(k) then s.sourceOpen else s.destOpen
  }

  function ReadLimit(k: Kind): nat {
    if k == CoRead then 1 else SESSION_BUFFER_SIZE
  }

  function WriteLength(s: SessionState, o: Op): nat {
    if o.kind == CoWrite then |s.reply| else o.arg
  }

  predicate InFlightAt(s: SessionState, i: nat) {
    i < |s.pending| && s.pending[i].status == InFlight
  }

  predicate Enabled(s: SessionState, e: Event) {
    match e
    case Arrive(i, data) =>
      && InFlightAt(s, i) && IsRead(s.pending[i].kind) && SocketOpen(s, s.pending[i].kind)
      && 1 <= |data| <= ReadLimit(s.pending[i].kind)
    case Deliver(i, n) =>
      && InFlightAt(s, i) && IsWrite(s.pending[i].kind) && SocketOpen(s, s.pending[i].kind)
      && 1 <= n && s.pending[i].done + n <= WriteLength(s, s.pending[i])
    case Connected(i) => InFlightAt(s, i) && s.pending[i].kind == Connect && s.destOpen
    case Expire(i) => InFlightAt(s, i) && s.pending[i].kind == Wait
    case Fail(i) =>
      InFlightAt(s, i) && (IsRead(s.pending[i].kind) || IsWrite(s.pending[i].kind) || s.pending[i].kind == Connect)
    case Run(i, _) => i < |s.pending| && s.pending[i].status != InFlight
    case Spawn(_) => s.stage == Created && !s.shutdownInitiated
    case CallEnd(_) => true
  }

  /** The steps of the session itself; the others are calls from the server. */
  predicate Own(e: Event) {
    !e.Spawn? && !e.CallEnd?
  }

  function Complete(s: SessionState, i: nat, o: Op): SessionState
    requires i < |s.pending|
  {
    s.(pending := s.pending[i := o])
  }

  /** Bytes arrive in the buffer of a read. */
  function Receive(s: SessionState, i: nat, data: Bytes): SessionState
    requires i < |s.pending|
  {
    var o := s.pending[i];
    var t := Complete(s, i, o.(status := Succeeded, arg := |data|));
    match o.kind
    case ReadSource =>
      t.(fromClient := s.fromClient + data,
         outgoing := if |data| <= |s.outgoing| then Overwrite(s.outgoing, 0, data) else s.outgoing,
         outWindow := Window(0, |data|))
    case ReadDest =>
      t.(fromServer := s.fromServer + data,
         incoming := if |data| <= |s.incoming| then Overwrite(s.incoming, 0, data) else s.incoming,
         inWindow := Window(0, |data|))
    case _ => t.(fromClient := s.fromClient + data)
  }

  function Slice(s: Bytes, from: nat, n: nat): Bytes {
    if from + n <= |s| then s[from..from + n] else []
  }

  /** The next `n` bytes of a write leave, taken from the buffer as it is now. */
  function Send(s: SessionState, i: nat, n: nat): SessionState
    requires i < |s.pending|
  {
    var o := s.pending[i];
    var to := o.done + n;
    var t := Complete(s, i, o.(done := to, status := if to == WriteLength(s, o) then Succeeded else InFlight));
    match o.kind
    case WriteDest =>
      t.(toServer := s.toServer + Slice(s.outgoing, o.done, n), outWindow := Window(to, o.arg))
    case WriteSource =>
      t.(toClient := s.toClient + Slice(s.incoming, o.done, n), inWindow := Window(to, o.arg))
    case _ => t.(toClient := s.toClient + Slice(s.reply, o.done, n))
  }

  function Step(c: ServerConfig, s: SessionState, e: Event): SessionState
    requires Enabled(s, e)
  {
    match e
    case Arrive(i, data) => Receive(s, i, data)
    case Deliver(i, n) => Send(s, i, n)
    case Connected(i) => Complete(s, i, s.pending[i].(status := Succeeded))
    case Expire(i) => Complete(s, i, s.pending[i].(status := Succeeded))
    case Fail(i) => Complete(s, i, s.pending[i].(status := Failed))
    case Run(i, choice) => Handle(c, s.(pending := Remove(s.pending, i)), s.pending[i], choice)
    case Spawn(inline) =>
      var t := s.(stage := Spawned, sourceOpen := true);
      if inline then StartCoroutine(t) else Begin(t, Op(CoStart, Succeeded, 0, 0))
    case CallEnd(inline) => DispatchEnd(s, inline)
  }

  /** A run: events, each enabled when it happens. */
  predicate Possible(c: ServerConfig, s: SessionState, events: seq<Event>)
    decreases |events|
  {
    events == [] || (Enabled(s, events[0]) && Possible(c, Step(c, s, events[0]), events[1..]))
  }

  function After(c: ServerConfig, s: SessionState, events: seq<Event>): SessionState
    requires Possible(c, s, events)
    decreases |events|
  {
    if events == [] then s else After(c, Step(c, s, events[0]), events[1..])
  }

  lemma {:induction false} AfterOneMore(c: ServerConfig, s: SessionState, events: seq<Event>, e: Event)
    requires Possible(c, s, events) && Enabled(After(c, s, events), e)
    ensures Possible(c, s, events + [e])
    ensures After(c, s, events + [e]) == Step(c, After(c, s, events), e)
    decreases |events|
  {
    hide Enabled, Step;
    if events == [] {
      assert events + [e] == [e];
      assert Possible(c, Step(c, s, e), [e][1..]);
    } else {
      assert (events + [e])[1..] == events[1..] + [e];
      AfterOneMore(c, Step(c, s, events[0]), events[1..], e);
    }
  }
}
