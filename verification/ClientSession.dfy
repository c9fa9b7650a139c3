/** The session object: its methods and handlers as they are written, against the
    functions of the session machine. */
module ClientSession {
  import opened Basics
  import opened Config
  import opened Protocol
  import opened Framing
  import Machine = SessionMachine
  import opened Outstanding
  import opened Reader
  import SystemMachine

  /** What is posted to the strand of the server. */
  class Strand {
    var tasks: seq<SystemMachine.Task>

    constructor ()
      ensures tasks == []
    {
      tasks := [];
    }

    method Post(t: SystemMachine.Task)
      modifies this
      ensures tasks == old(tasks) + [t]
    {
      tasks := tasks + [t];
    }
  }

  /** One client connection. The callback, while there is one, posts the erase of this
      session to the strand of the server. The ghost fields are the history the machine
      speaks of. */
  class Session {
    const id: nat
    const config: ServerConfig
    const strand: Strand
    const outgoingBuffer: array<byte>
    const incomingBuffer: array<byte>
    var shutdownInitiated: bool
    var deadlineGeneration: uint64
    var onClosed: bool
    var sourceOpen: bool
    var destOpen: bool
    var pending: seq<Op>
    var stage: Machine.Stage
    var frameStart: nat
    var reply: Bytes
    var fromClient: Bytes
    ghost var login: Option<Machine.LoginFrame>
    ghost var toClient: Bytes
    ghost var fromServer: Bytes
    ghost var toServer: Bytes
    ghost var outWindow: Machine.Window
    ghost var inWindow: Machine.Window
    ghost var erasesPosted: nat

    constructor (id: nat, config: ServerConfig, strand: Strand)
      ensures this.id == id && this.config == config && this.strand == strand
      ensures fresh(outgoingBuffer) && fresh(incomingBuffer) && Valid()
      ensures outgoingBuffer.Length == incomingBuffer.Length == 4096
      ensures State() == Machine.NewSession()
    {
      this.id, this.config, this.strand := id, config, strand;
      outgoingBuffer := new byte[Machine.SESSION_BUFFER_SIZE](_ => 0);
      incomingBuffer := new byte[Machine.SESSION_BUFFER_SIZE](_ => 0);
      shutdownInitiated, deadlineGeneration, onClosed := false, 0, true;
      sourceOpen, destOpen, pending := false, false, [];
      stage, frameStart, reply, fromClient := Machine.Created, 0, [], [];
      login, toClient, fromServer, toServer := None, [], [], [];
      outWindow, inWindow, erasesPosted := Machine.Window(0, 0), Machine.Window(0, 0), 0;
      new;
      assert outgoingBuffer[..] == Machine.Zeros(Machine.SESSION_BUFFER_SIZE);
      assert incomingBuffer[..] == Machine.Zeros(Machine.SESSION_BUFFER_SIZE);
    }

    predicate Valid() {
      && outgoingBuffer.Length == incomingBuffer.Length == Machine.SESSION_BUFFER_SIZE
      && outgoingBuffer != incomingBuffer
    }

    ghost function State(): Machine.SessionState
      reads this, outgoingBuffer, incomingBuffer
    {
      Machine.SessionState(
        shutdownInitiated, deadlineGeneration, onClosed, sourceOpen, destOpen,
        outgoingBuffer[..], incomingBuffer[..], pending, stage, frameStart, reply, login,
        fromClient, toClient, fromServer, toServer, outWindow, inWindow, erasesPosted)
    }

    /** The erase of this session, if it was posted between two states. */
    function Erases(before: Machine.SessionState, after: Machine.SessionState): seq<SystemMachine.Task> {
      if after.erasesPosted > before.erasesPosted then [SystemMachine.Erase(id)] else []
    }

    method Begin(kind: Kind, status: Status, arg: nat)
      modifies this`pending
      ensures State() == Machine.Begin(old(State()), Op(kind, status, arg, 0))
    {
      pending := pending + [Op(kind, status, arg, 0)];
    }

    method ArmDeadline()
      modifies this`pending, this`deadlineGeneration
      ensures State() == Machine.ArmDeadline(old(State()))
    {
      deadlineGeneration := Machine.NextGeneration(deadlineGeneration);
      var generation := deadlineGeneration;
      pending := CancelWaits(pending);
      Begin(Wait, InFlight, generation);
    }

    /** on_closed_, moved out of the session and called. */
    method NotifyClosed()
      modifies this`onClosed, this`erasesPosted, strand
      ensures State() == old(State()).(onClosed := false,
                                       erasesPosted := old(erasesPosted) + if old(onClosed) then 1 else 0)
      ensures strand.tasks == old(strand.tasks) + Erases(old(State()), State())
    {
      if onClosed {
        onClosed := false;
        strand.Post(SystemMachine.Erase(id));
        erasesPosted := erasesPosted + 1;
      }
    }

    /** Cancelling the deadline and closing both sockets. */
    method CloseSockets()
      modifies this`shutdownInitiated, this`deadlineGeneration, this`pending, this`sourceOpen, this`destOpen
      ensures State() == old(State()).(shutdownInitiated := true,
                                       deadlineGeneration := Machine.NextGeneration(old(deadlineGeneration)),
                                       pending := CancelWaits(old(pending)),
                                       sourceOpen := false,
                                       destOpen := false)
    {
      hide CancelWaits, Machine.NextGeneration;
      shutdownInitiated := true;
      deadlineGeneration := Machine.NextGeneration(deadlineGeneration);
      pending := CancelWaits(pending);
      sourceOpen := false;
      destOpen := false;
    }

    /** The part of End that runs on the strand of the session. */
    method EndOnStrand()
      modifies this, strand
      ensures State() == Machine.End(old(State()))
      ensures strand.tasks == old(strand.tasks) + Erases(old(State()), State())
    {
      StateFields();
      hide CancelWaits, Machine.NextGeneration, State;
      if shutdownInitiated {
        return;
      }
      CloseSockets();
      StateFields();
      NotifyClosed();
    }

    lemma {:induction false} StateFields()
      ensures var s := State();
        && s.shutdownInitiated == shutdownInitiated && s.deadlineGeneration == deadlineGeneration
        && s.pending == pending && s.onClosed == onClosed && s.erasesPosted == erasesPosted
        && s.stage == stage && s.frameStart == frameStart && s.fromClient == fromClient
    {
    }

    /** `running` is the answer of the strand to running_in_this_thread; `inline` is what
        a dispatch from elsewhere does. */
    method End(running: bool, inline: bool)
      modifies this, strand
      ensures State() == if running then Machine.End(old(State())) else Machine.DispatchEnd(old(State()), inline)
      ensures strand.tasks == old(strand.tasks) + Erases(old(State()), State())
    {
      hide Machine.End;
      if running || inline {
        EndOnStrand();
      } else {
        Begin(EndCall, Succeeded, 0);
      }
    }

    method WriteSource(read: nat)
      modifies this`pending
      ensures State() == Machine.StartRelay(old(State()), Kind.WriteSource, read)
    {
      if shutdownInitiated {
        return;
      }
      Begin(Kind.WriteSource, InFlight, read);
    }

    method ReadSource()
      modifies this`pending
      ensures State() == Machine.StartRelay(old(State()), Kind.ReadSource, 0)
    {
      if shutdownInitiated {
        return;
      }
      Begin(Kind.ReadSource, InFlight, 0);
    }

    method WriteDest(read: nat)
      modifies this`pending
      ensures State() == Machine.StartRelay(old(State()), Kind.WriteDest, read)
    {
      if shutdownInitiated {
        return;
      }
      Begin(Kind.WriteDest, InFlight, read);
    }

    method ReadDest()
      modifies this`pending
      ensures State() == Machine.StartRelay(old(State()), Kind.ReadDest, 0)
    {
      if shutdownInitiated {
        return;
      }
      Begin(Kind.ReadDest, InFlight, 0);
    }

    // ---- the handlers ----

    method OnWriteSource(ok: bool)
      modifies this, strand
      ensures State() == Machine.OnRelay(old(State()), ok, Kind.ReadDest, 0)
      ensures strand.tasks == old(strand.tasks) + Erases(old(State()), State())
    {
      if !ok {
        End(true, true);
      } else {
        ReadDest();
      }
    }

    method OnReadSource(ok: bool, bytesRead: nat)
      modifies this, strand
      ensures State() == Machine.OnRelay(old(State()), ok, Kind.WriteDest, bytesRead)
      ensures strand.tasks == old(strand.tasks) + Erases(old(State()), State())
    {
      if !ok {
        End(true, true);
      } else {
        WriteDest(bytesRead);
      }
    }

    method OnWriteDest(ok: bool)
      modifies this, strand
      ensures State() == Machine.OnRelay(old(State()), ok, Kind.ReadSource, 0)
      ensures strand.tasks == old(strand.tasks) + Erases(old(State()), State())
    {
      if !ok {
        End(true, true);
      } else {
        ReadSource();
      }
    }

    method OnReadDest(ok: bool, bytesRead: nat)
      modifies this, strand
      ensures State() == Machine.OnRelay(old(State()), ok, Kind.WriteSource, bytesRead)
      ensures strand.tasks == old(strand.tasks) + Erases(old(State()), State())
    {
      if !ok {
        End(true, true);
      } else {
        WriteSource(bytesRead);
      }
    }

    method OnWait(ok: bool, generation: nat)
      modifies this, strand
      ensures State() == Machine.OnWait(old(State()), ok, generation)
      ensures strand.tasks == old(strand.tasks) + Erases(old(State()), State())
    {
      if ok && generation == deadlineGeneration {
        End(true, true);
      }
    }

    method OnConnect(ok: bool, wrote: nat, optionsSet: bool)
      modifies this, strand
      ensures State() == Machine.OnConnect(old(State()), ok, wrote, optionsSet)
      ensures strand.tasks == old(strand.tasks) + Erases(old(State()), State())
    {
      deadlineGeneration := Machine.NextGeneration(deadlineGeneration);
      pending := CancelWaits(pending);
      if shutdownInitiated {
        stage := Machine.Closed;
        return;
      }
      if !ok {
        stage := Machine.Closed;
        End(true, true);
      } else {
        if !optionsSet {
          stage := Machine.Closed;
          End(true, true);
          return;
        }
        stage := Machine.Relaying;
        WriteDest(wrote);
        ReadDest();
      }
    }

    // ---- the coroutine ----

    /** Start up to its first suspension, in the reader. */
    method Start()
      modifies this`stage, this`pending, this`deadlineGeneration
      ensures State() == Machine.StartCoroutine(old(State()))
    {
      hide CancelWaits;
      if shutdownInitiated {
        stage := Machine.Closed;
        return;
      }
      stage := Machine.Handshaking;
      ArmDeadline();
      Begin(CoRead, InFlight, 0);
    }

    /** co_spawn of Start on the strand of the session. */
    method Spawn(inline: bool)
      requires Machine.Enabled(State(), Machine.Spawn(inline))
      modifies this
      ensures State() == Machine.Step(config, old(State()), Machine.Spawn(inline))
      ensures erasesPosted == old(erasesPosted)
    {
      hide Machine.StartCoroutine;
      sourceOpen := true;
      stage := Machine.Spawned;
      if inline {
        Start();
      } else {
        Begin(CoStart, Succeeded, 0);
      }
    }

    /** Leaving the coroutine: by an exception, which its completion handler answers with
        End, or because interception returned false. */
    method Leave(thrown: bool, inline: bool)
      modifies this, strand
      ensures State() == Machine.Leave(old(State()), thrown, inline)
      ensures strand.tasks == old(strand.tasks) + Erases(old(State()), State())
    {
      hide Machine.End;
      stage := Machine.Closed;
      if thrown {
        End(false, inline);
      } else {
        End(true, true);
      }
    }

    /** The rest of Start after a successful interception. */
    method Connect(used: nat, handshake: Handshake, wire: Bytes)
      requires Valid() && |wire| <= outgoingBuffer.Length
      modifies this, outgoingBuffer
      ensures State() == Machine.StartConnect(old(State()), used, handshake, wire)
      ensures erasesPosted == old(erasesPosted)
    {
      Store(used, handshake, wire);
      hide State, Overwrite, Machine.ArmDeadline;
      ArmDeadline();
      Begin(Kind.Connect, InFlight, |wire|);
    }

    /** The packet the reader left in the buffer, and the socket a connect opens. */
    method Store(used: nat, handshake: Handshake, wire: Bytes)
      requires Valid() && |wire| <= outgoingBuffer.Length
      modifies this`stage, this`login, this`outWindow, this`destOpen, outgoingBuffer
      ensures State() == Machine.Stored(old(State()), used, handshake, wire)
    {
      hide Overwrite;
      Copy(outgoingBuffer, 0, wire);
      outWindow := Machine.Window(0, |wire|);
      login := Some(Machine.LoginFrame(used, handshake, wire));
      stage := Machine.Connecting;
      destOpen := true;
    }

    /** The coroutine resumes in the handshake frame with one more byte. */
    method ResumeHandshake(inline: bool)
      requires Valid() && stage == Machine.Handshaking
      modifies this, strand, outgoingBuffer
      ensures State() == Machine.ResumeRead(config, old(State()), inline)
      ensures strand.tasks == old(strand.tasks) + Erases(old(State()), State())
    {
      hide CancelWaits, Overwrite, Intercept, Machine.Leave, Machine.StartConnect;
      match Intercept(config, Drop(fromClient, frameStart))
      case Undecided =>
        Begin(CoRead, InFlight, 0);
      case Refused(_, thrown) =>
        Leave(thrown, inline);
      case StatusClient(_) =>
        stage := Machine.StatusRequest;
        frameStart := |fromClient|;
        Begin(CoRead, InFlight, 0);
      case Login(used, handshake, wire) =>
        if |wire| > outgoingBuffer.Length {
          Leave(true, inline);
          Machine.LeaveByThrow(old(State()), inline);
        } else {
          Connect(used, handshake, wire);
        }
    }

    /** The coroutine suspends in a write. */
    method Answer(next: Machine.Stage, reply: Bytes)
      modifies this`stage, this`reply, this`pending
      ensures State() == Machine.AwaitWrite(old(State()).(stage := next), reply)
    {
      stage := next;
      this.reply := reply;
      Begin(CoWrite, InFlight, 0);
    }

    /** The coroutine resumes in the status request with one more byte. */
    method ResumeRequest(inline: bool)
      requires stage == Machine.StatusRequest
      modifies this, strand
      ensures State() == Machine.ResumeRead(config, old(State()), inline)
      ensures strand.tasks == old(strand.tasks) + Erases(old(State()), State())
    {
      StateFields();
      hide State, CancelWaits, ScanFrame, Machine.Leave, Frame, StatusResponse;
      match ScanFrame(Drop(fromClient, frameStart), 1, 1)
      case More =>
        Begin(CoRead, InFlight, 0);
      case Reject(_, thrown) =>
        Leave(thrown, inline);
      case Body(_, body) =>
        if body[0] != 0 {
          Leave(false, inline);
          Machine.LeaveByReturn(old(State()), inline);
        } else {
          Answer(Machine.StatusReply, StatusResponse(config));
        }
    }

    /** The coroutine resumes in the ping with one more byte. */
    method ResumePing(inline: bool)
      requires stage == Machine.Pinging
      modifies this, strand
      ensures State() == Machine.ResumeRead(config, old(State()), inline)
      ensures strand.tasks == old(strand.tasks) + Erases(old(State()), State())
    {
      StateFields();
      hide State, CancelWaits, ScanFrame, Machine.Leave, Frame, StatusResponse;
      match ScanFrame(Drop(fromClient, frameStart), 9, 9)
      case More =>
        Begin(CoRead, InFlight, 0);
      case Reject(_, thrown) =>
        Leave(thrown, inline);
      case Body(_, body) =>
        if body[0] != 1 {
          Leave(false, inline);
          Machine.LeaveByReturn(old(State()), inline);
        } else {
          Answer(Machine.PongReply, Frame(body));
        }
    }

    /** The coroutine resumes after a complete write. */
    method ResumeWrite()
      modifies this, strand
      ensures State() == Machine.ResumeWrite(old(State()))
      ensures strand.tasks == old(strand.tasks) + Erases(old(State()), State())
    {
      hide CancelWaits, Machine.Finish;
      if stage == Machine.StatusReply {
        stage := Machine.Pinging;
        frameStart := |fromClient|;
        Begin(CoRead, InFlight, 0);
      } else {
        Leave(false, true);
        Machine.LeaveByReturn(old(State()), true);
      }
    }

    /** A thread of the event loop runs the handler of the completed operation at `i`. */
    method RunHandler(i: nat, choice: bool)
      requires Valid() && Machine.Enabled(State(), Machine.Run(i, choice))
      modifies this, strand, outgoingBuffer
      ensures State() == Machine.Step(config, old(State()), Machine.Run(i, choice))
      ensures strand.tasks == old(strand.tasks) + Erases(old(State()), State())
    {
      hide CancelWaits, Machine.ResumeRead, Machine.ResumeWrite, Machine.StartCoroutine, Machine.OnConnect,
           Machine.OnRelay, Machine.OnWait, Machine.End, Machine.Throw;
      var o := pending[i];
      var ok := o.status == Succeeded;
      pending := Remove(pending, i);
      match o.kind
      case CoStart => Start();
      case CoRead =>
        if ok {
          ResumeCoroutine(choice);
        } else {
          Throw(choice);
        }
      case CoWrite =>
        if ok {
          ResumeWrite();
        } else {
          Throw(choice);
        }
      case Connect => OnConnect(ok, o.arg, choice);
      case ReadSource => OnReadSource(ok, o.arg);
      case WriteDest => OnWriteDest(ok);
      case ReadDest => OnReadDest(ok, o.arg);
      case WriteSource => OnWriteSource(ok);
      case Wait => OnWait(ok, o.arg);
      case EndCall => End(true, true);
    }

    method ResumeCoroutine(inline: bool)
      requires Valid()
      modifies this, strand, outgoingBuffer
      ensures State() == Machine.ResumeRead(config, old(State()), inline)
      ensures strand.tasks == old(strand.tasks) + Erases(old(State()), State())
    {
      if stage == Machine.Handshaking {
        ResumeHandshake(inline);
      } else if stage == Machine.StatusRequest {
        ResumeRequest(inline);
      } else if stage == Machine.Pinging {
        ResumePing(inline);
      }
    }

    method Throw(inline: bool)
      modifies this, strand
      ensures State() == Machine.Throw(old(State()), inline)
      ensures strand.tasks == old(strand.tasks) + Erases(old(State()), State())
    {
      hide Machine.Throw;
      Leave(true, inline);
      Machine.LeaveByThrow(old(State()), inline);
    }
  }
}
