/**
 The shared encoder threads and the connections that start, feed from and stop them, as a transition
 system. Every acquisition, release and unprotected access of shared data is a step of its own, so a
 run is any interleaving of any number of connections and of every encoder thread ever created.
 */
module EncoderLifecycle {
  import opened RtspCommands

  /** A connection, and an encoder thread: the slot it was started in and the launch it belongs to. */
  type Cid = nat
  datatype Tid = Tid(generation: nat, slot: int)

  // ---------------------------------------------------------------- configuration

  /**
   What is started and what is joined: `vencoders` video encoders, and slots of `channels` video
   channels; audio is started when an encoder is registered and joined when compiled in. And what may
   happen while a client's socket is open: that the write of a frame's payload fails, and that the
   client stops reading, so that writes to it do not return.
   */
  datatype Config = Config(
    vencoders: nat, aencoder: bool, channels: nat, audio: bool,
    payloadMayFail: bool, peersMayStall: bool)
  {
    /** Every thread that is started has a slot that is joined. */
    predicate Valid()
    {
      vencoders <= channels && (aencoder ==> audio)
    }

    /** The stream a thread sends on. */
    function Channel(slot: int): nat
    {
      if slot < 0 then channels else slot
    }

    /** Some thread is started that has a stream to send on. */
    predicate Sends()
    {
      vencoders > 0 || (aencoder && channels < RTSP_CHANNEL_MAX)
    }

    /** Two such threads are started. */
    predicate SendsTwice()
    {
      vencoders > 1 || (vencoders > 0 && aencoder && channels < RTSP_CHANNEL_MAX)
    }

    function Launches(): nat
    {
      vencoders + if aencoder then 1 else 0
    }

    function Joins(): nat
    {
      channels + if audio then 1 else 0
    }

    function LaunchSlot(k: nat): int
    {
      if k < vencoders then k else AUDIO_SLOT
    }

    function JoinSlot(k: nat): int
    {
      if k < channels then k else AUDIO_SLOT
    }

    /** When a started thread's slot is joined. */
    function JoinIndex(slot: int): int
    {
      if slot == AUDIO_SLOT then channels else slot
    }
  }

  const AUDIO_SLOT: int := -1

  // ---------------------------------------------------------------- states

  /** Where a thread is while it holds the write lock. */
  datatype Stage =
    | Registering             // about to look at the client map
    | Launching(k: nat)       // found it empty; k encoder threads started
    | Inserting
    | LeavingRegister         // about to release the lock
    | Erasing
    | Joining(k: nat)         // was the last client; k slots joined
    | LeavingUnregister

  datatype ClientPc =
    | Commands                // the command loop
    | WantRegister            // PLAY passed its checks, about to take the write lock
    | Replying                // registered, about to become PLAYING and answer 200
    | Quitting                // left the command loop, about to close its socket
    | WantUnregister          // closed it, about to take the write lock
    | Deinit                  // about to free its streams
    | Gone
    | Holding(stage: Stage)

  /** `played` records that the client has registered at least once. */
  datatype Client = Client(ctx: Context, pc: ClientPc, played: bool)

  /**
   How far a send to one client has got. Packets for a TCP client go out under the client's writer
   mutex, in two writes each; what a UDP client gets needs neither.
   */
  datatype SendStage =
    | Opening                 // making the packets
    | Locking                 // waiting for the writer mutex, which blocks
    | Header                  // holding it, about to write a frame's header
    | Payload                 // about to write its payload
    | Unlocking

  datatype EncoderPc =
    | LoopHead                // about to test encoder_running()
    | Working                 // loading and encoding
    | TryLock                 // about to try the read lock
    | LockFailed              // it was taken; about to test threadLaunched
    | Iterating(todo: set<Cid>)
    | Sending(todo: set<Cid>, to: Cid, seen: Context, at: SendStage)
    | Exited

  /**
   `mutexes` gives the thread that locked a connection's writer mutex, if it is locked; `stalled` are
   the connections whose peers have stopped reading, with no room left in the socket.
   */
  datatype State = State(
    clients: map<Cid, Client>,
    mutexes: map<Cid, Tid>,
    stalled: set<Cid>,
    registered: set<Cid>,
    threadLaunched: bool,
    writer: Option<Cid>,
    readers: set<Tid>,
    encoders: map<Tid, EncoderPc>,
    generation: nat,
    syncReset: bool)

  datatype Choice = Again | Send | Sync | Fail | Pick(c: Cid)

  datatype Action =
    | Connect(c: Cid)
    | Receive(c: Cid, cmd: Command)
    | Disconnect(c: Cid)
    | Stall(c: Cid)           // the peer stops reading
    | Resume(c: Cid)
    | ClientMove(c: Cid)
    | EncoderMove(t: Tid, choice: Choice)

  function Initial(): State
  {
    State(map[], map[], {}, {}, false, None, {}, map[], 0, true)
  }

  predicate LockFree(s: State)
  {
    s.writer.None? && s.readers == {}
  }

  predicate Live(encoders: map<Tid, EncoderPc>, t: Tid)
  {
    t in encoders && !encoders[t].Exited?
  }

  // ---------------------------------------------------------------- steps

  predicate ClientCanMove(cfg: Config, s: State, c: Cid)
  {
    c in s.clients &&
    match s.clients[c].pc
    case Commands => false
    case WantRegister => LockFree(s)
    case WantUnregister => LockFree(s)
    case Holding(Joining(k)) => k < cfg.Joins() ==> !Live(s.encoders, Tid(s.generation, cfg.JoinSlot(k)))
    case Gone => false
    case _ => true
  }

  /** Before the quit path closes it, a connection's socket is its own. */
  predicate SocketOpen(pc: ClientPc)
  {
    match pc
    case WantUnregister => false
    case Holding(Erasing) => false
    case Holding(Joining(_)) => false
    case Holding(LeavingUnregister) => false
    case Deinit => false
    case Gone => false
    case _ => true
  }

  /** A payload write fails if the configuration lets it, or if the socket has been closed meanwhile. */
  predicate PayloadFails(cfg: Config, s: State, to: Cid)
  {
    cfg.payloadMayFail || (to in s.clients && !SocketOpen(s.clients[to].pc))
  }

  /** A write does not return while its peer, whose socket is open, does not read. */
  predicate WriteBlocks(s: State, to: Cid)
  {
    to in s.stalled && to in s.clients && SocketOpen(s.clients[to].pc)
  }

  predicate SendCanMove(
    fails: bool, blocks: bool, mutexes: map<Cid, Tid>, to: Cid, at: SendStage, choice: Choice)
  {
    match at
    case Opening => choice.Again? || choice.Fail?
    case Locking => choice.Again? && to !in mutexes
    case Header => !blocks && (choice.Again? || choice.Fail?)
    case Payload => !blocks && (choice.Again? || (choice.Fail? && fails))
    case Unlocking => choice.Again? || choice.Send?
  }

  predicate EncoderCanMove(cfg: Config, s: State, t: Tid, choice: Choice)
  {
    Live(s.encoders, t) &&
    match s.encoders[t]
    case LoopHead => choice.Again?
    case Working => choice.Again? || choice.Send? || choice.Fail? || (choice.Sync? && s.syncReset)
    case TryLock => choice.Again?
    case LockFailed => choice.Again?
    case Iterating(todo) => if todo == {} then choice.Again? else choice.Pick? && choice.c in todo
    case Sending(_, to, _, at) =>
      SendCanMove(PayloadFails(cfg, s, to), WriteBlocks(s, to), s.mutexes, to, at, choice)
  }

  predicate Enabled(cfg: Config, s: State, a: Action)
  {
    match a
    case Connect(c) => c !in s.clients
    case Receive(c, _) => c in s.clients && s.clients[c].pc.Commands? && WellFormed(s.clients[c].ctx)
    case Disconnect(c) => c in s.clients && s.clients[c].pc.Commands?
    case Stall(c) => cfg.peersMayStall && c in s.clients
    case Resume(c) => c in s.stalled
    case ClientMove(c) => ClientCanMove(cfg, s, c)
    case EncoderMove(t, choice) => EncoderCanMove(cfg, s, t, choice)
  }

  function Goto(s: State, c: Cid, pc: ClientPc): State
    requires c in s.clients
  {
    s.(clients := s.clients[c := s.clients[c].(pc := pc)])
  }

  /** PLAY goes through registration before it is answered; other commands are handled at once. */
  function ReceiveStep(s: State, c: Cid, cmd: Command): State
    requires c in s.clients && WellFormed(s.clients[c].ctx)
  {
    var client := s.clients[c];
    if cmd.Play? then
      if PlayStatus(client.ctx, cmd.request) == OK then Goto(s, c, WantRegister) else s
    else
      var ctx := Handle(client.ctx, cmd).0;
      s.(clients := s.clients[c := client.(ctx := ctx, pc := if ctx.state == TEARDOWN then Quitting else Commands)])
  }

  predicate InRegister(pc: ClientPc)
  {
    match pc
    case WantRegister => true
    case Holding(Registering) => true
    case Holding(Launching(_)) => true
    case Holding(Inserting) => true
    case Holding(LeavingRegister) => true
    case Replying => true
    case _ => false
  }

  /** Where encoder_register_client, and the rest of PLAY, go next. */
  function RegisterPc(cfg: Config, registered: set<Cid>, pc: ClientPc): ClientPc
    requires InRegister(pc)
  {
    match pc
    case WantRegister => Holding(Registering)
    case Holding(Registering) => if registered == {} then Holding(Launching(0)) else Holding(Inserting)
    case Holding(Launching(k)) => if k < cfg.Launches() then Holding(Launching(k + 1)) else Holding(Inserting)
    case Holding(Inserting) => Holding(LeavingRegister)
    case Holding(LeavingRegister) => Replying
    case Replying => Commands
  }

  /** The write lock is taken on the way into a stage and released on the way out of the last. */
  function WriterAfter(writer: Option<Cid>, c: Cid, pc: ClientPc, next: ClientPc): Option<Cid>
  {
    if next.Holding? then Some(c) else if pc.Holding? then None else writer
  }

  /** Their steps: the first client raises the flag and starts the threads; then it is entered in the map. */
  function RegisterStep(cfg: Config, s: State, c: Cid): State
    requires c in s.clients && InRegister(s.clients[c].pc)
  {
    var client, pc := s.clients[c], s.clients[c].pc;
    var next := RegisterPc(cfg, s.registered, pc);
    var first := next == Holding(Launching(0));
    s.(clients := s.clients[c := Client(
         if pc.Replying? then client.ctx.(state := PLAYING) else client.ctx, next, client.played || pc.Replying?)],
       writer := WriterAfter(s.writer, c, pc, next),
       threadLaunched := s.threadLaunched || first,
       generation := if first then s.generation + 1 else s.generation,
       encoders :=
         if pc.Holding? && pc.stage.Launching? && pc.stage.k < cfg.Launches()
         then s.encoders[Tid(s.generation, cfg.LaunchSlot(pc.stage.k)) := LoopHead] else s.encoders,
       registered := if pc == Holding(Inserting) then s.registered + {c} else s.registered)
  }

  /** Where the quit path and encoder_unregister_client go next. */
  function UnregisterPc(cfg: Config, registered: set<Cid>, c: Cid, pc: ClientPc): ClientPc
  {
    match pc
    case Quitting => WantUnregister
    case WantUnregister => Holding(Erasing)
    case Holding(Erasing) => if registered - {c} == {} then Holding(Joining(0)) else Holding(LeavingUnregister)
    case Holding(Joining(k)) => if k < cfg.Joins() then Holding(Joining(k + 1)) else Holding(LeavingUnregister)
    case Holding(LeavingUnregister) => Deinit
    case Deinit => Gone
    case _ => pc
  }

  /** Their steps: the last client lowers the flag, and has the clock reset when every thread is joined. */
  function UnregisterStep(cfg: Config, s: State, c: Cid): State
    requires c in s.clients && !InRegister(s.clients[c].pc)
  {
    var pc := s.clients[c].pc;
    var next := UnregisterPc(cfg, s.registered, c, pc);
    s.(clients := s.clients[c := s.clients[c].(pc := next)],
       writer := WriterAfter(s.writer, c, pc, next),
       registered := if pc == Holding(Erasing) then s.registered - {c} else s.registered,
       threadLaunched := s.threadLaunched && next != Holding(Joining(0)),
       syncReset := s.syncReset || (pc == Holding(Joining(cfg.Joins()))))
  }

  function ClientStep(cfg: Config, s: State, c: Cid): State
    requires c in s.clients
  {
    if InRegister(s.clients[c].pc) then RegisterStep(cfg, s, c) else UnregisterStep(cfg, s, c)
  }

  /** The client has the stream set up, over TCP: its packets are written by `rtsp_write_bindata`. */
  predicate UsesWriter(s: State, to: Cid, ch: nat)
  {
    && to in s.clients && ch < RTSP_CHANNEL_MAX && WellFormed(s.clients[to].ctx)
    && s.clients[to].ctx.fmtctx[ch].Some? && s.clients[to].ctx.lowerTransport[ch] == TCP
  }

  /** How a send goes on: its next stage, or none when it is over. */
  function SendNext(at: SendStage, choice: Choice, uses: bool): Option<SendStage>
  {
    match at
    case Opening => if uses && choice.Again? then Some(Locking) else None
    case Locking => Some(Header)
    case Header => if choice.Fail? then None else Some(Payload)
    case Payload => if choice.Fail? then None else Some(Unlocking)
    case Unlocking => if choice.Send? then Some(Locking) else None
  }

  /** The writer mutexes after a step of a send. A payload write that fails leaves without unlocking. */
  function SendMutexes(t: Tid, to: Cid, at: SendStage, choice: Choice, mutexes: map<Cid, Tid>): map<Cid, Tid>
  {
    match at
    case Locking => mutexes[to := t]
    case Header => if choice.Fail? then mutexes - {to} else mutexes
    case Unlocking => mutexes - {to}
    case _ => mutexes
  }

  predicate Reading(pc: EncoderPc)
  {
    pc.Iterating? || pc.Sending?
  }

  /** Where an encoder thread goes next. */
  function EncoderNext(cfg: Config, s: State, t: Tid, choice: Choice): EncoderPc
    requires EncoderCanMove(cfg, s, t, choice)
  {
    match s.encoders[t]
    case LoopHead => if s.threadLaunched then Working else Exited
    case Working =>
      (match choice
       case Again => LoopHead
       case Send => TryLock
       case Sync => Working
       case _ => Exited)
    case TryLock => if s.writer.None? then Iterating(s.registered) else LockFailed
    case LockFailed => if s.threadLaunched then TryLock else Exited
    case Iterating(todo) =>
      if todo == {} then Working
      else
        var c := choice.c;
        if c in s.clients && s.clients[c].ctx.state == PLAYING then Sending(todo - {c}, c, s.clients[c].ctx, Opening)
        else Iterating(todo - {c})
    case Sending(todo, to, seen, at) =>
      var next := SendNext(at, choice, UsesWriter(s, to, cfg.Channel(t.slot)));
      if next.Some? then Sending(todo, to, seen, next.value) else Iterating(todo)
    case Exited => Exited
  }

  function EncoderStep(cfg: Config, s: State, t: Tid, choice: Choice): State
    requires EncoderCanMove(cfg, s, t, choice)
  {
    var pc, next := s.encoders[t], EncoderNext(cfg, s, t, choice);
    s.(encoders := s.encoders[t := next],
       readers := if Reading(next) then s.readers + {t} else s.readers - {t},
       mutexes := if pc.Sending? then SendMutexes(t, pc.to, pc.at, choice, s.mutexes) else s.mutexes,
       syncReset := s.syncReset && !(pc.Working? && choice.Sync?))
  }

  function Next(cfg: Config, s: State, a: Action): State
    requires Enabled(cfg, s, a)
  {
    match a
    case Connect(c) => s.(clients := s.clients[c := Client(InitialContext(), Commands, false)])
    case Receive(c, cmd) => ReceiveStep(s, c, cmd)
    case Disconnect(c) =>
      s.(clients := s.clients[c := s.clients[c].(ctx := s.clients[c].ctx.(state := TEARDOWN), pc := Quitting)])
    case Stall(c) => s.(stalled := s.stalled + {c})
    case Resume(c) => s.(stalled := s.stalled - {c})
    case ClientMove(c) => ClientStep(cfg, s, c)
    case EncoderMove(t, choice) => EncoderStep(cfg, s, t, choice)
  }

  // ---------------------------------------------------------------- the invariant

  ghost predicate AboutToPlay(client: Client)
  {
    && client.ctx.session.Some? && (client.ctx.state == READY || client.ctx.state == PAUSE)
    && (client.played <==> client.ctx.state == PAUSE)
  }

  /** Between commands a client is registered exactly when it plays or pauses. */
  ghost predicate ClientInv(client: Client, registered: bool)
  {
    match client.pc
    case Commands =>
      && client.ctx.state != TEARDOWN
      && (client.played <==> HasPlayed(client.ctx.state))
      && (registered <==> client.played)
    case WantRegister => AboutToPlay(client) && (registered <==> client.played)
    case Holding(Registering) => AboutToPlay(client) && (registered <==> client.played)
    case Holding(Launching(_)) => AboutToPlay(client) && !client.played && !registered
    case Holding(Inserting) => AboutToPlay(client) && (registered <==> client.played)
    case Holding(LeavingRegister) => AboutToPlay(client) && registered
    case Replying => AboutToPlay(client) && registered
    case Quitting => client.ctx.state == TEARDOWN && (registered <==> client.played)
    case WantUnregister => client.ctx.state == TEARDOWN && (registered <==> client.played)
    case Holding(Erasing) => client.ctx.state == TEARDOWN && (registered <==> client.played)
    case _ => client.ctx.state == TEARDOWN && !registered
  }

  ghost predicate LockInv(s: State)
  {
    && (forall c :: c in s.clients ==> (s.clients[c].pc.Holding? <==> s.writer == Some(c)))
    && (s.writer.Some? ==> s.writer.value in s.clients && s.readers == {})
    && (forall t :: t in s.readers <==> t in s.encoders && Reading(s.encoders[t]))
  }

  /** A client being sent to is registered, has played, and keeps the slots first seen. */
  ghost predicate EncoderInv(pc: EncoderPc, clients: map<Cid, Client>, registered: set<Cid>)
  {
    match pc
    case Iterating(todo) => todo <= registered
    case Sending(todo, to, seen, _) =>
      && todo <= registered && to in registered && to in clients && clients[to].played
      && seen.state == PLAYING && clients[to].ctx == seen.(state := clients[to].ctx.state)
    case _ => true
  }

  ghost predicate Steady(s: State)
  {
    && (s.threadLaunched <==> s.registered != {})
    && (s.registered == {} ==> s.syncReset && forall t :: !Live(s.encoders, t))
  }

  /** What the threads and `threadLaunched` look like, by where the holder of the write lock is. */
  ghost predicate PhaseInv(cfg: Config, s: State)
  {
    if s.writer.None? || s.writer.value !in s.clients then Steady(s)
    else
      match s.clients[s.writer.value].pc
      case Holding(Launching(k)) =>
        s.threadLaunched && s.registered == {} && k <= cfg.Launches()
      case Holding(Inserting) => s.threadLaunched
      case Holding(Joining(k)) =>
        && !s.threadLaunched && s.registered == {} && k <= cfg.Joins()
        && forall t :: Live(s.encoders, t) ==> k <= cfg.JoinIndex(t.slot)
      case _ => Steady(s)
  }

  ghost predicate IsLaunched(cfg: Config, slot: int)
  {
    0 <= slot < cfg.vencoders || (cfg.aencoder && slot == AUDIO_SLOT)
  }

  ghost predicate ThreadsInv(cfg: Config, s: State)
  {
    && (forall t :: t in s.encoders ==> t.generation <= s.generation)
    && (forall t :: Live(s.encoders, t) ==> t.generation == s.generation && IsLaunched(cfg, t.slot))
  }

  ghost predicate ClientsInv(s: State)
  {
    s.registered <= s.clients.Keys && forall c :: c in s.clients ==> ClientInv(s.clients[c], c in s.registered)
  }

  ghost predicate EncodersInv(s: State)
  {
    forall t :: t in s.encoders ==> EncoderInv(s.encoders[t], s.clients, s.registered)
  }

  ghost predicate ContextsInv(s: State)
  {
    forall c :: c in s.clients ==> Inv(s.clients[c].ctx)
  }

  ghost predicate SystemInv(cfg: Config, s: State)
  {
    ClientsInv(s) && LockInv(s) && PhaseInv(cfg, s) && ThreadsInv(cfg, s) && EncodersInv(s) && ContextsInv(s)
  }

  // ---------------------------------------------------------------- steps of a connection's thread

  lemma RegisterClients(cfg: Config, s: State, c: Cid)
    requires ClientsInv(s) && PhaseInv(cfg, s) && LockInv(s) && ClientCanMove(cfg, s, c) && InRegister(s.clients[c].pc)
    ensures ClientsInv(RegisterStep(cfg, s, c))
  {
    var s' := RegisterStep(cfg, s, c);
    forall other | other in s'.clients
      ensures ClientInv(s'.clients[other], other in s'.registered)
    {
      assert ClientInv(s.clients[other], other in s.registered);
    }
  }

  lemma RegisterLock(cfg: Config, s: State, c: Cid)
    requires LockInv(s) && ClientCanMove(cfg, s, c) && InRegister(s.clients[c].pc)
    ensures LockInv(RegisterStep(cfg, s, c))
  {
    var s' := RegisterStep(cfg, s, c);
    forall other | other in s'.clients
      ensures s'.clients[other].pc.Holding? <==> s'.writer == Some(other)
    {
      assert s.clients[other].pc.Holding? <==> s.writer == Some(other);
    }
  }

  lemma RegisterPhase(cfg: Config, s: State, c: Cid)
    requires LockInv(s) && ClientsInv(s) && PhaseInv(cfg, s) && ThreadsInv(cfg, s)
    requires ClientCanMove(cfg, s, c) && InRegister(s.clients[c].pc)
    ensures PhaseInv(cfg, RegisterStep(cfg, s, c)) && ThreadsInv(cfg, RegisterStep(cfg, s, c))
  {
    assert ClientInv(s.clients[c], c in s.registered);
    assert c in s.registered + {c};
  }

  lemma RegisterEncoders(cfg: Config, s: State, c: Cid)
    requires LockInv(s) && ClientsInv(s) && EncodersInv(s) && ClientCanMove(cfg, s, c) && InRegister(s.clients[c].pc)
    ensures EncodersInv(RegisterStep(cfg, s, c))
  {
    var s' := RegisterStep(cfg, s, c);
    assert ClientInv(s.clients[c], c in s.registered);
    forall t | t in s'.encoders
      ensures EncoderInv(s'.encoders[t], s'.clients, s'.registered)
    {
      assert t in s.encoders ==> EncoderInv(s.encoders[t], s.clients, s.registered);
    }
  }

  lemma UnregisterSelf(cfg: Config, s: State, c: Cid)
    requires ClientCanMove(cfg, s, c) && !InRegister(s.clients[c].pc)
    requires ClientInv(s.clients[c], c in s.registered)
    ensures var s' := UnregisterStep(cfg, s, c); ClientInv(s'.clients[c], c in s'.registered)
  {
    var s' := UnregisterStep(cfg, s, c);
    assert s'.clients[c] == s.clients[c].(pc := s'.clients[c].pc);
    if s.clients[c].pc == Holding(Erasing) {
      assert c !in s'.registered;
    } else {
      assert s'.registered == s.registered;
    }
  }

  lemma UnregisterClients(cfg: Config, s: State, c: Cid)
    requires ClientsInv(s) && ClientCanMove(cfg, s, c) && !InRegister(s.clients[c].pc)
    ensures ClientsInv(UnregisterStep(cfg, s, c))
  {
    UnregisterSelf(cfg, s, c);
    var s' := UnregisterStep(cfg, s, c);
    forall other | other in s.clients && other != c
      ensures s'.clients[other] == s.clients[other] && (other in s'.registered <==> other in s.registered)
    {
    }
  }

  lemma UnregisterLock(cfg: Config, s: State, c: Cid)
    requires LockInv(s) && ClientCanMove(cfg, s, c) && !InRegister(s.clients[c].pc)
    ensures LockInv(UnregisterStep(cfg, s, c))
  {
    var s' := UnregisterStep(cfg, s, c);
    forall other | other in s'.clients
      ensures s'.clients[other].pc.Holding? <==> s'.writer == Some(other)
    {
      assert s.clients[other].pc.Holding? <==> s.writer == Some(other);
    }
  }

  lemma JoinPhase(cfg: Config, s: State, c: Cid)
    requires cfg.Valid() && LockInv(s) && PhaseInv(cfg, s) && ThreadsInv(cfg, s)
    requires ClientCanMove(cfg, s, c) && s.clients[c].pc.Holding? && s.clients[c].pc.stage.Joining?
    ensures PhaseInv(cfg, UnregisterStep(cfg, s, c))
  {
    var k := s.clients[c].pc.stage.k;
    assert s.writer == Some(c);
    if k < cfg.Joins() {
      forall t | Live(s.encoders, t)
        ensures k + 1 <= cfg.JoinIndex(t.slot)
      {
        assert t == Tid(s.generation, t.slot);
      }
    }
  }

  lemma UnregisterPhase(cfg: Config, s: State, c: Cid)
    requires cfg.Valid() && LockInv(s) && ClientsInv(s) && PhaseInv(cfg, s) && ThreadsInv(cfg, s)
    requires ClientCanMove(cfg, s, c) && !InRegister(s.clients[c].pc)
    ensures PhaseInv(cfg, UnregisterStep(cfg, s, c)) && ThreadsInv(cfg, UnregisterStep(cfg, s, c))
  {
    var pc := s.clients[c].pc;
    if pc.Holding? && pc.stage.Joining? {
      JoinPhase(cfg, s, c);
    } else {
      assert ClientInv(s.clients[c], c in s.registered);
    }
  }

  lemma UnregisterEncoders(cfg: Config, s: State, c: Cid)
    requires LockInv(s) && ClientsInv(s) && EncodersInv(s) && ClientCanMove(cfg, s, c) && !InRegister(s.clients[c].pc)
    ensures EncodersInv(UnregisterStep(cfg, s, c))
  {
    var s' := UnregisterStep(cfg, s, c);
    assert ClientInv(s.clients[c], c in s.registered);
    forall t | t in s'.encoders
      ensures EncoderInv(s'.encoders[t], s'.clients, s'.registered)
    {
      assert EncoderInv(s.encoders[t], s.clients, s.registered);
    }
  }

  // ---------------------------------------------------------------- commands, arrivals, departures

  /** What a command other than PLAY can do to a connection, as far as its registration goes. */
  lemma CommandEffect(ctx: Context, cmd: Command)
    requires Inv(ctx) && !cmd.Play? && ctx.state != TEARDOWN
    ensures var ctx' := Handle(ctx, cmd).0;
      && Inv(ctx')
      && (if HasPlayed(ctx.state)
          then ctx' == ctx.(state := ctx'.state) && (HasPlayed(ctx'.state) || ctx'.state == TEARDOWN)
          else (ctx'.state == IDLE || ctx'.state == READY || ctx'.state == TEARDOWN))
  {
    HandleInv(ctx, cmd);
  }

  /** A command, an arrival or a departure replaces one client, outside the lock. */
  lemma ReceiveEffect(cfg: Config, s: State, a: Action)
    requires Enabled(cfg, s, a) && (a.Connect? || a.Receive? || a.Disconnect?)
    ensures var s' := Next(cfg, s, a);
      && a.c in s'.clients && !s'.clients[a.c].pc.Holding? && (a.c in s.clients ==> s.clients[a.c].pc.Commands?)
      && s' == s.(clients := s.clients[a.c := s'.clients[a.c]])
  {
    var s' := Next(cfg, s, a);
    assert a.Receive? ==> s.clients[a.c := s.clients[a.c]] == s.clients;
  }

  /** The client stays as its place demands; and once it has played, it keeps all but its state. */
  lemma ReceivedClient(cfg: Config, s: State, a: Action)
    requires Enabled(cfg, s, a) && (a.Connect? || a.Receive? || a.Disconnect?) && s.registered <= s.clients.Keys
    requires a.c in s.clients ==> Inv(s.clients[a.c].ctx) && ClientInv(s.clients[a.c], a.c in s.registered)
    ensures var client := Next(cfg, s, a).clients[a.c];
      && ClientInv(client, a.c in s.registered)
      && (a.c in s.clients && s.clients[a.c].played ==>
            client.played && client.ctx == s.clients[a.c].ctx.(state := client.ctx.state))
  {
    if a.Receive? && !a.cmd.Play? {
      CommandEffect(s.clients[a.c].ctx, a.cmd);
    }
  }

  lemma ReplacedClients(s: State, c: Cid, client: Client)
    requires ClientsInv(s) && ClientInv(client, c in s.registered)
    ensures ClientsInv(s.(clients := s.clients[c := client]))
  {
    var s' := s.(clients := s.clients[c := client]);
    forall other | other in s'.clients
      ensures ClientInv(s'.clients[other], other in s'.registered)
    {
      assert other != c ==> ClientInv(s.clients[other], other in s.registered);
    }
  }

  lemma ReplacedEncoders(s: State, c: Cid, client: Client)
    requires EncodersInv(s)
    requires c in s.clients && s.clients[c].played ==>
      client.played && client.ctx == s.clients[c].ctx.(state := client.ctx.state)
    ensures EncodersInv(s.(clients := s.clients[c := client]))
  {
    var s' := s.(clients := s.clients[c := client]);
    forall t | t in s'.encoders
      ensures EncoderInv(s'.encoders[t], s'.clients, s'.registered)
    {
      assert EncoderInv(s.encoders[t], s.clients, s.registered);
    }
  }

  lemma ReplacedLock(s: State, c: Cid, client: Client)
    requires LockInv(s) && !client.pc.Holding? && (c in s.clients ==> !s.clients[c].pc.Holding?)
    ensures LockInv(s.(clients := s.clients[c := client]))
  {
  }

  lemma ReplacedPhase(cfg: Config, s: State, c: Cid, client: Client)
    requires LockInv(s) && PhaseInv(cfg, s) && ThreadsInv(cfg, s)
    requires !client.pc.Holding? && (c in s.clients ==> !s.clients[c].pc.Holding?)
    ensures var s' := s.(clients := s.clients[c := client]); PhaseInv(cfg, s') && ThreadsInv(cfg, s')
  {
    assert s.writer.Some? ==> s.clients[s.writer.value].pc.Holding?;
  }

  // ---------------------------------------------------------------- steps of an encoder thread

  lemma EncoderMoveLock(cfg: Config, s: State, t: Tid, choice: Choice)
    requires LockInv(s) && EncoderCanMove(cfg, s, t, choice)
    ensures LockInv(EncoderStep(cfg, s, t, choice))
  {
    var s' := EncoderStep(cfg, s, t, choice);
    forall u
      ensures u in s'.readers <==> u in s'.encoders && Reading(s'.encoders[u])
    {
      assert u in s.readers <==> u in s.encoders && Reading(s.encoders[u]);
    }
  }

  lemma EncoderMovePhase(cfg: Config, s: State, t: Tid, choice: Choice)
    requires PhaseInv(cfg, s) && ThreadsInv(cfg, s) && EncoderCanMove(cfg, s, t, choice)
    ensures PhaseInv(cfg, EncoderStep(cfg, s, t, choice)) && ThreadsInv(cfg, EncoderStep(cfg, s, t, choice))
  {
    var s' := EncoderStep(cfg, s, t, choice);
    assert s'.clients == s.clients && s'.writer == s.writer && s'.registered == s.registered;
    assert Live(s.encoders, t);
    assert forall u :: Live(s'.encoders, u) ==> Live(s.encoders, u);
  }

  lemma EncoderMoveEncoders(cfg: Config, s: State, t: Tid, choice: Choice)
    requires ClientsInv(s) && EncodersInv(s) && EncoderCanMove(cfg, s, t, choice)
    ensures EncodersInv(EncoderStep(cfg, s, t, choice))
  {
    var s' := EncoderStep(cfg, s, t, choice);
    assert EncoderInv(s.encoders[t], s.clients, s.registered);
    if s.encoders[t].Iterating? && s.encoders[t].todo != {} {
      var c := choice.c;
      assert ClientInv(s.clients[c], c in s.registered);
    }
    forall u | u in s'.encoders
      ensures EncoderInv(s'.encoders[u], s'.clients, s'.registered)
    {
      assert EncoderInv(s.encoders[u], s.clients, s.registered);
    }
  }

  // ---------------------------------------------------------------- runs

  lemma ReplacedContext(s: State, c: Cid, client: Client)
    requires ContextsInv(s) && Inv(client.ctx)
    ensures ContextsInv(s.(clients := s.clients[c := client]))
  {
  }

  lemma ChangedState(ctx: Context, state: ServerState)
    requires Inv(ctx) && (HasPlayed(state) ==> ctx.session.Some?) && state != IDLE
    ensures Inv(ctx.(state := state))
  {
    var ctx' := ctx.(state := state);
    assert forall i: ChannelId :: SlotSet(ctx, i) ==> SlotSet(ctx', i);
    assert forall i: ChannelId :: SlotClear(ctx, i) ==> SlotClear(ctx', i);
  }

  lemma ClientMoveContexts(cfg: Config, s: State, c: Cid)
    requires ClientsInv(s) && ContextsInv(s) && ClientCanMove(cfg, s, c)
    ensures ContextsInv(ClientStep(cfg, s, c))
  {
    var s' := ClientStep(cfg, s, c);
    assert ClientInv(s.clients[c], c in s.registered);
    if s.clients[c].pc.Replying? {
      ChangedState(s.clients[c].ctx, PLAYING);
    }
    ReplacedContext(s, c, s'.clients[c]);
  }

  lemma ReceiveContexts(cfg: Config, s: State, a: Action)
    requires ContextsInv(s) && Enabled(cfg, s, a) && (a.Connect? || a.Receive? || a.Disconnect?)
    ensures ContextsInv(Next(cfg, s, a))
  {
    match a {
      case Connect(c) =>
        ReplacedContext(s, c, Client(InitialContext(), Commands, false));
      case Receive(c, cmd) =>
        HandleInv(s.clients[c].ctx, cmd);
        ReplacedContext(s, c, ReceiveStep(s, c, cmd).clients[c]);
      case Disconnect(c) =>
        ChangedState(s.clients[c].ctx, TEARDOWN);
        ReplacedContext(s, c, Next(cfg, s, a).clients[c]);
    }
  }

  lemma ClientMoveInv(cfg: Config, s: State, c: Cid)
    requires cfg.Valid() && SystemInv(cfg, s) && ClientCanMove(cfg, s, c)
    ensures SystemInv(cfg, ClientStep(cfg, s, c))
  {
    ClientMoveContexts(cfg, s, c);
    if InRegister(s.clients[c].pc) {
      RegisterClients(cfg, s, c);
      RegisterLock(cfg, s, c);
      RegisterPhase(cfg, s, c);
      RegisterEncoders(cfg, s, c);
    } else {
      UnregisterClients(cfg, s, c);
      UnregisterLock(cfg, s, c);
      UnregisterPhase(cfg, s, c);
      UnregisterEncoders(cfg, s, c);
    }
  }

  lemma EncoderMoveInv(cfg: Config, s: State, t: Tid, choice: Choice)
    requires SystemInv(cfg, s) && EncoderCanMove(cfg, s, t, choice)
    ensures SystemInv(cfg, EncoderStep(cfg, s, t, choice))
  {
    EncoderMoveLock(cfg, s, t, choice);
    EncoderMovePhase(cfg, s, t, choice);
    EncoderMoveEncoders(cfg, s, t, choice);
  }

  lemma ReceiveInv(cfg: Config, s: State, a: Action)
    requires SystemInv(cfg, s) && Enabled(cfg, s, a) && (a.Connect? || a.Receive? || a.Disconnect?)
    ensures SystemInv(cfg, Next(cfg, s, a))
  {
    var client := Next(cfg, s, a).clients[a.c];
    ReceiveContexts(cfg, s, a);
    ReceivedClient(cfg, s, a);
    ReceiveEffect(cfg, s, a);
    ReplacedClients(s, a.c, client);
    ReplacedLock(s, a.c, client);
    ReplacedPhase(cfg, s, a.c, client);
    ReplacedEncoders(s, a.c, client);
  }

  /** Whether peers read is not in the invariant. */
  lemma StallInv(cfg: Config, s: State, stalled: set<Cid>)
    requires SystemInv(cfg, s)
    ensures SystemInv(cfg, s.(stalled := stalled))
  {
  }

  /** Every step of every thread keeps the invariant. */
  lemma StepInv(cfg: Config, s: State, a: Action)
    requires cfg.Valid() && SystemInv(cfg, s) && Enabled(cfg, s, a)
    ensures SystemInv(cfg, Next(cfg, s, a))
  {
    match a
    case ClientMove(c) => ClientMoveInv(cfg, s, c);
    case EncoderMove(t, choice) => EncoderMoveInv(cfg, s, t, choice);
    case Stall(_) => StallInv(cfg, s, Next(cfg, s, a).stalled);
    case Resume(_) => StallInv(cfg, s, Next(cfg, s, a).stalled);
    case _ => ReceiveInv(cfg, s, a);
  }

  ghost predicate IsStep(cfg: Config, s: State, a: Action, s': State)
  {
    Enabled(cfg, s, a) && s' == Next(cfg, s, a)
  }

  /** A run: `states[i + 1]` follows from `states[i]` by the enabled action `actions[i]`. */
  ghost predicate IsRun(cfg: Config, states: seq<State>, actions: seq<Action>)
  {
    && |states| == |actions| + 1 && states[0] == Initial()
    && forall i :: 0 <= i < |actions| ==> IsStep(cfg, states[i], actions[i], states[i + 1])
  }

  lemma {:induction false} RunInv(cfg: Config, states: seq<State>, actions: seq<Action>, i: nat)
    requires cfg.Valid() && IsRun(cfg, states, actions) && i < |states|
    ensures SystemInv(cfg, states[i])
  {
    if i > 0 {
      RunInv(cfg, states, actions, i - 1);
      assert IsStep(cfg, states[i - 1], actions[i - 1], states[i - 1 + 1]);
      StepInv(cfg, states[i - 1], actions[i - 1]);
    }
  }
}
