/**
 The RTSP command handlers of one connection, and the server state machine of Appendix A.2 of
 RFC 2326 they are measured against. Media libraries, sockets and URL parsing appear as the outcomes
 they report.
 */
module RtspCommands {

  datatype Option<+T> = None | Some(value: T)

  /** Stream slots per connection. */
  const RTSP_CHANNEL_MAX: nat := 8

  datatype ServerState = IDLE | READY | PLAYING | PAUSE | TEARDOWN

  /** The states in between the first PLAY and the end of the session. */
  predicate HasPlayed(s: ServerState)
  {
    s == PLAYING || s == PAUSE
  }

  datatype Transport = UDP | TCP

  /** A library object: format context, stream or encoder. */
  type Object = nat

  /** Answers, and `UNDEFINED`: none is sent, because an absent session id has been compared as a string. */
  datatype Status =
    OK | METHOD | SESSION | STATE | AGGREGATE | TRANSPORT | INTERNAL | SERVICE | UNDEFINED

  /** The part of a connection's context that the command handlers use. */
  datatype Context = Context(
    state: ServerState,
    session: Option<string>,
    lowerTransport: seq<Transport>,
    fmtctx: seq<Option<Object>>,
    stream: seq<Option<Object>>,
    encoder: seq<Option<Object>>)

  /**
   How far opening a stream gets: an object cannot be made, or all are made but the container header
   cannot be written, or everything works.
   */
  datatype MediaOutcome =
    | Unavailable
    | HeaderRejected(fmtctx: Object, stream: Object, encoder: Object)
    | Opened(fmtctx: Object, stream: Object, encoder: Object)

  type ChannelId = n: nat | n < RTSP_CHANNEL_MAX

  /** A SETUP request, the random id the server would draw for it, and what the libraries report. */
  datatype SetupRequest = SetupRequest(
    pathOk: bool,
    streamid: Option<ChannelId>,
    session: string,
    drawn: string,
    transport: Option<Transport>,
    addressesOk: bool,
    media: MediaOutcome)

  datatype SessionRequest = SessionRequest(pathOk: bool, session: string)

  datatype Command =
    | Describe(pathOk: bool, described: bool)
    | Options
    | Setup(setup: SetupRequest)
    | Play(request: SessionRequest)
    | Pause(request: SessionRequest)
    | Teardown(request: SessionRequest)
    | Unknown

  // ---------------------------------------------------------------- the handlers

  predicate WellFormed(c: Context)
  {
    |c.lowerTransport| == |c.fmtctx| == |c.stream| == |c.encoder| == RTSP_CHANNEL_MAX
  }

  /** The shared error exit of SETUP: the session and the stream's slots are given up. */
  function AbandonSetup(c: Context, i: ChannelId): Context
    requires WellFormed(c)
  {
    c.(session := None,
       encoder := c.encoder[i := None], stream := c.stream[i := None], fmtctx := c.fmtctx[i := None])
  }

  function OpenStream(c: Context, i: ChannelId, media: MediaOutcome): (Context, bool)
    requires WellFormed(c)
  {
    if c.fmtctx[i].Some? || media.Unavailable? then (c, false)
    else
      (c.(encoder := c.encoder[i := Some(media.encoder)],
          stream := c.stream[i := Some(media.stream)],
          fmtctx := c.fmtctx[i := Some(media.fmtctx)]),
       media.Opened?)
  }

  function HandleSetup(c: Context, r: SetupRequest): (Context, Status)
    requires WellFormed(c)
  {
    if !r.pathOk then (c, AGGREGATE)
    else if r.streamid.None? then (c, SERVICE)
    else if c.state != IDLE && c.state != READY then (c, STATE)
    else
      var i := r.streamid.value;
      var create := c.session.None? && r.session == "";
      var named := if create then c.(session := Some(r.drawn)) else c;
      var header := if create then r.drawn else r.session;
      if named.session != Some(header) then (AbandonSetup(named, i), SESSION)
      else if r.transport.None? then (AbandonSetup(named, i), TRANSPORT)
      else if !r.addressesOk then (AbandonSetup(named, i), INTERNAL)
      else
        var routed := named.(lowerTransport := named.lowerTransport[i := r.transport.value]);
        var (made, ok) := OpenStream(routed, i, r.media);
        if !ok then (AbandonSetup(made, i), TRANSPORT) else (made.(state := READY), OK)
  }

  /** Path and session checks. */
  function CheckRequest(c: Context, r: SessionRequest): Status
  {
    if !r.pathOk then SESSION
    else if c.session.None? then UNDEFINED
    else if c.session.value != r.session then SESSION
    else OK
  }

  function PlayStatus(c: Context, r: SessionRequest): Status
  {
    if CheckRequest(c, r) != OK then CheckRequest(c, r)
    else if c.state != READY && c.state != PAUSE then STATE
    else OK
  }

  function HandlePlay(c: Context, r: SessionRequest): (Context, Status)
  {
    (if PlayStatus(c, r) == OK then c.(state := PLAYING) else c, PlayStatus(c, r))
  }

  function HandlePause(c: Context, r: SessionRequest): (Context, Status)
  {
    if CheckRequest(c, r) != OK then (c, CheckRequest(c, r))
    else if c.state != PLAYING then (c, STATE)
    else (c.(state := PAUSE), OK)
  }

  function HandleTeardown(c: Context, r: SessionRequest): (Context, Status)
  {
    if CheckRequest(c, r) != OK then (c, CheckRequest(c, r)) else (c.(state := TEARDOWN), OK)
  }

  function Handle(c: Context, cmd: Command): (Context, Status)
    requires WellFormed(c)
  {
    match cmd
    case Describe(pathOk, described) => (c, if !pathOk then SERVICE else if !described then INTERNAL else OK)
    case Options => (c, OK)
    case Setup(r) => HandleSetup(c, r)
    case Play(r) => HandlePlay(c, r)
    case Pause(r) => HandlePause(c, r)
    case Teardown(r) => HandleTeardown(c, r)
    case Unknown => (c, METHOD)
  }

  // ---------------------------------------------------------------- invariants

  predicate SlotSet(c: Context, i: ChannelId)
    requires WellFormed(c)
  {
    c.fmtctx[i].Some? && c.stream[i].Some? && c.encoder[i].Some?
  }

  predicate SlotClear(c: Context, i: ChannelId)
    requires WellFormed(c)
  {
    c.fmtctx[i].None? && c.stream[i].None? && c.encoder[i].None?
  }

  /**
   The three slots of a stream are set together or clear together. An idle connection has no
   session; one that has played has a session; and a session means some stream is ready to send.
   A READY connection may have lost its session, to a SETUP that failed.
   */
  predicate Inv(c: Context)
  {
    && WellFormed(c)
    && (forall i: ChannelId :: SlotSet(c, i) || SlotClear(c, i))
    && (c.state == IDLE ==> c.session.None?)
    && (HasPlayed(c.state) ==> c.session.Some?)
    && (c.session.Some? ==> exists i: ChannelId :: SlotSet(c, i))
  }

  function InitialContext(): (c: Context)
    ensures Inv(c)
  {
    var none := seq(RTSP_CHANNEL_MAX, _ => None);
    var c := Context(IDLE, None, seq(RTSP_CHANNEL_MAX, _ => UDP), none, none, none);
    assert forall i: ChannelId :: SlotClear(c, i);
    c
  }

  lemma SetupInv(c: Context, r: SetupRequest)
    requires Inv(c)
    ensures Inv(HandleSetup(c, r).0)
  {
    var (c', status) := HandleSetup(c, r);
    if c'.session.Some? && c' != c {
      assert SlotSet(c', r.streamid.value);
    }
    forall i: ChannelId
      ensures SlotSet(c', i) || SlotClear(c', i)
    {
      assert SlotSet(c, i) || SlotClear(c, i);
    }
  }

  /** A SETUP that gets past the state check leaves a session exactly when it succeeds. */
  lemma SessionAfterSetup(c: Context, r: SetupRequest)
    requires Inv(c) && r.pathOk && r.streamid.Some? && (c.state == IDLE || c.state == READY)
    ensures var (c', status) := HandleSetup(c, r); status == OK <==> c'.session.Some?
  {
  }

  lemma HandleInv(c: Context, cmd: Command)
    requires Inv(c)
    ensures Inv(Handle(c, cmd).0)
  {
    if cmd.Setup? {
      SetupInv(c, cmd.setup);
    } else {
      var c' := Handle(c, cmd).0;
      assert forall i: ChannelId :: SlotSet(c, i) ==> SlotSet(c', i);
      assert forall i: ChannelId :: SlotClear(c, i) ==> SlotClear(c', i);
    }
  }

  /** The command loop: commands are handled until one of them tears the session down. */
  function Serve(c: Context, cmds: seq<Command>): (c': Context)
    requires Inv(c)
    ensures Inv(c')
    decreases |cmds|
  {
    if cmds == [] || c.state == TEARDOWN then c
    else
      HandleInv(c, cmds[0]);
      Serve(Handle(c, cmds[0]).0, cmds[1..])
  }

  /** So READY does not imply a session: a second SETUP of the same stream fails and drops it. */
  lemma ReadyWithoutSession(r: SetupRequest)
    requires r.pathOk && r.streamid.Some? && r.session == "" && r.transport.Some? && r.addressesOk && r.media.Opened?
    ensures var c := Serve(InitialContext(), [Setup(r)]); c.state == READY && c.session == Some(r.drawn)
    ensures var c := Serve(InitialContext(), [Setup(r), Setup(r.(session := r.drawn))]);
      c.state == READY && c.session.None?
  {
    var c0 := InitialContext();
    var c1 := HandleSetup(c0, r).0;
    HandleInv(c0, Setup(r));
    assert Serve(c0, [Setup(r)]) == Serve(c1, []);
    var again := r.(session := r.drawn);
    HandleInv(c1, Setup(again));
    var cmds := [Setup(r), Setup(again)];
    assert cmds[1..] == [Setup(again)];
    assert Serve(c0, cmds) == Serve(c1, cmds[1..]) == Serve(HandleSetup(c1, again).0, []);
  }

  // ---------------------------------------------------------------- comparing an absent session id

  /** The answers to the commands of a run, as far as it goes. */
  function Answers(c: Context, cmds: seq<Command>): seq<Status>
    requires Inv(c)
    decreases |cmds|
  {
    if cmds == [] || c.state == TEARDOWN then []
    else
      HandleInv(c, cmds[0]);
      [Handle(c, cmds[0]).1] + Answers(Handle(c, cmds[0]).0, cmds[1..])
  }

  /**
   The session a client that had `had` has after these answers to its commands. A SETUP that succeeds without
   one creates the session the server has drawn for it.
   */
  function SessionLeft(had: Option<string>, cmds: seq<Command>, answers: seq<Status>): Option<string>
    decreases |cmds|
  {
    if cmds == [] || answers == [] then had
    else
      var has :=
        if !cmds[0].Setup? then had
        else match answers[0]
          case OK => if had.None? then Some(cmds[0].setup.drawn) else had
          case SESSION => None
          case TRANSPORT => None
          case INTERNAL => None
          case _ => had;
      SessionLeft(has, cmds[1..], answers[1..])
  }

  /** A client can tell from the answers it got which session it has: the SETUPs that count decide. */
  lemma {:induction false} SessionFromAnswers(c: Context, cmds: seq<Command>)
    requires Inv(c)
    ensures Serve(c, cmds).session == SessionLeft(c.session, cmds, Answers(c, cmds))
    decreases |cmds|
  {
    if cmds != [] && c.state != TEARDOWN {
      HandleInv(c, cmds[0]);
      var (c', status) := Handle(c, cmds[0]);
      SessionFromAnswers(c', cmds[1..]);
      var later := Answers(c', cmds[1..]);
      assert Answers(c, cmds) == [status] + later && ([status] + later)[1..] == later;
    }
  }

  /** The session id a client sends with its commands: its own, or none if it has none. */
  function OwnId(id: Option<string>): string
  {
    if id.Some? then id.value else ""
  }

  /**
   After any run, a command that is answered 200 names the client's own session, the one drawn by the SETUP
   that created it. The exception is a SETUP of a client that has none: it names none, and gets the one drawn.
   */
  lemma OwnSessionOnly(cmds: seq<Command>, cmd: Command)
    ensures var c := Serve(InitialContext(), cmds);
      var id := SessionLeft(None, cmds, Answers(InitialContext(), cmds));
      var (c', status) := Handle(c, cmd);
      status == OK ==>
        match cmd
        case Setup(r) => r.session == OwnId(id) && c'.session == if id.Some? then id else Some(r.drawn)
        case Play(r) => id == Some(r.session) == c'.session
        case Pause(r) => id == Some(r.session) == c'.session
        case Teardown(r) => id == Some(r.session) == c'.session
        case _ => c'.session == id
  {
    SessionFromAnswers(InitialContext(), cmds);
  }

  /** And one that names another session is answered 454, by SETUP after the session is given up. */
  lemma OtherSessionRefused(cmds: seq<Command>, cmd: Command)
    ensures var c := Serve(InitialContext(), cmds);
      var id := SessionLeft(None, cmds, Answers(InitialContext(), cmds));
      var (c', status) := Handle(c, cmd);
      match cmd
      case Setup(r) =>
        && (status == SESSION <==>
              r.pathOk && r.streamid.Some? && (c.state == IDLE || c.state == READY) && r.session != OwnId(id))
        && (status == SESSION ==> c'.session.None?)
      case Play(r) => status == SESSION <==> !r.pathOk || (id.Some? && id.value != r.session)
      case Pause(r) => status == SESSION <==> !r.pathOk || (id.Some? && id.value != r.session)
      case Teardown(r) => status == SESSION <==> !r.pathOk || (id.Some? && id.value != r.session)
      case _ => status != SESSION
  {
    SessionFromAnswers(InitialContext(), cmds);
  }

  /** The commands that compare session ids. */
  predicate ComparesSession(cmd: Command)
  {
    (cmd.Play? || cmd.Pause? || cmd.Teardown?) && cmd.request.pathOk
  }

  /**
   Which histories end in a comparison with an absent session id: those after which the client sends PLAY,
   PAUSE or TEARDOWN for the right object, with no SETUP answered 200 since the start or since the last one
   that was refused for its session, transport or address.
   */
  lemma UndefinedExactly(cmds: seq<Command>, cmd: Command)
    ensures var c := Serve(InitialContext(), cmds);
      Handle(c, cmd).1 == UNDEFINED <==>
        ComparesSession(cmd) && SessionLeft(None, cmds, Answers(InitialContext(), cmds)).None?
  {
    SessionFromAnswers(InitialContext(), cmds);
  }

  // ---------------------------------------------------------------- Appendix A.2 of RFC 2326

  datatype RfcState = Init | Ready | Playing

  function Abstract(s: ServerState): RfcState
  {
    match s
    case IDLE => Init
    case READY => Ready
    case PAUSE => Ready
    case PLAYING => Playing
    case TEARDOWN => Init
  }

  /** The table of Appendix A.2, without RECORD, which this server never accepts. */
  function RfcNext(s: RfcState, cmd: Command): Option<RfcState>
  {
    match (s, cmd)
    case (Init, Setup(_)) => Some(Ready)
    case (Ready, Setup(_)) => Some(Ready)
    case (Playing, Setup(_)) => Some(Playing)
    case (Ready, Play(_)) => Some(Playing)
    case (Playing, Play(_)) => Some(Playing)
    case (Playing, Pause(_)) => Some(Ready)
    case (_, Teardown(_)) => Some(Init)
    case (_, Describe(_, _)) => Some(s)
    case (_, Options) => Some(s)
    case _ => None
  }

  /** Every command answered 200 takes an allowed transition; any other answer takes none. */
  lemma RfcSimulation(c: Context, cmd: Command)
    requires Inv(c)
    ensures var (c', status) := Handle(c, cmd);
      if status == OK then RfcNext(Abstract(c.state), cmd) == Some(Abstract(c'.state)) else c'.state == c.state
  {
  }

  /** The commands of a run that are answered 200. */
  function Accepted(c: Context, cmds: seq<Command>): seq<Command>
    requires Inv(c)
    decreases |cmds|
  {
    if cmds == [] || c.state == TEARDOWN then []
    else
      HandleInv(c, cmds[0]);
      var (c', status) := Handle(c, cmds[0]);
      (if status == OK then [cmds[0]] else []) + Accepted(c', cmds[1..])
  }

  function RfcRun(s: RfcState, cmds: seq<Command>): Option<RfcState>
    decreases |cmds|
  {
    if cmds == [] then Some(s)
    else
      match RfcNext(s, cmds[0])
      case None => None
      case Some(s') => RfcRun(s', cmds[1..])
  }

  /** Whatever a client sends: the commands answered 200 are a run of the table, ending where the server is. */
  lemma {:induction false} RfcSimulatesRun(c: Context, cmds: seq<Command>)
    requires Inv(c)
    ensures RfcRun(Abstract(c.state), Accepted(c, cmds)) == Some(Abstract(Serve(c, cmds).state))
    decreases |cmds|
  {
    if cmds != [] && c.state != TEARDOWN {
      HandleInv(c, cmds[0]);
      RfcSimulation(c, cmds[0]);
      var (c', status) := Handle(c, cmds[0]);
      var later := Accepted(c', cmds[1..]);
      RfcSimulatesRun(c', cmds[1..]);
      if status == OK {
        assert Accepted(c, cmds) == [cmds[0]] + later && ([cmds[0]] + later)[1..] == later;
      } else {
        assert Accepted(c, cmds) == [] + later == later;
      }
    }
  }

  /** The other direction fails in exactly these cases: transitions of A.2 that are answered 455. */
  lemma StricterThanRfc(c: Context, cmd: Command)
    requires Inv(c)
    ensures Handle(c, cmd).1 == STATE && RfcNext(Abstract(c.state), cmd).Some?
       <==> || (cmd.Setup? && cmd.setup.pathOk && cmd.setup.streamid.Some?
                && (HasPlayed(c.state) || c.state == TEARDOWN))
            || (cmd.Play? && cmd.request.pathOk && c.session == Some(cmd.request.session) && c.state == PLAYING)
  {
  }

  /**
   From the first PLAY on, the session id and every stream slot are frozen: later commands can only
   play, pause or tear down. This is what makes it safe to send to a client without holding anything
   but its registration.
   */
  lemma {:induction false} FrozenOncePlayed(c: Context, cmds: seq<Command>)
    requires Inv(c) && (HasPlayed(c.state) || c.state == TEARDOWN)
    ensures var c' := Serve(c, cmds); c' == c.(state := c'.state) && (HasPlayed(c'.state) || c'.state == TEARDOWN)
    decreases |cmds|
  {
    if cmds != [] && c.state != TEARDOWN {
      HandleInv(c, cmds[0]);
      FrozenOncePlayed(Handle(c, cmds[0]).0, cmds[1..]);
    }
  }

  lemma {:induction false} ServeConcat(c: Context, a: seq<Command>, b: seq<Command>)
    requires Inv(c)
    ensures Serve(c, a + b) == Serve(Serve(c, a), b)
    decreases |a|
  {
    if a == [] || c.state == TEARDOWN {
      assert a == [] ==> a + b == b;
    } else {
      HandleInv(c, a[0]);
      assert (a + b)[1..] == a[1..] + b;
      ServeConcat(Handle(c, a[0]).0, a[1..], b);
    }
  }

  /** Over any run of a connection: two moments at which it plays or pauses have one session. */
  lemma OneSessionPerRun(cmds: seq<Command>, i: nat, j: nat)
    requires i <= j <= |cmds|
    ensures var ci := Serve(InitialContext(), cmds[..i]); var cj := Serve(InitialContext(), cmds[..j]);
      HasPlayed(ci.state) && HasPlayed(cj.state) ==> ci.session == cj.session && ci.session.Some?
  {
    var ci := Serve(InitialContext(), cmds[..i]);
    assert cmds[..j] == cmds[..i] + cmds[i..j];
    ServeConcat(InitialContext(), cmds[..i], cmds[i..j]);
    if HasPlayed(ci.state) {
      FrozenOncePlayed(ci, cmds[i..j]);
    }
  }

  // ---------------------------------------------------------------- the connection object

  /** The slots of stream `i`, and no others, now hold the objects the library returned. */
  ghost predicate Opens(c: Context, c': Context, i: ChannelId, media: MediaOutcome)
    requires WellFormed(c)
  {
    && !media.Unavailable? && c'.fmtctx == c.fmtctx[i := Some(media.fmtctx)]
    && c'.stream == c.stream[i := Some(media.stream)] && c'.encoder == c.encoder[i := Some(media.encoder)]
  }

  class Connection {
    var state: ServerState
    var session: Option<string>
    var lowerTransport: seq<Transport>
    var fmtctx: seq<Option<Object>>
    var stream: seq<Option<Object>>
    var encoder: seq<Option<Object>>

    ghost function Ctx(): Context
      reads this
    {
      Context(state, session, lowerTransport, fmtctx, stream, encoder)
    }

    constructor ()
      ensures Ctx() == InitialContext()
    {
      state, session := IDLE, None;
      lowerTransport := seq(RTSP_CHANNEL_MAX, _ => UDP);
      fmtctx := seq(RTSP_CHANNEL_MAX, _ => None);
      stream := seq(RTSP_CHANNEL_MAX, _ => None);
      encoder := seq(RTSP_CHANNEL_MAX, _ => None);
    }

    method NewAvStream(i: ChannelId, media: MediaOutcome) returns (ok: bool)
      requires WellFormed(Ctx())
      modifies this
      ensures (Ctx(), ok) == OpenStream(old(Ctx()), i, media)
      ensures ok <==> old(fmtctx[i]).None? && media.Opened?
      ensures (state, session, lowerTransport) == old((state, session, lowerTransport))
      ensures if old(fmtctx[i]).Some? || media.Unavailable? then Ctx() == old(Ctx())
        else Opens(old(Ctx()), Ctx(), i, media)
    {
      if fmtctx[i].Some? {
        return false;
      }
      match media {
        case Unavailable =>
          return false;
        case _ =>
          encoder := encoder[i := Some(media.encoder)];
          stream := stream[i := Some(media.stream)];
          fmtctx := fmtctx[i := Some(media.fmtctx)];
          return media.Opened?;
      }
    }

    /** The error exit of SETUP. */
    method GiveUp(i: ChannelId)
      requires WellFormed(Ctx())
      modifies this
      ensures Ctx() == AbandonSetup(old(Ctx()), i)
      ensures session.None? && (state, lowerTransport) == old((state, lowerTransport))
      ensures (fmtctx, stream, encoder) == old((fmtctx[i := None], stream[i := None], encoder[i := None]))
    {
      assert encoder[i].None? ==> encoder[i := None] == encoder;
      assert stream[i].None? ==> stream[i := None] == stream;
      assert fmtctx[i].None? ==> fmtctx[i := None] == fmtctx;
      if session.Some? {
        session := None;
      }
      if encoder[i].Some? {
        encoder := encoder[i := None];
      }
      if stream[i].Some? {
        stream := stream[i := None];
      }
      if fmtctx[i].Some? {
        fmtctx := fmtctx[i := None];
      }
    }

    method CmdSetup(r: SetupRequest) returns (status: Status)
      requires WellFormed(Ctx())
      modifies this
      ensures (Ctx(), status) == HandleSetup(old(Ctx()), r)
      ensures status == OK <==>
        && r.pathOk && r.streamid.Some? && (old(state) == IDLE || old(state) == READY)
        && r.session == OwnId(old(session)) && r.transport.Some? && r.addressesOk
        && old(fmtctx)[r.streamid.value].None? && r.media.Opened?
      ensures status == OK ==>
        && state == READY && session == (if old(session).Some? then old(session) else Some(r.drawn))
        && lowerTransport == old(lowerTransport)[r.streamid.value := r.transport.value]
        && Opens(old(Ctx()), Ctx(), r.streamid.value, r.media)
    {
      if !r.pathOk {
        return AGGREGATE;
      }
      if r.streamid.None? {
        return SERVICE;
      }
      var i := r.streamid.value;
      if state != IDLE && state != READY {
        return STATE;
      }
      var header := r.session;
      if session.None? && header == "" {
        header := r.drawn;
        session := Some(header);
      }
      if session.None? || session.value != header {
        status := SESSION;
      } else if r.transport.None? {
        status := TRANSPORT;
      } else if !r.addressesOk {
        status := INTERNAL;
      } else {
        lowerTransport := lowerTransport[i := r.transport.value];
        var ok := NewAvStream(i, r.media);
        if ok {
          state := READY;
          return OK;
        }
        status := TRANSPORT;
      }
      GiveUp(i);
    }

    method CmdPlay(r: SessionRequest) returns (status: Status)
      modifies this`state
      ensures (Ctx(), status) == HandlePlay(old(Ctx()), r)
      ensures status == OK <==> r.pathOk && session == Some(r.session) && (old(state) == READY || old(state) == PAUSE)
      ensures status == SESSION <==> !r.pathOk || (session.Some? && session.value != r.session)
      ensures status == UNDEFINED <==> r.pathOk && session.None?
      ensures state == if status == OK then PLAYING else old(state)
    {
      if !r.pathOk {
        return SESSION;
      }
      if session.None? {
        return UNDEFINED;
      }
      if session.value != r.session {
        return SESSION;
      }
      if state != READY && state != PAUSE {
        return STATE;
      }
      // Registration with the encoders happens here: see EncoderLifecycle.
      state := PLAYING;
      return OK;
    }

    method CmdPause(r: SessionRequest) returns (status: Status)
      modifies this`state
      ensures (Ctx(), status) == HandlePause(old(Ctx()), r)
      ensures status == OK <==> r.pathOk && session == Some(r.session) && old(state) == PLAYING
      ensures status == SESSION <==> !r.pathOk || (session.Some? && session.value != r.session)
      ensures status == UNDEFINED <==> r.pathOk && session.None?
      ensures state == if status == OK then PAUSE else old(state)
    {
      if !r.pathOk {
        return SESSION;
      }
      if session.None? {
        return UNDEFINED;
      }
      if session.value != r.session {
        return SESSION;
      }
      if state != PLAYING {
        return STATE;
      }
      state := PAUSE;
      return OK;
    }

    method CmdTeardown(r: SessionRequest) returns (status: Status)
      modifies this`state
      ensures (Ctx(), status) == HandleTeardown(old(Ctx()), r)
      ensures status == OK <==> r.pathOk && session == Some(r.session)
      ensures status == SESSION <==> !r.pathOk || (session.Some? && session.value != r.session)
      ensures status == UNDEFINED <==> r.pathOk && session.None?
      ensures state == if status == OK then TEARDOWN else old(state)
    {
      if !r.pathOk {
        return SESSION;
      }
      if session.None? {
        return UNDEFINED;
      }
      if session.value != r.session {
        return SESSION;
      }
      state := TEARDOWN;
      return OK;
    }

    /** The command loop, over the commands the peer sends. */
    method ServeCommands(cmds: seq<Command>)
      requires Inv(Ctx()) && state != TEARDOWN
      modifies this
      ensures Ctx() == Serve(old(Ctx()), cmds)
    {
      ghost var start := Ctx();
      var n := 0;
      while n < |cmds| && state != TEARDOWN
        invariant n <= |cmds| && Inv(Ctx())
        invariant Serve(start, cmds) == Serve(Ctx(), cmds[n..])
      {
        ghost var before := Ctx();
        match cmds[n] {
          case Describe(_, _) =>
          case Options =>
          case Setup(r) =>
            var status := CmdSetup(r);
          case Play(r) =>
            var status := CmdPlay(r);
          case Pause(r) =>
            var status := CmdPause(r);
          case Teardown(r) =>
            var status := CmdTeardown(r);
          case Unknown =>
        }
        HandleInv(before, cmds[n]);
        assert cmds[n..][1..] == cmds[n + 1..];
        n := n + 1;
      }
      assert n == |cmds| ==> cmds[n..] == [];
    }
  }
}
