/** Reachable states of the encoder protocol, and stretches of runs from which particular runs are built. */
module EncoderRuns {
  import opened RtspCommands
  import opened EncoderLifecycle

  /** A connection's own steps happen to no thread that reads: new threads start while none is reading. */
  lemma ClientLeavesReaders(cfg: Config, s: State, c: Cid)
    requires LockInv(s) && ClientCanMove(cfg, s, c)
    ensures var s' := ClientStep(cfg, s, c);
      && s'.mutexes == s.mutexes
      && (forall t :: t in s'.encoders && Reading(s'.encoders[t]) ==>
            t in s.encoders && s.encoders[t] == s'.encoders[t])
      && (forall t :: t in s.encoders && Reading(s.encoders[t]) ==>
            t in s'.encoders && s.encoders[t] == s'.encoders[t])
  {
    var s' := ClientStep(cfg, s, c);
    if s'.encoders != s.encoders {
      assert s.writer == Some(c) && s.readers == {};
      assert forall u :: u in s.encoders ==> !Reading(s.encoders[u]);
    }
  }

  ghost predicate Reachable(cfg: Config, s: State)
  {
    exists states: seq<State>, actions: seq<Action> :: IsRun(cfg, states, actions) && states[|states| - 1] == s
  }

  lemma Start(cfg: Config)
    ensures Reachable(cfg, Initial())
  {
    var states: seq<State>, actions: seq<Action> := [Initial()], [];
    assert IsRun(cfg, states, actions);
  }

  lemma Extend(cfg: Config, s: State, a: Action)
    requires Reachable(cfg, s) && Enabled(cfg, s, a)
    ensures Reachable(cfg, Next(cfg, s, a))
  {
    var states: seq<State>, actions: seq<Action> :| IsRun(cfg, states, actions) && states[|states| - 1] == s;
    var states', actions' := states + [Next(cfg, s, a)], actions + [a];
    forall i | 0 <= i < |actions'|
      ensures IsStep(cfg, states'[i], actions'[i], states'[i + 1])
    {
      assert i < |actions| ==> IsStep(cfg, states[i], actions[i], states[i + 1]);
    }
    assert IsRun(cfg, states', actions');
  }

  lemma ReachableInv(cfg: Config, s: State)
    requires cfg.Valid() && Reachable(cfg, s)
    ensures SystemInv(cfg, s)
  {
    var states: seq<State>, actions: seq<Action> :| IsRun(cfg, states, actions) && states[|states| - 1] == s;
    RunInv(cfg, states, actions, |states| - 1);
  }

  /** All live threads are about to test whether to go on, and client `c` is at `pc`. */
  ghost predicate At(s: State, c: Cid, pc: ClientPc)
  {
    && c in s.clients && s.clients[c].pc == pc
    && s.readers == {} && (s.writer == if pc.Holding? then Some(c) else None)
    && forall t :: Live(s.encoders, t) ==> s.encoders[t].LoopHead?
  }

  /** Client `c` keeps its context, and nobody comes or goes. */
  ghost predicate Keeps(s: State, s': State, c: Cid)
  {
    && s'.clients.Keys == s.clients.Keys && s'.mutexes == s.mutexes && s'.stalled == s.stalled
    && c in s.clients && s'.clients[c].ctx == s.clients[c].ctx
  }

  const ID: string := "id"

  /** A SETUP for a stream over TCP: the first draws the session id, others carry it. */
  function SetupTcp(ch: ChannelId, first: bool): Command
  {
    Setup(SetupRequest(true, Some(ch), if first then "" else ID, ID, Some(TCP), true, Opened(0, 0, 0)))
  }

  lemma Connects(cfg: Config, s: State, c: Cid, ch: ChannelId) returns (s': State)
    requires Reachable(cfg, s) && c !in s.clients
    ensures Reachable(cfg, s') && s' == s.(clients := s'.clients) && s'.clients.Keys == s.clients.Keys + {c}
    ensures s'.clients[c].pc == Commands && UsesWriter(s', c, ch) && Inv(s'.clients[c].ctx)
    ensures forall d :: d in s.clients ==> s'.clients[d] == s.clients[d]
    ensures var ctx := s'.clients[c].ctx;
      && ctx.state == READY && ctx.session == Some(ID)
      && forall other: ChannelId :: other != ch ==> ctx.fmtctx[other].None?
  {
    Extend(cfg, s, Connect(c));
    var s1 := Next(cfg, s, Connect(c));
    var setup := SetupTcp(ch, true);
    assert HandleSetup(InitialContext(), setup.setup).1 == OK;
    HandleInv(InitialContext(), setup);
    Extend(cfg, s1, Receive(c, setup));
    s' := Next(cfg, s1, Receive(c, setup));
  }

  lemma SetsUp(cfg: Config, s: State, c: Cid, ch: ChannelId) returns (s': State)
    requires Reachable(cfg, s) && c in s.clients && s.clients[c].pc == Commands && Inv(s.clients[c].ctx)
    requires var ctx := s.clients[c].ctx; ctx.state == READY && ctx.session == Some(ID) && ctx.fmtctx[ch].None?
    ensures Reachable(cfg, s') && s' == s.(clients := s'.clients) && s'.clients.Keys == s.clients.Keys
    ensures s'.clients[c].pc == Commands && UsesWriter(s', c, ch)
    ensures var ctx := s'.clients[c].ctx; ctx.state == READY && ctx.session == Some(ID)
    ensures forall other: ChannelId :: UsesWriter(s, c, other) ==> UsesWriter(s', c, other)
  {
    var setup := SetupTcp(ch, false);
    assert HandleSetup(s.clients[c].ctx, setup.setup).1 == OK;
    HandleInv(s.clients[c].ctx, setup);
    Extend(cfg, s, Receive(c, setup));
    s' := Next(cfg, s, Receive(c, setup));
  }

  lemma AsksToPlay(cfg: Config, s: State, c: Cid) returns (s': State)
    requires Reachable(cfg, s) && c in s.clients && s.clients[c].pc == Commands && WellFormed(s.clients[c].ctx)
    requires s.clients[c].ctx.state == READY && s.clients[c].ctx.session == Some(ID)
    ensures Reachable(cfg, s') && s' == s.(clients := s'.clients) && s'.clients.Keys == s.clients.Keys
    ensures s'.clients[c].pc == WantRegister && s'.clients[c].ctx == s.clients[c].ctx
    ensures forall d :: d in s.clients && d != c ==> s'.clients[d] == s.clients[d]
  {
    var play := Play(SessionRequest(true, ID));
    Extend(cfg, s, Receive(c, play));
    s' := Next(cfg, s, Receive(c, play));
  }

  /** A new connection sets one or two streams up over TCP and asks to play. */
  lemma Arrives(cfg: Config, s: State, c: Cid, ch: ChannelId, ch2: ChannelId) returns (s': State)
    requires Reachable(cfg, s) && c !in s.clients && s.writer.None? && s.readers == {}
    requires forall t :: Live(s.encoders, t) ==> s.encoders[t].LoopHead?
    ensures Reachable(cfg, s') && At(s', c, WantRegister) && UsesWriter(s', c, ch) && UsesWriter(s', c, ch2)
    ensures s' == s.(clients := s'.clients) && s'.clients.Keys == s.clients.Keys + {c}
  {
    var s1 := Connects(cfg, s, c, ch);
    if ch2 != ch {
      s1 := SetsUp(cfg, s1, c, ch2);
    }
    s' := AsksToPlay(cfg, s1, c);
  }

  lemma Moves(cfg: Config, s: State, c: Cid) returns (s': State)
    requires Reachable(cfg, s) && ClientCanMove(cfg, s, c)
    ensures s' == ClientStep(cfg, s, c) && Reachable(cfg, s')
  {
    Extend(cfg, s, ClientMove(c));
    s' := Next(cfg, s, ClientMove(c));
  }

  /** With nobody registered, PLAY begins a new launch. */
  lemma BeginsLaunch(cfg: Config, s: State, c: Cid) returns (s': State)
    requires Reachable(cfg, s) && At(s, c, WantRegister) && s.registered == {}
    ensures Reachable(cfg, s') && At(s', c, Holding(Launching(0))) && s'.threadLaunched && s'.registered == {}
    ensures s'.encoders == s.encoders && s'.generation == s.generation + 1 && Keeps(s, s', c)
  {
    var s1 := Moves(cfg, s, c);
    s' := Moves(cfg, s1, c);
  }

  lemma LaunchesOne(cfg: Config, s: State, c: Cid, k: nat) returns (s': State)
    requires Reachable(cfg, s) && At(s, c, Holding(Launching(k))) && k < cfg.Launches()
    ensures Reachable(cfg, s') && At(s', c, Holding(Launching(k + 1)))
    ensures s' == s.(encoders := s.encoders[Tid(s.generation, cfg.LaunchSlot(k)) := LoopHead], clients := s'.clients)
    ensures Keeps(s, s', c)
  {
    s' := Moves(cfg, s, c);
  }

  /** The first `n` threads of the present launch are about to test whether to go on. */
  ghost predicate Launched(cfg: Config, s: State, n: nat)
  {
    forall j :: 0 <= j < n ==> Live(s.encoders, Tid(s.generation, cfg.LaunchSlot(j)))
  }

  lemma {:induction false} LaunchesAll(cfg: Config, s: State, c: Cid, k: nat) returns (s': State)
    requires Reachable(cfg, s) && At(s, c, Holding(Launching(k))) && k <= cfg.Launches() && Launched(cfg, s, k)
    ensures Reachable(cfg, s') && At(s', c, Holding(Launching(cfg.Launches())))
    ensures Launched(cfg, s', cfg.Launches()) && s'.generation == s.generation
    ensures s'.registered == s.registered && s'.threadLaunched == s.threadLaunched && Keeps(s, s', c)
    decreases cfg.Launches() - k
  {
    if k == cfg.Launches() {
      s' := s;
    } else {
      var s1 := LaunchesOne(cfg, s, c, k);
      s' := LaunchesAll(cfg, s1, c, k + 1);
    }
  }

  lemma SlotLaunched(cfg: Config, s: State, slot: int)
    requires Launched(cfg, s, cfg.Launches()) && IsLaunched(cfg, slot)
    ensures Live(s.encoders, Tid(s.generation, slot))
  {
    var j := if slot == AUDIO_SLOT then cfg.vencoders else slot;
    assert cfg.LaunchSlot(j) == slot;
  }

  lemma EntersMap(cfg: Config, s: State, c: Cid) returns (s': State)
    requires Reachable(cfg, s) && At(s, c, Holding(Launching(cfg.Launches()))) && s.registered == {}
    ensures Reachable(cfg, s') && At(s', c, Holding(LeavingRegister)) && s'.registered == {c} && Keeps(s, s', c)
    ensures s'.encoders == s.encoders && s'.generation == s.generation && s'.threadLaunched == s.threadLaunched
  {
    var s1 := Moves(cfg, s, c);
    s' := Moves(cfg, s1, c);
  }

  lemma EndsRegister(cfg: Config, s: State, c: Cid) returns (s': State)
    requires Reachable(cfg, s) && At(s, c, Holding(Launching(cfg.Launches()))) && s.registered == {}
    ensures Reachable(cfg, s') && At(s', c, Commands) && s'.registered == {c}
    ensures s'.clients[c].ctx == s.clients[c].ctx.(state := PLAYING) && s'.clients.Keys == s.clients.Keys
    ensures s'.encoders == s.encoders && s'.generation == s.generation && s'.mutexes == s.mutexes
    ensures s'.threadLaunched == s.threadLaunched && s'.stalled == s.stalled
  {
    var s1 := EntersMap(cfg, s, c);
    var s2 := Moves(cfg, s1, c);
    s' := Moves(cfg, s2, c);
  }

  /** From nothing: client 0 plays, with two streams over TCP, and all threads are started. */
  lemma FirstPlays(cfg: Config, ch: ChannelId, ch2: ChannelId) returns (s: State)
    ensures Reachable(cfg, s) && At(s, 0, Commands) && s.registered == {0} && s.clients.Keys == {0} && s.threadLaunched
    ensures UsesWriter(s, 0, ch) && UsesWriter(s, 0, ch2) && s.clients[0].ctx.state == PLAYING
    ensures s.mutexes == map[] && s.stalled == {}
    ensures Launched(cfg, s, cfg.Launches())
  {
    Start(cfg);
    var s0 := Arrives(cfg, Initial(), 0, ch, ch2);
    var s1 := BeginsLaunch(cfg, s0, 0);
    var s2 := LaunchesAll(cfg, s1, 0, 0);
    s := EndsRegister(cfg, s2, 0);
  }

  /** The client hangs up, whatever the encoder threads are doing, and its socket is closed. */
  lemma HangsUp(cfg: Config, s: State, c: Cid) returns (s': State)
    requires Reachable(cfg, s) && c in s.clients && s.clients[c].pc == Commands
    ensures Reachable(cfg, s') && c in s'.clients && s'.clients[c].pc == WantUnregister
    ensures s' == s.(clients := s'.clients) && s'.clients.Keys == s.clients.Keys
  {
    Extend(cfg, s, Disconnect(c));
    s' := Moves(cfg, Next(cfg, s, Disconnect(c)), c);
  }
}
