/**
 What the shared-encoder protocol guarantees in every run: registration follows the connection's
 state, a client is sent to only while it is registered, and stopping the encoders ends.
 */
module EncoderShutdown {
  import opened RtspCommands
  import opened EncoderLifecycle

  // ---------------------------------------------------------------- registration

  /**
   Between commands a client is registered exactly when it plays or pauses; after its session ends,
   exactly when it has played and not yet unregistered. With the lock free, the encoders are
   launched exactly when somebody is registered.
   */
  lemma RegistrationAgrees(cfg: Config, states: seq<State>, actions: seq<Action>, i: nat, c: Cid)
    requires cfg.Valid() && IsRun(cfg, states, actions) && i < |states| && c in states[i].clients
    ensures var s := states[i]; var client := s.clients[c];
      && (client.pc.Commands? ==> (c in s.registered <==> HasPlayed(client.ctx.state)))
      && (client.pc.Quitting? || client.pc.WantUnregister? || client.pc == Holding(Erasing) ==>
            client.ctx.state == TEARDOWN && (c in s.registered <==> client.played))
      && (client.pc.Deinit? || client.pc.Gone? ==> c !in s.registered)
      && (s.writer.None? ==> (s.threadLaunched <==> s.registered != {}))
  {
    RunInv(cfg, states, actions, i);
    assert ClientInv(states[i].clients[c], c in states[i].registered);
  }

  /**
   Only a client's first PLAY can start encoders, it does so only when no encoder thread is alive,
   and it leaves the first of them to reset the clock. PLAY after PAUSE never relaunches.
   */
  lemma LaunchesAreFresh(cfg: Config, states: seq<State>, actions: seq<Action>, i: nat, c: Cid)
    requires cfg.Valid() && IsRun(cfg, states, actions) && i < |actions|
    requires actions[i] == ClientMove(c) && states[i + 1].generation != states[i].generation
    ensures var s := states[i];
      c in s.clients && !s.clients[c].played && s.clients[c].ctx.state == READY &&
      s.syncReset && forall t :: !Live(s.encoders, t)
  {
    RunInv(cfg, states, actions, i);
    assert IsStep(cfg, states[i], actions[i], states[i + 1]);
    assert ClientInv(states[i].clients[c], c in states[i].registered);
  }

  /** Threads of two launches are never alive together. */
  lemma OneGenerationAlive(cfg: Config, states: seq<State>, actions: seq<Action>, i: nat, t: Tid, u: Tid)
    requires cfg.Valid() && IsRun(cfg, states, actions) && i < |states|
    requires Live(states[i].encoders, t) && Live(states[i].encoders, u)
    ensures t.generation == u.generation == states[i].generation
  {
    RunInv(cfg, states, actions, i);
  }

  // ---------------------------------------------------------------- sending

  /**
   A client being sent to is registered, was PLAYING when it was picked, has not freed its streams,
   and still has every slot it had then: set together or clear together. Its socket may be closed:
   exactly when it is waiting to unregister.
   */
  lemma NoSendToDeparted(cfg: Config, states: seq<State>, actions: seq<Action>, i: nat, t: Tid)
    requires cfg.Valid() && IsRun(cfg, states, actions) && i < |states|
    requires t in states[i].encoders && states[i].encoders[t].Sending?
    ensures var s := states[i]; var to, seen := s.encoders[t].to, s.encoders[t].seen;
      && to in s.registered && to in s.clients
      && !s.clients[to].pc.Deinit? && !s.clients[to].pc.Gone?
      && (SocketOpen(s.clients[to].pc) <==> !s.clients[to].pc.WantUnregister?)
      && seen.state == PLAYING && s.clients[to].ctx == seen.(state := s.clients[to].ctx.state)
      && Inv(s.clients[to].ctx)
      && forall ch: ChannelId :: SlotSet(s.clients[to].ctx, ch) || SlotClear(s.clients[to].ctx, ch)
  {
    RunInv(cfg, states, actions, i);
    var s := states[i];
    assert EncoderInv(s.encoders[t], s.clients, s.registered);
    var to := s.encoders[t].to;
    assert ClientInv(s.clients[to], to in s.registered) && Inv(s.clients[to].ctx);
  }

  // ---------------------------------------------------------------- stopping

  ghost predicate IsJoining(s: State, c: Cid)
  {
    c in s.clients && s.clients[c].pc.Holding? && s.clients[c].pc.stage.Joining?
  }

  /** Steps an encoder thread can still take once the flag is down and the lock is taken. */
  function Rank(encoders: map<Tid, EncoderPc>, t: Tid): nat
  {
    if t !in encoders then 0
    else
      match encoders[t]
      case Exited => 0
      case LoopHead => 1
      case LockFailed => 1
      case TryLock => 2
      case _ => 3
  }

  function RankSum(cfg: Config, encoders: map<Tid, EncoderPc>, generation: nat, k: nat): nat
    requires k <= cfg.Joins()
  {
    if k == 0 then 0
    else RankSum(cfg, encoders, generation, k - 1) + Rank(encoders, Tid(generation, cfg.JoinSlot(k - 1)))
  }

  /** How many steps the encoder threads have left before all of them have exited. */
  function StepsLeft(cfg: Config, s: State): nat
  {
    RankSum(cfg, s.encoders, s.generation, cfg.Joins()) + if s.syncReset then 1 else 0
  }

  lemma {:induction false} RankSumChange(cfg: Config, encoders: map<Tid, EncoderPc>, t: Tid, pc: EncoderPc, k: nat)
    requires cfg.Valid() && k <= cfg.Joins() && IsLaunched(cfg, t.slot)
    ensures RankSum(cfg, encoders[t := pc], t.generation, k) ==
      RankSum(cfg, encoders, t.generation, k) +
      if cfg.JoinIndex(t.slot) < k then Rank(encoders[t := pc], t) - Rank(encoders, t) else 0
  {
    if k > 0 {
      RankSumChange(cfg, encoders, t, pc, k - 1);
      var u := Tid(t.generation, cfg.JoinSlot(k - 1));
      assert u == t <==> cfg.JoinIndex(t.slot) == k - 1;
      assert u != t ==> Rank(encoders[t := pc], u) == Rank(encoders, u);
    }
  }

  /** While the last client waits in join, every step of an encoder thread brings it nearer its exit. */
  lemma EncoderStepsDown(cfg: Config, s: State, c: Cid, t: Tid, choice: Choice)
    requires cfg.Valid() && SystemInv(cfg, s) && IsJoining(s, c) && EncoderCanMove(cfg, s, t, choice)
    ensures StepsLeft(cfg, EncoderStep(cfg, s, t, choice)) < StepsLeft(cfg, s)
  {
    assert !s.threadLaunched && s.readers == {} && !Reading(s.encoders[t]);
    var s' := EncoderStep(cfg, s, t, choice);
    assert s'.encoders == s.encoders[t := s'.encoders[t]];
    RankSumChange(cfg, s.encoders, t, s'.encoders[t], cfg.Joins());
  }

  /** Nothing else any thread does while the client waits gives the encoders new steps. */
  lemma OthersKeepSteps(cfg: Config, s: State, c: Cid, a: Action)
    requires LockInv(s) && IsJoining(s, c) && Enabled(cfg, s, a) && !a.EncoderMove?
    requires IsJoining(Next(cfg, s, a), c)
    ensures StepsLeft(cfg, Next(cfg, s, a)) == StepsLeft(cfg, s)
  {
    if a.ClientMove? {
      assert s.clients[a.c].pc.Holding? <==> s.writer == Some(a.c);
    }
    var s' := Next(cfg, s, a);
    assert s'.encoders == s.encoders && s'.generation == s.generation && s'.syncReset == s.syncReset;
  }

  function EncoderMoves(actions: seq<Action>): nat
  {
    if actions == [] then 0
    else EncoderMoves(actions[..|actions| - 1]) + if actions[|actions| - 1].EncoderMove? then 1 else 0
  }

  ghost predicate Down(cfg: Config, s: State, a: Action, s': State)
  {
    StepsLeft(cfg, s') + (if a.EncoderMove? then 1 else 0) <= StepsLeft(cfg, s)
  }

  lemma JoinStep(cfg: Config, states: seq<State>, actions: seq<Action>, m: nat, c: Cid)
    requires cfg.Valid() && IsRun(cfg, states, actions) && m < |actions|
    requires IsJoining(states[m], c) && IsJoining(states[m + 1], c)
    ensures Down(cfg, states[m], actions[m], states[m + 1])
  {
    RunInv(cfg, states, actions, m);
    assert IsStep(cfg, states[m], actions[m], states[m + 1]);
    if actions[m].EncoderMove? {
      EncoderStepsDown(cfg, states[m], c, actions[m].t, actions[m].choice);
    } else {
      OthersKeepSteps(cfg, states[m], c, actions[m]);
    }
  }

  lemma {:induction false} JoinStretch(cfg: Config, states: seq<State>, actions: seq<Action>, i: nat, j: nat)
    requires i <= j < |states| && |states| == |actions| + 1
    requires forall m :: i <= m < j ==> Down(cfg, states[m], actions[m], states[m + 1])
    ensures EncoderMoves(actions[i..j]) + StepsLeft(cfg, states[j]) <= StepsLeft(cfg, states[i])
  {
    if i < j {
      JoinStretch(cfg, states, actions, i, j - 1);
      assert Down(cfg, states[j - 1], actions[j - 1], states[j - 1 + 1]);
      assert actions[i..j][..j - 1 - i] == actions[i..j - 1];
    }
  }

  lemma {:induction false} RankSumBound(cfg: Config, s: State, k: nat)
    requires k <= cfg.Joins()
    ensures RankSum(cfg, s.encoders, s.generation, k) <= 3 * k
  {
    if k > 0 {
      RankSumBound(cfg, s, k - 1);
    }
  }

  /**
   In any stretch of any run that the last client spends in join, all encoder threads together take
   at most three steps per slot, and one that takes the clock reset. None of them is stuck meanwhile
   (`JoinedMoves`), so the join ends.
   */
  lemma JoinIsBounded(cfg: Config, states: seq<State>, actions: seq<Action>, i: nat, j: nat, c: Cid)
    requires cfg.Valid() && IsRun(cfg, states, actions) && i <= j < |states|
    requires forall m :: i <= m <= j ==> IsJoining(states[m], c)
    ensures EncoderMoves(actions[i..j]) <= 3 * cfg.Joins() + 1
  {
    forall m | i <= m < j
      ensures Down(cfg, states[m], actions[m], states[m + 1])
    {
      assert IsJoining(states[m], c) && IsJoining(states[m + 1], c);
      JoinStep(cfg, states, actions, m, c);
    }
    JoinStretch(cfg, states, actions, i, j);
    RankSumBound(cfg, states[i], cfg.Joins());
  }

  /** The thread waits for a client's writer mutex, which somebody has locked. */
  predicate AwaitsMutex(s: State, t: Tid)
  {
    t in s.encoders && s.encoders[t].Sending? && s.encoders[t].at.Locking? && s.encoders[t].to in s.mutexes
  }

  /** The thread is writing to a client that has stopped reading, and whose socket is open. */
  predicate AwaitsPeer(s: State, t: Tid)
  {
    t in s.encoders && s.encoders[t].Sending? && (s.encoders[t].at.Header? || s.encoders[t].at.Payload?) &&
    WriteBlocks(s, s.encoders[t].to)
  }

  /**
   A live encoder thread can take a step exactly when it waits neither for a writer mutex nor for a
   client to read.
   */
  lemma EncoderMovesExactly(cfg: Config, s: State, t: Tid)
    requires Live(s.encoders, t)
    ensures (exists choice :: EncoderCanMove(cfg, s, t, choice)) <==> !AwaitsMutex(s, t) && !AwaitsPeer(s, t)
  {
    if s.encoders[t].Iterating? && s.encoders[t].todo != {} {
      var c :| c in s.encoders[t].todo;
      assert EncoderCanMove(cfg, s, t, Pick(c));
    } else if !AwaitsMutex(s, t) && !AwaitsPeer(s, t) {
      assert EncoderCanMove(cfg, s, t, Again);
    }
  }

  /** While the last client waits in join, no encoder thread holds the read lock, so none is stuck in a send. */
  lemma JoinedMoves(cfg: Config, states: seq<State>, actions: seq<Action>, i: nat, c: Cid, t: Tid)
    returns (choice: Choice)
    requires cfg.Valid() && IsRun(cfg, states, actions) && i < |states|
    requires IsJoining(states[i], c) && Live(states[i].encoders, t)
    ensures EncoderCanMove(cfg, states[i], t, choice)
  {
    RunInv(cfg, states, actions, i);
    assert t !in states[i].readers;
    EncoderMovesExactly(cfg, states[i], t);
    choice :| EncoderCanMove(cfg, states[i], t, choice);
  }
}
