/**
 When the encoder protocol can deadlock. Packets for a TCP client are written under its writer mutex,
 while the sender holds the read lock. A payload write that fails leaves that mutex locked for good, and
 the next thread that wants it keeps the read lock for good. Payload writes do fail: the quit path closes
 the socket before it waits for the write lock. And a client that stops reading keeps whoever writes to
 it, with the read lock, for as long as it likes.
 */
module EncoderProgress {
  import opened RtspCommands
  import opened EncoderLifecycle
  import opened EncoderRuns
  import opened EncoderShutdown

  // ---------------------------------------------------------------- who holds a writer mutex

  /** The thread has locked the writer mutex of client `to`, and will unlock it unless a payload write fails. */
  predicate Owns(pc: EncoderPc, to: Cid)
  {
    pc.Sending? && pc.to == to && (pc.at.Header? || pc.at.Payload? || pc.at.Unlocking?)
  }

  ghost predicate Owned(s: State, c: Cid)
    requires c in s.mutexes
  {
    s.mutexes[c] in s.encoders && Owns(s.encoders[s.mutexes[c]], c)
  }

  predicate Closed(s: State, c: Cid)
  {
    c in s.clients && !SocketOpen(s.clients[c].pc)
  }

  ghost predicate OwnersHold(s: State)
  {
    forall t, c :: t in s.encoders && Owns(s.encoders[t], c) ==> c in s.mutexes && s.mutexes[c] == t
  }

  /**
   A locked mutex has its owner, or has been left locked: while payload writes fail on closed sockets
   only, by a write to a client that has closed its.
   */
  ghost predicate MutexInv(cfg: Config, s: State)
  {
    && OwnersHold(s)
    && (!cfg.payloadMayFail ==> forall c :: c in s.mutexes ==> Owned(s, c) || Closed(s, c))
  }

  /** Only started threads run, and only those that have a stream get as far as a writer mutex. */
  ghost predicate SendersInv(cfg: Config, s: State)
  {
    && (!cfg.Sends() ==> s.mutexes == map[]) && (!cfg.peersMayStall ==> s.stalled == {})
    && forall t :: t in s.encoders ==>
         && IsLaunched(cfg, t.slot)
         && (s.encoders[t].Sending? && !s.encoders[t].at.Opening? ==> cfg.Channel(t.slot) < RTSP_CHANNEL_MAX)
  }

  /** A thread with a stream is on its way to the mutex of client `to`. */
  predicate Wants(cfg: Config, t: Tid, pc: EncoderPc, to: Cid)
  {
    cfg.Channel(t.slot) < RTSP_CHANNEL_MAX && pc.Sending? && pc.to == to && (pc.at.Opening? || pc.at.Locking?)
  }

  /** What a lone sender wants is free. */
  ghost predicate FreeWhenWanted(cfg: Config, s: State)
  {
    forall t, c :: t in s.encoders && Wants(cfg, t, s.encoders[t], c) ==> c !in s.mutexes
  }

  lemma EncoderOwners(cfg: Config, s: State, t: Tid, choice: Choice)
    requires OwnersHold(s) && EncoderCanMove(cfg, s, t, choice)
    ensures OwnersHold(EncoderStep(cfg, s, t, choice))
  {
    var s' := EncoderStep(cfg, s, t, choice);
    forall u, c | u in s'.encoders && Owns(s'.encoders[u], c)
      ensures c in s'.mutexes && s'.mutexes[c] == u
    {
      assert u in s.encoders;
      if u != t {
        assert Owns(s.encoders[u], c);
        assert c in s.mutexes && s.mutexes[c] == u && !Owns(s.encoders[t], c);
      } else {
        assert Owns(s.encoders[t], c) || s.encoders[t].at.Locking?;
      }
    }
  }

  lemma EncoderMutexes(cfg: Config, s: State, t: Tid, choice: Choice)
    requires MutexInv(cfg, s) && EncoderCanMove(cfg, s, t, choice)
    ensures MutexInv(cfg, EncoderStep(cfg, s, t, choice))
  {
    var s' := EncoderStep(cfg, s, t, choice);
    EncoderOwners(cfg, s, t, choice);
    if !cfg.payloadMayFail {
      forall c | c in s'.mutexes
        ensures Owned(s', c) || Closed(s', c)
      {
        assert c in s.mutexes ==> Owned(s, c) || Closed(s, c);
      }
    }
  }

  /** A closed socket stays closed, and nobody else's is opened. */
  lemma ClosedStays(cfg: Config, s: State, a: Action, c: Cid)
    requires Enabled(cfg, s, a) && Closed(s, c)
    ensures Closed(Next(cfg, s, a), c)
  {
    match a
    case EncoderMove(_, _) =>
    case ClientMove(_) =>
    case Stall(_) =>
    case Resume(_) =>
    case _ => ReceiveEffect(cfg, s, a);
  }

  lemma OthersMutexes(cfg: Config, s: State, a: Action)
    requires LockInv(s) && MutexInv(cfg, s) && Enabled(cfg, s, a) && !a.EncoderMove?
    ensures MutexInv(cfg, Next(cfg, s, a))
  {
    var s' := Next(cfg, s, a);
    if a.ClientMove? {
      ClientLeavesReaders(cfg, s, a.c);
    } else if !a.Stall? && !a.Resume? {
      ReceiveEffect(cfg, s, a);
    }
    if !cfg.payloadMayFail {
      forall c | c in s'.mutexes
        ensures Owned(s', c) || Closed(s', c)
      {
        assert Owned(s, c) || Closed(s, c);
        if Closed(s, c) {
          ClosedStays(cfg, s, a, c);
        }
      }
    }
  }

  lemma EncoderSenders(cfg: Config, s: State, t: Tid, choice: Choice)
    requires SendersInv(cfg, s) && EncoderCanMove(cfg, s, t, choice)
    ensures SendersInv(cfg, EncoderStep(cfg, s, t, choice))
  {
    var s', next := EncoderStep(cfg, s, t, choice), EncoderNext(cfg, s, t, choice);
    assert next.Sending? && !next.at.Opening? ==> cfg.Channel(t.slot) < RTSP_CHANNEL_MAX;
    assert IsLaunched(cfg, t.slot);
  }

  lemma ClientSenders(cfg: Config, s: State, c: Cid)
    requires SendersInv(cfg, s) && ClientCanMove(cfg, s, c)
    ensures SendersInv(cfg, ClientStep(cfg, s, c))
  {
  }

  lemma StepSenders(cfg: Config, s: State, a: Action)
    requires SendersInv(cfg, s) && Enabled(cfg, s, a)
    ensures SendersInv(cfg, Next(cfg, s, a))
  {
    match a
    case EncoderMove(t, choice) => EncoderSenders(cfg, s, t, choice);
    case ClientMove(c) => ClientSenders(cfg, s, c);
    case Stall(_) =>
    case Resume(_) =>
    case _ => ReceiveEffect(cfg, s, a);
  }

  lemma LoneSender(cfg: Config, t: Tid, u: Tid)
    requires !cfg.SendsTwice() && t.generation == u.generation && IsLaunched(cfg, t.slot) && IsLaunched(cfg, u.slot)
    requires cfg.Channel(t.slot) < RTSP_CHANNEL_MAX && cfg.Channel(u.slot) < RTSP_CHANNEL_MAX
    ensures t == u
  {
  }

  lemma PickedIsFree(cfg: Config, s: State, t: Tid, c: Cid)
    requires SystemInv(cfg, s) && MutexInv(cfg, s) && SendersInv(cfg, s) && !cfg.payloadMayFail && !cfg.SendsTwice()
    requires Live(s.encoders, t) && s.encoders[t].Iterating? && cfg.Channel(t.slot) < RTSP_CHANNEL_MAX
    requires c in s.clients && s.clients[c].ctx.state == PLAYING
    ensures c !in s.mutexes
  {
    assert ClientInv(s.clients[c], c in s.registered);
    assert SocketOpen(s.clients[c].pc);
    if c in s.mutexes && Owned(s, c) {
      LoneSender(cfg, t, s.mutexes[c]);
    }
  }

  /** With one sender: it picks a client that is PLAYING, so its socket is open, so its mutex is free. */
  lemma EncoderWants(cfg: Config, s: State, t: Tid, choice: Choice)
    requires SystemInv(cfg, s) && MutexInv(cfg, s) && SendersInv(cfg, s) && FreeWhenWanted(cfg, s)
    requires !cfg.payloadMayFail && !cfg.SendsTwice() && EncoderCanMove(cfg, s, t, choice)
    ensures FreeWhenWanted(cfg, EncoderStep(cfg, s, t, choice))
  {
    var s' := EncoderStep(cfg, s, t, choice);
    forall u, c | u in s'.encoders && Wants(cfg, u, s'.encoders[u], c)
      ensures c !in s'.mutexes
    {
      assert Live(s.encoders, t) && Live(s.encoders, u);
      if u == t {
        if s.encoders[t].Iterating? {
          PickedIsFree(cfg, s, t, c);
        }
      } else {
        assert Wants(cfg, u, s.encoders[u], c);
        if s.encoders[t].Sending? && s.encoders[t].at.Locking? {
          LoneSender(cfg, t, u);
          assert false;
        }
      }
    }
  }

  lemma StepWants(cfg: Config, s: State, a: Action)
    requires SystemInv(cfg, s) && MutexInv(cfg, s) && SendersInv(cfg, s) && FreeWhenWanted(cfg, s)
    requires !cfg.payloadMayFail && !cfg.SendsTwice() && Enabled(cfg, s, a)
    ensures FreeWhenWanted(cfg, Next(cfg, s, a))
  {
    match a
    case EncoderMove(t, choice) => EncoderWants(cfg, s, t, choice);
    case ClientMove(c) => ClientLeavesReaders(cfg, s, c);
    case Stall(_) =>
    case Resume(_) =>
    case _ => ReceiveEffect(cfg, s, a);
  }

  ghost predicate SendingInv(cfg: Config, s: State)
  {
    MutexInv(cfg, s) && SendersInv(cfg, s) && (!cfg.payloadMayFail && !cfg.SendsTwice() ==> FreeWhenWanted(cfg, s))
  }

  lemma {:induction false} RunSending(cfg: Config, states: seq<State>, actions: seq<Action>, i: nat)
    requires cfg.Valid() && IsRun(cfg, states, actions) && i < |states|
    ensures SendingInv(cfg, states[i])
  {
    if i > 0 {
      RunSending(cfg, states, actions, i - 1);
      RunInv(cfg, states, actions, i - 1);
      var s, a := states[i - 1], actions[i - 1];
      assert IsStep(cfg, s, a, states[i - 1 + 1]);
      StepSenders(cfg, s, a);
      if a.EncoderMove? {
        EncoderMutexes(cfg, s, a.t, a.choice);
      } else {
        OthersMutexes(cfg, s, a);
      }
      if !cfg.payloadMayFail && !cfg.SendsTwice() {
        StepWants(cfg, s, a);
      }
    }
  }

  lemma ReachableSending(cfg: Config, s: State)
    requires cfg.Valid() && Reachable(cfg, s)
    ensures SendingInv(cfg, s)
  {
    var states: seq<State>, actions: seq<Action> :| IsRun(cfg, states, actions) && states[|states| - 1] == s;
    RunSending(cfg, states, actions, |states| - 1);
  }

  // ---------------------------------------------------------------- progress

  /** The connection is in the middle of registering, unregistering or quitting. */
  predicate Busy(s: State, c: Cid)
  {
    c in s.clients && !s.clients[c].pc.Commands? && !s.clients[c].pc.Gone?
  }

  predicate Joins(cfg: Config, s: State, c: Cid, t: Tid)
  {
    && c in s.clients && s.clients[c].pc.Holding? && s.clients[c].pc.stage.Joining?
    && s.clients[c].pc.stage.k < cfg.Joins() && t == Tid(s.generation, cfg.JoinSlot(s.clients[c].pc.stage.k))
  }

  /** A step of the connection, or of a thread it waits for: the lock's writer, a reader, or a thread being joined. */
  predicate Furthers(cfg: Config, s: State, c: Cid, a: Action)
  {
    match a
    case ClientMove(d) => d == c || s.writer == Some(d)
    case EncoderMove(t, _) =>
      t in s.readers || Joins(cfg, s, c, t) || (s.writer.Some? && Joins(cfg, s, s.writer.value, t))
    case _ => false
  }

  /** Every writer mutex that a thread waits for will be unlocked. */
  ghost predicate AwaitedOwned(s: State)
  {
    forall t :: AwaitsMutex(s, t) ==> Owned(s, s.encoders[t].to)
  }

  /** Every write returns. */
  ghost predicate WritesReturn(s: State)
  {
    forall t :: !AwaitsPeer(s, t)
  }

  /** Among the readers, one can move: whoever waits for a mutex waits for another reader that owns it. */
  lemma SomeReaderMoves(cfg: Config, s: State) returns (a: Action)
    requires LockInv(s) && AwaitedOwned(s) && WritesReturn(s) && s.readers != {}
    ensures a.EncoderMove? && a.t in s.readers && Enabled(cfg, s, a)
  {
    var t :| t in s.readers;
    if AwaitsMutex(s, t) {
      t := s.mutexes[s.encoders[t].to];
    }
    EncoderMovesExactly(cfg, s, t);
    var choice :| EncoderCanMove(cfg, s, t, choice);
    a := EncoderMove(t, choice);
  }

  lemma WriterMoves(cfg: Config, s: State, c: Cid) returns (a: Action)
    requires LockInv(s) && c in s.clients && s.writer == Some(c)
    ensures Enabled(cfg, s, a) && (a == ClientMove(c) || (a.EncoderMove? && Joins(cfg, s, c, a.t)))
  {
    if ClientCanMove(cfg, s, c) {
      a := ClientMove(c);
    } else {
      var t := Tid(s.generation, cfg.JoinSlot(s.clients[c].pc.stage.k));
      assert t !in s.readers;
      EncoderMovesExactly(cfg, s, t);
      var choice :| EncoderCanMove(cfg, s, t, choice);
      a := EncoderMove(t, choice);
    }
  }

  /**
   While every awaited mutex has its owner and every write returns, a busy connection or a thread it
   waits for can step.
   */
  lemma SomebodyMoves(cfg: Config, s: State, c: Cid) returns (a: Action)
    requires LockInv(s) && AwaitedOwned(s) && WritesReturn(s) && Busy(s, c)
    ensures Enabled(cfg, s, a) && Furthers(cfg, s, c, a)
  {
    if ClientCanMove(cfg, s, c) {
      a := ClientMove(c);
    } else if s.writer.Some? {
      a := WriterMoves(cfg, s, s.writer.value);
    } else {
      a := SomeReaderMoves(cfg, s);
    }
  }

  /**
   Threads are kept from deadlock by sending nothing, or by being alone with sockets that fail only when
   closed and peers that never stop reading.
   */
  predicate Safe(cfg: Config)
  {
    !cfg.Sends() || (!cfg.payloadMayFail && !cfg.SendsTwice() && !cfg.peersMayStall)
  }

  lemma SafeInv(cfg: Config, s: State)
    requires cfg.Valid() && Reachable(cfg, s) && Safe(cfg)
    ensures LockInv(s) && (forall t :: !AwaitsMutex(s, t)) && WritesReturn(s)
  {
    ReachableInv(cfg, s);
    ReachableSending(cfg, s);
    forall t
      ensures !AwaitsMutex(s, t)
    {
      assert t in s.encoders && s.encoders[t].Sending? && s.encoders[t].at.Locking? && cfg.Sends() ==>
        Wants(cfg, t, s.encoders[t], s.encoders[t].to);
    }
  }

  // ---------------------------------------------------------------- the deadlock

  ghost predicate Abandoned(s: State, to: Cid)
  {
    to in s.mutexes && forall u :: u in s.encoders ==> !Owns(s.encoders[u], to)
  }

  /** Client `c` wants to unregister, and reader `t` waits for the mutex of client `to`, which no thread will unlock. */
  ghost predicate Stuck(s: State, c: Cid, t: Tid, to: Cid)
  {
    && c in s.clients && s.clients[c].pc == WantUnregister && s.writer.None?
    && t in s.readers && t in s.encoders
    && s.encoders[t].Sending? && s.encoders[t].to == to && s.encoders[t].at.Locking?
    && Abandoned(s, to)
  }

  /** A client that waits for the write lock goes on waiting while a reader goes on reading. */
  lemma WaitersStay(cfg: Config, s: State, a: Action, c: Cid, t: Tid)
    requires LockInv(s) && s.writer.None? && t in s.readers && Enabled(cfg, s, a) && (a.EncoderMove? ==> a.t != t)
    requires c in s.clients && (s.clients[c].pc == WantRegister || s.clients[c].pc == WantUnregister)
    ensures var s' := Next(cfg, s, a);
      && c in s'.clients && s'.clients[c].pc == s.clients[c].pc && s'.writer.None?
      && t in s'.readers && t in s'.encoders && s'.encoders[t] == s.encoders[t]
  {
    match a
    case EncoderMove(_, _) =>
    case ClientMove(d) => assert !LockFree(s) && !s.clients[d].pc.Holding?;
    case Stall(_) =>
    case Resume(_) =>
    case _ => ReceiveEffect(cfg, s, a);
  }

  lemma AbandonedStays(cfg: Config, s: State, a: Action, to: Cid)
    requires LockInv(s) && Abandoned(s, to) && Enabled(cfg, s, a)
    ensures Abandoned(Next(cfg, s, a), to)
  {
    match a
    case EncoderMove(u, _) => assert !Owns(s.encoders[u], to);
    case ClientMove(d) => ClientLeavesReaders(cfg, s, d);
    case Stall(_) =>
    case Resume(_) =>
    case _ => ReceiveEffect(cfg, s, a);
  }

  /** No step of anybody ends it: the client is never unregistered, and the write lock is never free again. */
  lemma StuckForever(cfg: Config, s: State, a: Action, c: Cid, t: Tid, to: Cid)
    requires LockInv(s) && Stuck(s, c, t, to) && Enabled(cfg, s, a)
    ensures Stuck(Next(cfg, s, a), c, t, to)
  {
    WaitersStay(cfg, s, a, c, t);
    AbandonedStays(cfg, s, a, to);
  }

  ghost predicate StaysStuck(s: State, s': State, c: Cid, t: Tid, to: Cid)
  {
    Stuck(s, c, t, to) ==> Stuck(s', c, t, to)
  }

  lemma StuckStep(cfg: Config, s: State, a: Action, s': State, c: Cid, t: Tid, to: Cid)
    requires LockInv(s) && IsStep(cfg, s, a, s')
    ensures StaysStuck(s, s', c, t, to)
  {
    if Stuck(s, c, t, to) {
      StuckForever(cfg, s, a, c, t, to);
    }
  }

  lemma {:induction false} StuckStretch(states: seq<State>, i: nat, j: nat, c: Cid, t: Tid, to: Cid)
    requires i <= j < |states| && Stuck(states[i], c, t, to)
    requires forall m :: i <= m < j ==> StaysStuck(states[m], states[m + 1], c, t, to)
    ensures Stuck(states[j], c, t, to)
  {
    if i < j {
      StuckStretch(states, i, j - 1, c, t, to);
      assert StaysStuck(states[j - 1], states[j - 1 + 1], c, t, to);
    }
  }

  lemma RunLock(cfg: Config, states: seq<State>, actions: seq<Action>, i: nat)
    requires cfg.Valid() && IsRun(cfg, states, actions) && i < |states|
    ensures LockInv(states[i]) && (i < |actions| ==> IsStep(cfg, states[i], actions[i], states[i + 1]))
  {
    RunInv(cfg, states, actions, i);
  }

  /** In any run that comes to be stuck, every later state is. */
  lemma StuckInRun(cfg: Config, states: seq<State>, actions: seq<Action>, i: nat, j: nat, c: Cid, t: Tid, to: Cid)
    requires cfg.Valid() && IsRun(cfg, states, actions) && i <= j < |states| && Stuck(states[i], c, t, to)
    ensures Stuck(states[j], c, t, to)
  {
    forall m | i <= m < j
      ensures StaysStuck(states[m], states[m + 1], c, t, to)
    {
      RunLock(cfg, states, actions, m);
      StuckStep(cfg, states[m], actions[m], states[m + 1], c, t, to);
    }
    StuckStretch(states, i, j, c, t, to);
  }

  /** Then none of the steps the client waits for can be taken, when there is no other reader. */
  lemma StuckStops(cfg: Config, s: State, c: Cid, t: Tid, to: Cid, a: Action)
    requires Stuck(s, c, t, to) && s.readers == {t} && Enabled(cfg, s, a)
    ensures !Furthers(cfg, s, c, a)
  {
  }

  /** Client `c` wants the write lock, and reader `t` is writing to a client that has stopped reading. */
  ghost predicate Stalled(s: State, c: Cid, t: Tid)
  {
    && c in s.clients && (s.clients[c].pc == WantRegister || s.clients[c].pc == WantUnregister)
    && s.writer.None? && t in s.readers && AwaitsPeer(s, t)
  }

  /** Commands leave sockets open; so does leaving the command loop. */
  lemma ReceiveOpen(cfg: Config, s: State, a: Action)
    requires Enabled(cfg, s, a) && (a.Receive? || a.Disconnect?)
    ensures SocketOpen(Next(cfg, s, a).clients[a.c].pc) && Next(cfg, s, a).stalled == s.stalled
    ensures Next(cfg, s, a).clients == s.clients[a.c := Next(cfg, s, a).clients[a.c]]
  {
    ReceiveEffect(cfg, s, a);
  }

  lemma PeerStays(cfg: Config, s: State, a: Action, to: Cid)
    requires WriteBlocks(s, to) && Enabled(cfg, s, a) && a != Resume(to) && a != ClientMove(to)
    ensures WriteBlocks(Next(cfg, s, a), to)
  {
    match a
    case EncoderMove(_, _) =>
    case ClientMove(_) =>
    case Stall(_) =>
    case Resume(_) =>
    case Connect(_) =>
    case _ => ReceiveOpen(cfg, s, a);
  }

  /** It lasts until that client reads again, or its own thread closes its socket. */
  lemma StalledStays(cfg: Config, s: State, a: Action, c: Cid, t: Tid)
    requires LockInv(s) && Stalled(s, c, t) && Enabled(cfg, s, a)
    requires a != Resume(s.encoders[t].to) && a != ClientMove(s.encoders[t].to)
    ensures Stalled(Next(cfg, s, a), c, t)
  {
    WaitersStay(cfg, s, a, c, t);
    PeerStays(cfg, s, a, s.encoders[t].to);
  }

  lemma StalledStops(cfg: Config, s: State, c: Cid, t: Tid, a: Action)
    requires Stalled(s, c, t) && s.readers == {t} && Enabled(cfg, s, a)
    ensures !Furthers(cfg, s, c, a)
  {
  }

  // ---------------------------------------------------------------- runs into it

  lemma Steps(cfg: Config, s: State, t: Tid, choice: Choice) returns (s': State)
    requires Reachable(cfg, s) && EncoderCanMove(cfg, s, t, choice)
    ensures s' == EncoderStep(cfg, s, t, choice) && Reachable(cfg, s')
  {
    Extend(cfg, s, EncoderMove(t, choice));
    s' := Next(cfg, s, EncoderMove(t, choice));
  }

  /** Client 0 plays and receives a stream over TCP from thread `t`, which is at `pc`. */
  ghost predicate Plays(cfg: Config, s: State, t: Tid, pc: EncoderPc)
  {
    && 0 in s.clients && s.clients[0].pc == Commands && s.clients[0].ctx.state == PLAYING
    && UsesWriter(s, 0, cfg.Channel(t.slot))
    && s.threadLaunched && s.writer.None? && s.registered == {0}
    && t in s.encoders && s.encoders[t] == pc
  }

  /** Nothing but thread `t`'s own place, the set of readers and the mutexes has changed. */
  ghost predicate OnlyMoved(s: State, s': State, t: Tid)
  {
    s' == s.(encoders := s'.encoders, readers := s'.readers, mutexes := s'.mutexes)
    && t in s'.encoders && s'.encoders == s.encoders[t := s'.encoders[t]]
  }

  /** Thread `t` gets as far as the writer mutex of client 0. */
  lemma ReachesMutex(cfg: Config, s: State, t: Tid) returns (s': State)
    requires Reachable(cfg, s) && Plays(cfg, s, t, Working)
    ensures Reachable(cfg, s') && Plays(cfg, s', t, Sending({}, 0, s.clients[0].ctx, Locking)) && OnlyMoved(s, s', t)
    ensures s'.mutexes == s.mutexes && s'.readers == s.readers + {t}
  {
    var s1 := Steps(cfg, s, t, Send);
    var s2 := Steps(cfg, s1, t, Again);
    assert s2.encoders[t] == Iterating({0});
    var s3 := Steps(cfg, s2, t, Pick(0));
    assert {0} - {0} == {};
    s' := Steps(cfg, s3, t, Again);
  }

  /** A thread that starts out locks the mutex and writes a frame's header. */
  lemma WritesHeader(cfg: Config, s: State, t: Tid) returns (s': State)
    requires Reachable(cfg, s) && Plays(cfg, s, t, LoopHead) && s.mutexes == map[] && s.stalled == {} && s.readers == {}
    ensures Reachable(cfg, s') && Plays(cfg, s', t, Sending({}, 0, s.clients[0].ctx, Payload)) && OnlyMoved(s, s', t)
    ensures s'.mutexes == map[0 := t] && s'.readers == {t}
  {
    var s1 := Steps(cfg, s, t, Again);
    var s2 := ReachesMutex(cfg, s1, t);
    var s3 := Steps(cfg, s2, t, Again);
    s' := Steps(cfg, s3, t, Again);
  }

  /** Client 0 is sent streams by two threads, or by one. */
  lemma Begins(cfg: Config, slot: int, slot2: int) returns (s: State, t: Tid, u: Tid)
    requires IsLaunched(cfg, slot) && IsLaunched(cfg, slot2)
    requires cfg.Channel(slot) < RTSP_CHANNEL_MAX && cfg.Channel(slot2) < RTSP_CHANNEL_MAX
    ensures Reachable(cfg, s) && s.mutexes == map[] && s.stalled == {} && s.readers == {} && s.clients.Keys == {0}
    ensures forall v :: v in s.encoders ==> !Reading(s.encoders[v])
    ensures t == Tid(s.generation, slot) && u == Tid(s.generation, slot2)
    ensures Plays(cfg, s, t, LoopHead) && Plays(cfg, s, u, LoopHead)
  {
    s := FirstPlays(cfg, cfg.Channel(slot), cfg.Channel(slot2));
    t, u := Tid(s.generation, slot), Tid(s.generation, slot2);
    SlotLaunched(cfg, s, slot);
    SlotLaunched(cfg, s, slot2);
  }

  /** A payload write fails; the thread leaves the client, gives the read lock back, and keeps the mutex. */
  lemma FailsPayload(cfg: Config, s: State, t: Tid) returns (s': State)
    requires Reachable(cfg, s) && t in s.encoders && 0 in s.clients && t in s.readers
    requires s.encoders[t].Sending? && s.encoders[t].todo == {} && s.encoders[t].to == 0 && s.encoders[t].at == Payload
    requires PayloadFails(cfg, s, 0) && !WriteBlocks(s, 0)
    ensures Reachable(cfg, s') && OnlyMoved(s, s', t)
    ensures s'.encoders[t] == Working && s'.readers == s.readers - {t} && s'.mutexes == s.mutexes
  {
    var s1 := Steps(cfg, s, t, Fail);
    s' := Steps(cfg, s1, t, Again);
  }

  /** One thread: its payload write fails, it goes round, and waits for the mutex it has itself left locked. */
  lemma StuckAlone(cfg: Config) returns (s: State, t: Tid)
    requires cfg.Sends() && cfg.payloadMayFail
    ensures Reachable(cfg, s) && Stuck(s, 0, t, 0) && s.readers == {t}
  {
    var slot, u := if cfg.vencoders > 0 then 0 else AUDIO_SLOT, Tid(0, 0);
    var s0;
    s0, t, u := Begins(cfg, slot, slot);
    var s1 := WritesHeader(cfg, s0, t);
    var s2 := FailsPayload(cfg, s1, t);
    var s3 := ReachesMutex(cfg, s2, t);
    s := HangsUp(cfg, s3, 0);
  }

  /** Two threads: the client leaves between one's header and payload, while the other waits for the mutex. */
  lemma StuckTogether(cfg: Config) returns (s: State, u: Tid)
    requires cfg.SendsTwice()
    ensures Reachable(cfg, s) && Stuck(s, 0, u, 0) && s.readers == {u}
  {
    var s0, t;
    s0, t, u := Begins(cfg, 0, if cfg.vencoders > 1 then 1 else AUDIO_SLOT);
    var s1 := WritesHeader(cfg, s0, t);
    var s2 := Steps(cfg, s1, u, Again);
    var s3 := ReachesMutex(cfg, s2, u);
    var s4 := HangsUp(cfg, s3, 0);
    assert PayloadFails(cfg, s4, 0);
    s := FailsPayload(cfg, s4, t);
  }

  /** One thread: the client stops reading between header and payload, and another client asks to play. */
  lemma StuckWriting(cfg: Config) returns (s: State, t: Tid)
    requires cfg.Sends() && cfg.peersMayStall
    ensures Reachable(cfg, s) && Stalled(s, 1, t) && s.readers == {t}
  {
    var slot, u := if cfg.vencoders > 0 then 0 else AUDIO_SLOT, Tid(0, 0);
    var s0;
    s0, t, u := Begins(cfg, slot, slot);
    var s1 := WritesHeader(cfg, s0, t);
    Extend(cfg, s1, Stall(0));
    var s2 := Connects(cfg, Next(cfg, s1, Stall(0)), 1, 0);
    s := AsksToPlay(cfg, s2, 1);
  }

  /**
   Progress, exactly: in every reachable state every busy connection, or a thread it waits for, can step if
   and only if nothing is sent, or one thread sends, payload writes fail on closed sockets only, and no peer
   ever stops reading.
   */
  lemma ProgressExactly(cfg: Config)
    requires cfg.Valid()
    ensures Safe(cfg) <==>
      forall s, c :: Reachable(cfg, s) && Busy(s, c) ==> exists a :: Enabled(cfg, s, a) && Furthers(cfg, s, c, a)
  {
    if Safe(cfg) {
      forall s, c | Reachable(cfg, s) && Busy(s, c)
        ensures exists a :: Enabled(cfg, s, a) && Furthers(cfg, s, c, a)
      {
        SafeInv(cfg, s);
        var a := SomebodyMoves(cfg, s, c);
      }
    } else {
      var s, t, c;
      if cfg.peersMayStall {
        s, t := StuckWriting(cfg);
        c := 1;
      } else if cfg.SendsTwice() {
        s, t := StuckTogether(cfg);
        c := 0;
      } else {
        s, t := StuckAlone(cfg);
        c := 0;
      }
      forall a | Enabled(cfg, s, a)
        ensures !Furthers(cfg, s, c, a)
      {
        if cfg.peersMayStall {
          StalledStops(cfg, s, c, t, a);
        } else {
          StuckStops(cfg, s, c, t, 0, a);
        }
      }
      assert Busy(s, c);
    }
  }

  // ---------------------------------------------------------------- sends to a closed socket

  /** A thread is about to write to a connection whose socket has been closed. */
  ghost predicate WritesToClosed(s: State, t: Tid)
  {
    t in s.encoders && s.encoders[t].Sending? && s.encoders[t].at.Payload? && Closed(s, s.encoders[t].to)
  }

  /** That happens in every configuration that sends anything: closing comes before unregistering. */
  lemma WritesToClosedExactly(cfg: Config)
    requires cfg.Valid()
    ensures (exists s, t :: Reachable(cfg, s) && WritesToClosed(s, t)) <==> cfg.Sends()
  {
    if cfg.Sends() {
      var slot := if cfg.vencoders > 0 then 0 else AUDIO_SLOT;
      var s0, t, u := Begins(cfg, slot, slot);
      var s1 := WritesHeader(cfg, s0, t);
      var s := HangsUp(cfg, s1, 0);
      assert WritesToClosed(s, t);
    } else if s, t :| Reachable(cfg, s) && WritesToClosed(s, t) {
      ReachableSending(cfg, s);
    }
  }
}
