/**
 One packet, all clients: an encoder thread that has taken the read lock offers its packet to every
 client registered then, once each, and sends it to those that are playing when their turn comes.
 */
module EncoderRounds {
  import opened RtspCommands
  import opened EncoderLifecycle
  import opened EncoderRuns

  /** Thread `t` takes the read lock with step `i` and gives it back with step `j - 1`. */
  ghost predicate Reads(states: seq<State>, t: Tid, i: nat, j: nat)
  {
    && i + 1 < j < |states|
    && t !in states[i].readers && t !in states[j].readers
    && forall m :: i < m < j ==> t in states[m].readers
  }

  ghost predicate LockedStep(cfg: Config, states: seq<State>, actions: seq<Action>, k: nat)
  {
    k + 1 < |states| && k < |actions| && LockInv(states[k]) && IsStep(cfg, states[k], actions[k], states[k + 1])
  }

  ghost predicate IsRound(cfg: Config, states: seq<State>, actions: seq<Action>, t: Tid, i: nat, j: nat)
  {
    Reads(states, t, i, j) && forall k :: i <= k < j ==> LockedStep(cfg, states, actions, k)
  }

  /** The clients a reader has still to look at. */
  function Left(s: State, t: Tid): set<Cid>
  {
    if t in s.encoders && Reading(s.encoders[t]) then s.encoders[t].todo else {}
  }

  predicate IsPlaying(s: State, c: Cid)
  {
    c in s.clients && s.clients[c].ctx.state == PLAYING
  }

  /** While a thread reads, nobody is registered or unregistered, and only its own picks shorten its list. */
  lemma ReaderStep(cfg: Config, s: State, a: Action, t: Tid)
    requires LockInv(s) && Enabled(cfg, s, a) && t in s.readers
    ensures var s' := Next(cfg, s, a);
      && s'.registered == s.registered
      && (t !in s'.readers ==> Left(s, t) == {})
      && (if a.EncoderMove? && a.t == t && a.choice.Pick? then
            a.choice.c in Left(s, t) && Left(s', t) == Left(s, t) - {a.choice.c}
          else Left(s', t) == Left(s, t))
  {
    match a
    case EncoderMove(u, _) =>
    case ClientMove(c) =>
      ClientLeavesReaders(cfg, s, c);
      assert s.writer.None? && !s.clients[c].pc.Holding?;
    case Stall(_) =>
    case Resume(_) =>
    case _ => ReceiveEffect(cfg, s, a);
  }

  /** It begins with everybody who is registered. */
  lemma RoundBegins(cfg: Config, s: State, a: Action, t: Tid)
    requires LockInv(s) && Enabled(cfg, s, a) && t !in s.readers && t in Next(cfg, s, a).readers
    ensures var s' := Next(cfg, s, a); s'.registered == s.registered && Left(s', t) == s.registered
  {
    match a
    case EncoderMove(u, _) =>
    case ClientMove(c) => ClientLeavesReaders(cfg, s, c);
    case Stall(_) =>
    case Resume(_) =>
    case _ => ReceiveEffect(cfg, s, a);
  }

  /** Step `m` is thread `t` turning to client `c`. */
  predicate Picks(actions: seq<Action>, m: nat, t: Tid, c: Cid)
  {
    m < |actions| && actions[m] == EncoderMove(t, Pick(c))
  }

  /** Up to state `k`, each client registered at the beginning is either still to come or has been picked. */
  ghost predicate SoFar(states: seq<State>, actions: seq<Action>, t: Tid, i: nat, k: nat)
    requires i <= k < |states|
  {
    && states[k].registered == states[i].registered && Left(states[k], t) <= states[i].registered
    && (forall c :: c in states[i].registered && c !in Left(states[k], t) ==>
          exists m :: i < m < k && Picks(actions, m, t, c))
    && (forall m, c :: i < m < k && Picks(actions, m, t, c) ==> c in states[i].registered && c !in Left(states[k], t))
  }

  lemma StepSoFar(cfg: Config, states: seq<State>, actions: seq<Action>, t: Tid, i: nat, k: nat)
    requires i < k < |states| && SoFar(states, actions, t, i, k)
    requires LockedStep(cfg, states, actions, k) && t in states[k].readers
    ensures SoFar(states, actions, t, i, k + 1)
  {
    ReaderStep(cfg, states[k], actions[k], t);
    forall c | c in states[i].registered && c !in Left(states[k + 1], t)
      ensures exists m :: i < m < k + 1 && Picks(actions, m, t, c)
    {
      if c in Left(states[k], t) {
        assert Picks(actions, k, t, c);
      } else {
        var m :| i < m < k && Picks(actions, m, t, c);
      }
    }
    forall m, c | i < m < k + 1 && Picks(actions, m, t, c)
      ensures c in states[i].registered && c !in Left(states[k + 1], t)
    {
      assert m < k ==> c !in Left(states[k], t);
    }
  }

  lemma BeginsSoFar(cfg: Config, states: seq<State>, actions: seq<Action>, t: Tid, i: nat)
    requires LockedStep(cfg, states, actions, i) && t !in states[i].readers && t in states[i + 1].readers
    ensures SoFar(states, actions, t, i, i + 1)
  {
    RoundBegins(cfg, states[i], actions[i], t);
  }

  lemma {:induction false} RoundSoFar(
    cfg: Config, states: seq<State>, actions: seq<Action>, t: Tid, i: nat, j: nat, k: nat)
    requires IsRound(cfg, states, actions, t, i, j) && i < k < j
    ensures SoFar(states, actions, t, i, k)
  {
    assert LockedStep(cfg, states, actions, k - 1);
    if k == i + 1 {
      BeginsSoFar(cfg, states, actions, t, i);
    } else {
      RoundSoFar(cfg, states, actions, t, i, j, k - 1);
      StepSoFar(cfg, states, actions, t, i, k - 1);
    }
  }

  lemma PickedOnce(cfg: Config, states: seq<State>, actions: seq<Action>, t: Tid, i: nat, j: nat, n: nat, c: Cid)
    requires IsRound(cfg, states, actions, t, i, j) && i < n < j && Picks(actions, n, t, c)
    ensures c in states[i].registered && n < j - 1
    ensures forall m :: i < m < n ==> !Picks(actions, m, t, c)
  {
    RoundSoFar(cfg, states, actions, t, i, j, n);
    assert LockedStep(cfg, states, actions, n);
  }

  /** A client is sent the packet exactly if it plays when it is picked. */
  lemma PickSends(cfg: Config, s: State, t: Tid, c: Cid)
    requires EncoderCanMove(cfg, s, t, Pick(c))
    ensures var next := EncoderStep(cfg, s, t, Pick(c)).encoders[t];
      && (next.Sending? <==> IsPlaying(s, c))
      && (next.Sending? ==> next.to == c && next.seen == s.clients[c].ctx && next.at == Opening)
  {
  }

  lemma RoundEnds(cfg: Config, states: seq<State>, actions: seq<Action>, t: Tid, i: nat, j: nat)
    requires IsRound(cfg, states, actions, t, i, j)
    ensures Left(states[j - 1], t) == {}
  {
    assert LockedStep(cfg, states, actions, j - 1);
    ReaderStep(cfg, states[j - 1], actions[j - 1], t);
  }

  /** Each client registered when the lock was taken is picked, once; nobody else is. */
  lemma EveryClientPicked(cfg: Config, states: seq<State>, actions: seq<Action>, t: Tid, i: nat, j: nat, c: Cid)
    returns (m: nat)
    requires IsRound(cfg, states, actions, t, i, j) && c in states[i].registered
    ensures i < m < j && Picks(actions, m, t, c)
    ensures forall n :: i < n < j && Picks(actions, n, t, c) ==> n == m
    ensures forall n, d :: i < n < j && Picks(actions, n, t, d) ==> d in states[i].registered
  {
    RoundSoFar(cfg, states, actions, t, i, j, j - 1);
    RoundEnds(cfg, states, actions, t, i, j);
    m :| i < m < j - 1 && Picks(actions, m, t, c);
    PickedOnce(cfg, states, actions, t, i, j, m, c);
    forall n, d | i < n < j && Picks(actions, n, t, d)
      ensures d in states[i].registered && (d == c ==> n == m)
    {
      PickedOnce(cfg, states, actions, t, i, j, n, d);
    }
  }

  lemma RunIsRound(cfg: Config, states: seq<State>, actions: seq<Action>, t: Tid, i: nat, j: nat)
    requires cfg.Valid() && IsRun(cfg, states, actions) && Reads(states, t, i, j)
    ensures IsRound(cfg, states, actions, t, i, j)
  {
    forall k | i <= k < j
      ensures LockedStep(cfg, states, actions, k)
    {
      RunInv(cfg, states, actions, k);
      assert IsStep(cfg, states[k], actions[k], states[k + 1]);
    }
  }

  /**
   In any run, between taking the read lock and giving it back a thread picks each client registered at the
   time exactly once, and nobody else; the packet is sent to it exactly if it plays when it is picked.
   */
  lemma EveryClientServed(cfg: Config, states: seq<State>, actions: seq<Action>, t: Tid, i: nat, j: nat, c: Cid)
    returns (m: nat)
    requires cfg.Valid() && IsRun(cfg, states, actions) && Reads(states, t, i, j) && c in states[i].registered
    ensures i < m < j && Picks(actions, m, t, c) && t in states[m + 1].encoders
    ensures forall n :: i < n < j && Picks(actions, n, t, c) ==> n == m
    ensures forall n, d :: i < n < j && Picks(actions, n, t, d) ==> d in states[i].registered
    ensures var next := states[m + 1].encoders[t];
      && (next.Sending? <==> IsPlaying(states[m], c))
      && (next.Sending? ==> next.to == c && next.seen == states[m].clients[c].ctx && next.at == Opening)
  {
    RunIsRound(cfg, states, actions, t, i, j);
    m := EveryClientPicked(cfg, states, actions, t, i, j, c);
    assert LockedStep(cfg, states, actions, m);
    PickSends(cfg, states[m], t, c);
  }

  // ---------------------------------------------------------------- over which transport

  /** The client seen has the stream set up, over TCP. */
  predicate OverTcp(seen: Context, ch: nat)
  {
    && ch < RTSP_CHANNEL_MAX && WellFormed(seen)
    && seen.fmtctx[ch].Some? && seen.lowerTransport[ch] == TCP
  }

  ghost predicate WritersOverTcp(cfg: Config, s: State)
  {
    forall t :: t in s.encoders && s.encoders[t].Sending? && !s.encoders[t].at.Opening? ==>
      OverTcp(s.encoders[t].seen, cfg.Channel(t.slot))
  }

  /** Packets made for a client are written, under its mutex, exactly if its stream is set up over TCP. */
  lemma OpeningExactly(cfg: Config, s: State, t: Tid)
    requires EncodersInv(s) && EncoderCanMove(cfg, s, t, Again)
    requires s.encoders[t].Sending? && s.encoders[t].at.Opening?
    ensures var next := EncoderStep(cfg, s, t, Again).encoders[t];
      && (next.Sending? <==> OverTcp(s.encoders[t].seen, cfg.Channel(t.slot)))
      && (next.Sending? ==> next.at == Locking && next.to == s.encoders[t].to && next.seen == s.encoders[t].seen)
  {
    assert EncoderInv(s.encoders[t], s.clients, s.registered);
  }

  lemma StepOverTcp(cfg: Config, s: State, a: Action)
    requires LockInv(s) && EncodersInv(s) && WritersOverTcp(cfg, s) && Enabled(cfg, s, a)
    ensures WritersOverTcp(cfg, Next(cfg, s, a))
  {
    match a
    case EncoderMove(t, choice) =>
      if s.encoders[t].Sending? && s.encoders[t].at.Opening? && choice.Again? {
        OpeningExactly(cfg, s, t);
      }
    case ClientMove(c) => ClientLeavesReaders(cfg, s, c);
    case Stall(_) =>
    case Resume(_) =>
    case _ => ReceiveEffect(cfg, s, a);
  }

  ghost predicate KnownStep(cfg: Config, states: seq<State>, actions: seq<Action>, k: nat)
  {
    LockedStep(cfg, states, actions, k) && EncodersInv(states[k])
  }

  lemma {:induction false} StepsOverTcp(cfg: Config, states: seq<State>, actions: seq<Action>, i: nat)
    requires i < |states| && WritersOverTcp(cfg, states[0])
    requires forall k :: 0 <= k < i ==> KnownStep(cfg, states, actions, k)
    ensures WritersOverTcp(cfg, states[i])
  {
    if i > 0 {
      StepsOverTcp(cfg, states, actions, i - 1);
      assert KnownStep(cfg, states, actions, i - 1);
      StepOverTcp(cfg, states[i - 1], actions[i - 1]);
    }
  }

  /** In every run, only clients whose stream is set up over TCP are written to by the encoder threads. */
  lemma WrittenOverTcp(cfg: Config, states: seq<State>, actions: seq<Action>, i: nat)
    requires cfg.Valid() && IsRun(cfg, states, actions) && i < |states|
    ensures WritersOverTcp(cfg, states[i])
  {
    forall k | 0 <= k < i
      ensures KnownStep(cfg, states, actions, k)
    {
      RunInv(cfg, states, actions, k);
      assert IsStep(cfg, states[k], actions[k], states[k + 1]);
    }
    StepsOverTcp(cfg, states, actions, i);
  }
}
