/**
 Why every encoder thread that is started needs a slot that is joined: with one that has none, an
 old thread outlives its launch and runs beside those of the next.
 */
module EncoderSlots {
  import opened EncoderLifecycle
  import opened EncoderRuns

  /** A thread that is started but whose slot nobody joins. */
  ghost predicate Unjoined(cfg: Config, slot: int)
  {
    IsLaunched(cfg, slot) && forall k :: 0 <= k < cfg.Joins() ==> cfg.JoinSlot(k) != slot
  }

  /** The last client takes the write lock, lowers the flag and turns to joining. */
  lemma Leaves(cfg: Config, s: State, c: Cid) returns (s': State)
    requires Reachable(cfg, s) && At(s, c, WantUnregister) && s.registered == {c}
    ensures Reachable(cfg, s') && At(s', c, Holding(Joining(0))) && !s'.threadLaunched && s'.registered == {}
    ensures s'.encoders == s.encoders && s'.generation == s.generation && s'.clients.Keys == s.clients.Keys
  {
    var s1 := Moves(cfg, s, c);
    assert s1.registered - {c} == {};
    s' := Moves(cfg, s1, c);
  }

  /** The joins wait for every slot there is, and a thread without one goes on living. */
  lemma {:induction false} JoinsAll(cfg: Config, s: State, c: Cid, k: nat, t: Tid) returns (s': State)
    requires Reachable(cfg, s) && At(s, c, Holding(Joining(k))) && k <= cfg.Joins()
    requires !s.threadLaunched && s.registered == {}
    requires Live(s.encoders, t) && Unjoined(cfg, t.slot)
    ensures Reachable(cfg, s') && At(s', c, Holding(Joining(cfg.Joins()))) && s'.registered == {}
    ensures Live(s'.encoders, t) && s'.generation == s.generation && s'.clients.Keys == s.clients.Keys
    decreases cfg.Joins() - k
  {
    if k == cfg.Joins() {
      s' := s;
    } else {
      var u := Tid(s.generation, cfg.JoinSlot(k));
      var s1 := s;
      if Live(s.encoders, u) {
        Extend(cfg, s, EncoderMove(u, Again));
        s1 := Next(cfg, s, EncoderMove(u, Again));
        assert s1 == s.(encoders := s.encoders[u := Exited]);
      }
      var s2 := Moves(cfg, s1, c);
      s' := JoinsAll(cfg, s2, c, k + 1, t);
    }
  }

  lemma LeavesForGood(cfg: Config, s: State, c: Cid) returns (s': State)
    requires Reachable(cfg, s) && At(s, c, Holding(Joining(cfg.Joins())))
    ensures Reachable(cfg, s') && At(s', c, Deinit) && s'.registered == s.registered
    ensures s'.encoders == s.encoders && s'.generation == s.generation && s'.clients.Keys == s.clients.Keys
  {
    var s1 := Moves(cfg, s, c);
    s' := Moves(cfg, s1, c);
  }

  /** One whole life of the encoders, which thread `t` outlives. */
  lemma Survives(cfg: Config, slot: int) returns (s: State, t: Tid)
    requires Unjoined(cfg, slot)
    ensures Reachable(cfg, s) && s.registered == {} && s.writer.None? && s.readers == {} && 1 !in s.clients
    ensures Live(s.encoders, t) && t.generation == s.generation
    ensures forall u :: Live(s.encoders, u) ==> s.encoders[u].LoopHead?
  {
    var s1 := FirstPlays(cfg, 0, 0);
    t := Tid(s1.generation, slot);
    SlotLaunched(cfg, s1, slot);
    var s2 := HangsUp(cfg, s1, 0);
    var s3 := Leaves(cfg, s2, 0);
    var s4 := JoinsAll(cfg, s3, 0, 0, t);
    s := LeavesForGood(cfg, s4, 0);
  }

  /** Threads of two launches can be alive together exactly when some started thread has no joined slot. */
  lemma OneGenerationExactly(cfg: Config)
    ensures cfg.Valid() <==>
      forall s, t, u :: Reachable(cfg, s) && Live(s.encoders, t) && Live(s.encoders, u) ==> t.generation == u.generation
  {
    if cfg.Valid() {
      forall s, t, u | Reachable(cfg, s) && Live(s.encoders, t) && Live(s.encoders, u)
        ensures t.generation == u.generation
      {
        ReachableInv(cfg, s);
      }
    } else {
      var slot := if cfg.vencoders > cfg.channels then cfg.channels else AUDIO_SLOT;
      assert Unjoined(cfg, slot);
      var s, t := Survives(cfg, slot);
      var s1 := Arrives(cfg, s, 1, 0, 0);
      var s2 := BeginsLaunch(cfg, s1, 1);
      var s3 := LaunchesOne(cfg, s2, 1, 0);
      var u := Tid(s2.generation, cfg.LaunchSlot(0));
      assert Live(s3.encoders, u) && Live(s3.encoders, t) && t.generation != u.generation;
    }
  }
}
