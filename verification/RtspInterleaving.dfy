/**
 Several encoder threads send on one connection, each on its own stream. A step is one lock, one
 `write()` or one unlock of one thread, so a schedule is any interleaving at that granularity.
 Socket writes succeed here; what a failing write leaves is stated by `RtspWriter`.
 */
module RtspInterleaving {
  import opened Bytes
  import opened RtspRecords
  import opened RtspWriter

  datatype Owner = Free | HeldBy(stream: nat)

  datatype Pc = Idle | Scan | HeaderNext | PayloadNext | UnlockNext

  /** A thread's calls, how many have returned, and where it is in the current one. */
  datatype Writer = Writer(calls: seq<seq<Packet>>, done: nat, k: nat, pc: Pc, results: seq<nat>)

  /** A frame's worth of data, recorded when its payload has gone out. */
  datatype Sent = Sent(stream: nat, data: seq<byte>)

  datatype State = State(wire: seq<byte>, mutex: Owner, writers: map<nat, Writer>, log: seq<Sent>)

  type Plan = map<nat, seq<seq<Packet>>>

  function Init(plan: Plan): State
  {
    State([], Free, map sid | sid in plan :: Writer(plan[sid], 0, 0, Idle, []), [])
  }

  /** What one step of a thread does: to itself, to the mutex, to the socket, and to the log. */
  datatype Effect = Effect(writer: Writer, mutex: Owner, output: seq<byte>, logged: seq<Sent>)

  predicate HoldsMutex(pc: Pc)
  {
    pc.HeaderNext? || pc.PayloadNext? || pc.UnlockNext?
  }

  predicate WriterInv(w: Writer)
  {
    && w.done <= |w.calls|
    && (w.done == |w.calls| ==> w.pc.Idle?)
    && |w.results| == w.done
    && (forall n :: 0 <= n < w.done ==> w.results[n] == Offset(w.calls[n], |w.calls[n]|))
    && (!w.pc.Idle? ==> w.k <= |w.calls[w.done]|)
    && (HoldsMutex(w.pc) ==> w.k < |w.calls[w.done]| && w.calls[w.done][w.k].data != [])
  }

  function Advance(w: Writer, sid: nat, mutex: Owner): Effect
    requires WriterInv(w)
  {
    if w.done == |w.calls| then Effect(w, mutex, [], [])
    else
      var packets := w.calls[w.done];
      match w.pc
      case Idle => Effect(w.(pc := Scan, k := 0), mutex, [], [])
      case Scan =>
        if w.k == |packets| then
          var r := Offset(packets, |packets|);
          Effect(w.(pc := Idle, done := w.done + 1, results := w.results + [r]), mutex, [], [])
        else if packets[w.k].data == [] then Effect(w.(k := w.k + 1), mutex, [], [])
        else if mutex.Free? then Effect(w.(pc := HeaderNext), HeldBy(sid), [], [])
        else Effect(w, mutex, [], [])
      case HeaderNext => Effect(w.(pc := PayloadNext), mutex, Header(sid, |packets[w.k].data|), [])
      case PayloadNext =>
        Effect(w.(pc := UnlockNext), mutex, packets[w.k].data, [Sent(sid, packets[w.k].data)])
      case UnlockNext => Effect(w.(pc := Scan, k := w.k + 1), Free, [], [])
  }

  /** One step of thread `sid`; a thread that is done, or waits for the mutex, stands still. */
  function Step(s: State, sid: nat): State
    requires forall i :: i in s.writers ==> WriterInv(s.writers[i])
  {
    if sid !in s.writers then s
    else
      var e := Advance(s.writers[sid], sid, s.mutex);
      State(s.wire + e.output, e.mutex, s.writers[sid := e.writer], s.log + e.logged)
  }

  // ---------------------------------------------------------------- what has been sent

  function NonEmpty(data: seq<byte>): seq<seq<byte>>
  {
    if data == [] then [] else [data]
  }

  function DataOfCall(packets: seq<Packet>, k: nat): seq<seq<byte>>
    requires k <= |packets|
  {
    if k == 0 then [] else DataOfCall(packets, k - 1) + NonEmpty(packets[k - 1].data)
  }

  /** The non-empty packets of a thread's first `n` calls, in order. */
  function DataOfCalls(calls: seq<seq<Packet>>, n: nat): seq<seq<byte>>
    requires n <= |calls|
  {
    if n == 0 then [] else DataOfCalls(calls, n - 1) + DataOfCall(calls[n - 1], |calls[n - 1]|)
  }

  /** One stream's share of the log, in log order. */
  function OfStream(log: seq<Sent>, sid: nat): seq<seq<byte>>
  {
    if log == [] then []
    else
      var last := log[|log| - 1];
      OfStream(log[..|log| - 1], sid) + if last.stream == sid then [last.data] else []
  }

  function FrameList(log: seq<Sent>): (fs: seq<seq<byte>>)
    ensures |fs| == |log|
  {
    seq(|log|, i requires 0 <= i < |log| => Frame(log[i].stream, log[i].data))
  }

  // ---------------------------------------------------------------- the invariant

  function SentBy(w: Writer): seq<seq<byte>>
    requires WriterInv(w)
  {
    DataOfCalls(w.calls, w.done) +
    if w.pc.Idle? then [] else DataOfCall(w.calls[w.done], if w.pc.UnlockNext? then w.k + 1 else w.k)
  }

  lemma PayloadLogged(w: Writer, sid: nat, mutex: Owner)
    requires WriterInv(w) && w.pc.PayloadNext?
    ensures var e := Advance(w, sid, mutex);
      && WriterInv(e.writer) && e.writer.calls == w.calls && e.mutex == mutex
      && e.writer.pc.UnlockNext? && e.logged != []
      && SentBy(e.writer) == SentBy(w) + [w.calls[w.done][w.k].data]
  {
    var packets := w.calls[w.done];
    var before, sent := DataOfCalls(w.calls, w.done), DataOfCall(packets, w.k);
    assert DataOfCall(packets, w.k + 1) == sent + [packets[w.k].data];
    assert before + (sent + [packets[w.k].data]) == before + sent + [packets[w.k].data];
  }

  lemma ScanLogsNothing(w: Writer, sid: nat, mutex: Owner)
    requires WriterInv(w) && w.pc.Scan?
    ensures var e := Advance(w, sid, mutex);
      WriterInv(e.writer) && e.writer.calls == w.calls && e.logged == [] && SentBy(e.writer) == SentBy(w)
  {
    var packets, before := w.calls[w.done], DataOfCalls(w.calls, w.done);
    if w.k == |packets| {
      assert before + DataOfCall(packets, w.k) == before + DataOfCall(packets, w.k) + [];
    } else if packets[w.k].data == [] {
      assert DataOfCall(packets, w.k + 1) == DataOfCall(packets, w.k) + [];
    }
  }

  /** The log gains exactly what the thread has newly sent, in order. */
  lemma AdvanceInv(w: Writer, sid: nat, mutex: Owner)
    requires WriterInv(w) && (mutex == HeldBy(sid) <==> HoldsMutex(w.pc))
    ensures var e := Advance(w, sid, mutex);
      && WriterInv(e.writer) && e.writer.calls == w.calls
      && (e.mutex == HeldBy(sid) <==> HoldsMutex(e.writer.pc))
      && (if e.logged == [] then SentBy(e.writer) == SentBy(w)
          else SentBy(e.writer) == SentBy(w) + [w.calls[w.done][w.k].data])
  {
    if w.pc.PayloadNext? {
      PayloadLogged(w, sid, mutex);
    } else if w.pc.Scan? {
      ScanLogsNothing(w, sid, mutex);
    }
  }

  predicate MutexInv(mutex: Owner, writers: map<nat, Writer>)
  {
    mutex.HeldBy? ==>
      mutex.stream in writers && WriterInv(writers[mutex.stream]) && HoldsMutex(writers[mutex.stream].pc)
  }

  /** A header that has gone out ahead of its payload. */
  function Pending(mutex: Owner, writers: map<nat, Writer>): seq<byte>
    requires MutexInv(mutex, writers)
  {
    if mutex.Free? then []
    else
      var w := writers[mutex.stream];
      if w.pc.PayloadNext? then Header(mutex.stream, |w.calls[w.done][w.k].data|) else []
  }

  /** Every packet of the plan is at most `bound` bytes long. */
  predicate Bounded(plan: Plan, bound: nat)
  {
    forall sid, n, k :: sid in plan && 0 <= n < |plan[sid]| && 0 <= k < |plan[sid][n]|
      ==> |plan[sid][n][k].data| <= bound
  }

  predicate ThreadInv(s: State, sid: nat, calls: seq<seq<Packet>>)
    requires sid in s.writers
  {
    && WriterInv(s.writers[sid]) && s.writers[sid].calls == calls
    && (s.mutex == HeldBy(sid) <==> HoldsMutex(s.writers[sid].pc))
    && OfStream(s.log, sid) == SentBy(s.writers[sid])
  }

  predicate LogInv(log: seq<Sent>, plan: Plan, bound: nat)
  {
    forall i :: 0 <= i < |log| ==> log[i].stream in plan && 0 < |log[i].data| <= bound
  }

  predicate Inv(s: State, plan: Plan, bound: nat)
  {
    && s.writers.Keys == plan.Keys
    && (forall sid :: sid in plan ==> ThreadInv(s, sid, plan[sid]))
    && MutexInv(s.mutex, s.writers)
    && s.wire == Flatten(FrameList(s.log)) + Pending(s.mutex, s.writers)
    && LogInv(s.log, plan, bound)
  }

  lemma LogSnoc(log: seq<Sent>, x: Sent, sid: nat)
    ensures OfStream(log + [x], sid) == OfStream(log, sid) + if x.stream == sid then [x.data] else []
  {
    assert (log + [x])[..|log|] == log;
  }

  lemma WireSnoc(log: seq<Sent>, x: Sent)
    ensures Flatten(FrameList(log + [x])) == Flatten(FrameList(log)) + Frame(x.stream, x.data)
  {
    assert FrameList(log + [x]) == FrameList(log) + [Frame(x.stream, x.data)];
    FlattenOne(FrameList(log), Frame(x.stream, x.data));
  }

  lemma OwnStep(s: State, sid: nat, calls: seq<seq<Packet>>)
    requires forall i :: i in s.writers ==> WriterInv(s.writers[i])
    requires sid in s.writers && ThreadInv(s, sid, calls)
    ensures ThreadInv(Step(s, sid), sid, calls)
  {
    var e := Advance(s.writers[sid], sid, s.mutex);
    AdvanceInv(s.writers[sid], sid, s.mutex);
    if e.logged == [] {
      assert s.log + e.logged == s.log;
    } else {
      LogSnoc(s.log, e.logged[0], sid);
    }
  }

  /** A thread's step does not give the mutex to another, and logs only for itself. */
  lemma OthersMutex(w: Writer, sid: nat, mutex: Owner, other: nat)
    requires WriterInv(w) && (mutex == HeldBy(sid) <==> HoldsMutex(w.pc)) && other != sid
    ensures var e := Advance(w, sid, mutex);
      && (e.mutex == HeldBy(other) <==> mutex == HeldBy(other))
      && (e.logged == [] || (|e.logged| == 1 && e.logged[0].stream == sid))
  {
  }

  lemma OtherStep(s: State, sid: nat, calls: seq<seq<Packet>>, other: nat, otherCalls: seq<seq<Packet>>)
    requires forall i :: i in s.writers ==> WriterInv(s.writers[i])
    requires sid in s.writers && other in s.writers && other != sid
    requires ThreadInv(s, sid, calls) && ThreadInv(s, other, otherCalls)
    ensures ThreadInv(Step(s, sid), other, otherCalls)
  {
    var e := Advance(s.writers[sid], sid, s.mutex);
    OthersMutex(s.writers[sid], sid, s.mutex, other);
    assert Step(s, sid).writers[other] == s.writers[other] && Step(s, sid).mutex == e.mutex;
    if e.logged == [] {
      assert s.log + e.logged == s.log;
    } else {
      LogSnoc(s.log, e.logged[0], other);
      assert e.logged == [e.logged[0]];
    }
  }

  lemma ThreadsStep(s: State, plan: Plan, bound: nat, sid: nat, other: nat)
    requires Inv(s, plan, bound) && sid in plan && other in plan
    ensures ThreadInv(Step(s, sid), other, plan[other])
  {
    assert ThreadInv(s, sid, plan[sid]) && ThreadInv(s, other, plan[other]);
    if other == sid {
      OwnStep(s, sid, plan[sid]);
    } else {
      OtherStep(s, sid, plan[sid], other, plan[other]);
    }
  }

  /** Only the mutex holder writes, so another thread's step leaves a half-sent frame alone. */
  lemma PendingStep(writers: map<nat, Writer>, mutex: Owner, sid: nat)
    requires MutexInv(mutex, writers)
    requires sid in writers && WriterInv(writers[sid])
    requires mutex == HeldBy(sid) <==> HoldsMutex(writers[sid].pc)
    ensures var e := Advance(writers[sid], sid, mutex); var writers' := writers[sid := e.writer];
      && MutexInv(e.mutex, writers') && |e.logged| <= 1
      && (e.logged == [] ==> Pending(e.mutex, writers') == Pending(mutex, writers) + e.output)
      && (e.logged != [] ==> Pending(e.mutex, writers') == [] && e.logged[0].stream == sid)
      && (e.logged != [] ==> Pending(mutex, writers) + e.output == Frame(sid, e.logged[0].data))
  {
    AdvanceInv(writers[sid], sid, mutex);
  }

  lemma WireExtends(log: seq<Sent>, logged: seq<Sent>, pending: seq<byte>, output: seq<byte>, pending': seq<byte>)
    requires |logged| <= 1
    requires logged == [] ==> pending' == pending + output
    requires logged != [] ==> pending' == [] && pending + output == Frame(logged[0].stream, logged[0].data)
    ensures Flatten(FrameList(log)) + pending + output == Flatten(FrameList(log + logged)) + pending'
  {
    var frames := Flatten(FrameList(log));
    assert frames + pending + output == frames + (pending + output);
    if logged == [] {
      assert log + logged == log;
    } else {
      assert logged == [logged[0]];
      WireSnoc(log, logged[0]);
    }
  }

  lemma LogStep(s: State, plan: Plan, bound: nat, sid: nat)
    requires Inv(s, plan, bound) && Bounded(plan, bound) && sid in plan
    ensures LogInv(Step(s, sid).log, plan, bound)
  {
    assert ThreadInv(s, sid, plan[sid]);
    var w := s.writers[sid];
    if w.done < |w.calls| && w.pc.PayloadNext? {
      assert |plan[sid][w.done][w.k].data| <= bound;
    }
  }

  lemma WireStep(s: State, plan: Plan, bound: nat, sid: nat)
    requires Inv(s, plan, bound) && sid in plan
    ensures var s' := Step(s, sid);
      MutexInv(s'.mutex, s'.writers) && s'.wire == Flatten(FrameList(s'.log)) + Pending(s'.mutex, s'.writers)
  {
    assert ThreadInv(s, sid, plan[sid]);
    PendingStep(s.writers, s.mutex, sid);
    var e := Advance(s.writers[sid], sid, s.mutex);
    WireExtends(s.log, e.logged, Pending(s.mutex, s.writers), e.output, Pending(e.mutex, s.writers[sid := e.writer]));
  }

  lemma StepInv(s: State, plan: Plan, bound: nat, sid: nat)
    requires Inv(s, plan, bound) && Bounded(plan, bound)
    ensures Inv(Step(s, sid), plan, bound)
  {
    if sid in plan {
      WireStep(s, plan, bound, sid);
      LogStep(s, plan, bound, sid);
      forall other | other in plan
        ensures ThreadInv(Step(s, sid), other, plan[other])
      {
        ThreadsStep(s, plan, bound, sid, other);
      }
    }
  }

  predicate WritersInv(s: State)
  {
    forall i :: i in s.writers ==> WriterInv(s.writers[i])
  }

  lemma StepWriters(s: State, sid: nat)
    requires WritersInv(s)
    ensures WritersInv(Step(s, sid))
  {
    if sid in s.writers {
      var e := Advance(s.writers[sid], sid, s.mutex);
      assert WriterInv(e.writer);
    }
  }

  /** The state after a schedule, which names the thread that takes each step. */
  function Run(plan: Plan, schedule: seq<nat>): (s: State)
    ensures WritersInv(s)
  {
    if schedule == [] then Init(plan)
    else
      var s := Run(plan, schedule[..|schedule| - 1]);
      StepWriters(s, schedule[|schedule| - 1]);
      Step(s, schedule[|schedule| - 1])
  }

  lemma {:induction false} RunInv(plan: Plan, bound: nat, schedule: seq<nat>)
    requires Bounded(plan, bound)
    ensures Inv(Run(plan, schedule), plan, bound)
  {
    if schedule == [] {
      assert Flatten(FrameList([])) == [];
    } else {
      RunInv(plan, bound, schedule[..|schedule| - 1]);
      var s := Run(plan, schedule[..|schedule| - 1]);
      StepInv(s, plan, bound, schedule[|schedule| - 1]);
    }
  }

  // ---------------------------------------------------------------- main results

  predicate ReadsBack(records: seq<seq<byte>>, log: seq<Sent>)
  {
    && |records| == |log|
    && forall i :: 0 <= i < |records| ==>
         |records[i]| >= 4 && records[i][1] == 2 * log[i].stream % 256 && records[i][4..] == log[i].data
  }

  /** A header whose payload is still to come announces bytes that are not there. */
  lemma PendingFails(s: State, plan: Plan, bound: nat, lim: Limits)
    requires Inv(s, plan, bound) && Bounded(plan, bound) && bound <= 65535
    ensures NextRecord(Pending(s.mutex, s.writers), lim) == Failed
  {
    if s.mutex.HeldBy? {
      var sid := s.mutex.stream;
      var w := s.writers[sid];
      assert ThreadInv(s, sid, plan[sid]);
      assert |plan[sid][w.done][w.k].data| <= bound;
      HeaderAlone(sid, |w.calls[w.done][w.k].data|, lim);
    }
  }

  lemma WireSplits(s: State, plan: Plan, bound: nat, lim: Limits)
    requires Inv(s, plan, bound) && Bounded(plan, bound) && bound <= 65535 && 4 + bound <= lim.rbufsize
    ensures SplitAll(s.wire, lim).0 == FrameList(s.log)
  {
    var tail := Pending(s.mutex, s.writers);
    forall r | r in FrameList(s.log)
      ensures IsRecord(r, lim)
    {
      var i :| 0 <= i < |s.log| && r == Frame(s.log[i].stream, s.log[i].data);
      FrameIsRecord(s.log[i].stream, s.log[i].data, lim);
    }
    PendingFails(s, plan, bound, lim);
    SplitAllInverse(FrameList(s.log), tail, lim);
  }

  lemma FramesReadBack(log: seq<Sent>)
    ensures ReadsBack(FrameList(log), log)
  {
    forall i | 0 <= i < |log|
      ensures var f := Frame(log[i].stream, log[i].data); f[1] == 2 * log[i].stream % 256 && f[4..] == log[i].data
    {
      FrameShape(log[i].stream, log[i].data);
    }
  }

  lemma ReadBack(s: State, plan: Plan, bound: nat, lim: Limits)
    requires Inv(s, plan, bound) && Bounded(plan, bound) && bound <= 65535 && 4 + bound <= lim.rbufsize
    ensures ReadsBack(SplitAll(s.wire, lim).0, s.log)
  {
    WireSplits(s, plan, bound, lim);
    FramesReadBack(s.log);
  }

  /**
   The round trip: whatever the schedule, the splitter reads back one record per packet sent, in the
   order the payloads went out, tagged with the channel `2 * stream` and carrying the packet.
   */
  lemma {:induction false} InterleavedRoundTrip(plan: Plan, bound: nat, schedule: seq<nat>, lim: Limits)
    requires Bounded(plan, bound) && bound <= 65535 && 4 + bound <= lim.rbufsize
    ensures var s := Run(plan, schedule); ReadsBack(SplitAll(s.wire, lim).0, s.log)
  {
    RunInv(plan, bound, schedule);
    ReadBack(Run(plan, schedule), plan, bound, lim);
  }

  lemma {:induction false} DataOfCallPrefix(packets: seq<Packet>, k: nat, n: nat)
    requires k <= n <= |packets|
    ensures DataOfCall(packets, k) <= DataOfCall(packets, n)
  {
    if k < n {
      DataOfCallPrefix(packets, k, n - 1);
    }
  }

  lemma {:induction false} DataOfCallsPrefix(calls: seq<seq<Packet>>, k: nat, n: nat)
    requires k <= n <= |calls|
    ensures DataOfCalls(calls, k) <= DataOfCalls(calls, n)
  {
    if k < n {
      DataOfCallsPrefix(calls, k, n - 1);
    }
  }

  lemma SentIsPrefix(w: Writer)
    requires WriterInv(w)
    ensures SentBy(w) <= DataOfCalls(w.calls, |w.calls|)
  {
    if w.pc.Idle? {
      DataOfCallsPrefix(w.calls, w.done, |w.calls|);
    } else {
      var packets := w.calls[w.done];
      DataOfCallPrefix(packets, if w.pc.UnlockNext? then w.k + 1 else w.k, |packets|);
      DataOfCallsPrefix(w.calls, w.done + 1, |w.calls|);
    }
  }

  /**
   No stream is reordered or loses a packet: its share of the log is what its thread was given, cut
   short only if the thread still has calls to make; and each call returned its buffer's length.
   */
  lemma {:induction false} StreamsInOrder(plan: Plan, bound: nat, schedule: seq<nat>, sid: nat)
    requires Bounded(plan, bound) && sid in plan
    ensures var s := Run(plan, schedule); var all := DataOfCalls(plan[sid], |plan[sid]|);
      && sid in s.writers && OfStream(s.log, sid) <= all
      && (s.writers[sid].done == |plan[sid]| ==> OfStream(s.log, sid) == all)
      && |s.writers[sid].results| <= |plan[sid]|
      && forall n :: 0 <= n < |s.writers[sid].results| ==>
           s.writers[sid].results[n] == Offset(plan[sid][n], |plan[sid][n]|)
  {
    var s := Run(plan, schedule);
    RunInv(plan, bound, schedule);
    assert ThreadInv(s, sid, plan[sid]);
    SentIsPrefix(s.writers[sid]);
  }

  /** A thread with a call to make changes, unless it waits for the mutex. */
  lemma AdvanceMoves(w: Writer, sid: nat, mutex: Owner)
    requires WriterInv(w) && w.done < |w.calls| && (mutex.Free? || HoldsMutex(w.pc))
    ensures Advance(w, sid, mutex).writer != w
  {
  }

  lemma Moves(s: State, plan: Plan, bound: nat, sid: nat)
    requires Inv(s, plan, bound) && sid in plan
    ensures s.writers[sid].done < |plan[sid]| ==>
      Step(s, sid) != s || (s.mutex.HeldBy? && Step(s, s.mutex.stream) != s)
  {
    assert ThreadInv(s, sid, plan[sid]);
    if s.writers[sid].done < |plan[sid]| {
      var mover := if s.mutex.HeldBy? then s.mutex.stream else sid;
      assert ThreadInv(s, mover, plan[mover]);
      AdvanceMoves(s.writers[mover], mover, s.mutex);
      assert Step(s, mover).writers[mover] != s.writers[mover];
    }
  }

  /** While a thread has calls to make, it or the mutex holder can move: no deadlock. */
  lemma {:induction false} SomeThreadMoves(plan: Plan, bound: nat, schedule: seq<nat>, sid: nat)
    requires Bounded(plan, bound) && sid in plan
    ensures var s := Run(plan, schedule);
      && sid in s.writers
      && (s.writers[sid].done < |plan[sid]| ==>
            Step(s, sid) != s || (s.mutex.HeldBy? && Step(s, s.mutex.stream) != s))
  {
    RunInv(plan, bound, schedule);
    Moves(Run(plan, schedule), plan, bound, sid);
  }

  // ---------------------------------------------------------------- one thread alone

  /** `n` steps of one thread. */
  function Repeat(s: State, sid: nat, n: nat): (s': State)
    requires WritersInv(s)
    ensures WritersInv(s')
  {
    if n == 0 then s
    else
      StepWriters(Repeat(s, sid, n - 1), sid);
      Step(Repeat(s, sid, n - 1), sid)
  }

  lemma RepeatOnce(s: State, sid: nat, n: nat)
    requires WritersInv(s)
    ensures Repeat(s, sid, n + 1) == Step(Repeat(s, sid, n), sid)
  {
  }

  lemma RunOne(plan: Plan, schedule: seq<nat>, sid: nat)
    ensures Run(plan, schedule + [sid]) == Step(Run(plan, schedule), sid)
  {
    assert (schedule + [sid])[..|schedule|] == schedule;
  }

  lemma {:induction false} RunRepeats(plan: Plan, sid: nat, n: nat) returns (schedule: seq<nat>)
    ensures Run(plan, schedule) == Repeat(Init(plan), sid, n)
  {
    if n == 0 {
      schedule := [];
    } else {
      schedule := RunRepeats(plan, sid, n - 1);
      RunOne(plan, schedule, sid);
      schedule := schedule + [sid];
    }
  }

  /** The only thread is at `pc` with packet `k` of its call; it has the mutex where it should. */
  ghost predicate Alone(s: State, sid: nat, packets: seq<Packet>, k: nat, pc: Pc, wire: seq<byte>)
  {
    && s.writers == map[sid := Writer([packets], 0, k, pc, [])]
    && s.mutex == (if HoldsMutex(pc) then HeldBy(sid) else Free) && s.wire == wire
  }

  /** Where it goes from there, with a packet that is not empty, and what it writes. */
  lemma AloneStep(s: State, sid: nat, packets: seq<Packet>, k: nat, pc: Pc, wire: seq<byte>)
    requires k < |packets| && packets[k].data != [] && !pc.Idle? && Alone(s, sid, packets, k, pc, wire) && WritersInv(s)
    ensures var data := packets[k].data; var s' := Step(s, sid);
      match pc
      case Scan => Alone(s', sid, packets, k, HeaderNext, wire + [])
      case HeaderNext => Alone(s', sid, packets, k, PayloadNext, wire + Header(sid, |data|))
      case PayloadNext => Alone(s', sid, packets, k, UnlockNext, wire + data)
      case UnlockNext => Alone(s', sid, packets, k + 1, Scan, wire + [])
  {
    var w := Writer([packets], 0, k, pc, []);
    assert s.writers[sid] == w;
    assert s.writers[sid := Advance(w, sid, s.mutex).writer] == map[sid := Advance(w, sid, s.mutex).writer];
  }

  lemma FrameSent(sid: nat, packets: seq<Packet>, k: nat)
    requires k < |packets| && packets[k].data != []
    ensures var data := packets[k].data;
      Frames(sid, packets, k) + Header(sid, |data|) + data + [] == Frames(sid, packets, k + 1)
  {
    var sent, data := Frames(sid, packets, k), packets[k].data;
    assert sent + Header(sid, |data|) + data == sent + (Header(sid, |data|) + data);
  }

  /** The only thread is about to look at packet `k` of its call, and the frames before it have gone out. */
  ghost predicate Scanning(s: State, sid: nat, packets: seq<Packet>, k: nat)
    requires k <= |packets|
  {
    Alone(s, sid, packets, k, Scan, Frames(sid, packets, k))
  }

  /** It locks the mutex, writes the header and the payload, and unlocks. */
  lemma FrameAlone(s: State, sid: nat, packets: seq<Packet>, k: nat, m: nat)
    requires WritersInv(s) && k < |packets| && packets[k].data != [] && Scanning(Repeat(s, sid, m), sid, packets, k)
    ensures Scanning(Repeat(s, sid, m + 4), sid, packets, k + 1)
  {
    var wire, data := Frames(sid, packets, k), packets[k].data;
    AloneStep(Repeat(s, sid, m), sid, packets, k, Scan, wire);
    RepeatOnce(s, sid, m);
    AloneStep(Repeat(s, sid, m + 1), sid, packets, k, HeaderNext, wire + []);
    RepeatOnce(s, sid, m + 1);
    AloneStep(Repeat(s, sid, m + 2), sid, packets, k, PayloadNext, wire + [] + Header(sid, |data|));
    RepeatOnce(s, sid, m + 2);
    AloneStep(Repeat(s, sid, m + 3), sid, packets, k, UnlockNext, wire + [] + Header(sid, |data|) + data);
    RepeatOnce(s, sid, m + 3);
    assert wire + [] == wire;
    FrameSent(sid, packets, k);
  }

  lemma EmptySent(sid: nat, packets: seq<Packet>, k: nat)
    requires k < |packets| && packets[k].data == []
    ensures Frames(sid, packets, k) + [] == Frames(sid, packets, k + 1)
  {
  }

  lemma EmptyStep(s: State, sid: nat, packets: seq<Packet>, k: nat, wire: seq<byte>)
    requires k < |packets| && packets[k].data == [] && Alone(s, sid, packets, k, Scan, wire) && WritersInv(s)
    ensures Alone(Step(s, sid), sid, packets, k + 1, Scan, wire + [])
  {
    var w := Writer([packets], 0, k, Scan, []);
    assert s.writers[sid] == w;
    assert s.writers[sid := Advance(w, sid, s.mutex).writer] == map[sid := Advance(w, sid, s.mutex).writer];
  }

  lemma EmptyAlone(s: State, sid: nat, packets: seq<Packet>, k: nat)
    requires k < |packets| && packets[k].data == [] && Scanning(s, sid, packets, k) && WritersInv(s)
    ensures Scanning(Step(s, sid), sid, packets, k + 1)
  {
    EmptyStep(s, sid, packets, k, Frames(sid, packets, k));
    EmptySent(sid, packets, k);
  }

  lemma Starts(sid: nat, packets: seq<Packet>)
    ensures Scanning(Repeat(Init(map[sid := [packets]]), sid, 1), sid, packets, 0)
  {
    var s := Init(map[sid := [packets]]);
    var w := Writer([packets], 0, 0, Scan, []);
    assert Repeat(s, sid, 1) == Step(Repeat(s, sid, 0), sid);
    assert s.writers[sid := w] == map[sid := w];
  }

  /** The thread's call has returned the length of its buffer, and its frames are on the wire. */
  ghost predicate Finished(s: State, sid: nat, packets: seq<Packet>)
  {
    && sid in s.writers && s.writers[sid].done == 1 && s.writers[sid].results == [Offset(packets, |packets|)]
    && s.wire == Frames(sid, packets, |packets|) && s.mutex.Free?
  }

  lemma Ends(s: State, sid: nat, packets: seq<Packet>)
    requires WritersInv(s) && Scanning(s, sid, packets, |packets|)
    ensures Finished(Step(s, sid), sid, packets)
  {
    assert s.writers[sid] == Writer([packets], 0, |packets|, Scan, []);
    assert s.wire + [] == s.wire;
  }

  lemma {:induction false} PacketsAlone(s: State, sid: nat, packets: seq<Packet>, k: nat, m: nat) returns (n: nat)
    requires WritersInv(s) && k <= |packets| && Scanning(Repeat(s, sid, m), sid, packets, k)
    ensures Finished(Repeat(s, sid, n), sid, packets)
    decreases |packets| - k
  {
    if k == |packets| {
      Ends(Repeat(s, sid, m), sid, packets);
      RepeatOnce(s, sid, m);
      n := m + 1;
    } else if packets[k].data == [] {
      EmptyAlone(Repeat(s, sid, m), sid, packets, k);
      RepeatOnce(s, sid, m);
      n := PacketsAlone(s, sid, packets, k + 1, m + 1);
    } else {
      FrameAlone(s, sid, packets, k, m);
      n := PacketsAlone(s, sid, packets, k + 1, m + 4);
    }
  }

  /**
   Run by itself, a thread puts on the wire what `RtspWriter.Connection.WriteBindata` does when every write
   succeeds, and returns the same: the two are models of one loop.
   */
  lemma AloneLikeWriteBindata(sid: nat, packets: seq<Packet>) returns (schedule: seq<nat>)
    ensures Finished(Run(map[sid := [packets]], schedule), sid, packets)
  {
    Starts(sid, packets);
    var n := PacketsAlone(Init(map[sid := [packets]]), sid, packets, 0, 1);
    schedule := RunRepeats(map[sid := [packets]], sid, n);
  }
}
