/** What the queue stream handle keeps over whole runs. */
module QueueStreamProperties {
  import opened Options
  import opened QueueStreamModel
  import opened Runs

  // Settlement safety: under every sequence of events.

  function CountTrue(flags: seq<bool>): nat {
    if flags == [] then 0 else CountTrue(flags[1..]) + if flags[0] then 1 else 0
  }

  lemma {:induction false} CountBounded(flags: seq<bool>)
    ensures CountTrue(flags) <= |flags|
    ensures CountTrue(flags) == |flags| <==> forall i :: 0 <= i < |flags| ==> flags[i]
  {
    if flags != [] {
      CountBounded(flags[1..]);
      assert forall i | 0 < i < |flags| :: flags[i] == flags[1..][i - 1];
      assert forall i | 0 <= i < |flags| - 1 :: flags[1..][i] == flags[i + 1];
    }
  }

  lemma {:induction false} CountSet(flags: seq<bool>, i: nat)
    requires i < |flags| && !flags[i]
    ensures CountTrue(flags[i := true]) == CountTrue(flags) + 1
  {
    if i == 0 {
      assert flags[0 := true][1..] == flags[1..];
    } else {
      assert flags[i := true][1..] == flags[1..][i - 1 := true];
      CountSet(flags[1..], i - 1);
    }
  }

  lemma {:induction false} CountNone(n: nat)
    ensures CountTrue(seq(n, _ => false)) == 0
  {
    if n > 0 {
      assert seq(n, _ => false)[1..] == seq(n - 1, _ => false);
      CountNone(n - 1);
    }
  }

  /** How many settlement frames were written for one message. */
  function FramesFor(wire: seq<Frame>, b: nat, i: nat): nat {
    if wire == [] then 0
    else
      var f := wire[|wire| - 1];
      FramesFor(wire[..|wire| - 1], b, i) + if f.Settle? && f.batch == b && f.index == i then 1 else 0
  }

  lemma FramesAppend(wire: seq<Frame>, f: Frame, b: nat, i: nat)
    ensures FramesFor(wire + [f], b, i) ==
            FramesFor(wire, b, i) + if f.Settle? && f.batch == b && f.index == i then 1 else 0
  {
    assert (wire + [f])[..|wire|] == wire;
  }

  ghost predicate BatchOk(batch: Batch) {
    && batch.settledCount == CountTrue(batch.msgSettled) <= |batch.msgSettled|
    && batch.rePolls <= 1
    && (batch.rePolls == 1 ==> batch.settledCount == |batch.msgSettled|)
  }

  /** A frame for a message cites that message's own batch. */
  ghost predicate Cites(s: State, f: Frame) {
    f.Settle? ==>
      f.batch < |s.batches| && f.index < |s.batches[f.batch].msgSettled| && f.txn == s.batches[f.batch].txn
  }

  ghost predicate OneFramePerMessage(s: State) {
    forall b: nat, i: nat :: FramesFor(s.wire, b, i) ==
      if b < |s.batches| && i < |s.batches[b].msgSettled| && s.batches[b].msgSettled[i] then 1 else 0
  }

  ghost predicate Safe(s: State) {
    && (forall b :: 0 <= b < |s.batches| ==> BatchOk(s.batches[b]))
    && (forall k :: 0 <= k < |s.wire| ==> Cites(s, s.wire[k]))
    && OneFramePerMessage(s)
  }

  /** Writing a frame that settles nothing changes nothing here. */
  lemma OtherFrameSafe(s: State, t: State, f: Frame)
    requires Safe(s) && !f.Settle? && t.wire == s.wire + [f] && t.batches == s.batches
    ensures Safe(t)
  {
    forall b: nat, i: nat ensures FramesFor(t.wire, b, i) == FramesFor(s.wire, b, i) {
      FramesAppend(s.wire, f, b, i);
    }
    forall k | 0 <= k < |t.wire| ensures Cites(t, t.wire[k]) {
      if k < |s.wire| {
        assert Cites(s, s.wire[k]);
      }
    }
  }

  lemma DeliverySafe(s: State, t: State, txn: string, size: nat)
    requires Safe(s) && t.wire == s.wire && t.batches == s.batches + [NewBatch(txn, size)]
    ensures Safe(t)
  {
    CountNone(size);
    forall k | 0 <= k < |t.wire| ensures Cites(t, t.wire[k]) {
      assert Cites(s, s.wire[k]);
    }
  }

  /** What settling a message does to the batches. */
  lemma SettledBatch(s: State, kind: Settlement, b: nat, i: nat)
    requires Safe(s) && Settling(s, kind, b, i) != s
    ensures var t := Settling(s, kind, b, i);
            && b < |s.batches| == |t.batches| && i < |s.batches[b].msgSettled|
            && !s.batches[b].msgSettled[i]
            && t.wire == s.wire + [Settle(kind, s.batches[b].txn, b, i)]
            && t.batches == s.batches[b := t.batches[b]]
            && t.batches[b].msgSettled == s.batches[b].msgSettled[i := true]
            && t.batches[b].txn == s.batches[b].txn
            && BatchOk(t.batches[b])
  {
    hide OneFramePerMessage, CountTrue;
    var batch := s.batches[b];
    assert BatchOk(batch);
    CountSet(batch.msgSettled, i);
    CountBounded(batch.msgSettled[i := true]);
  }

  lemma SettlingSafe(s: State, kind: Settlement, b: nat, i: nat)
    requires Safe(s)
    ensures Safe(Settling(s, kind, b, i))
  {
    var t := Settling(s, kind, b, i);
    hide Settling, BatchOk, FramesFor;
    if t != s {
      SettledBatch(s, kind, b, i);
      forall c: nat, j: nat
        ensures FramesFor(t.wire, c, j) == FramesFor(s.wire, c, j) + if c == b && j == i then 1 else 0
      {
        FramesAppend(s.wire, Settle(kind, s.batches[b].txn, b, i), c, j);
      }
      forall k | 0 <= k < |t.wire| ensures Cites(t, t.wire[k]) {
        if k < |s.wire| {
          assert Cites(s, s.wire[k]);
        }
      }
    }
  }

  lemma StepSafe(s: State, e: Event)
    requires Safe(s)
    ensures Safe(Step(s, e))
  {
    hide Safe;
    var t := Step(s, e);
    match e
    case GetResponse(txn, size) =>
      if s.active {
        DeliverySafe(s, t, txn, size);
      } else {
        SameSafe(s, t);
      }
    case SettleMessage(kind, b, i) => SettlingSafe(s, kind, b, i);
    case CallBulk(call) =>
      if s.active {
        OtherFrameSafe(s, t, Bulk(call, s.activeTxn));
      } else {
        SameSafe(s, t);
      }
    case TimerFires | Reconnect | CallClose =>
      if t.wire != s.wire {
        OtherFrameSafe(s, t, t.wire[|s.wire|]);
      } else {
        SameSafe(s, t);
      }
    case _ => SameSafe(s, t);
  }

  lemma SameSafe(s: State, t: State)
    requires Safe(s) && t.wire == s.wire && t.batches == s.batches
    ensures Safe(t)
  {
    assert forall k | 0 <= k < |s.wire| :: Cites(s, s.wire[k]) ==> Cites(t, t.wire[k]);
  }

  lemma {:induction false} RunSafe(autoAck: bool, events: seq<Event>)
    ensures Safe(Run(autoAck, events))
  {
    if events == [] {
      forall b: nat, i: nat ensures FramesFor([Get], b, i) == 0 {
        FramesAppend([], Get, b, i);
      }
    } else {
      RunSafe(autoAck, events[..|events| - 1]);
      StepSafe(Run(autoAck, events[..|events| - 1]), events[|events| - 1]);
    }
  }

  /** Settlement safety: each delivered message writes at most one settlement frame, and one
      exactly when it is settled; frames cite their own batch's transaction; settledCount is
      the number of settled messages; a batch re-polls at most once by settling. */
  lemma SettlementSafety(autoAck: bool, events: seq<Event>)
    ensures var s := Run(autoAck, events);
            && (forall b: nat, i: nat :: FramesFor(s.wire, b, i) <= 1)
            && (forall b: nat, i: nat | b < |s.batches| && i < |s.batches[b].msgSettled| ::
                  s.batches[b].msgSettled[i] <==> FramesFor(s.wire, b, i) == 1)
            && (forall f | f in s.wire && f.Settle? :: f.batch < |s.batches| && f.txn == s.batches[f.batch].txn)
            && (forall b | 0 <= b < |s.batches| ::
                  && s.batches[b].settledCount == CountTrue(s.batches[b].msgSettled)
                  && s.batches[b].settledCount <= |s.batches[b].msgSettled|
                  && s.batches[b].rePolls <= 1)
  {
    RunSafe(autoAck, events);
    var s := Run(autoAck, events);
    forall f | f in s.wire && f.Settle?
      ensures f.batch < |s.batches| && f.txn == s.batches[f.batch].txn
    {
      var k :| 0 <= k < |s.wire| && s.wire[k] == f;
      assert Cites(s, s.wire[k]);
    }
    assert forall b | 0 <= b < |s.batches| :: BatchOk(s.batches[b]);
  }

  // Poll discipline.

  /** Is batch `b` delivered for manual settlement, not fully settled and not closed in bulk? */
  predicate OpenBatch(s: State, b: nat) {
    && !s.autoAck && b < |s.batches| && b !in s.closedInBulk
    && s.batches[b].settledCount < |s.batches[b].msgSettled|
  }

  /** Is the latest batch open? */
  predicate Open(s: State) {
    |s.batches| > 0 && OpenBatch(s, |s.batches| - 1)
  }

  function OpenBatches(s: State): set<nat> {
    set b: nat | b < |s.batches| && OpenBatch(s, b)
  }

  /** Does the running handler's return poll, in autoAck mode? */
  predicate Owes(s: State) {
    s.active && s.inHandler && s.autoAck
  }

  /** Gets in flight, re-poll timers, the poll a running handler owes, and open batches. */
  function Load(s: State): int {
    s.gets + s.timers + (if Owes(s) then 1 else 0) + |OpenBatches(s)|
  }

  /** Every batch before the latest is fully settled or was closed in bulk. */
  ghost predicate EarlierClosed(s: State) {
    forall b: nat | b + 1 < |s.batches| :: !OpenBatch(s, b)
  }

  /** The flag of the handle tells of the latest batch. */
  ghost predicate FlagIsLatest(s: State) {
    && (|s.batches| > 0 ==> (s.bulkSettled <==> |s.batches| - 1 in s.closedInBulk))
    && (forall b :: b in s.closedInBulk ==> b < |s.batches|)
  }

  lemma LoadOf(s: State)
    requires EarlierClosed(s)
    ensures Load(s) == s.gets + s.timers + (if Owes(s) then 1 else 0) + if Open(s) then 1 else 0
  {
    var latest := |s.batches| - 1;
    assert OpenBatches(s) == if Open(s) then {latest} else {};
  }

  /** One response per Get, and no second delivery while the handler runs. */
  predicate Env(s: State, e: Event) {
    match e
    case GetResponse(_, _) => s.gets > 0 && !s.inHandler
    case ErrorResponse(toGet) => toGet ==> s.gets > 0
    case _ => true
  }

  /** Does settling message `i` of batch `b` write a frame, and does it complete the batch? */
  predicate Settles(s: State, b: nat, i: nat) {
    !s.autoAck && s.active && b < |s.batches| && i < |s.batches[b].msgSettled| && !s.batches[b].msgSettled[i]
  }

  predicate Completes(s: State, b: nat)
    requires b < |s.batches|
  {
    s.batches[b].settledCount + 1 == |s.batches[b].msgSettled|
  }

  /** The guard of one poll. On an active handle a bulk call that closes needs that no Get is in
      flight, no timer armed and no poll owed; reQueueRange that nothing at all is outstanding; a
      reconnect that nothing but Gets is; and completing an earlier batch, with no bulk call on
      the latest, that nothing at all is. */
  predicate KeepsPoll(s: State, e: Event) {
    match e
    case CallBulk(call) =>
      if call in {NackAll, NackRange} || !s.active then true
      else if call == ReQueueRange then Load(s) == 0
      else s.gets == 0 && s.timers == 0 && !Owes(s)
    case Reconnect => s.active ==> s.timers == 0 && !Owes(s) && !Open(s)
    case SettleMessage(_, b, i) =>
      Settles(s, b, i) && Completes(s, b) && b + 1 < |s.batches| && !s.bulkSettled ==> Load(s) == 0
    case _ => true
  }

  /** At most one poll is outstanding, and only the latest batch can be open. */
  ghost predicate OnePoll(s: State) {
    Safe(s) && EarlierClosed(s) && FlagIsLatest(s) && 0 <= s.gets && Load(s) <= 1
  }

  /** No batch of `s` is open in `t` that was not open before. */
  ghost predicate OpensNone(s: State, t: State) {
    forall b: nat | b < |s.batches| :: OpenBatch(t, b) ==> OpenBatch(s, b)
  }

  /** A step may open the batch it delivers and no other. */
  lemma StepFlags(s: State, e: Event)
    requires FlagIsLatest(s)
    ensures FlagIsLatest(Step(s, e)) && OpensNone(s, Step(s, e))
    ensures |Step(s, e).batches| == |s.batches| + if e.GetResponse? && s.active then 1 else 0
  {
    match e
    case GetResponse(txn, size) => DeliveryFlags(s, txn, size);
    case SettleMessage(kind, b, i) => SettlingFlags(s, kind, b, i);
    case CallBulk(call) => BulkFlags(s, call);
    case _ =>
  }

  lemma DeliveryFlags(s: State, txn: string, size: nat)
    requires FlagIsLatest(s)
    ensures var t := OnGetResponse(s, txn, size);
            && FlagIsLatest(t) && OpensNone(s, t)
            && |t.batches| == |s.batches| + if s.active then 1 else 0
  {
  }

  lemma SettlingFlags(s: State, kind: Settlement, b: nat, i: nat)
    requires FlagIsLatest(s)
    ensures var t := Settling(s, kind, b, i); FlagIsLatest(t) && OpensNone(s, t) && |t.batches| == |s.batches|
  {
  }

  lemma BulkFlags(s: State, call: BulkCall)
    requires FlagIsLatest(s)
    ensures var t := CallingBulk(s, call); FlagIsLatest(t) && OpensNone(s, t) && |t.batches| == |s.batches|
  {
  }

  /** Whatever happens, only the load can end OnePoll. */
  lemma StepShape(s: State, e: Event)
    requires OnePoll(s) && Env(s, e)
    ensures var t := Step(s, e);
            && Safe(t) && EarlierClosed(t) && FlagIsLatest(t) && 0 <= t.gets
            && Load(t) == t.gets + t.timers + (if Owes(t) then 1 else 0) + if Open(t) then 1 else 0
  {
    var t := Step(s, e);
    hide Safe, Load, OpenBatches;
    StepSafe(s, e);
    StepFlags(s, e);
    LoadOf(s);
    assert EarlierClosed(t) by {
      assert Open(s) && e.GetResponse? ==> s.gets == 0;
    }
    LoadOf(t);
  }

  /** A bulk call that closes the batch keeps one poll precisely when none is in flight, timed or
      owed, whatever the application thinks of the batch. */
  lemma BulkKeepsOnePollExactly(s: State, call: BulkCall)
    requires OnePoll(s) && s.active && call in {AckAll, AckRange, ReQueueAll}
    ensures Load(CallingBulk(s, call)) <= 1 <==> s.gets == 0 && s.timers == 0 && !Owes(s)
  {
    hide Load, OpenBatches, Safe;
    StepShape(s, CallBulk(call));
  }

  /** ReQueueRange re-polls without closing the batch. */
  lemma ReQueueRangeKeepsOnePollExactly(s: State)
    requires OnePoll(s) && s.active
    ensures Load(CallingBulk(s, ReQueueRange)) <= 1 <==> Load(s) == 0
  {
    hide Load, OpenBatches, Safe;
    StepShape(s, CallBulk(ReQueueRange));
    LoadOf(s);
  }

  /** A reconnect polls on the new stream whatever is timed, owed or open on the old. */
  lemma ReconnectKeepsOnePollExactly(s: State)
    requires OnePoll(s) && s.active
    ensures Load(Step(s, Reconnect)) <= 1 <==> s.timers == 0 && !Owes(s) && !Open(s)
  {
    hide Load, OpenBatches, Safe;
    StepShape(s, Reconnect);
  }

  /** Settling one more message keeps one poll precisely when it does not complete an earlier
      batch, with no bulk call on the latest, while something is outstanding. */
  lemma SettlingKeepsOnePollExactly(s: State, kind: Settlement, b: nat, i: nat)
    requires OnePoll(s)
    ensures Load(Settling(s, kind, b, i)) <= 1 <==> KeepsPoll(s, SettleMessage(kind, b, i))
  {
    if Settles(s, b, i) {
      hide Settling, Load, OpenBatches;
      StepShape(s, SettleMessage(kind, b, i));
      LoadOf(s);
      SettledBatch(s, kind, b, i);
      SettlingLoad(s, kind, b, i);
    }
  }

  /** A settlement that takes effect polls when it completes its batch and no bulk call came. */
  lemma SettlingLoad(s: State, kind: Settlement, b: nat, i: nat)
    requires Safe(s) && FlagIsLatest(s) && Settles(s, b, i)
    ensures var t := Settling(s, kind, b, i);
            && t.gets == s.gets && t.timers == s.timers + (if Completes(s, b) && !s.bulkSettled then 1 else 0)
            && Owes(t) == Owes(s) && |t.batches| == |s.batches|
            && (Open(t) <==> Open(s) && !(b + 1 == |s.batches| && Completes(s, b)))
            && (b + 1 == |s.batches| && !s.bulkSettled ==> Open(s))
  {
    hide OneFramePerMessage, CountTrue;
    assert BatchOk(s.batches[b]);
    CountBounded(s.batches[b].msgSettled);
  }

  /** Under the environment's rules a step keeps one poll exactly when its guard holds. */
  lemma StepKeepsPollExactly(s: State, e: Event)
    requires OnePoll(s) && Env(s, e)
    ensures OnePoll(Step(s, e)) <==> KeepsPoll(s, e)
    ensures OnePoll(Step(s, e)) <==> Load(Step(s, e)) <= 1
  {
    StepShape(s, e);
    match e
    case SettleMessage(kind, b, i) =>
      hide Settling, KeepsPoll, Load;
      SettlingKeepsOnePollExactly(s, kind, b, i);
    case CallBulk(call) =>
      hide CallingBulk, Load;
      BulkKeepsPollExactly(s, call);
    case _ =>
      hide Load, OpenBatches, Safe;
      LoadOf(s);
  }

  lemma BulkKeepsPollExactly(s: State, call: BulkCall)
    requires OnePoll(s)
    ensures Load(CallingBulk(s, call)) <= 1 <==> KeepsPoll(s, CallBulk(call))
  {
    if s.active && call in {AckAll, AckRange, ReQueueAll} {
      hide CallingBulk, Load, OnePoll;
      BulkKeepsOnePollExactly(s, call);
    } else if s.active && call == ReQueueRange {
      hide CallingBulk, Load, OnePoll;
      ReQueueRangeKeepsOnePollExactly(s);
    } else {
      hide Load, OpenBatches, Safe;
      StepShape(s, CallBulk(call));
      LoadOf(s);
    }
  }

  ghost predicate EnvRun(autoAck: bool, events: seq<Event>) {
    forall k: nat | k < |events| :: Env(Run(autoAck, events[..k]), events[k])
  }

  lemma OnePollAtStart(autoAck: bool)
    ensures OnePoll(Run(autoAck, []))
  {
    RunSafe(autoAck, []);
    LoadOf(Opened(autoAck));
  }

  lemma RunStep(autoAck: bool, events: seq<Event>, k: nat)
    requires k < |events|
    ensures Run(autoAck, events[..k + 1]) == Step(Run(autoAck, events[..k]), events[k])
  {
    assert events[..k + 1][..k] == events[..k];
  }

  /** Over whole runs: at no moment is more than one poll outstanding, exactly when every step
      meets its guard; and then no batch but the latest is ever open. */
  lemma OnePollThroughoutExactly(autoAck: bool, events: seq<Event>)
    requires EnvRun(autoAck, events)
    ensures (forall k: nat | k <= |events| :: Load(Run(autoAck, events[..k])) <= 1) <==>
            (forall k: nat | k < |events| :: KeepsPoll(Run(autoAck, events[..k]), events[k]))
    ensures (forall k: nat | k < |events| :: KeepsPoll(Run(autoAck, events[..k]), events[k])) ==>
            OnePoll(Run(autoAck, events))
  {
    var n := |events|;
    OnePollAtStart(autoAck);
    hide Step, Run, Env, KeepsPoll, OnePoll, Load;
    assert events[..0] == [] && events[..n] == events;
    var good := (k: nat) => k <= n && OnePoll(Run(autoAck, events[..k]));
    var light := (k: nat) => k <= n && Load(Run(autoAck, events[..k])) <= 1;
    var keeps := (k: nat) => k < n && KeepsPoll(Run(autoAck, events[..k]), events[k]);
    forall k: nat | k <= n && good(k) ensures light(k) {
      OnePollIsLight(Run(autoAck, events[..k]));
    }
    forall k: nat | k < n && good(k)
      ensures (good(k + 1) <==> keeps(k)) && (light(k + 1) ==> good(k + 1))
    {
      RunStep(autoAck, events, k);
      StepKeepsPollExactly(Run(autoAck, events[..k]), events[k]);
    }
    ThroughoutExactly(n, good, light, keeps);
    forall k: nat | k <= n ensures light(k) <==> Load(Run(autoAck, events[..k])) <= 1 {}
    forall k: nat | k < n ensures keeps(k) <==> KeepsPoll(Run(autoAck, events[..k]), events[k]) {}
    assert good(n) ==> OnePoll(Run(autoAck, events));
  }

  lemma OnePollIsLight(s: State)
    requires OnePoll(s)
    ensures Load(s) <= 1
  {
  }

  // A discipline an application can follow.

  /** No reconnect; the application touches the latest batch only, and closes it in bulk only
      while it is open. */
  predicate Disciplined(s: State, e: Event) {
    Env(s, e) &&
    match e
    case SettleMessage(_, b, _) => b + 1 == |s.batches|
    case CallBulk(call) => call in {NackAll, NackRange} || (call != ReQueueRange && Open(s))
    case Reconnect => false
    case _ => true
  }

  ghost predicate DisciplinedRun(autoAck: bool, events: seq<Event>) {
    forall k: nat | k < |events| :: Disciplined(Run(autoAck, events[..k]), events[k])
  }

  lemma DisciplinedKeepsPoll(s: State, e: Event)
    requires OnePoll(s) && Disciplined(s, e)
    ensures KeepsPoll(s, e)
  {
    hide Load, OpenBatches, Safe;
    LoadOf(s);
  }

  /** At every moment of a disciplined run the Gets in flight, the re-poll timers, the poll owed
      and all the open batches are together at most one, and no batch but the latest is open. */
  lemma {:induction false} PollDiscipline(autoAck: bool, events: seq<Event>)
    requires DisciplinedRun(autoAck, events)
    ensures var s := Run(autoAck, events);
            OnePoll(s) && Load(s) <= 1 && forall b | OpenBatch(s, b) :: b == |s.batches| - 1
  {
    hide Step, Safe, Disciplined, KeepsPoll;
    if events == [] {
      OnePollAtStart(autoAck);
    } else {
      var before, e := events[..|events| - 1], events[|events| - 1];
      assert forall k: nat | k < |before| :: before[..k] == events[..k] && before[k] == events[k];
      PollDiscipline(autoAck, before);
      var s := Run(autoAck, before);
      assert Disciplined(s, e);
      DisciplinedKeepsPoll(s, e);
      DisciplinedEnv(s, e);
      StepKeepsPollExactly(s, e);
    }
  }

  lemma DisciplinedEnv(s: State, e: Event)
    requires Disciplined(s, e)
    ensures Env(s, e)
  {
  }

  // Two runs with two polls.

  /** In autoAck mode a bulk call in the handler polls, and so does the handler's return. */
  lemma AutoAckBulkPollsTwice()
    ensures var events := [GetResponse("a", 1), CallBulk(AckAll), HandlerReturns];
            && EnvRun(true, events) && !KeepsPoll(Run(true, events[..1]), events[1])
            && Run(true, events).timers == 2
  {
    var events := [GetResponse("a", 1), CallBulk(AckAll), HandlerReturns];
    assert events[..0] == [] && events[..3] == events;
    var a := NewBatch("a", 1);
    var delivered := State(true, true, Some("a"), false, [a], {}, 0, 0, true, [Get]);
    var acked := State(true, true, None, true, [a], {0}, 1, 0, true, [Get, Bulk(AckAll, Some("a"))]);
    RunStep(true, events, 0);
    assert Run(true, events[..1]) == delivered;
    RunStep(true, events, 1);
    assert Run(true, events[..2]) == acked;
    RunStep(true, events, 2);
  }

  /** After ackAll and the next delivery, settling the first batch's message polls while the
      second batch is open. Every step but the last meets its guard. */
  lemma StaleSettlementPollsTwice()
    ensures var events := StaleEvents();
            && EnvRun(false, events) && DisciplinedRun(false, events[..6])
            && !KeepsPoll(Run(false, events[..6]), events[6]) && Load(Run(false, events)) == 2
  {
    hide Run, Step, Load, Disciplined, Env, KeepsPoll, StaleEvents, StaleStates;
    StaleChain();
    var events, states := StaleEvents(), StaleStates();
    StaleRun(7);
    StaleRun(6);
    assert events[..7] == events;
    forall k: nat | k < 6 ensures Disciplined(Run(false, events[..6][..k]), events[..6][k]) {
      StaleRun(k);
      assert events[..6][..k] == events[..k];
    }
    forall k: nat | k < 7 ensures Env(Run(false, events[..k]), events[k]) {
      StaleRun(k);
      if k < 6 {
        DisciplinedEnv(states[k], events[k]);
      }
    }
  }

  function StaleEvents(): seq<Event> {
    [GetResponse("a", 1), HandlerReturns, CallBulk(AckAll), TimerFires,
     GetResponse("b", 1), HandlerReturns, SettleMessage(Ack, 0, 0)]
  }

  function StaleStates(): seq<State> {
    var a, b := Batch("a", [false], 0, 0), Batch("b", [false], 0, 0);
    var acked := [Get, Bulk(AckAll, Some("a"))];
    [State(false, true, None, false, [], {}, 0, 1, false, [Get]),
     State(false, true, Some("a"), false, [a], {}, 0, 0, true, [Get]),
     State(false, true, Some("a"), false, [a], {}, 0, 0, false, [Get]),
     State(false, true, None, true, [a], {0}, 1, 0, false, acked),
     State(false, true, None, true, [a], {0}, 0, 1, false, acked + [Get]),
     State(false, true, Some("b"), false, [a, b], {0}, 0, 0, true, acked + [Get]),
     State(false, true, Some("b"), false, [a, b], {0}, 0, 0, false, acked + [Get]),
     State(false, true, None, false, [Batch("a", [true], 1, 1), b], {0}, 1, 0, false,
           acked + [Get] + [Settle(Ack, "a", 0, 0)])]
  }

  lemma StaleChain()
    ensures |StaleEvents()| == 7 && |StaleStates()| == 8 && StaleStates()[0] == Opened(false)
    ensures forall k :: 0 <= k < 7 ==> Step(StaleStates()[k], StaleEvents()[k]) == StaleStates()[k + 1]
    ensures forall k :: 0 <= k < 6 ==> Disciplined(StaleStates()[k], StaleEvents()[k])
    ensures Env(StaleStates()[6], StaleEvents()[6]) && !KeepsPoll(StaleStates()[6], StaleEvents()[6])
    ensures Load(StaleStates()[7]) == 2
  {
    StaleDeliveries();
    StaleSettlements();
    StaleDiscipline();
    StaleLoad();
    StaleGuard();
    hide Step, Disciplined, Env, KeepsPoll, Load;
    forall k | 0 <= k < 7 ensures Step(StaleStates()[k], StaleEvents()[k]) == StaleStates()[k + 1] {
      assert k in {0, 1, 4, 5} || k in {2, 3, 6};
    }
  }

  lemma StaleDeliveries()
    ensures forall k | k in {0, 1, 4, 5} :: Step(StaleStates()[k], StaleEvents()[k]) == StaleStates()[k + 1]
  {
    assert NewBatch("a", 1) == Batch("a", [false], 0, 0);
    assert NewBatch("b", 1) == Batch("b", [false], 0, 0);
  }

  lemma StaleSettlements()
    ensures forall k | k in {2, 3, 6} :: Step(StaleStates()[k], StaleEvents()[k]) == StaleStates()[k + 1]
  {
    assert [false][0 := true] == [true];
  }

  lemma StaleLoad()
    ensures Load(StaleStates()[7]) == 2
  {
    LoadOf(StaleStates()[7]);
  }

  lemma StaleGuard()
    ensures Env(StaleStates()[6], StaleEvents()[6]) && !KeepsPoll(StaleStates()[6], StaleEvents()[6])
  {
    LoadOf(StaleStates()[6]);
  }

  lemma StaleDiscipline()
    ensures forall k :: 0 <= k < 6 ==> Disciplined(StaleStates()[k], StaleEvents()[k])
  {
  }

  lemma {:induction false} StaleRun(k: nat)
    requires k <= 7
    ensures |StaleEvents()| == 7 && |StaleStates()| == 8 && Run(false, StaleEvents()[..k]) == StaleStates()[k]
  {
    hide Step, StaleEvents, StaleStates;
    StaleChain();
    if k > 0 {
      StaleRun(k - 1);
      assert StaleEvents()[..k][..k - 1] == StaleEvents()[..k - 1];
    }
  }
}
