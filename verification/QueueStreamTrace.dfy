/** Which frames the queue stream writes, read off the events: the requests of settlements, bulk
    calls and close, the Gets, and that no poll is lost. */
module QueueStreamTrace {
  import opened Options
  import opened QueueStreamModel
  import opened QueueStreamProperties

  /** No close, by either side, and no end of the stream has come. */
  predicate StillActive(events: seq<Event>) {
    CloseByServer !in events && StreamBreaks !in events && CallClose !in events
  }

  /** The batches delivered, by transaction and size. */
  function Delivered(events: seq<Event>): seq<(string, nat)> {
    if events == [] then []
    else
      var before, e := events[..|events| - 1], events[|events| - 1];
      Delivered(before) + if e.GetResponse? && StillActive(before) then [(e.txn, e.size)] else []
  }

  /** Is the last event an application's call on message `i` of batch `b`, delivered, of an active
      handle with manual settlement? */
  predicate Asks(autoAck: bool, before: seq<Event>, e: Event, b: nat, i: nat) {
    && e.SettleMessage? && e.batch == b && e.index == i && !autoAck && StillActive(before)
    && b < |Delivered(before)| && i < Delivered(before)[b].1
  }

  /** The first call made on a message. */
  function FirstCall(autoAck: bool, events: seq<Event>, b: nat, i: nat): Option<Settlement> {
    if events == [] then None
    else
      var before, e := events[..|events| - 1], events[|events| - 1];
      var earlier := FirstCall(autoAck, before, b, i);
      if earlier.None? && Asks(autoAck, before, e, b, i) then Some(e.kind) else earlier
  }

  /** The state shows what the events say of the handle and its batches. */
  ghost predicate Tells(autoAck: bool, events: seq<Event>, s: State) {
    && s.autoAck == autoAck && (s.active <==> StillActive(events))
    && |s.batches| == |Delivered(events)|
    && forall b: nat | b < |s.batches| ::
         s.batches[b].txn == Delivered(events)[b].0 && |s.batches[b].msgSettled| == Delivered(events)[b].1
  }

  lemma ActiveNext(events: seq<Event>)
    requires events != []
    ensures var before, e := events[..|events| - 1], events[|events| - 1];
            StillActive(events) <==>
            StillActive(before) && e != CloseByServer && e != StreamBreaks && e != CallClose
  {
    assert events == events[..|events| - 1] + [events[|events| - 1]];
  }

  lemma TellsNext(autoAck: bool, events: seq<Event>, s: State)
    requires events != [] && Tells(autoAck, events[..|events| - 1], s)
    ensures Tells(autoAck, events, Step(s, events[|events| - 1]))
  {
    ActiveNext(events);
    hide StillActive;
    var e := events[|events| - 1];
    match e
    case GetResponse(txn, size) =>
    case SettleMessage(kind, b, i) =>
    case _ =>
      OtherFrames(s, e);
      hide Step;
  }

  lemma {:induction false} RunTells(autoAck: bool, events: seq<Event>)
    ensures Tells(autoAck, events, Run(autoAck, events))
  {
    if events != [] {
      hide Step, Tells;
      RunTells(autoAck, events[..|events| - 1]);
      TellsNext(autoAck, events, Run(autoAck, events[..|events| - 1]));
    }
  }

  // Settlements.

  /** The frames on the wire for one message are one request of the kind first called, citing the
      transaction its batch was delivered in, and no other. */
  ghost predicate Requested(s: State, b: nat, i: nat, first: Option<Settlement>) {
    && (b < |s.batches| && i < |s.batches[b].msgSettled| ==> (s.batches[b].msgSettled[i] <==> first.Some?))
    && (b >= |s.batches| || i >= |s.batches[b].msgSettled| ==> first.None?)
    && forall kind, txn ::
         multiset(s.wire)[Settle(kind, txn, b, i)] ==
         if first == Some(kind) && b < |s.batches| && txn == s.batches[b].txn then 1 else 0
  }

  lemma RequestedNext(autoAck: bool, events: seq<Event>, s: State, b: nat, i: nat)
    requires events != [] && Tells(autoAck, events[..|events| - 1], s)
    requires Requested(s, b, i, FirstCall(autoAck, events[..|events| - 1], b, i))
    ensures Requested(Step(s, events[|events| - 1]), b, i, FirstCall(autoAck, events, b, i))
  {
    var before, e := events[..|events| - 1], events[|events| - 1];
    var first := FirstCall(autoAck, before, b, i);
    hide StillActive, Delivered;
    match e
    case GetResponse(txn, size) => RequestedDelivery(s, txn, size, b, i, first);
    case SettleMessage(kind, c, j) =>
      RequestedSettling(s, kind, c, j, b, i, first);
    case _ => RequestedOther(s, e, b, i, first);
  }

  lemma RequestedDelivery(s: State, txn: string, size: nat, b: nat, i: nat, first: Option<Settlement>)
    requires Requested(s, b, i, first)
    ensures Requested(OnGetResponse(s, txn, size), b, i, first)
  {
  }

  /** The frame any other event writes. */
  function FrameOf(s: State, e: Event): Option<Frame> {
    match e
    case CallBulk(call) => if s.active then Some(Bulk(call, s.activeTxn)) else None
    case CallClose => if s.active then Some(Close(s.activeTxn)) else None
    case TimerFires => if s.active && s.timers > 0 then Some(Get) else None
    case Reconnect => if s.active then Some(Get) else None
    case _ => None
  }

  function Wired(wire: seq<Frame>, f: Option<Frame>): seq<Frame> {
    if f.Some? then wire + [f.value] else wire
  }

  lemma OtherFrames(s: State, e: Event)
    requires !e.GetResponse? && !e.SettleMessage?
    ensures var t := Step(s, e);
            && t.batches == s.batches && t.autoAck == s.autoAck && t.wire == Wired(s.wire, FrameOf(s, e))
            && (t.active <==> s.active && e != CloseByServer && e != StreamBreaks && e != CallClose)
  {
    if e.CallBulk? {
      BulkFrames(s, e.call);
    }
  }

  lemma BulkFrames(s: State, call: BulkCall)
    ensures var t := CallingBulk(s, call);
            && t.batches == s.batches && t.autoAck == s.autoAck && t.active == s.active
            && t.wire == if s.active then s.wire + [Bulk(call, s.activeTxn)] else s.wire
  {
  }

  lemma DeliveryFrames(s: State, txn: string, size: nat)
    ensures OnGetResponse(s, txn, size).wire == s.wire
  {
  }

  lemma SettlingFrames(s: State, kind: Settlement, b: nat, i: nat)
    ensures Settling(s, kind, b, i).wire ==
            if Settles(s, b, i) then s.wire + [Settle(kind, s.batches[b].txn, b, i)] else s.wire
  {
  }

  lemma WiredCount(wire: seq<Frame>, f: Option<Frame>, g: Frame)
    ensures multiset(Wired(wire, f))[g] == multiset(wire)[g] + if f == Some(g) then 1 else 0
  {
    if f.Some? {
      assert multiset(wire + [f.value]) == multiset(wire) + multiset{f.value};
    }
  }

  lemma RequestedOther(s: State, e: Event, b: nat, i: nat, first: Option<Settlement>)
    requires Requested(s, b, i, first) && !e.GetResponse? && !e.SettleMessage?
    ensures Requested(Step(s, e), b, i, first)
  {
    OtherFrames(s, e);
    hide Step;
    forall kind, txn ensures multiset(Step(s, e).wire)[Settle(kind, txn, b, i)] ==
                             multiset(s.wire)[Settle(kind, txn, b, i)] {
      WiredCount(s.wire, FrameOf(s, e), Settle(kind, txn, b, i));
    }
  }

  lemma RequestedSettling(s: State, kind: Settlement, c: nat, j: nat, b: nat, i: nat, first: Option<Settlement>)
    requires Requested(s, b, i, first)
    ensures Requested(Settling(s, kind, c, j), b, i,
                      if first.None? && c == b && j == i && Settles(s, b, i) then Some(kind) else first)
  {
    var t := Settling(s, kind, c, j);
    SettlingFrames(s, kind, c, j);
    if Settles(s, c, j) {
      assert multiset(t.wire) == multiset(s.wire) + multiset{Settle(kind, s.batches[c].txn, c, j)};
    }
  }

  lemma {:induction false} RunRequested(autoAck: bool, events: seq<Event>, b: nat, i: nat)
    ensures Requested(Run(autoAck, events), b, i, FirstCall(autoAck, events, b, i))
  {
    if events != [] {
      hide Step, Requested, FirstCall;
      var before := events[..|events| - 1];
      RunRequested(autoAck, before, b, i);
      RunTells(autoAck, before);
      RequestedNext(autoAck, events, Run(autoAck, before), b, i);
    } else {
      NothingRequested(autoAck, b, i);
    }
  }

  lemma NothingRequested(autoAck: bool, b: nat, i: nat)
    ensures Requested(Opened(autoAck), b, i, None)
  {
  }

  /** Over every run, for each message: one request of the kind of the first call made on it while
      the handle was active with manual settlement, in its own batch's transaction; no other. */
  lemma SettlementRequestsExactly(autoAck: bool, events: seq<Event>, kind: Settlement, txn: string, b: nat, i: nat)
    ensures multiset(Run(autoAck, events).wire)[Settle(kind, txn, b, i)] ==
            if FirstCall(autoAck, events, b, i) == Some(kind)
               && b < |Delivered(events)| && Delivered(events)[b].0 == txn then 1 else 0
  {
    hide Run, FirstCall, Delivered, StillActive;
    RunTells(autoAck, events);
    RunRequested(autoAck, events, b, i);
  }

  // The transaction in force.

  predicate Closing(e: Event) {
    e == CallBulk(AckAll) || e == CallBulk(AckRange) || e == CallBulk(ReQueueAll)
  }

  /** Has a bulk call that closes come since the last delivery? */
  function BulkSince(events: seq<Event>): bool {
    if events == [] then false
    else
      var before, e := events[..|events| - 1], events[|events| - 1];
      if e.GetResponse? && StillActive(before) then false else Closing(e) || BulkSince(before)
  }

  /** Has every message of batch `b` been called on? */
  ghost predicate AllCalled(autoAck: bool, events: seq<Event>, b: nat) {
    b < |Delivered(events)| && forall i: nat | i < Delivered(events)[b].1 :: FirstCall(autoAck, events, b, i).Some?
  }

  /** Does the last event complete its batch by a call on a message? */
  ghost predicate CompletesBatch(autoAck: bool, events: seq<Event>)
    requires events != []
  {
    var before, e := events[..|events| - 1], events[|events| - 1];
    e.SettleMessage? && Asks(autoAck, before, e, e.batch, e.index)
    && FirstCall(autoAck, before, e.batch, e.index).None? && AllCalled(autoAck, events, e.batch)
  }

  /** The transaction bulk calls refer to: that of the last delivery, until a closing bulk call, a
      reconnect, a close, or a completed batch with no bulk call since. */
  ghost function InForce(autoAck: bool, events: seq<Event>): Option<string> {
    if events == [] then None
    else
      var before, e := events[..|events| - 1], events[|events| - 1];
      if e.GetResponse? && StillActive(before) then Some(e.txn)
      else if Closing(e) || e == CloseByServer then None
      else if (e == Reconnect || e == CallClose) && StillActive(before) then None
      else if CompletesBatch(autoAck, events) && !BulkSince(before) then None
      else InForce(autoAck, before)
  }

  /** A batch is fully settled when all its messages were called on. */
  lemma SettledIsCalled(autoAck: bool, events: seq<Event>, b: nat)
    requires b < |Delivered(events)|
    ensures var s := Run(autoAck, events);
            && b < |s.batches|
            && (s.batches[b].settledCount == |s.batches[b].msgSettled| <==> AllCalled(autoAck, events, b))
  {
    hide Run, FirstCall, Delivered, StillActive;
    RunTells(autoAck, events);
    RunSafe(autoAck, events);
    var s := Run(autoAck, events);
    assert BatchOk(s.batches[b]);
    CountBounded(s.batches[b].msgSettled);
    forall i: nat | i < |s.batches[b].msgSettled|
      ensures s.batches[b].msgSettled[i] <==> FirstCall(autoAck, events, b, i).Some?
    {
      RunRequested(autoAck, events, b, i);
    }
  }

  lemma SettlingClears(s: State, kind: Settlement, b: nat, i: nat)
    ensures var t := Settling(s, kind, b, i);
            && t.bulkSettled == s.bulkSettled
            && t.activeTxn ==
               if Settles(s, b, i) && !s.bulkSettled
                  && t.batches[b].settledCount == |t.batches[b].msgSettled| then None else s.activeTxn
  {
  }

  lemma OtherClears(s: State, e: Event)
    requires !e.GetResponse? && !e.SettleMessage?
    ensures var t := Step(s, e);
            && (t.bulkSettled <==> s.bulkSettled || Closing(e))
            && t.activeTxn ==
               if Closing(e) || e == CloseByServer || ((e == Reconnect || e == CallClose) && s.active)
               then None else s.activeTxn
  {
    if e.CallBulk? {
      BulkClears(s, e.call);
    }
  }

  lemma BulkClears(s: State, call: BulkCall)
    ensures var t := CallingBulk(s, call);
            && (t.bulkSettled <==> s.bulkSettled || Closing(CallBulk(call)))
            && t.activeTxn == if Closing(CallBulk(call)) then None else s.activeTxn
  {
  }

  lemma {:induction false} RunInForce(autoAck: bool, events: seq<Event>)
    ensures Run(autoAck, events).activeTxn == InForce(autoAck, events)
    ensures Run(autoAck, events).bulkSettled == BulkSince(events)
  {
    if events != [] {
      hide Settling, StillActive, Delivered, FirstCall, AllCalled;
      var before, e := events[..|events| - 1], events[|events| - 1];
      var s := Run(autoAck, before);
      RunInForce(autoAck, before);
      RunTells(autoAck, before);
      match e
      case GetResponse(txn, size) =>
      case SettleMessage(kind, b, i) =>
        SettlingClears(s, kind, b, i);
        RunRequested(autoAck, before, b, i);
        if Settles(s, b, i) {
          DeliveredSame(events);
          SettledIsCalled(autoAck, events, b);
        }
      case _ =>
        OtherClears(s, e);
        hide Step;
    }
  }

  lemma DeliveredSame(events: seq<Event>)
    requires events != [] && !events[|events| - 1].GetResponse?
    ensures Delivered(events) == Delivered(events[..|events| - 1])
  {
  }

  // Bulk calls and close.

  /** How often a bulk call was made on the active handle with `ref` in force. */
  ghost function BulkCalls(autoAck: bool, events: seq<Event>, call: BulkCall, ref: Option<string>): nat {
    if events == [] then 0
    else
      var before, e := events[..|events| - 1], events[|events| - 1];
      BulkCalls(autoAck, before, call, ref) +
      if e == CallBulk(call) && StillActive(before) && InForce(autoAck, before) == ref then 1 else 0
  }

  /** Every bulk call on an active handle writes one request, its own, citing the transaction in
      force; nothing else does. */
  lemma {:induction false} BulkRequestsExactly(autoAck: bool, events: seq<Event>, call: BulkCall,
                                               ref: Option<string>)
    ensures multiset(Run(autoAck, events).wire)[Bulk(call, ref)] == BulkCalls(autoAck, events, call, ref)
  {
    if events != [] {
      hide Step, StillActive, InForce, FrameAt, Tells;
      var before, e := events[..|events| - 1], events[|events| - 1];
      var s := Run(autoAck, before);
      BulkRequestsExactly(autoAck, before, call, ref);
      RunActive(autoAck, before);
      RunInForce(autoAck, before);
      StepFrames(s, e);
      WiredCount(s.wire, FrameAt(s, e), Bulk(call, ref));
      BulkAt(s, e, call, ref);
    }
  }

  lemma RunActive(autoAck: bool, events: seq<Event>)
    ensures Run(autoAck, events).active == StillActive(events)
  {
    hide Run, StillActive;
    RunTells(autoAck, events);
  }

  lemma BulkAt(s: State, e: Event, call: BulkCall, ref: Option<string>)
    ensures FrameAt(s, e) == Some(Bulk(call, ref)) <==> e == CallBulk(call) && s.active && s.activeTxn == ref
  {
  }

  /** The frame an event writes. */
  function FrameAt(s: State, e: Event): Option<Frame> {
    if e.SettleMessage? then
      if Settles(s, e.batch, e.index) then Some(Settle(e.kind, s.batches[e.batch].txn, e.batch, e.index))
      else None
    else FrameOf(s, e)
  }

  lemma StepFrames(s: State, e: Event)
    ensures Step(s, e).wire == Wired(s.wire, FrameAt(s, e))
  {
    match e
    case GetResponse(txn, size) => DeliveryFrames(s, txn, size);
    case SettleMessage(kind, b, i) => SettlingFrames(s, kind, b, i);
    case _ =>
      OtherFrames(s, e);
      hide Step;
  }

  /** Close writes one request, the first time it finds the handle active. */
  lemma {:induction false} CloseRequestOnce(autoAck: bool, events: seq<Event>)
    ensures CloseFrames(Run(autoAck, events).wire) == if ClosedByCall(events) then 1 else 0
    ensures ClosedByCall(events) ==> !StillActive(events)
  {
    if events != [] {
      hide Step, StillActive, FrameAt, CloseFrames;
      var before, e := events[..|events| - 1], events[|events| - 1];
      var s := Run(autoAck, before);
      CloseRequestOnce(autoAck, before);
      RunActive(autoAck, before);
      ActiveNext(events);
      StepFrames(s, e);
      CloseWired(s.wire, FrameAt(s, e));
      CloseAt(s, e);
    } else {
      NoCloseAtStart(autoAck);
    }
  }

  lemma NoCloseAtStart(autoAck: bool)
    ensures CloseFrames(Run(autoAck, []).wire) == 0
  {
    assert Run(autoAck, []).wire[..0] == [];
  }

  lemma CloseAt(s: State, e: Event)
    ensures FrameAt(s, e).Some? && FrameAt(s, e).value.Close? <==> e == CallClose && s.active
  {
  }

  function CloseFrames(wire: seq<Frame>): nat {
    if wire == [] then 0 else CloseFrames(wire[..|wire| - 1]) + if wire[|wire| - 1].Close? then 1 else 0
  }

  lemma CloseWired(wire: seq<Frame>, f: Option<Frame>)
    ensures CloseFrames(Wired(wire, f)) == CloseFrames(wire) + if f.Some? && f.value.Close? then 1 else 0
  {
    if f.Some? {
      assert (wire + [f.value])[..|wire|] == wire;
    }
  }

  function ClosedByCall(events: seq<Event>): bool {
    if events == [] then false
    else
      ClosedByCall(events[..|events| - 1])
      || (events[|events| - 1] == CallClose && StillActive(events[..|events| - 1]))
  }

  // Gets.

  function GetFrames(wire: seq<Frame>): nat {
    if wire == [] then 0 else GetFrames(wire[..|wire| - 1]) + if wire[|wire| - 1] == Get then 1 else 0
  }

  lemma GetWired(wire: seq<Frame>, f: Option<Frame>)
    ensures GetFrames(Wired(wire, f)) == GetFrames(wire) + if f == Some(Get) then 1 else 0
  {
    if f.Some? {
      assert (wire + [f.value])[..|wire|] == wire;
    }
  }

  /** The Gets written and not answered: the first one, those of the timers, and a fresh one for
      each reconnect, which gives up the others. */
  ghost function Unanswered(autoAck: bool, events: seq<Event>): int {
    if events == [] then 1
    else
      var before, e := events[..|events| - 1], events[|events| - 1];
      var written := GetFrames(Run(autoAck, events).wire) - GetFrames(Run(autoAck, before).wire);
      if e == Reconnect && StillActive(before) then written
      else Unanswered(autoAck, before) + written - if e.GetResponse? || e == ErrorResponse(true) then 1 else 0
  }

  lemma GetsStep(s: State, e: Event)
    ensures var t := Step(s, e);
            var written := if FrameAt(s, e) == Some(Get) then 1 else 0;
            && t.gets == (if e == Reconnect && s.active then written
                          else s.gets + written - if e.GetResponse? || e == ErrorResponse(true) then 1 else 0)
  {
    match e
    case SettleMessage(kind, b, i) =>
    case CallBulk(call) =>
    case _ =>
  }

  /** The Gets the handle counts are Gets on the wire that wait for an answer. */
  lemma {:induction false} GetsAreOnWire(autoAck: bool, events: seq<Event>)
    ensures Run(autoAck, events).gets == Unanswered(autoAck, events)
  {
    if events != [] {
      hide Step, StillActive, FrameAt;
      var before, e := events[..|events| - 1], events[|events| - 1];
      var s := Run(autoAck, before);
      GetsAreOnWire(autoAck, before);
      RunTells(autoAck, before);
      StepFrames(s, e);
      GetsStep(s, e);
      GetWired(s.wire, FrameAt(s, e));
    }
  }

  // No poll is lost.

  /** Has a Get been answered with an error? */
  function GetFailed(events: seq<Event>): bool {
    ErrorResponse(true) in events
  }

  lemma LoadKept(s: State, e: Event)
    requires OnePoll(s) && Disciplined(s, e) && Step(s, e).active
    ensures Load(Step(s, e)) == if e == ErrorResponse(true) then Load(s) - 1 else Load(s)
  {
    DisciplinedEnv(s, e);
    DisciplinedShape(s, e);
    hide Load, OpenBatches, Safe;
    StepShape(s, e);
    LoadOf(s);
    if e.SettleMessage? && Settles(s, e.batch, e.index) {
      hide Settling;
      SettlingLoad(s, e.kind, e.batch, e.index);
    }
  }

  lemma DisciplinedShape(s: State, e: Event)
    requires Disciplined(s, e)
    ensures e.SettleMessage? ==> e.batch + 1 == |s.batches|
  {
  }

  /** While a disciplined handle is active exactly one poll is outstanding: in flight, timed, owed by
      a running handler, or due when the open batch is settled. Only an error in answer to a Get
      loses it, for good. */
  lemma {:induction false} PollNeverLost(autoAck: bool, events: seq<Event>)
    requires DisciplinedRun(autoAck, events) && StillActive(events)
    ensures Load(Run(autoAck, events)) == if GetFailed(events) then 0 else 1
  {
    if events == [] {
      LoadAtStart(autoAck);
    } else {
      var before, e := events[..|events| - 1], events[|events| - 1];
      DisciplinedBefore(autoAck, events);
      ActiveNext(events);
      RunActive(autoAck, events);
      FailedNext(events);
      hide StillActive, Step, Load, Disciplined, OnePoll, GetFailed, DisciplinedRun;
      PollNeverLost(autoAck, before);
      PollDiscipline(autoAck, before);
      LoadKept(Run(autoAck, before), e);
      LoadIsNatural(autoAck, events);
    }
  }

  lemma DisciplinedBefore(autoAck: bool, events: seq<Event>)
    requires events != [] && DisciplinedRun(autoAck, events)
    ensures DisciplinedRun(autoAck, events[..|events| - 1])
    ensures Disciplined(Run(autoAck, events[..|events| - 1]), events[|events| - 1])
  {
    hide Run, Disciplined;
    var before := events[..|events| - 1];
    assert forall k: nat | k < |before| :: before[..k] == events[..k] && before[k] == events[k];
  }

  lemma FailedNext(events: seq<Event>)
    requires events != []
    ensures GetFailed(events) <==> GetFailed(events[..|events| - 1]) || events[|events| - 1] == ErrorResponse(true)
  {
    assert events == events[..|events| - 1] + [events[|events| - 1]];
  }

  lemma LoadAtStart(autoAck: bool)
    ensures Load(Run(autoAck, [])) == 1
  {
    LoadOf(Opened(autoAck));
  }

  lemma LoadIsNatural(autoAck: bool, events: seq<Event>)
    requires DisciplinedRun(autoAck, events)
    ensures Load(Run(autoAck, events)) >= 0
  {
    PollDiscipline(autoAck, events);
  }

  /** A settlement arms a timer exactly when its batch counts a re-poll, which is when it completes
      the batch with no bulk call since the last delivery. */
  lemma RePollsArm(s: State, kind: Settlement, b: nat, i: nat)
    requires Settles(s, b, i)
    ensures var t := Settling(s, kind, b, i);
            && t.timers - s.timers == t.batches[b].rePolls - s.batches[b].rePolls
            && t.timers == s.timers + if Completes(s, b) && !s.bulkSettled then 1 else 0
  {
  }
}
