/** The handle of streamQueueMessages (src/client.ts:937-1252) as a state and one step per
    callback, timer and application call. */
module QueueStreamModel {
  import opened Options

  /** The per-message requests: AckRange (3), NAckRange (5), ReQueueRange (7). */
  datatype Settlement = Ack | Nack | ReQueue

  /** The handle's bulk requests: AckAll (2), AckRange (3), ReQueueAll (6) re-poll and close the
      batch; ReQueueRange (7) re-polls only; NAckAll (4) and NAckRange (5) do neither. */
  datatype BulkCall = AckAll | AckRange | ReQueueAll | ReQueueRange | NackAll | NackRange

  /** Frames written to the broker. `batch` and `index` say which delivered message a
      settlement is for; the broker sees the transaction id. */
  datatype Frame =
    | Get
    | Settle(kind: Settlement, txn: string, batch: nat, index: nat)
    | Bulk(call: BulkCall, ref: Option<string>)
    | Close(ref: Option<string>)

  /** What the closures of one delivered batch hold, and how often it re-polled. */
  datatype Batch = Batch(txn: string, msgSettled: seq<bool>, settledCount: nat, rePolls: nat)

  /** `closedInBulk` holds the batches that were the latest at a bulk call that closes them,
      `gets` counts Gets written and not yet answered, `timers` the armed re-poll timers, and
      `inHandler` holds while the application's onMessages callback runs. */
  datatype State = State(
    autoAck: bool,
    active: bool,
    activeTxn: Option<string>,
    bulkSettled: bool,
    batches: seq<Batch>,
    closedInBulk: set<nat>,
    timers: nat,
    gets: int,
    inHandler: bool,
    wire: seq<Frame>)

  datatype Event =
    | GetResponse(txn: string, size: nat)
    | ErrorResponse(toGet: bool)
    | Confirmation
    | CloseByServer
    | HandlerReturns
    | TimerFires
    | StreamBreaks
    | Reconnect
    | SettleMessage(kind: Settlement, batch: nat, index: nat)
    | CallBulk(call: BulkCall)
    | CallClose

  function Opened(autoAck: bool): State {
    State(autoAck, true, None, false, [], {}, 0, 1, false, [Get])
  }

  function Write(s: State, f: Frame): State {
    s.(wire := s.wire + [f])
  }

  function ScheduleRePoll(s: State): State {
    if s.active then s.(timers := s.timers + 1) else s
  }

  /** The checks after the message handler. */
  function AfterHandler(s: State, size: nat): State {
    if s.active && (s.autoAck || size == 0) then ScheduleRePoll(s) else s
  }

  function NewBatch(txn: string, size: nat): Batch {
    Batch(txn, seq(size, _ => false), 0, 0)
  }

  function OnGetResponse(s: State, txn: string, size: nat): State {
    var answered := s.(gets := s.gets - 1);
    if !s.active then answered
    else
      var delivered := answered.(activeTxn := Some(txn), bulkSettled := false,
                                 batches := s.batches + [NewBatch(txn, size)]);
      if size == 0 then AfterHandler(delivered, 0) else delivered.(inHandler := true)
  }

  function OnMessageSettled(s: State, b: nat): State
    requires b < |s.batches|
  {
    var batch := s.batches[b].(settledCount := s.batches[b].settledCount + 1);
    if s.bulkSettled || batch.settledCount != |batch.msgSettled| then s.(batches := s.batches[b := batch])
    else
      ScheduleRePoll(s.(activeTxn := None,
                        batches := s.batches[b := batch.(rePolls := batch.rePolls + 1)]))
  }

  function Settling(s: State, kind: Settlement, b: nat, i: nat): State {
    if b >= |s.batches| || i >= |s.batches[b].msgSettled| || s.autoAck || !s.active
       || s.batches[b].msgSettled[i]
    then s
    else
      var batch := s.batches[b];
      var marked := s.(batches := s.batches[b := batch.(msgSettled := batch.msgSettled[i := true])]);
      OnMessageSettled(Write(marked, Settle(kind, batch.txn, b, i)), b)
  }

  function BulkClosed(s: State): set<nat> {
    s.closedInBulk + if s.batches == [] then {} else {|s.batches| - 1}
  }

  function CallingBulk(s: State, call: BulkCall): State {
    var written := if s.active then Write(s, Bulk(call, s.activeTxn)) else s;
    match call
    case AckAll | AckRange | ReQueueAll => 
      ScheduleRePoll(written.(bulkSettled := true, activeTxn := None, closedInBulk := BulkClosed(s)))
    case ReQueueRange => ScheduleRePoll(written)
    case NackAll | NackRange => written
  }

  function Step(s: State, e: Event): State {
    match e
    case GetResponse(txn, size) => OnGetResponse(s, txn, size)
    case ErrorResponse(toGet) => if toGet then s.(gets := s.gets - 1) else s
    case Confirmation => s
    case CloseByServer => s.(active := false, activeTxn := None)
    case HandlerReturns => if s.inHandler then AfterHandler(s.(inHandler := false), 1) else s
    case TimerFires =>
      if s.timers == 0 then s
      else if !s.active then s.(timers := s.timers - 1)
      else Write(s.(timers := s.timers - 1, gets := s.gets + 1), Get)
    case StreamBreaks => s.(active := false)
    case Reconnect => if !s.active then s else Write(s.(activeTxn := None, gets := 1), Get)
    case SettleMessage(kind, b, i) => Settling(s, kind, b, i)
    case CallBulk(call) => CallingBulk(s, call)
    case CallClose =>
      if !s.active then s else Write(s.(active := false), Close(s.activeTxn)).(activeTxn := None)
  }

  function Run(autoAck: bool, events: seq<Event>): State {
    if events == [] then Opened(autoAck)
    else Step(Run(autoAck, events[..|events| - 1]), events[|events| - 1])
  }
}
