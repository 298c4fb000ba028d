/** The queue stream handle as the object the application holds (src/client.ts:937-1252): its
    closure variables, and one method per callback, timer and call. */
module QueueStream {
  import opened Options
  import M = QueueStreamModel

  class QueueStreamHandle {
    const autoAck: bool
    var active: bool
    var activeTransactionId: Option<string>
    var bulkSettled: bool
    /** The closures of every delivered batch: settledCount and the msgSettled flags. */
    var batches: seq<M.Batch>
    // The environment's side: armed timers, which batches a bulk call closed, unanswered Gets,
    // whether onMessages is running, and every frame written.
    var timers: nat
    ghost var closedInBulk: set<nat>
    ghost var gets: int
    var inHandler: bool
    ghost var wire: seq<M.Frame>

    ghost function View(): M.State
      reads this
    {
      M.State(autoAck, active, activeTransactionId, bulkSettled, batches, closedInBulk, timers, gets,
              inHandler, wire)
    }

    constructor (autoAck: bool)
      ensures View() == M.Opened(autoAck)
    {
      this.autoAck := autoAck;
      active, activeTransactionId, bulkSettled := true, None, false;
      batches, timers, inHandler := [], 0, false;
      closedInBulk, gets, wire := {}, 1, [M.Get];
    }

    /** stream.write */
    method Write(ghost f: M.Frame)
      modifies this`wire
      ensures View() == M.Write(old(View()), f)
    {
      wire := wire + [f];
    }

    method WriteGet()
      modifies this`wire, this`gets
      ensures View() == M.Write(old(View()).(gets := old(gets) + 1), M.Get)
    {
      gets := gets + 1;
      Write(M.Get);
    }

    /** writeDownstream (src/client.ts:961-974). */
    method WriteDownstream(call: M.BulkCall)
      modifies this`wire
      ensures View() == if active then M.Write(old(View()), M.Bulk(call, activeTransactionId)) else old(View())
    {
      if !active {
        return;
      }
      Write(M.Bulk(call, activeTransactionId));
    }

    /** scheduleRePoll (src/client.ts:976-987). */
    method ScheduleRePoll()
      modifies this`timers
      ensures View() == M.ScheduleRePoll(old(View()))
    {
      if !active {
        return;
      }
      timers := timers + 1;
    }

    method TimerFires()
      modifies this`timers, this`wire, this`gets
      ensures View() == M.Step(old(View()), M.TimerFires)
    {
      if timers == 0 {
        return;
      }
      timers := timers - 1;
      if active {
        WriteGet();
      }
    }

    // onData (src/client.ts:991-1130), by kind of message.

    method OnCloseByServer()
      modifies this`active, this`activeTransactionId
      ensures View() == M.Step(old(View()), M.CloseByServer)
    {
      active := false;
      activeTransactionId := None;
    }

    method OnErrorResponse(toGet: bool)
      modifies this`gets
      ensures View() == M.Step(old(View()), M.ErrorResponse(toGet))
    {
      if toGet {
        gets := gets - 1;
      }
    }

    /** A Get response up to the call of the message handler, and on past it when the batch is
        empty. */
    method OnGetResponse(transactionId: string, size: nat)
      modifies this
      ensures View() == M.Step(old(View()), M.GetResponse(transactionId, size))
    {
      gets := gets - 1;
      if !active {
        return;
      }
      activeTransactionId := Some(transactionId);
      bulkSettled := false;
      batches := batches + [M.NewBatch(transactionId, size)];
      if size > 0 {
        inHandler := true;
      } else {
        AfterHandler(0);
      }
    }

    method HandlerReturns()
      modifies this`inHandler, this`timers
      ensures View() == M.Step(old(View()), M.HandlerReturns)
    {
      if inHandler {
        inHandler := false;
        AfterHandler(1);
      }
    }

    method AfterHandler(batchSize: nat)
      modifies this`timers
      ensures View() == M.AfterHandler(old(View()), batchSize)
    {
      if active && autoAck {
        ScheduleRePoll();
      }
      if active && !autoAck && batchSize == 0 {
        ScheduleRePoll();
      }
    }

    /** onMessageSettled of batch `b` (src/client.ts:1030-1039). */
    method OnMessageSettled(b: nat)
      requires b < |batches|
      modifies this`batches, this`activeTransactionId, this`timers
      ensures View() == M.OnMessageSettled(old(View()), b)
    {
      var settledCount := batches[b].settledCount + 1;
      batches := batches[b := batches[b].(settledCount := settledCount)];
      if bulkSettled {
        return;
      }
      if settledCount == |batches[b].msgSettled| {
        activeTransactionId := None;
        batches := batches[b := batches[b].(rePolls := batches[b].rePolls + 1)];
        ScheduleRePoll();
      }
    }

    /** ack, nack and reQueue of one message (src/client.ts:1059-1110). */
    method SettleMessage(kind: M.Settlement, b: nat, i: nat)
      modifies this`batches, this`activeTransactionId, this`timers, this`wire
      ensures View() == M.Step(old(View()), M.SettleMessage(kind, b, i))
    {
      if b >= |batches| || i >= |batches[b].msgSettled| {
        return;
      }
      if autoAck {
        return;
      }
      if !active || batches[b].msgSettled[i] {
        return;
      }
      batches := batches[b := batches[b].(msgSettled := batches[b].msgSettled[i := true])];
      Write(M.Settle(kind, batches[b].txn, b, i));
      OnMessageSettled(b);
    }

    // The handle's own calls (src/client.ts:1187-1250).

    /** ackAll, ackRange and reQueueAll. */
    method SettleInBulk(call: M.BulkCall)
      requires call in {M.AckAll, M.AckRange, M.ReQueueAll}
      modifies this`wire, this`bulkSettled, this`activeTransactionId, this`timers, this`closedInBulk
      ensures View() == M.Step(old(View()), M.CallBulk(call))
    {
      WriteDownstream(call);
      closedInBulk := M.BulkClosed(View());
      bulkSettled := true;
      activeTransactionId := None;
      ScheduleRePoll();
    }

    method ReQueueRange()
      modifies this`wire, this`timers
      ensures View() == M.Step(old(View()), M.CallBulk(M.ReQueueRange))
    {
      WriteDownstream(M.ReQueueRange);
      ScheduleRePoll();
    }

    /** nackAll and nackRange. */
    method NackInBulk(call: M.BulkCall)
      requires call in {M.NackAll, M.NackRange}
      modifies this`wire
      ensures View() == M.Step(old(View()), M.CallBulk(call))
    {
      WriteDownstream(call);
    }

    method Close()
      modifies this`active, this`activeTransactionId, this`wire
      ensures View() == M.Step(old(View()), M.CallClose)
    {
      if !active {
        return;
      }
      active := false;
      Write(M.Close(activeTransactionId));
      activeTransactionId := None;
    }

    /** onError and onEnd of the stream (src/client.ts:1133-1143). */
    method OnStreamBreaks()
      modifies this`active
      ensures View() == M.Step(old(View()), M.StreamBreaks)
    {
      if !active {
        return;
      }
      active := false;
    }

    /** resubscribe (src/client.ts:1156-1168): the old stream's Gets are never answered. */
    method Resubscribe()
      modifies this`activeTransactionId, this`gets, this`wire
      ensures View() == M.Step(old(View()), M.Reconnect)
    {
      if !active {
        return;
      }
      activeTransactionId := None;
      gets := 0;
      WriteGet();
    }
  }
}
