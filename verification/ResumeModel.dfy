/** Resuming an events-store subscription (src/client.ts:593-652), as the client's state, the
    server's stored events and one step per callback. */
module ResumeModel {
  import opened Options

  datatype Start = Requested | AtSequence(sequence: int)

  /** `lastSequence` and `registered` are the subscription tracker's entry, `stream` the stream
      the handle holds, `listening` the streams that have listeners, `streams` how many were
      opened. `dispatched` are the sequences handed to the dispatcher while it is open. */
  datatype Client = Client(
    registered: bool,
    lastSequence: Option<int>,
    stream: nat,
    listening: set<nat>,
    streams: nat,
    closed: bool,
    dispatched: seq<int>)

  /** The server keeps the stored sequences in order and, per stream, how many of them that
      stream has behind it. */
  datatype World = World(client: Client, log: seq<int>, cursors: map<nat, nat>)

  datatype Event =
    | Store(sequence: int)
    | Deliver(stream: nat)
    | Reconnect(first: nat)
    | Cancel

  /** Where the next stream starts. */
  function StartOf(c: Client): Start {
    if c.registered && c.lastSequence.Some? then AtSequence(c.lastSequence.value + 1) else Requested
  }

  function DataArrives(c: Client, sequence: int): Client {
    c.(lastSequence := if c.registered then Some(sequence) else c.lastSequence,
       dispatched := if c.closed then c.dispatched else c.dispatched + [sequence])
  }

  /** createAndAttachStream, then rebind of the handle. */
  function Rebound(c: Client): Client {
    c.(stream := c.streams, listening := c.listening + {c.streams} - {c.stream}, streams := c.streams + 1)
  }

  function Cancelled(c: Client): Client {
    c.(registered := false, lastSequence := None, closed := true)
  }

  /** How many stored events come before `sequence`. */
  function Before(log: seq<int>, sequence: int): (k: nat)
    ensures k <= |log|
    ensures k < |log| ==> log[k] >= sequence
    ensures forall i :: 0 <= i < k ==> log[i] < sequence
  {
    if log == [] || log[0] >= sequence then 0 else 1 + Before(log[1..], sequence)
  }

  /** Where the server starts a stream; `first` is its choice for the requested position. */
  function CursorFor(log: seq<int>, start: Start, first: nat): nat {
    match start
    case Requested => if first <= |log| then first else |log|
    case AtSequence(q) => Before(log, q)
  }

  const SUBSCRIBED := Client(true, None, 0, {0}, 1, false, [])

  function Opened(log: seq<int>, first: nat): World {
    World(SUBSCRIBED, log, map[0 := CursorFor(log, Requested, first)])
  }

  function Step(w: World, e: Event): World {
    match e
    case Store(q) => if w.log == [] || q > w.log[|w.log| - 1] then w.(log := w.log + [q]) else w
    case Deliver(k) =>
      if k !in w.cursors || w.cursors[k] >= |w.log| then w
      else
        var sent := w.(cursors := w.cursors[k := w.cursors[k] + 1]);
        if k !in w.client.listening then sent
        else sent.(client := DataArrives(w.client, w.log[w.cursors[k]]))
    case Reconnect(first) =>
      if !w.client.registered then w
      else
        w.(client := Rebound(w.client),
           cursors := w.cursors[w.client.streams := CursorFor(w.log, StartOf(w.client), first)])
    case Cancel => w.(client := Cancelled(w.client))
  }

  function Run(log: seq<int>, first: nat, events: seq<Event>): World {
    if events == [] then Opened(log, first)
    else Step(Run(log, first, events[..|events| - 1]), events[|events| - 1])
  }

  predicate Increasing(log: seq<int>) {
    forall i, j :: 0 <= i < j < |log| ==> log[i] < log[j]
  }

  /** `part` is the stretch of `log` that ends before index `to`. */
  predicate EndsAt(part: seq<int>, log: seq<int>, to: nat) {
    |part| <= to <= |log| && part == log[to - |part|..to]
  }

  ghost predicate Inv(w: World) {
    var c := w.client;
    && Increasing(w.log)
    && c.listening == {c.stream} && c.stream < c.streams && c.stream in w.cursors
    && (c.closed <==> !c.registered)
    && (if c.closed then exists to :: EndsAt(c.dispatched, w.log, to)
        else
          && EndsAt(c.dispatched, w.log, w.cursors[c.stream])
          && c.lastSequence == if c.dispatched == [] then None else Some(c.dispatched[|c.dispatched| - 1]))
  }

  lemma StoreInv(w: World, q: int)
    requires Inv(w)
    ensures Inv(Step(w, Store(q)))
  {
    var next := Step(w, Store(q));
    if w.client.closed {
      var to :| EndsAt(w.client.dispatched, w.log, to);
      assert EndsAt(next.client.dispatched, next.log, to);
    }
  }

  /** A stream started after the last delivered event takes up where the one before stopped. */
  lemma ResumesThere(log: seq<int>, to: nat)
    requires Increasing(log) && 0 < to <= |log|
    ensures Before(log, log[to - 1] + 1) == to
  {
  }

  lemma ReconnectInv(w: World, first: nat)
    requires Inv(w)
    ensures Inv(Step(w, Reconnect(first)))
  {
    var c := w.client;
    if c.registered && c.dispatched != [] {
      ResumesThere(w.log, w.cursors[c.stream]);
    }
  }

  lemma StepInv(w: World, e: Event)
    requires Inv(w)
    ensures Inv(Step(w, e))
  {
    match e
    case Store(q) => StoreInv(w, q);
    case Reconnect(first) => ReconnectInv(w, first);
    case _ =>
  }

  lemma {:induction false} RunInv(log: seq<int>, first: nat, events: seq<Event>)
    requires Increasing(log)
    ensures Inv(Run(log, first, events))
  {
    if events != [] {
      hide Step, Inv;
      RunInv(log, first, events[..|events| - 1]);
      StepInv(Run(log, first, events[..|events| - 1]), events[|events| - 1]);
    }
  }

  predicate Consecutive(s: seq<int>) {
    forall i :: 0 <= i < |s| ==> s[i] == s[0] + i
  }

  lemma StretchConsecutive(part: seq<int>, log: seq<int>, to: nat)
    requires Consecutive(log) && EndsAt(part, log, to)
    ensures Consecutive(part)
  {
    var from := to - |part|;
    forall i | 0 <= i < |part| ensures part[i] == part[0] + i {
      assert part[i] == log[from + i] && part[0] == log[from + 0];
    }
  }

  /** No gap and no repeat: whatever is stored, delivered, reconnected and cancelled in whatever
      order, the dispatched sequences are one stretch of the stored ones; with consecutive
      storage, s, s + 1, s + 2, and so on. */
  lemma ResumeExact(log: seq<int>, first: nat, events: seq<Event>)
    requires Increasing(log)
    ensures var w := Run(log, first, events);
            && (exists to :: EndsAt(w.client.dispatched, w.log, to))
            && (Consecutive(w.log) ==> Consecutive(w.client.dispatched))
  {
    hide Run, EndsAt, Consecutive;
    RunInv(log, first, events);
    var w := Run(log, first, events);
    assert w.client.closed || EndsAt(w.client.dispatched, w.log, w.cursors[w.client.stream]);
    var to: nat :| EndsAt(w.client.dispatched, w.log, to);
    if Consecutive(w.log) {
      StretchConsecutive(w.client.dispatched, w.log, to);
    }
  }

  /** Once the current stream has delivered all that is stored, nothing stored after the first
      dispatched event is missing. */
  lemma CaughtUp(log: seq<int>, first: nat, events: seq<Event>)
    requires Increasing(log)
    ensures var w := Run(log, first, events);
            var d := w.client.dispatched;
            w.client.stream in w.cursors &&
            (!w.client.closed && w.cursors[w.client.stream] >= |w.log| && d != [] ==>
              forall q :: q in w.log && q >= d[0] <==> q in d)
  {
    hide Run;
    RunInv(log, first, events);
    var w := Run(log, first, events);
    var d := w.client.dispatched;
    if !w.client.closed && w.cursors[w.client.stream] >= |w.log| && d != [] {
      var from := |w.log| - |d|;
      assert d == w.log[from..];
      forall q ensures q in w.log && q >= d[0] <==> q in d {
        if q in w.log && q >= d[0] {
          var i :| 0 <= i < |w.log| && w.log[i] == q;
          assert i >= from;
          assert d[i - from] == q;
        }
      }
    }
  }
}
