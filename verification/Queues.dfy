/**
 * The two queues of the websocket server (node/rpcwebsocket.go), each a loop over channels. What
 * the scheduler lets happen next is an event; a loop is a run of events.
 */
module Queues {
  import opened Chain

  // ------------------------------------------------------------------ the unbounded queue

  /** A value arrives, and the reader is or is not ready for it; the reader is ready for a queued
      value; the input is closed; the server quits. */
  datatype Event<T> = Arrives(value: T, readerReady: bool) | ReaderReady | InputClosed | Quit

  predicate Stops<T>(e: Event<T>) {
    e.InputClosed? || e.Quit?
  }

  /** The first event from i on that stops the run, or the end of the run. */
  function StopFrom<T>(events: seq<Event<T>>, i: nat): (r: nat)
    requires i <= |events|
    ensures i <= r <= |events| && (r < |events| ==> Stops(events[r]))
    ensures forall k :: i <= k < r ==> !Stops(events[k])
    decreases |events| - i
  {
    if i == |events| || Stops(events[i]) then i else StopFrom(events, i + 1)
  }

  /** The values that arrive in the first n events. */
  function Arrivals<T>(events: seq<Event<T>>, n: nat): seq<T>
    requires n <= |events|
  {
    if n == 0 then []
    else Arrivals(events, n - 1) + if events[n - 1].Arrives? then [events[n - 1].value] else []
  }

  /** What has been received after one more event. */
  function Intake<T>(received: seq<T>, e: Event<T>): seq<T> {
    if e.Arrives? then received + [e.value] else received
  }

  function IntakeAll<T>(received: seq<T>, events: seq<Event<T>>, n: nat): seq<T>
    requires n <= |events|
  {
    if n == 0 then received else Intake(IntakeAll(received, events, n - 1), events[n - 1])
  }

  lemma {:induction false} IntakeIs<T>(received: seq<T>, events: seq<Event<T>>, n: nat)
    requires n <= |events|
    ensures IntakeAll(received, events, n) == received + Arrivals(events, n)
  {
    if 0 < n { IntakeIs(received, events, n - 1); }
  }

  /** Event k adds its value, at the next position, exactly if one arrives; later events keep it there. */
  lemma {:induction false} ArrivalAt<T>(events: seq<Event<T>>, n: nat, k: nat)
    requires k < n <= |events|
    ensures var before, all := Arrivals(events, k), Arrivals(events, n);
      && before <= all
      && (if events[k].Arrives? then |before| < |all| && all[|before|] == events[k].value
          else Arrivals(events, k + 1) == before)
  {
    if k + 1 < n { ArrivalAt(events, n - 1, k); }
  }

  /** How many values are queued after one more event. */
  function Backlog<T>(b: nat, e: Event<T>): nat {
    match e
    case Arrives(_, ready) => if b == 0 && ready then 0 else b + 1
    case ReaderReady => if b == 0 then 0 else b - 1
    case InputClosed => b
    case Quit => b
  }

  function BacklogAll<T>(b: nat, events: seq<Event<T>>, n: nat): nat
    requires n <= |events|
  {
    if n == 0 then b else Backlog(BacklogAll(b, events, n - 1), events[n - 1])
  }

  lemma {:induction false} Advance<T>(received: seq<T>, b: nat, events: seq<Event<T>>, i: nat)
    requires i < |events|
    ensures IntakeAll(received, events, i + 1) == Intake(IntakeAll(received, events, i), events[i])
    ensures BacklogAll(b, events, i + 1) == Backlog(BacklogAll(b, events, i), events[i])
    ensures StopFrom(events, i) == if Stops(events[i]) then i else StopFrom(events, i + 1)
  {
  }

  /** While nothing arrives, each ready reader takes a value, until none is left. */
  lemma {:induction false} ReadersDrain<T>(b: nat, events: seq<Event<T>>, n: nat)
    requires n <= |events| && forall k :: 0 <= k < n ==> events[k].ReaderReady?
    ensures BacklogAll(b, events, n) == if n < b then b - n else 0
  {
    if 0 < n { ReadersDrain(b, events, n - 1); }
  }

  /** queueHandler: reads from an input and hands the oldest value on to an output. */
  class Queue<T(==)> {
    var q: seq<T>
    /** The send cases that are enabled, and the value to send. */
    var dequeue: bool
    var skipQueue: bool
    var next: Option<T>
    var stopped: bool
    ghost var received: seq<T>
    ghost var handedOn: seq<T>

    constructor ()
      ensures Valid() && received == [] && handedOn == [] && !stopped
    {
      q, dequeue, skipQueue, next, stopped := [], false, true, None, false;
      received, handedOn := [], [];
    }

    /** What was handed on and what is queued is what was received, in order; sending past the queue
        is possible exactly while it is empty. */
    ghost predicate Valid()
      reads this
    {
      && received == handedOn + q
      && (dequeue <==> q != []) && (skipQueue <==> q == [])
      && (q != [] ==> next == Some(q[0]))
    }

    method Handle(e: Event<T>)
      requires Valid() && !stopped
      modifies this
      ensures Valid()
      ensures received == Intake(old(received), e)
      ensures handedOn == if e.ReaderReady? && old(q) != [] then old(handedOn) + [old(q)[0]]
                          else if e.Arrives? && e.readerReady && old(q) == [] then old(handedOn) + [e.value]
                          else old(handedOn)
      ensures stopped <==> e.InputClosed? || e.Quit?
      ensures |q| == Backlog(|old(q)|, e)
    {
      match e {
        case Arrives(n, ready) =>
          received := received + [n];
          if skipQueue && ready {
            handedOn := handedOn + [n];
          } else {
            q := q + [n];
            dequeue, skipQueue, next := true, false, Some(q[0]);
          }
        case ReaderReady =>
          if dequeue {
            handedOn := handedOn + [next.value];
            q := q[1..];
            if |q| == 0 {
              dequeue, skipQueue := false, true;
            } else {
              next := Some(q[0]);
            }
          }
        case InputClosed => stopped := true;
        case Quit => stopped := true;
      }
    }

    /** Over any run of events, until it stops: everything that arrives before is received, and handed
        on as readers are ready. */
    method QueueHandler(events: seq<Event<T>>)
      requires Valid() && !stopped
      modifies this
      ensures Valid() && old(handedOn) <= handedOn
      ensures received == old(received) + Arrivals(events, StopFrom(events, 0))
      ensures stopped <==> StopFrom(events, 0) < |events|
      ensures |q| == BacklogAll(|old(q)|, events, StopFrom(events, 0))
    {
      var i := 0;
      while i < |events| && !stopped
        invariant 0 <= i <= |events| && Valid() && old(handedOn) <= handedOn
        invariant !stopped ==> StopFrom(events, 0) == StopFrom(events, i)
        invariant stopped ==> 0 < i && StopFrom(events, 0) == i - 1
        invariant received == IntakeAll(old(received), events, i) && |q| == BacklogAll(|old(q)|, events, i)
      {
        Advance(old(received), |old(q)|, events, i);
        Handle(events[i]);
        i := i + 1;
      }
      IntakeIs(old(received), events, StopFrom(events, 0));
    }
  }

  // ------------------------------------------------------------------ the queue of a client

  /** A notification is queued; the output handler takes a message, and writing it fails or not; its
      report is received; the client disconnects; the client quits. */
  datatype ClientEvent = Queued(msg: int) | Written(ok: bool) | SentReceived | Disconnects | Leaves

  /** The first event from i on at which the client leaves, or the end of the run. */
  function LeaveFrom(events: seq<ClientEvent>, i: nat): (r: nat)
    requires i <= |events|
    ensures i <= r <= |events| && (r < |events| ==> events[r].Leaves?)
    ensures forall k :: i <= k < r ==> !events[k].Leaves?
    decreases |events| - i
  {
    if i == |events| || events[i].Leaves? then i else LeaveFrom(events, i + 1)
  }

  /** The notifications queued in the first n events. */
  function Notifications(events: seq<ClientEvent>, n: nat): seq<int>
    requires n <= |events|
  {
    if n == 0 then []
    else Notifications(events, n - 1) + if events[n - 1].Queued? then [events[n - 1].msg] else []
  }

  /** What has been received after one more event. */
  function TakeIn(received: seq<int>, e: ClientEvent): seq<int> {
    if e.Queued? then received + [e.msg] else received
  }

  function TakeInAll(received: seq<int>, events: seq<ClientEvent>, n: nat): seq<int>
    requires n <= |events|
  {
    if n == 0 then received else TakeIn(TakeInAll(received, events, n - 1), events[n - 1])
  }

  lemma {:induction false} TakeInIs(received: seq<int>, events: seq<ClientEvent>, n: nat)
    requires n <= |events|
    ensures TakeInAll(received, events, n) == received + Notifications(events, n)
  {
    if 0 < n { TakeInIs(received, events, n - 1); }
  }

  /** Event k adds its message, at the next position, exactly if one is queued; later events keep it
      there. */
  lemma {:induction false} NotificationAt(events: seq<ClientEvent>, n: nat, k: nat)
    requires k < n <= |events|
    ensures var before, all := Notifications(events, k), Notifications(events, n);
      && before <= all
      && (if events[k].Queued? then |before| < |all| && all[|before|] == events[k].msg
          else Notifications(events, k + 1) == before)
  {
    if k + 1 < n { NotificationAt(events, n - 1, k); }
  }

  /** Where the outstanding message is: there is none; with the output handler; written, or dropped as
      the client is gone, and to be reported; or its write failed. */
  datatype Place = Idle | AtOutput | AtReport | Nowhere

  /** How many messages are pending, where the outstanding one is, and whether the client is gone. */
  datatype Gauge = Gauge(pending: nat, place: Place, gone: bool)

  function Sent(gone: bool): Place { if gone then AtReport else AtOutput }

  function Moved(g: Gauge, e: ClientEvent): Gauge {
    match e
    case Queued(_) =>
      if g.place == Idle then g.(place := Sent(g.gone)) else g.(pending := g.pending + 1)
    case Written(ok) =>
      if g.place != AtOutput then g else if ok then g.(place := AtReport) else g.(place := Nowhere, gone := true)
    case SentReceived =>
      if g.place != AtReport then g
      else if g.pending == 0 then g.(place := Idle) else g.(pending := g.pending - 1, place := Sent(g.gone))
    case Disconnects => g.(gone := true)
    case Leaves => g
  }

  function MovedAll(g: Gauge, events: seq<ClientEvent>, n: nat): Gauge
    requires n <= |events|
  {
    if n == 0 then g else Moved(MovedAll(g, events, n - 1), events[n - 1])
  }

  /** In the events of k rounds the output handler writes a message and its report is received. */
  ghost predicate Rounds(events: seq<ClientEvent>, k: nat) {
    2 * k <= |events| && forall i :: 0 <= i < k ==> events[2 * i] == Written(true) && events[2 * i + 1] == SentReceived
  }

  /** Nothing gets stuck: unless a write failed, each round takes one message, until none is left. */
  lemma {:induction false} RoundsDrain(g: Gauge, events: seq<ClientEvent>, k: nat)
    requires Rounds(events, k) && g.place != Nowhere && (g.place == Idle ==> g.pending == 0)
    ensures var g' := MovedAll(g, events, 2 * k);
      && g'.place != Nowhere && g'.pending == (if k < g.pending then g.pending - k else 0)
      && (g'.place == Idle <==> g.place == Idle || g.pending < k)
  {
    if 0 < k {
      RoundsDrain(g, events, k - 1);
      assert events[2 * (k - 1)] == Written(true) && events[2 * (k - 1) + 1] == SentReceived;
      assert MovedAll(g, events, 2 * k) == Moved(MovedAll(g, events, 2 * k - 1), events[2 * k - 1]);
    }
  }

  /** notificationQueueHandler together with the output handler that it hands messages to. */
  class NotificationQueue {
    var pending: seq<int>
    var waiting: bool
    var disconnected: bool
    /** Messages handed to the output handler and not yet written, and reports not yet received: the
        done channel has room for one. */
    var sendChan: seq<int>
    var sentReports: nat
    var stopped: bool
    ghost var received: seq<int>
    ghost var handedOn: seq<int>
    /** The output handler ended with a failed write, and the report of that message never comes. */
    ghost var broken: bool

    constructor ()
      ensures Valid() && received == [] && handedOn == [] && !stopped && !broken
    {
      pending, waiting, disconnected, sendChan, sentReports, stopped := [], false, false, [], 0, false;
      received, handedOn, broken := [], [], false;
    }

    /** What was handed on and what is pending is what was received, in order; one notification is
        outstanding exactly while the handler waits, as a message or as a report, unless its write
        failed: then the client is disconnected, and the handler waits for good. */
    ghost predicate Valid()
      reads this
    {
      && received == handedOn + pending
      && (!waiting ==> pending == [])
      && |sendChan| + sentReports == (if waiting && !broken then 1 else 0)
      && (broken ==> waiting && disconnected)
    }

    ghost function Reading(): Gauge
      reads this
    {
      var place :=
        if broken then Nowhere else if !waiting then Idle else if sentReports == 0 then AtOutput else AtReport;
      Gauge(|pending|, place, disconnected)
    }

    /** A message to the output handler. If the client is gone the report comes at once: there is room. */
    method SendMessage(msg: int)
      requires sentReports == 0
      modifies this`sendChan, this`sentReports, this`handedOn
      ensures handedOn == old(handedOn) + [msg] && |sendChan| + sentReports == |old(sendChan)| + 1 && sentReports <= 1
      ensures sentReports == if disconnected then 1 else 0
    {
      handedOn := handedOn + [msg];
      if disconnected {
        sentReports := sentReports + 1;
      } else {
        sendChan := sendChan + [msg];
      }
    }

    /** The output handler writes a message and reports it: there is room for the report. A failed
        write disconnects the client and is not reported. */
    method OutHandler(ok: bool)
      requires Valid()
      modifies this`sendChan, this`sentReports, this`disconnected, this`broken
      ensures Valid() && sendChan == [] && sentReports <= 1
      ensures sentReports == old(sentReports) + if old(sendChan) != [] && ok then 1 else 0
      ensures broken <==> old(broken) || (old(sendChan) != [] && !ok)
      ensures disconnected <==> old(disconnected) || (old(sendChan) != [] && !ok)
    {
      if |sendChan| > 0 {
        sendChan := sendChan[1..];
        if !ok {
          disconnected := true;
          broken := true;
          return;
        }
        sentReports := sentReports + 1;
      }
    }

    method Handle(e: ClientEvent)
      requires Valid() && !stopped
      modifies this
      ensures Valid()
      ensures received == TakeIn(old(received), e)
      ensures handedOn == if e.Queued? && !old(waiting) then old(handedOn) + [e.msg]
                          else if e.SentReceived? && 0 < old(sentReports) && old(pending) != []
                          then old(handedOn) + [old(pending)[0]] else old(handedOn)
      ensures stopped <==> e.Leaves?
      ensures broken <==> old(broken) || (e.Written? && !e.ok && old(sendChan) != [])
      ensures old(broken) ==> handedOn == old(handedOn)
      ensures Reading() == Moved(old(Reading()), e)
    {
      match e {
        case Queued(msg) =>
          received := received + [msg];
          if !waiting {
            SendMessage(msg);
          } else {
            pending := pending + [msg];
          }
          waiting := true;
        case Written(ok) => OutHandler(ok);
        case SentReceived =>
          if sentReports > 0 {
            sentReports := sentReports - 1;
            if |pending| == 0 {
              waiting := false;
            } else {
              var msg := pending[0];
              pending := pending[1..];
              SendMessage(msg);
            }
          }
        case Disconnects => disconnected := true;
        case Leaves => stopped := true;
      }
    }

    /** Over any run of events, until the client leaves: everything queued before is received, and
        handed on as what was handed on before is written and reported. */
    method NotificationQueueHandler(events: seq<ClientEvent>)
      requires Valid() && !stopped
      modifies this
      ensures Valid() && old(handedOn) <= handedOn
      ensures received == old(received) + Notifications(events, LeaveFrom(events, 0))
      ensures stopped <==> LeaveFrom(events, 0) < |events|
      ensures old(broken) ==> broken && handedOn == old(handedOn)
      ensures (forall e :: e in events ==> e != Written(false)) ==> broken == old(broken)
      ensures Reading() == MovedAll(old(Reading()), events, LeaveFrom(events, 0))
    {
      ghost var fine := forall e :: e in events ==> e != Written(false);
      var i := 0;
      while i < |events| && !stopped
        invariant 0 <= i <= |events| && Valid() && old(handedOn) <= handedOn
        invariant !stopped ==> LeaveFrom(events, 0) == LeaveFrom(events, i)
        invariant stopped ==> 0 < i && LeaveFrom(events, 0) == i - 1
        invariant received == TakeInAll(old(received), events, i)
        invariant Reading() == MovedAll(old(Reading()), events, i)
        invariant old(broken) ==> broken && handedOn == old(handedOn)
        invariant fine ==> broken == old(broken)
      {
        assert events[i] in events;
        Handle(events[i]);
        i := i + 1;
      }
      TakeInIs(old(received), events, LeaveFrom(events, 0));
    }
  }
}
