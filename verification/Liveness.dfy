/** Why a client that waits for a long batch does not time out: the heartbeats of the server's waiting loop
    (gateway/server.py) against the read timeout of the client (gateway/client.py). Times are whole ticks,
    fine enough that half the timeout is one. */
module Liveness {

  import opened VirtualTime

  /** min(1 second, timeout / 2), for the timeout the client sent in its handshake. */
  function BeatInterval(second: nat, timeout: nat): nat {
    if second < timeout / 2 then second else timeout / 2
  }

  lemma BeatIntervalIsSmaller(second: nat, timeout: nat)
    ensures BeatInterval(second, timeout) <= second && 2 * BeatInterval(second, timeout) <= timeout
    ensures BeatInterval(second, timeout) in {second, timeout / 2}
    ensures second > 0 && timeout > 1 ==> BeatInterval(second, timeout) > 0
  {
  }

  /** When the server sends something for a request it has had since `now`: a heartbeat whenever a wait of
      one interval is over, and the answer when the batch is done. The k-th wake-up comes late by late(k). */
  function SentAt(now: int, k: nat, interval: nat, late: nat -> nat, doneAt: int): (sent: seq<int>)
    requires interval > 0
    ensures sent != []
    decreases doneAt - now
  {
    if doneAt <= now + interval then [Later(now, doneAt) + late(k)]
    else [now + interval + late(k)] + SentAt(now + interval + late(k), k + 1, interval, late, doneAt)
  }

  /** The waiting loop of execute: beat until the batch is done, then answer. */
  method AwaitDone(arrived: int, interval: nat, late: nat -> nat, doneAt: int) returns (sent: seq<int>)
    requires interval > 0
    ensures sent == SentAt(arrived, 0, interval, late, doneAt)
  {
    var now, k := arrived, 0;
    sent := [];
    while doneAt > now + interval
      invariant sent + SentAt(now, k, interval, late, doneAt) == SentAt(arrived, 0, interval, late, doneAt)
      decreases doneAt - now
    {
      now := now + interval + late(k);
      k := k + 1;
      sent := sent + [now];
    }
    sent := sent + [Later(now, doneAt) + late(k)];
  }

  /** One request: sent at start, on its way for request ticks; the server's wake-ups are late by late(k),
      the batch is done at doneAt, however long it queued and ran, and the messages reach the client at
      arrivals. */
  datatype Wait = Wait(start: int, request: nat, late: nat -> nat, doneAt: int, arrivals: seq<int>)

  function Sent(w: Wait, interval: nat): seq<int>
    requires interval > 0
  {
    SentAt(w.start + w.request, 0, interval, w.late, w.doneAt)
  }

  /** What may go slow, and how slow: the request, each wake-up, each message back. */
  datatype Bounds = Bounds(request: nat, late: nat, reply: nat)

  ghost predicate Within(w: Wait, b: Bounds, interval: nat)
    requires interval > 0
  {
    && w.request <= b.request
    && (forall k :: w.late(k) <= b.late)
    && Carried(Sent(w, interval), w.arrivals, b.reply)
  }

  /** A channel that delivers each message within the given delay, in order. */
  ghost predicate Carried(sent: seq<int>, arrivals: seq<int>, delay: nat) {
    && |arrivals| == |sent|
    && (forall i :: 0 <= i < |sent| ==> sent[i] <= arrivals[i] <= sent[i] + delay)
    && (forall i, j :: 0 <= i < j < |arrivals| ==> arrivals[i] <= arrivals[j])
  }

  /** The client never waits for its whole timeout: from its request to the first message, and from each
      message to the next. */
  ghost predicate NeverSilent(start: int, arrivals: seq<int>, timeout: nat) {
    && (arrivals != [] ==> arrivals[0] < start + timeout)
    && (forall i, j :: 0 <= i && j == i + 1 && j < |arrivals| ==> arrivals[j] < arrivals[i] + timeout)
  }

  ghost predicate Paced(now: int, sent: seq<int>, gap: nat) {
    && (sent != [] ==> sent[0] <= now + gap)
    && (forall i, j :: 0 <= i && j == i + 1 && j < |sent| ==> sent[j] <= sent[i] + gap)
  }

  /** The server sends something at least once per interval and lateness, for as long as the batch takes. */
  lemma {:induction false} ServerKeepsPace(now: int, k: nat, interval: nat, late: nat -> nat, doneAt: int, bound: nat)
    requires interval > 0 && forall i :: late(i) <= bound
    ensures Paced(now, SentAt(now, k, interval, late, doneAt), interval + bound)
    decreases doneAt - now
  {
    if doneAt > now + interval {
      var next := now + interval + late(k);
      ServerKeepsPace(next, k + 1, interval, late, doneAt, bound);
      var rest := SentAt(next, k + 1, interval, late, doneAt);
      assert Paced(now, [next] + rest, interval + bound);
    }
  }

  lemma PacedIsHeard(start: int, request: nat, sent: seq<int>, arrivals: seq<int>, gap: nat, delay: nat, timeout: nat)
    requires Paced(start + request, sent, gap) && Carried(sent, arrivals, delay)
    requires request + gap + delay < timeout
    ensures NeverSilent(start, arrivals, timeout)
  {
  }

  /** As slow as the bounds allow, with a batch that takes longer than one interval. */
  function SlowestWait(b: Bounds, interval: nat): Wait
    requires interval > 0
  {
    var late := (k: nat) => b.late;
    var w := Wait(0, b.request, late, b.request + interval + 1, []);
    var sent := Sent(w, interval);
    w.(arrivals := seq(|sent|, i requires 0 <= i < |sent| => sent[i] + b.reply))
  }

  lemma {:induction false} SentIsOrdered(now: int, k: nat, interval: nat, late: nat -> nat, doneAt: int)
    requires interval > 0
    ensures forall i :: 0 <= i < |SentAt(now, k, interval, late, doneAt)| ==> now <= SentAt(now, k, interval, late, doneAt)[i]
    ensures forall i, j :: 0 <= i < j < |SentAt(now, k, interval, late, doneAt)| ==>
      SentAt(now, k, interval, late, doneAt)[i] <= SentAt(now, k, interval, late, doneAt)[j]
    decreases doneAt - now
  {
    if doneAt > now + interval {
      SentIsOrdered(now + interval + late(k), k + 1, interval, late, doneAt);
    }
  }

  lemma SlowestIsWithin(b: Bounds, interval: nat)
    requires interval > 0
    ensures Within(SlowestWait(b, interval), b, interval)
    ensures SlowestWait(b, interval).arrivals[0] == b.request + interval + b.late + b.reply
  {
    var w := SlowestWait(b, interval);
    SentIsOrdered(w.start + w.request, 0, interval, w.late, w.doneAt);
  }

  /** However long the queue and the batch: no client ever times out if and only if the slowest request,
      wake-up and reply together leave room for one interval within the timeout. */
  lemma HeartbeatsPreventTimeouts(b: Bounds, interval: nat, timeout: nat)
    requires interval > 0
    ensures (forall w: Wait :: Within(w, b, interval) ==> NeverSilent(w.start, w.arrivals, timeout))
      <==> b.request + interval + b.late + b.reply < timeout
  {
    if b.request + interval + b.late + b.reply < timeout {
      forall w: Wait | Within(w, b, interval)
        ensures NeverSilent(w.start, w.arrivals, timeout)
      {
        ServerKeepsPace(w.start + w.request, 0, interval, w.late, w.doneAt, b.late);
        PacedIsHeard(w.start, w.request, Sent(w, interval), w.arrivals, interval + b.late, b.reply, timeout);
      }
    } else {
      SlowestIsWithin(b, interval);
      assert Within(SlowestWait(b, interval), b, interval);
    }
  }

  /** The server's own choice of the interval: it is enough that a round trip, the lateness of a wake-up
      included, stays below half the timeout. */
  lemma HalfTheTimeoutIsEnough(b: Bounds, second: nat, timeout: nat, w: Wait)
    requires second > 0 && timeout > 1 && b.request + b.late + b.reply < timeout - timeout / 2
    requires Within(w, b, BeatInterval(second, timeout))
    ensures NeverSilent(w.start, w.arrivals, timeout)
  {
    HeartbeatsPreventTimeouts(b, BeatInterval(second, timeout), timeout);
  }
}
