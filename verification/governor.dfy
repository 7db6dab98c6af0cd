/**
 The client-side request governor of the API service: a counter of
 admitted requests, a FIFO queue of deferred requests and one release
 timer per admission.

 JavaScript callbacks run to completion on one thread, so the governor is
 a discrete-event state machine. Its events are the arrival of a request
 at the request interceptor, the firing of the earliest release timer, and
 the passing of time with nothing due. The state also records every
 dispatch (a call of the deferred `resolve(config)`), with the clock
 reading at which it happened, so that ordering and rate properties can
 be stated about it.
 */
module RequestGovernor {

  /** `MAX_REQUESTS`. */
  const MaxRequests: int := 10
  /** `TIME_WINDOW`, in milliseconds. */
  const TimeWindow: int := 60000
  /** Every admission schedules its own release after
      `TIME_WINDOW / MAX_REQUESTS` milliseconds. */
  const ReleaseDelay: int := TimeWindow / MaxRequests

  /** Identifies one request (its axios config). */
  type RequestId = nat

  /** A request that went out to the transport, and when. */
  datatype Dispatch = Dispatch(id: RequestId, at: int)

  datatype Governor = Governor(
    now: int,                  // clock, in milliseconds
    count: int,                // `requestCount`
    queue: seq<RequestId>,     // `requestQueue`, head first
    pending: seq<int>,         // deadlines of scheduled release timers, in firing order
    dispatched: seq<Dispatch>  // every dispatch so far, oldest first
  )

  datatype Event =
    | Arrive(id: RequestId)  // the request interceptor runs for a request
    | Release                // the earliest release timer fires
    | Wait(until: int)       // the clock advances with no timer due before `until`

  /** Module state at load time. */
  const Initial: Governor := Governor(0, 0, [], [], [])

  /** Request ids in dispatch order. */
  function Ids(d: seq<Dispatch>): seq<RequestId> {
    if |d| == 0 then [] else Ids(d[..|d| - 1]) + [d[|d| - 1].id]
  }

  /** The ids a single event submits to the interceptor. */
  function Submitted(e: Event): seq<RequestId> {
    if e.Arrive? then [e.id] else []
  }

  /** Admission: increment the counter, run the request and schedule the
      one release that belongs to it. */
  function Admit(g: Governor, id: RequestId): Governor {
    g.(count := g.count + 1,
       dispatched := g.dispatched + [Dispatch(id, g.now)],
       pending := g.pending + [g.now + ReleaseDelay])
  }

  /** `processQueue`: dispatches the head of the queue if there is one and
      the counter is below the ceiling; otherwise changes nothing. */
  function ProcessQueue(g: Governor): (r: Governor)
    ensures |g.queue| == 0 || g.count >= MaxRequests ==> r == g
    ensures |g.queue| > 0 && g.count < MaxRequests ==>
              && r.count == g.count + 1
              && r.queue == g.queue[1..]
              && r.dispatched == g.dispatched + [Dispatch(g.queue[0], g.now)]
              && r.pending == g.pending + [g.now + ReleaseDelay]
    ensures Ids(r.dispatched) + r.queue == Ids(g.dispatched) + g.queue
  {
    if |g.queue| > 0 && g.count < MaxRequests then
      assert g.queue == [g.queue[0]] + g.queue[1..];
      Admit(g.(queue := g.queue[1..]), g.queue[0])
    else g
  }

  /** The request interceptor: admit at once below the ceiling, otherwise
      push the request's `executeRequest` onto the tail of the queue. */
  function OnArrive(g: Governor, id: RequestId): (r: Governor)
    ensures |r.dispatched| == |g.dispatched| + 1 <==> g.count < MaxRequests
    ensures r.now == g.now
    ensures g.count < MaxRequests ==>
              && r.dispatched == g.dispatched + [Dispatch(id, g.now)]
              && r.count == g.count + 1
              && r.queue == g.queue
              && r.pending == g.pending + [g.now + ReleaseDelay]
    ensures g.count >= MaxRequests ==>
              && r.dispatched == g.dispatched
              && r.count == g.count
              && r.queue == g.queue + [id]
              && r.pending == g.pending
    ensures g.dispatched <= r.dispatched
    ensures |r.pending| - |g.pending| == |r.dispatched| - |g.dispatched|
    ensures (|g.queue| > 0 ==> g.count >= MaxRequests) ==>
              Ids(r.dispatched) + r.queue == Ids(g.dispatched) + g.queue + [id]
  {
    if g.count < MaxRequests then Admit(g, id) else g.(queue := g.queue + [id])
  }

  /** A release timer fires: the clock moves to its deadline, the counter
      is decremented and `processQueue` runs. With no timer scheduled there
      is nothing to fire and the state is unchanged. */
  function OnRelease(g: Governor): (r: Governor)
    ensures |g.pending| == 0 ==> r == g
    ensures |g.pending| > 0 ==> r.now == g.pending[0]
    ensures |g.pending| > 0 && |g.queue| == 0 ==>
              && r.count == g.count - 1
              && r.dispatched == g.dispatched
              && r.queue == g.queue
              && r.pending == g.pending[1..]
    ensures |g.pending| > 0 && |g.queue| > 0 && g.count <= MaxRequests ==>
              && r.count == g.count
              && r.queue == g.queue[1..]
              && r.dispatched == g.dispatched + [Dispatch(g.queue[0], g.pending[0])]
              && r.pending == g.pending[1..] + [g.pending[0] + ReleaseDelay]
    ensures g.dispatched <= r.dispatched && |r.dispatched| <= |g.dispatched| + 1
    ensures |g.pending| > 0 ==> |r.pending| == |g.pending| - 1 + (|r.dispatched| - |g.dispatched|)
    ensures Ids(r.dispatched) + r.queue == Ids(g.dispatched) + g.queue
  {
    if |g.pending| == 0 then g else ProcessQueue(Fire(g))
  }

  /** The earliest release timer fires: the clock moves to its deadline and
      the counter is decremented. */
  function Fire(g: Governor): Governor
    requires |g.pending| > 0
  {
    g.(now := g.pending[0], pending := g.pending[1..], count := g.count - 1)
  }

  /** Time passes with nothing happening; only possible up to the next
      release deadline, and never backwards. */
  function OnWait(g: Governor, until: int): (r: Governor)
    ensures r.count == g.count && r.queue == g.queue && r.pending == g.pending
    ensures r.dispatched == g.dispatched
    ensures g.now <= r.now
    ensures |g.pending| > 0 ==> r.now <= g.pending[0] || r.now == g.now
    ensures g.now <= until && (|g.pending| == 0 || until <= g.pending[0]) ==> r.now == until
    ensures !(g.now <= until && (|g.pending| == 0 || until <= g.pending[0])) ==> r == g
  {
    if g.now <= until && (|g.pending| == 0 || until <= g.pending[0]) then g.(now := until) else g
  }

  function Step(g: Governor, e: Event): (r: Governor)
    ensures (|g.queue| > 0 ==> g.count >= MaxRequests) ==>
              Ids(r.dispatched) + r.queue == Ids(g.dispatched) + g.queue + Submitted(e)
    ensures g.dispatched <= r.dispatched && |r.dispatched| <= |g.dispatched| + 1
  {
    match e
    case Arrive(id) => OnArrive(g, id)
    case Release => OnRelease(g)
    case Wait(t) => OnWait(g, t)
  }

  /** The state after a sequence of events from the initial state. */
  function Run(evs: seq<Event>): Governor {
    if |evs| == 0 then Initial else Step(Run(evs[..|evs| - 1]), evs[|evs| - 1])
  }

  /** Every request id submitted by a sequence of events, in order. */
  function Arrivals(evs: seq<Event>): seq<RequestId> {
    if |evs| == 0 then [] else Arrivals(evs[..|evs| - 1]) + Submitted(evs[|evs| - 1])
  }

  // ---------------------------------------------------------------------
  // Invariant

  /** Dispatch times never decrease. */
  ghost predicate TimesSorted(d: seq<Dispatch>) {
    forall i :: 0 < i < |d| ==> d[i - 1].at <= d[i].at
  }

  /** No dispatch lies in the future. */
  ghost predicate Past(d: seq<Dispatch>, now: int) {
    forall i :: 0 <= i < |d| ==> d[i].at <= now
  }

  /** The pending deadlines are the releases of the latest `|pending|`
      dispatches, each `ReleaseDelay` after its own dispatch. */
  ghost predicate Paired(pending: seq<int>, d: seq<Dispatch>) {
    && |pending| <= |d|
    && forall k :: 0 <= k < |pending| ==> pending[k] == d[|d| - |pending| + k].at + ReleaseDelay
  }

  /** The releases of all earlier dispatches are due, hence have fired. */
  ghost predicate Fired(pending: seq<int>, d: seq<Dispatch>, now: int) {
    forall i :: 0 <= i < |d| - |pending| ==> d[i].at + ReleaseDelay <= now
  }

  /** No scheduled release is overdue. */
  ghost predicate NoneOverdue(pending: seq<int>, now: int) {
    |pending| > 0 ==> now <= pending[0]
  }

  /** The timer bookkeeping of every reachable state: one pending release
      per admitted, unreleased request. */
  ghost predicate Timers(g: Governor) {
    && g.count == |g.pending|
    && TimesSorted(g.dispatched)
    && Past(g.dispatched, g.now)
    && Paired(g.pending, g.dispatched)
    && Fired(g.pending, g.dispatched, g.now)
    && NoneOverdue(g.pending, g.now)
  }

  /** The reachable states: the counter within its bounds, the timers
      consistent with the dispatches, and a queue only at the ceiling. */
  ghost predicate Inv(g: Governor) {
    && 0 <= g.count <= MaxRequests
    && Timers(g)
    && (|g.queue| > 0 ==> g.count == MaxRequests)
  }

  lemma InitialInv()
    ensures Inv(Initial)
  {
  }

  lemma SortedAppend(d: seq<Dispatch>, x: Dispatch)
    requires TimesSorted(d) && Past(d, x.at)
    ensures TimesSorted(d + [x])
  {
  }

  lemma PairedAppend(pending: seq<int>, d: seq<Dispatch>, x: Dispatch)
    requires Paired(pending, d)
    ensures Paired(pending + [x.at + ReleaseDelay], d + [x])
  {
    var p', d' := pending + [x.at + ReleaseDelay], d + [x];
    forall k | 0 <= k < |p'|
      ensures p'[k] == d'[|d'| - |p'| + k].at + ReleaseDelay
    {
      if k < |pending| {
        assert p'[k] == pending[k];
        assert d'[|d'| - |p'| + k] == d[|d| - |pending| + k];
      }
    }
  }

  lemma FiredAppend(pending: seq<int>, d: seq<Dispatch>, now: int, t: int, x: Dispatch)
    requires Fired(pending, d, now)
    ensures Fired(pending + [t], d + [x], now)
  {
    forall i | 0 <= i < |d + [x]| - |pending + [t]|
      ensures (d + [x])[i].at + ReleaseDelay <= now
    {
      assert (d + [x])[i] == d[i];
    }
  }

  lemma AdmitKeepsTimers(g: Governor, id: RequestId)
    requires Timers(g)
    ensures Timers(Admit(g, id))
  {
    var x := Dispatch(id, g.now);
    SortedAppend(g.dispatched, x);
    PairedAppend(g.pending, g.dispatched, x);
    FiredAppend(g.pending, g.dispatched, g.now, g.now + ReleaseDelay, x);
  }

  lemma FireKeepsPaired(pending: seq<int>, d: seq<Dispatch>)
    requires Paired(pending, d) && |pending| > 0
    ensures Paired(pending[1..], d)
  {
    forall k | 0 <= k < |pending| - 1
      ensures pending[1..][k] == d[|d| - (|pending| - 1) + k].at + ReleaseDelay
    {
      assert pending[1..][k] == pending[k + 1];
    }
  }

  lemma FireKeepsFired(pending: seq<int>, d: seq<Dispatch>, now: int)
    requires Paired(pending, d) && Fired(pending, d, now) && NoneOverdue(pending, now)
    requires |pending| > 0
    ensures Fired(pending[1..], d, pending[0])
  {
    var f := |d| - |pending|;
    assert pending[0] == d[f].at + ReleaseDelay;
  }

  lemma FireKeepsNoneOverdue(pending: seq<int>, d: seq<Dispatch>)
    requires Paired(pending, d) && TimesSorted(d) && |pending| > 0
    ensures NoneOverdue(pending[1..], pending[0])
  {
    if |pending| > 1 {
      var f := |d| - |pending|;
      assert pending[0] == d[f].at + ReleaseDelay;
      assert pending[1] == d[f + 1].at + ReleaseDelay;
    }
  }

  lemma FireKeepsTimers(g: Governor)
    requires Timers(g) && |g.pending| > 0
    ensures Timers(Fire(g))
  {
    FireKeepsPaired(g.pending, g.dispatched);
    FireKeepsFired(g.pending, g.dispatched, g.now);
    FireKeepsNoneOverdue(g.pending, g.dispatched);
  }

  lemma ArrivePreservesInv(g: Governor, id: RequestId)
    requires Inv(g)
    ensures Inv(OnArrive(g, id))
  {
    if g.count < MaxRequests {
      AdmitKeepsTimers(g, id);
    }
  }

  lemma ReleasePreservesInv(g: Governor)
    requires Inv(g)
    ensures Inv(OnRelease(g))
  {
    if |g.pending| > 0 {
      var h := Fire(g);
      FireKeepsTimers(g);
      if |h.queue| > 0 && h.count < MaxRequests {
        AdmitKeepsTimers(h.(queue := h.queue[1..]), h.queue[0]);
      }
    }
  }

  lemma StepPreservesInv(g: Governor, e: Event)
    requires Inv(g)
    ensures Inv(Step(g, e))
  {
    match e
    case Arrive(id) => ArrivePreservesInv(g, id);
    case Release => ReleasePreservesInv(g);
    case Wait(t) =>
  }

  /** Every state reachable from the initial one satisfies the invariant. */
  lemma {:induction false} RunInv(evs: seq<Event>)
    ensures Inv(Run(evs))
  {
    if |evs| > 0 {
      RunInv(evs[..|evs| - 1]);
      StepPreservesInv(Run(evs[..|evs| - 1]), evs[|evs| - 1]);
    }
  }

  /** The counter stays within `0..MaxRequests` and equals the number of
      release timers still pending: one per admission not yet released. */
  lemma CountBounds(evs: seq<Event>)
    ensures 0 <= Run(evs).count <= MaxRequests
    ensures Run(evs).count == |Run(evs).pending|
  {
    RunInv(evs);
  }

  /** Whenever requests wait in the queue the counter is at the ceiling, so
      a new arrival cannot be admitted ahead of them. */
  lemma QueuedOnlyWhenFull(evs: seq<Event>, id: RequestId)
    ensures |Run(evs).queue| > 0 ==> Run(evs).count == MaxRequests
    ensures |Run(evs).queue| > 0 ==>
              && OnArrive(Run(evs), id).dispatched == Run(evs).dispatched
              && OnArrive(Run(evs), id).queue == Run(evs).queue + [id]
  {
    RunInv(evs);
  }

  /** FIFO: the dispatched requests followed by the queued ones are exactly
      the submitted requests, in submission order. */
  lemma {:induction false} Fifo(evs: seq<Event>)
    ensures Ids(Run(evs).dispatched) + Run(evs).queue == Arrivals(evs)
  {
    if |evs| > 0 {
      Fifo(evs[..|evs| - 1]);
      RunInv(evs[..|evs| - 1]);
    }
  }

  /** Consequently the dispatch order is a prefix of the submission order:
      no request overtakes an earlier one. */
  lemma DispatchOrderIsSubmissionOrder(evs: seq<Event>)
    ensures Ids(Run(evs).dispatched) <= Arrivals(evs)
    ensures |Run(evs).dispatched| <= |Arrivals(evs)|
    ensures Run(evs).queue == Arrivals(evs)[|Run(evs).dispatched|..]
  {
    Fifo(evs);
    IdsLength(Run(evs).dispatched);
  }

  lemma {:induction false} IdsLength(d: seq<Dispatch>)
    ensures |Ids(d)| == |d|
  {
    if |d| > 0 {
      IdsLength(d[..|d| - 1]);
    }
  }

  // ---------------------------------------------------------------------
  // Rate

  /** Number of dispatches strictly after time `t`. */
  function CountAfter(d: seq<Dispatch>, t: int): nat {
    if |d| == 0 then 0
    else CountAfter(d[..|d| - 1], t) + (if d[|d| - 1].at > t then 1 else 0)
  }

  lemma {:induction false} CountAfterBound(d: seq<Dispatch>, t: int, f: nat)
    requires f <= |d|
    requires forall i :: 0 <= i < f ==> d[i].at <= t
    ensures CountAfter(d, t) <= |d| - f
  {
    if |d| > 0 {
      if |d| - 1 >= f {
        CountAfterBound(d[..|d| - 1], t, f);
      } else {
        CountAfterBound(d[..|d| - 1], t, f - 1);
      }
    }
  }

  /** In a state satisfying the invariant, every dispatch older than
      `ReleaseDelay` has been released, so the recent ones are among the
      `count` unreleased ones. */
  lemma RecentDispatchesAreUnreleased(g: Governor)
    requires Inv(g)
    ensures CountAfter(g.dispatched, g.now - ReleaseDelay) <= g.count
  {
    var f := |g.dispatched| - |g.pending|;
    assert forall i :: 0 <= i < f ==> g.dispatched[i].at <= g.now - ReleaseDelay;
    CountAfterBound(g.dispatched, g.now - ReleaseDelay, f);
  }

  /** In every reachable state at most `MaxRequests` dispatches happened
      within the last `ReleaseDelay` milliseconds. */
  lemma RecentDispatchesBounded(evs: seq<Event>)
    ensures CountAfter(Run(evs).dispatched, Run(evs).now - ReleaseDelay) <= MaxRequests
  {
    RunInv(evs);
    RecentDispatchesAreUnreleased(Run(evs));
  }
}
