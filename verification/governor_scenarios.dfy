/**
 Bursts of simultaneous requests run through the request governor: what
 is admitted at once, what waits, and when the waiting requests go out.
 */
module GovernorScenarios {
  import opened RequestGovernor

  /** `n` requests submitted at the same instant, with ids `0..n-1`. */
  function Burst(n: nat): seq<Event> {
    seq(n, i requires 0 <= i < n => Arrive(i))
  }

  /** `k` release timers firing one after the other. */
  function Releases(k: nat): seq<Event> {
    seq(k, _ => Release)
  }

  /** The ids `lo..hi-1`, ascending. */
  function Range(lo: int, hi: int): seq<int>
    requires lo <= hi
  {
    seq(hi - lo, j => lo + j)
  }

  function Min(a: int, b: int): int {
    if a < b then a else b
  }

  /** The state after a burst of `n` requests at time 0. */
  ghost predicate Admitted(g: Governor, n: nat) {
    && g.now == 0
    && g.count == Min(n, MaxRequests)
    && |g.dispatched| == Min(n, MaxRequests)
    && (forall i :: 0 <= i < Min(n, MaxRequests) ==> g.dispatched[i] == Dispatch(i, 0))
    && g.queue == Range(Min(n, MaxRequests), n)
    && g.pending == seq(Min(n, MaxRequests), _ => ReleaseDelay)
  }

  lemma AdmitStep(g: Governor, n: nat)
    requires n > 0 && Admitted(g, n - 1)
    ensures Admitted(OnArrive(g, n - 1), n)
  {
    var r := OnArrive(g, n - 1);
    if n <= MaxRequests {
      assert r.pending == g.pending + [ReleaseDelay];
      assert r.dispatched == g.dispatched + [Dispatch(n - 1, 0)];
    } else {
      assert r.queue == g.queue + [n - 1];
    }
  }

  /** A burst of `n` requests at time 0: the first `min(n, 10)` are
      dispatched at once, each with its release due at 6000 ms, and the
      rest wait in the queue in submission order. */
  lemma {:induction false} BurstAdmission(n: nat)
    ensures Run(Burst(n)).now == 0
    ensures Run(Burst(n)).count == Min(n, MaxRequests)
    ensures |Run(Burst(n)).dispatched| == Min(n, MaxRequests)
    ensures forall i :: 0 <= i < Min(n, MaxRequests) ==> Run(Burst(n)).dispatched[i] == Dispatch(i, 0)
    ensures Run(Burst(n)).queue == Range(Min(n, MaxRequests), n)
    ensures Run(Burst(n)).pending == seq(Min(n, MaxRequests), _ => ReleaseDelay)
  {
    BurstAdmitted(n);
  }

  lemma {:induction false} BurstAdmitted(n: nat)
    ensures Admitted(Run(Burst(n)), n)
  {
    if n > 0 {
      assert Burst(n)[..n - 1] == Burst(n - 1);
      assert Run(Burst(n)) == OnArrive(Run(Burst(n - 1)), n - 1);
      BurstAdmitted(n - 1);
      AdmitStep(Run(Burst(n - 1)), n);
    }
  }

  /** At most ten simultaneous requests are all dispatched immediately and
      nothing is queued. */
  lemma SmallBurstNeverQueues(n: nat)
    requires n <= MaxRequests
    ensures Run(Burst(n)).queue == []
    ensures Ids(Run(Burst(n)).dispatched) == Range(0, n)
  {
    BurstAdmission(n);
    Fifo(Burst(n));
    ArrivalsOfBurst(n);
  }

  lemma {:induction false} ArrivalsOfBurst(n: nat)
    ensures Arrivals(Burst(n)) == Range(0, n)
  {
    if n > 0 {
      assert Burst(n)[..n - 1] == Burst(n - 1);
      ArrivalsOfBurst(n - 1);
    }
  }

  /** The state after a burst of `n` requests and `k` releases. */
  ghost predicate Drained(g: Governor, n: nat, k: nat)
    requires MaxRequests + k <= n && k <= MaxRequests
  {
    && g.now == (if k == 0 then 0 else ReleaseDelay)
    && g.count == MaxRequests
    && |g.dispatched| == MaxRequests + k
    && (forall i :: 0 <= i < MaxRequests ==> g.dispatched[i] == Dispatch(i, 0))
    && (forall i :: MaxRequests <= i < MaxRequests + k ==> g.dispatched[i] == Dispatch(i, ReleaseDelay))
    && g.queue == Range(MaxRequests + k, n)
    && g.pending == seq(MaxRequests - k, _ => ReleaseDelay) + seq(k, _ => 2 * ReleaseDelay)
  }

  lemma DrainStep(g: Governor, n: nat, k: nat)
    requires MaxRequests + k <= n && 0 < k <= MaxRequests
    requires Drained(g, n, k - 1)
    ensures Drained(OnRelease(g), n, k)
  {
    assert g.pending[0] == ReleaseDelay;
    assert g.queue[0] == MaxRequests + k - 1;
    var r := OnRelease(g);
    assert r.pending == g.pending[1..] + [ReleaseDelay + ReleaseDelay];
    assert r.queue == g.queue[1..];
  }

  /** After a burst of `n > 10` requests at time 0, the first `k` release
      timers all fire at 6000 ms; each frees one slot that the head of the
      queue takes at once, also at 6000 ms, with its own release due at
      12000 ms. */
  lemma {:induction false} DrainAfterBurst(n: nat, k: nat)
    requires MaxRequests + k <= n && k <= MaxRequests
    ensures Drained(Run(Burst(n) + Releases(k)), n, k)
  {
    if k == 0 {
      assert Burst(n) + Releases(0) == Burst(n);
      BurstAdmitted(n);
      FullBurstDrained(Run(Burst(n)), n);
    } else {
      var prev := Burst(n) + Releases(k - 1);
      assert Burst(n) + Releases(k) == prev + [Release];
      RunSnoc(prev, Release);
      DrainAfterBurst(n, k - 1);
      DrainStep(Run(prev), n, k);
    }
  }

  /** Running one more event is one more step. */
  lemma RunSnoc(evs: seq<Event>, e: Event)
    ensures Run(evs + [e]) == Step(Run(evs), e)
  {
    assert (evs + [e])[..|evs|] == evs;
  }

  /** A burst of at least ten requests, before any release. */
  lemma FullBurstDrained(g: Governor, n: nat)
    requires MaxRequests <= n && Admitted(g, n)
    ensures Drained(g, n, 0)
  {
    assert Min(n, MaxRequests) == MaxRequests;
    assert g.pending == seq(MaxRequests, _ => ReleaseDelay) + seq(0, _ => 2 * ReleaseDelay);
  }

  /** Twelve requests at time 0: requests 0..9 go out at once; both
      remaining requests go out at 6000 ms, when the first two of the ten
      simultaneous releases fire, well inside one 60000 ms
      `TIME_WINDOW`. */
  lemma TwelveRequests()
    ensures Run(Burst(12)).queue == [10, 11]
    ensures |Run(Burst(12) + Releases(2)).dispatched| == 12
    ensures Run(Burst(12) + Releases(2)).dispatched[10] == Dispatch(10, 6000)
    ensures Run(Burst(12) + Releases(2)).dispatched[11] == Dispatch(11, 6000)
    ensures Run(Burst(12) + Releases(2)).queue == []
  {
    BurstAdmitted(12);
    assert Min(12, MaxRequests) == 10;
    assert Range(10, 12) == [10, 11];
    DrainAfterBurst(12, 2);
    var g := Run(Burst(12) + Releases(2));
    assert g.dispatched[10] == Dispatch(10, ReleaseDelay);
    assert g.dispatched[11] == Dispatch(11, ReleaseDelay);
    assert g.queue == Range(12, 12) == [];
  }

  /** Number of dispatches strictly after `t` when all of them are. */
  lemma {:induction false} CountAfterAll(d: seq<Dispatch>, t: int)
    requires forall i :: 0 <= i < |d| ==> d[i].at > t
    ensures CountAfter(d, t) == |d|
  {
    if |d| > 0 {
      CountAfterAll(d[..|d| - 1], t);
    }
  }

  /** Twenty requests at time 0 are all dispatched by 6000 ms: the ceiling
      bounds the dispatches in any 6000 ms span, not in the 60000 ms
      `TIME_WINDOW`. */
  lemma TwentyWithinOneWindow()
    ensures |Run(Burst(20) + Releases(10)).dispatched| == 20
    ensures Run(Burst(20) + Releases(10)).now == 6000
    ensures CountAfter(Run(Burst(20) + Releases(10)).dispatched, -1) == 20
    ensures CountAfter(Run(Burst(20) + Releases(10)).dispatched, -1) > MaxRequests
  {
    DrainAfterBurst(20, 10);
    var d := Run(Burst(20) + Releases(10)).dispatched;
    assert forall i :: 0 <= i < |d| ==> d[i].at >= 0;
    CountAfterAll(d, -1);
  }
}
