/**
 The dashboard page's data logic: loading the campaign list together
 with the aggregate insights, with a bounded retry on HTTP 504, and the
 search/status filter applied to the loaded campaigns.
 */
module Dashboard {
  import opened Text

  /** The fields of a campaign the page's logic reads; the rest are
      carried along untouched. */
  datatype Campaign = Campaign(id: string, name: string, status: string)

  /** The aggregate insights record, stored as received. */
  datatype Insights = Insights(totalImpressions: int, totalClicks: int, totalConversions: int)

  /** The component state `fetchData` writes. */
  datatype View = View(
    campaigns: seq<Campaign>,
    insights: Option<Insights>,
    loading: bool,
    error: Option<string>)

  /** The state before the first load. */
  const InitialView: View := View([], None, true, None)

  /** The result of one attempt: both requests answered, or the first
      rejection. `message` is present when the rejection is an `Error`. */
  datatype Attempt =
    | Loaded(campaigns: seq<Campaign>, insights: Insights)
    | Failed(status: Option<int>, message: Option<string>)

  const GatewayTimeout: int := 504
  /** `retryCount` of the last attempt that may still be retried. */
  const MaxRetries: nat := 2
  const RetryPauseMs: int := 1000
  const FallbackMessage: string := "Failed to fetch data. Please try refreshing."

  predicate IsGatewayTimeout(a: Attempt) {
    a.Failed? && a.status == Some(GatewayTimeout)
  }

  /** `err instanceof Error ? err.message : 'Failed to fetch data...'`. */
  function ErrorText(message: Option<string>): string {
    match message
    case Some(m) => m
    case None => FallbackMessage
  }

  /** A load: the view on completion, the view while each attempt's
      requests are in flight, and the pauses taken between attempts. */
  datatype FetchRun = FetchRun(final: View, inFlight: seq<View>, pauses: seq<int>)

  /** Which attempts are made: attempt `retryCount + k` follows only a
      504 of attempt `retryCount + k - 1` while that attempt's count was
      below `MaxRetries`. */
  ghost predicate RetriedExactly(respond: nat -> Attempt, retryCount: nat, attempts: nat) {
    && 1 <= attempts
    && (forall j :: retryCount <= j < retryCount + attempts - 1 ==>
          IsGatewayTimeout(respond(j)) && j < MaxRetries)
    && var last := respond(retryCount + attempts - 1);
       !(IsGatewayTimeout(last) && retryCount + attempts - 1 < MaxRetries)
  }

  /** What the view holds once the last attempt has settled. */
  ghost predicate SettledFrom(v: View, last: Attempt, final: View) {
    && !final.loading
    && (last.Loaded? ==>
          final == View(last.campaigns, Some(last.insights), false, None))
    && (last.Failed? ==>
          final == View(v.campaigns, v.insights, false, Some(ErrorText(last.message))))
  }

  /** `fetchData(retryCount)` with `respond(k)` the outcome of the attempt
      made with `retryCount == k`. The spinner stays on for every attempt
      in flight. */
  function FetchData(respond: nat -> Attempt, retryCount: nat, v: View): (r: FetchRun)
    ensures RetriedExactly(respond, retryCount, |r.inFlight|)
    ensures |r.inFlight| <= (if retryCount < MaxRetries then MaxRetries - retryCount + 1 else 1)
    ensures |r.pauses| == |r.inFlight| - 1
    ensures forall k :: 0 <= k < |r.pauses| ==> r.pauses[k] == RetryPauseMs
    ensures forall k :: 0 <= k < |r.inFlight| ==>
              r.inFlight[k] == v.(loading := true, error := None)
    ensures SettledFrom(v, respond(retryCount + |r.inFlight| - 1), r.final)
    decreases if retryCount < MaxRetries then MaxRetries - retryCount else 0
  {
    var start := v.(loading := true, error := None);
    match respond(retryCount)
    case Loaded(cs, ins) =>
      FetchRun(start.(campaigns := cs, insights := Some(ins), loading := false), [start], [])
    case Failed(status, message) =>
      if status == Some(GatewayTimeout) && retryCount < MaxRetries then
        var next := FetchData(respond, retryCount + 1, start);
        FetchRun(next.final, [start] + next.inFlight, [RetryPauseMs] + next.pauses)
      else
        FetchRun(start.(error := Some(ErrorText(message)), loading := false), [start], [])
  }

  /** `fetchData()` as called on mount. */
  function Fetch(respond: nat -> Attempt, v: View): FetchRun {
    FetchData(respond, 0, v)
  }

  /** At most three attempts, separated by 1000 ms pauses. */
  lemma AtMostThreeAttempts(respond: nat -> Attempt, v: View)
    ensures 1 <= |Fetch(respond, v).inFlight| <= 3
    ensures Fetch(respond, v).pauses == seq(|Fetch(respond, v).inFlight| - 1, _ => RetryPauseMs)
  {
  }

  /** Three 504s in a row: three attempts, then the error is shown. */
  lemma ThreeTimeoutsSurface(respond: nat -> Attempt, v: View)
    requires IsGatewayTimeout(respond(0)) && IsGatewayTimeout(respond(1)) && IsGatewayTimeout(respond(2))
    ensures |Fetch(respond, v).inFlight| == 3
    ensures Fetch(respond, v).final.error == Some(ErrorText(respond(2).message))
    ensures !Fetch(respond, v).final.loading
  {
  }

  /** A failure other than a 504 is shown at once, with no further
      attempt. */
  lemma OtherFailureSurfaces(respond: nat -> Attempt, v: View)
    requires respond(0).Failed? && !IsGatewayTimeout(respond(0))
    ensures |Fetch(respond, v).inFlight| == 1
    ensures Fetch(respond, v).final.error == Some(ErrorText(respond(0).message))
  {
  }

  /** A successful attempt stores both the campaigns and the insights and
      ends the load. */
  lemma SuccessStoresBoth(respond: nat -> Attempt, v: View, k: nat)
    requires k < |Fetch(respond, v).inFlight|
    requires respond(k).Loaded?
    ensures k == |Fetch(respond, v).inFlight| - 1
    ensures Fetch(respond, v).final.campaigns == respond(k).campaigns
    ensures Fetch(respond, v).final.insights == Some(respond(k).insights)
    ensures Fetch(respond, v).final.error == None
  {
  }

  // ---------------------------------------------------------------------
  // The code as written

  /** `fetchData` as written. When an attempt fails with a retriable 504,
      it pauses and then calls `fetchData(retryCount + 1)` inside its
      `catch`; that call turns the spinner on and suspends on the network,
      and the outer attempt's `finally` then runs `setLoading(false)`. So
      every retried attempt is in flight with `loading` false. */
  function FetchDataAsWritten(respond: nat -> Attempt, retryCount: nat, v: View): (r: FetchRun)
    ensures |r.inFlight| >= 1
    ensures r.inFlight[0] == v.(loading := true, error := None)
    ensures forall k :: 1 <= k < |r.inFlight| ==> r.inFlight[k] == v.(loading := false, error := None)
    decreases if retryCount < MaxRetries then MaxRetries - retryCount else 0
  {
    var start := v.(loading := true, error := None);
    match respond(retryCount)
    case Loaded(cs, ins) =>
      FetchRun(start.(campaigns := cs, insights := Some(ins), loading := false), [start], [])
    case Failed(status, message) =>
      if status == Some(GatewayTimeout) && retryCount < MaxRetries then
        var next := FetchDataAsWritten(respond, retryCount + 1, start);
        FetchRun(next.final, [start, next.inFlight[0].(loading := false)] + next.inFlight[1..],
                 [RetryPauseMs] + next.pauses)
      else
        FetchRun(start.(error := Some(ErrorText(message)), loading := false), [start], [])
  }

  /** The code as written makes the same attempts, pauses the same and
      ends in the same view. */
  lemma {:induction false} AsWrittenSameOutcome(respond: nat -> Attempt, retryCount: nat, v: View)
    ensures FetchDataAsWritten(respond, retryCount, v).final == FetchData(respond, retryCount, v).final
    ensures FetchDataAsWritten(respond, retryCount, v).pauses == FetchData(respond, retryCount, v).pauses
    ensures |FetchDataAsWritten(respond, retryCount, v).inFlight| == |FetchData(respond, retryCount, v).inFlight|
    decreases if retryCount < MaxRetries then MaxRetries - retryCount else 0
  {
    var start := v.(loading := true, error := None);
    match respond(retryCount)
    case Loaded(_, _) =>
    case Failed(status, _) =>
      if status == Some(GatewayTimeout) && retryCount < MaxRetries {
        var a, f := FetchDataAsWritten(respond, retryCount, v), FetchData(respond, retryCount, v);
        var na, nf := FetchDataAsWritten(respond, retryCount + 1, start), FetchData(respond, retryCount + 1, start);
        AsWrittenSameOutcome(respond, retryCount + 1, start);
        assert a.final == na.final && f.final == nf.final;
        assert a.pauses == [RetryPauseMs] + na.pauses && f.pauses == [RetryPauseMs] + nf.pauses;
        assert |a.inFlight| == 1 + |na.inFlight| && |f.inFlight| == 1 + |nf.inFlight|;
      }
  }

  /** The two differ only in showing the retried attempts with the spinner
      off. */
  lemma AsWrittenDiffersOnlyInSpinner(respond: nat -> Attempt, retryCount: nat, v: View)
    ensures |FetchDataAsWritten(respond, retryCount, v).inFlight| == |FetchData(respond, retryCount, v).inFlight|
    ensures forall k :: 1 <= k < |FetchData(respond, retryCount, v).inFlight| ==>
              FetchDataAsWritten(respond, retryCount, v).inFlight[k]
                == FetchData(respond, retryCount, v).inFlight[k].(loading := false)
  {
    AsWrittenSameOutcome(respond, retryCount, v);
  }

  /** A first attempt that times out: as written, the second attempt runs
      with `loading` false, so the page leaves the spinner and renders the
      (still empty) campaign list while the data is being fetched again. */
  lemma SpinnerOffDuringRetry(respond: nat -> Attempt)
    requires IsGatewayTimeout(respond(0))
    ensures |FetchDataAsWritten(respond, 0, InitialView).inFlight| >= 2
    ensures !FetchDataAsWritten(respond, 0, InitialView).inFlight[1].loading
    ensures FetchDataAsWritten(respond, 0, InitialView).inFlight[1].error == None
    ensures FetchData(respond, 0, InitialView).inFlight[1].loading
  {
    AsWrittenDiffersOnlyInSpinner(respond, 0, InitialView);
  }

  // ---------------------------------------------------------------------
  // Filter

  /** `statusFilter` value that keeps every status. */
  const AllStatuses: string := "all"

  predicate MatchesSearch(c: Campaign, searchTerm: string) {
    Contains(Lower(c.name), Lower(searchTerm))
  }

  predicate MatchesStatus(c: Campaign, statusFilter: string) {
    statusFilter == AllStatuses || c.status == statusFilter
  }

  /** The predicate passed to `campaigns.filter`. */
  predicate Keeps(c: Campaign, searchTerm: string, statusFilter: string) {
    MatchesSearch(c, searchTerm) && MatchesStatus(c, statusFilter)
  }

  /** `ys` contains the elements of `xs` in the same relative order. */
  ghost predicate IsSubsequence<T>(xs: seq<T>, ys: seq<T>)
    decreases |ys|
  {
    if |ys| == 0 then |xs| == 0
    else (|xs| > 0 && xs[0] == ys[0] && IsSubsequence(xs[1..], ys[1..])) || IsSubsequence(xs, ys[1..])
  }

  /** `filteredCampaigns`. */
  function FilterCampaigns(cs: seq<Campaign>, searchTerm: string, statusFilter: string): (r: seq<Campaign>)
    ensures forall c :: c in r <==> c in cs && Keeps(c, searchTerm, statusFilter)
    ensures forall c :: multiset(r)[c] == (if Keeps(c, searchTerm, statusFilter) then multiset(cs)[c] else 0)
    ensures IsSubsequence(r, cs)
  {
    if |cs| == 0 then []
    else
      assert cs == [cs[0]] + cs[1..];
      var rest := FilterCampaigns(cs[1..], searchTerm, statusFilter);
      if Keeps(cs[0], searchTerm, statusFilter) then
        assert ([cs[0]] + rest)[1..] == rest;
        [cs[0]] + rest
      else rest
  }

  /** The kept campaigns are those whose lower-cased name contains the
      lower-cased search term at some position and whose status passes the
      status filter. */
  lemma KeepsIff(c: Campaign, searchTerm: string, statusFilter: string)
    ensures Keeps(c, searchTerm, statusFilter) ==>
              && (exists i :: OccursAt(Lower(c.name), Lower(searchTerm), i))
              && (statusFilter == AllStatuses || c.status == statusFilter)
    ensures ((exists i :: OccursAt(Lower(c.name), Lower(searchTerm), i))
             && (statusFilter == AllStatuses || c.status == statusFilter)) ==>
              Keeps(c, searchTerm, statusFilter)
  {
    ContainsIffOccurs(Lower(c.name), Lower(searchTerm));
  }

  /** The search ignores the case of the search term. */
  lemma SearchIgnoresCase(cs: seq<Campaign>, t1: string, t2: string, statusFilter: string)
    requires Lower(t1) == Lower(t2)
    ensures FilterCampaigns(cs, t1, statusFilter) == FilterCampaigns(cs, t2, statusFilter)
  {
    assert forall c :: Keeps(c, t1, statusFilter) == Keeps(c, t2, statusFilter);
    FilterSameKeeps(cs, t1, t2, statusFilter);
  }

  lemma {:induction false} FilterSameKeeps(cs: seq<Campaign>, t1: string, t2: string, statusFilter: string)
    requires forall c :: Keeps(c, t1, statusFilter) == Keeps(c, t2, statusFilter)
    ensures FilterCampaigns(cs, t1, statusFilter) == FilterCampaigns(cs, t2, statusFilter)
  {
    if |cs| > 0 {
      FilterSameKeeps(cs[1..], t1, t2, statusFilter);
    }
  }

  /** With an empty search term and the status filter at "all" the list is
      shown unchanged. */
  lemma {:induction false} NoCriteriaKeepsAll(cs: seq<Campaign>)
    ensures FilterCampaigns(cs, "", AllStatuses) == cs
  {
    if |cs| > 0 {
      ContainsEmpty(Lower(cs[0].name));
      NoCriteriaKeepsAll(cs[1..]);
    }
  }

  /** Filtering an already filtered list changes nothing. */
  lemma {:induction false} FilterIdempotent(cs: seq<Campaign>, searchTerm: string, statusFilter: string)
    ensures FilterCampaigns(FilterCampaigns(cs, searchTerm, statusFilter), searchTerm, statusFilter)
              == FilterCampaigns(cs, searchTerm, statusFilter)
  {
    if |cs| > 0 {
      FilterIdempotent(cs[1..], searchTerm, statusFilter);
      var rest := FilterCampaigns(cs[1..], searchTerm, statusFilter);
      if Keeps(cs[0], searchTerm, statusFilter) {
        assert ([cs[0]] + rest)[1..] == rest;
      }
    }
  }
}
