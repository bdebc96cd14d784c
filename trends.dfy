/** The search-interest collector of collectors/trends_collector.py:
    `get_trend` fetches an interest series with retries and summarises it
    as the mean of the recent window and its change against the previous
    window; `upsert_trend` writes the truncated mean into a Google row's
    views. */
module Trends {
  import opened Wrappers
  import opened Models
  import opened Store
  import opened Retry

  /** The window length, in samples. */
  const Window: nat := 30

  // ---------------------------------------------------------------------
  // Window statistics

  function Sum(s: seq<int>): int
    decreases |s|
  {
    if s == [] then 0 else Sum(s[..|s| - 1]) + s[|s| - 1]
  }

  /** `Series.mean()` of a non-empty window, computed exactly. */
  function Mean(s: seq<int>): real
    requires s != []
  {
    Sum(s) as real / |s| as real
  }

  /** `tail(30)`: the last 30 samples, or all of them. */
  function RecentWindow(s: seq<int>): (w: seq<int>)
    ensures |w| == MinNat(|s|, Window)
    ensures w == s[|s| - |w|..]
  {
    s[|s| - MinNat(|s|, Window)..]
  }

  /** The samples the previous mean is taken over: the first 30 when there
      are at least 60, the first n - 30 when there are more than 30; None
      when there are at most 30, and the previous mean is the recent one. */
  function PreviousWindow(s: seq<int>): (w: Option<seq<int>>)
    ensures w.Some? <==> |s| > Window
    ensures w.Some? ==> w.value != [] && |w.value| <= |s| && w.value == s[..|w.value|]
  {
    if |s| >= 2 * Window then Some(s[..Window])
    else if |s| > Window then Some(s[..|s| - Window])
    else None
  }

  /** `avg_recent`. The `else 0.0` of the source is for an empty frame,
      which never reaches this point. */
  function Recent(s: seq<int>): real {
    if |s| >= 1 then Mean(RecentWindow(s)) else 0.0
  }

  function Previous(s: seq<int>): real {
    match PreviousWindow(s)
    case Some(w) => Mean(w)
    case None => Recent(s)
  }

  /** `change_pct`: the relative change in percent, 0 when the previous
      mean is 0. */
  function ChangePct(recent: real, previous: real): real {
    if previous != 0.0 then (recent - previous) / previous * 100.0 else 0.0
  }

  /** The dictionary `get_trend` returns for a non-empty series. */
  function TrendOf(query: string, geo: string, timeframe: string, s: seq<int>): TrendPayload {
    TrendPayload(query, geo, timeframe, Recent(s), ChangePct(Recent(s), Previous(s)), s)
  }

  /** The two windows never overlap: the previous one ends where the recent
      one starts or earlier, and between 31 and 59 samples they exactly
      cover the series. */
  lemma WindowsDisjoint(s: seq<int>)
    requires |s| > Window
    ensures |PreviousWindow(s).value| <= |s| - |RecentWindow(s)|
    ensures |s| < 2 * Window ==> PreviousWindow(s).value + RecentWindow(s) == s
    ensures |s| >= 2 * Window ==> |PreviousWindow(s).value| == Window && |RecentWindow(s)| == Window
  {
    if |s| < 2 * Window {
      assert s[..|s| - Window] + s[|s| - Window..] == s;
    }
  }

  /** With at most 30 samples there is nothing to compare with: the change
      is 0. */
  lemma ShortSeriesHasNoChange(query: string, geo: string, timeframe: string, s: seq<int>)
    requires |s| <= Window
    ensures TrendOf(query, geo, timeframe, s).changePct == 0.0
  {
  }

  ghost predicate Within(s: seq<int>, lo: int, hi: int) {
    forall i | 0 <= i < |s| :: lo <= s[i] <= hi
  }

  lemma {:induction false} SumBounds(s: seq<int>, lo: int, hi: int)
    requires Within(s, lo, hi)
    ensures |s| * lo <= Sum(s) <= |s| * hi
    decreases |s|
  {
    if s != [] {
      SumBounds(s[..|s| - 1], lo, hi);
    }
  }

  lemma MeanBounds(s: seq<int>, lo: int, hi: int)
    requires s != [] && Within(s, lo, hi)
    ensures lo as real <= Mean(s) <= hi as real
  {
    SumBounds(s, lo, hi);
    var n := |s| as real;
    assert n * lo as real <= Sum(s) as real <= n * hi as real;
    DivBounds(Sum(s) as real, n, lo as real, hi as real);
  }

  lemma DivBounds(x: real, n: real, lo: real, hi: real)
    requires n > 0.0 && n * lo <= x <= n * hi
    ensures lo <= x / n <= hi
  {
  }

  lemma SubWithin(s: seq<int>, i: nat, j: nat, lo: int, hi: int)
    requires i <= j <= |s| && Within(s, lo, hi)
    ensures Within(s[i..j], lo, hi)
  {
    assert forall k | 0 <= k < j - i :: s[i..j][k] == s[i + k];
  }

  /** Interest values lie in 0..100, and so does the recent average. */
  lemma RecentInRange(s: seq<int>)
    requires s != [] && Within(s, 0, 100)
    ensures 0.0 <= Recent(s) <= 100.0
  {
    SubWithin(s, |s| - MinNat(|s|, Window), |s|, 0, 100);
    MeanBounds(RecentWindow(s), 0, 100);
  }

  lemma {:induction false} SumConstant(s: seq<int>, c: int)
    requires Within(s, c, c)
    ensures Sum(s) == |s| * c
    decreases |s|
  {
    if s != [] {
      SumConstant(s[..|s| - 1], c);
    }
  }

  lemma MeanConstant(s: seq<int>, c: int)
    requires s != [] && Within(s, c, c)
    ensures Mean(s) == c as real
  {
    SumConstant(s, c);
  }

  /** A flat series shows no change. */
  lemma FlatSeriesHasNoChange(query: string, geo: string, timeframe: string, s: seq<int>, c: int)
    requires s != [] && Within(s, c, c)
    ensures TrendOf(query, geo, timeframe, s).avgRecent == c as real
    ensures TrendOf(query, geo, timeframe, s).changePct == 0.0
  {
    var r := c as real;
    assert Recent(s) == r by {
      SubWithin(s, |s| - MinNat(|s|, Window), |s|, c, c);
      MeanConstant(RecentWindow(s), c);
    }
    assert Previous(s) == r by {
      if |s| > Window {
        var w := PreviousWindow(s).value;
        SubWithin(s, 0, |w|, c, c);
        MeanConstant(w, c);
      }
    }
    assert ChangePct(r, r) == 0.0;
  }

  /** The sign of the change is the direction of the move: up when the
      recent mean exceeds a positive previous mean, down when it is below. */
  lemma ChangeSign(recent: real, previous: real)
    requires previous > 0.0
    ensures ChangePct(recent, previous) > 0.0 <==> recent > previous
    ensures ChangePct(recent, previous) < 0.0 <==> recent < previous
  {
    var d := recent - previous;
    assert ChangePct(recent, previous) == d / previous * 100.0;
    if d > 0.0 {
      assert d / previous > 0.0;
    } else if d < 0.0 {
      assert d / previous < 0.0;
    }
  }

  // ---------------------------------------------------------------------
  // get_trend

  /** What one attempt of `build_payload` and `interest_over_time` gave:
      an exception, or a frame whose column for the query is `series`. */
  datatype TrendAttempt = Raised | Frame(series: seq<int>)

  /** The pause after a success: half a second plus a random fraction `r`
      of 0.8 seconds. */
  function PolitePause(r: real): real {
    0.5 + r * 0.8
  }

  /** The loop of `get_trend` from attempt `attempt` on. An empty frame
      ends it at once with no result; an exception sleeps and retries; the
      first non-empty frame is summarised and followed by a short pause. */
  function TrendRun(query: string, geo: string, timeframe: string, maxRetries: int,
                    source: nat -> TrendAttempt, draw: nat -> real, attempt: nat, backoff: real)
    : Attempts<TrendPayload>
    decreases maxRetries - attempt
  {
    if attempt >= maxRetries then Attempts(None, attempt, [])
    else match source(attempt)
      case Raised =>
        var rest := TrendRun(query, geo, timeframe, maxRetries, source, draw, attempt + 1, Double(backoff));
        rest.(sleeps := [Jittered(backoff, draw(attempt))] + rest.sleeps)
      case Frame(series) =>
        if series == [] then Attempts(None, attempt + 1, [])
        else Attempts(Some(TrendOf(query, geo, timeframe, series)), attempt + 1, [PolitePause(draw(attempt))])
  }

  /** `get_trend(query, geo, timeframe, max_retries)`. `source(k)` is what
      attempt k obtains from the service and `draw(k)` the random number
      its sleep uses; the sleeps are returned instead of slept. */
  method GetTrend(query: string, geo: string, timeframe: string, maxRetries: int,
                  source: nat -> TrendAttempt, draw: nat -> real)
    returns (a: Attempts<TrendPayload>)
    ensures a == TrendRun(query, geo, timeframe, maxRetries, source, draw, 0, 1.0)
  {
    var attempt: nat := 0;
    var backoff := 1.0;
    var sleeps: seq<real> := [];
    while attempt < maxRetries
      invariant var r := TrendRun(query, geo, timeframe, maxRetries, source, draw, attempt, backoff);
        TrendRun(query, geo, timeframe, maxRetries, source, draw, 0, 1.0) == r.(sleeps := sleeps + r.sleeps)
      decreases maxRetries - attempt
    {
      match source(attempt) {
        case Frame(series) =>
          if series == [] {
            return Attempts(None, attempt + 1, sleeps);
          }
          var recent := Recent(series);
          var previous := Previous(series);
          var payload := TrendPayload(query, geo, timeframe, recent, ChangePct(recent, previous), series);
          return Attempts(Some(payload), attempt + 1, sleeps + [PolitePause(draw(attempt))]);
        case Raised =>
      }
      var s := Jittered(backoff, draw(attempt));
      ghost var rest := TrendRun(query, geo, timeframe, maxRetries, source, draw, attempt + 1, Double(backoff));
      assert sleeps + ([s] + rest.sleeps) == (sleeps + [s]) + rest.sleeps;
      sleeps := sleeps + [s];
      backoff := backoff * 2.0;
      attempt := attempt + 1;
    }
    return Attempts(None, attempt, sleeps);
  }

  /** When the earlier attempts raised and attempt k yields a non-empty
      series, that series is summarised after k + 1 attempts, one back-off
      sleep per earlier attempt and a final pause. */
  lemma {:induction false} TrendReturnsFirstSeries(query: string, geo: string, timeframe: string, m: int,
      source: nat -> TrendAttempt, draw: nat -> real, a: nat, b: real, k: nat)
    requires a <= k < m && source(k).Frame? && source(k).series != []
    requires forall i | a <= i < k :: source(i).Raised?
    ensures var r := TrendRun(query, geo, timeframe, m, source, draw, a, b);
      && r.result == Some(TrendOf(query, geo, timeframe, source(k).series))
      && r.requests == k + 1
      && |r.sleeps| == k - a + 1
      && r.sleeps[k - a] == PolitePause(draw(k))
    decreases k - a
  {
    if a < k {
      TrendReturnsFirstSeries(query, geo, timeframe, m, source, draw, a + 1, Double(b), k);
    }
  }

  /** An empty frame is not retried: the loop returns None at once. */
  lemma {:induction false} TrendStopsOnEmptyFrame(query: string, geo: string, timeframe: string, m: int,
      source: nat -> TrendAttempt, draw: nat -> real, a: nat, b: real, k: nat)
    requires a <= k < m && source(k) == Frame([])
    requires forall i | a <= i < k :: source(i).Raised?
    ensures var r := TrendRun(query, geo, timeframe, m, source, draw, a, b);
      r.result.None? && r.requests == k + 1 && |r.sleeps| == k - a
    decreases k - a
  {
    if a < k {
      TrendStopsOnEmptyFrame(query, geo, timeframe, m, source, draw, a + 1, Double(b), k);
    }
  }

  /** When every attempt raises, the loop gives up after `max_retries`
      attempts with a sleep after each. */
  lemma {:induction false} TrendExhausts(query: string, geo: string, timeframe: string, m: int,
      source: nat -> TrendAttempt, draw: nat -> real, a: nat, b: real)
    requires a <= m
    requires forall i | a <= i < m :: source(i).Raised?
    ensures var r := TrendRun(query, geo, timeframe, m, source, draw, a, b);
      r.result.None? && r.requests == m && |r.sleeps| == m - a
    decreases m - a
  {
    if a < m {
      TrendExhausts(query, geo, timeframe, m, source, draw, a + 1, Double(b));
    }
  }

  /** The i-th sleep after a raised attempt is the back-off doubled i times
      plus jitter; the pause after a series is the last sleep. */
  lemma {:induction false} TrendSleeps(query: string, geo: string, timeframe: string, m: int,
      source: nat -> TrendAttempt, draw: nat -> real, a: nat, b: real, i: nat)
    requires i < |TrendRun(query, geo, timeframe, m, source, draw, a, b).sleeps|
    ensures var r := TrendRun(query, geo, timeframe, m, source, draw, a, b);
      && (source(a + i).Raised? ==> r.sleeps[i] == Jittered(Backoff(b, i), draw(a + i)))
      && (source(a + i).Frame? ==> i == |r.sleeps| - 1 && r.sleeps[i] == PolitePause(draw(a + i)))
    decreases i
  {
    if i > 0 {
      assert source(a).Raised?;
      TrendSleeps(query, geo, timeframe, m, source, draw, a + 1, Double(b), i - 1);
    }
  }

  /** The pause after a success lasts from half a second to 1.3 seconds. */
  lemma PolitePauseBounds(r: real)
    requires UnitDraw(r)
    ensures 0.5 <= PolitePause(r) < 1.3
  {
  }

  // ---------------------------------------------------------------------
  // upsert_trend

  /** Python's `int(x)` on a float: truncation toward zero. */
  function Trunc(x: real): (n: int)
    ensures x >= 0.0 ==> 0 <= n && n as real <= x < n as real + 1.0
    ensures x < 0.0 ==> n <= 0 && n as real - 1.0 < x <= n as real
  {
    if x >= 0.0 then x.Floor else -((-x).Floor)
  }

  /** The observation `upsert_trend` writes: the query as the title, the
      truncated recent mean as views, the other counters 0, the whole
      payload as evidence and no source URL. */
  function TrendObservation(query: string, trend: TrendPayload, country: string): Observation {
    Observation(
      Google, query, country,
      Some(Trunc(trend.avgRecent)), Some(0), Some(0), Some(0), Some(0),
      TrendEvidence(trend), None)
  }

  /** On a Google row an upsert changes views only, never to a lower value,
      and keeps the source URL. */
  lemma TrendUpdatesViewsOnly(w: Workflow, query: string, trend: TrendPayload, country: string)
    ensures var w' := Merge(w, TrendObservation(query, trend, country));
      && w'.views == Some(Max(OrZero(w.views), Trunc(trend.avgRecent)))
      && w'.likes == w.likes && w'.comments == w.comments
      && w'.replies == w.replies && w'.contributors == w.contributors
      && w'.sourceUrl == w.sourceUrl
      && w'.evidence == TrendEvidence(trend) && w'.workflowName == query
  {
  }

  /** For an interest series in 0..100 the views written lie in 0..100. */
  lemma TrendViewsInRange(query: string, geo: string, timeframe: string, s: seq<int>, country: string)
    requires s != [] && Within(s, 0, 100)
    ensures var v := TrendObservation(query, TrendOf(query, geo, timeframe, s), country).views.value;
      0 <= v <= 100
  {
    RecentInRange(s);
  }

  /** `upsert_trend(query, trend_obj, country)`. */
  method UpsertTrend(store: WorkflowStore, query: string, trend: TrendPayload, country: string, serverCommits: bool)
    returns (r: Result<bool, UpsertError>)
    requires store.Valid()
    modifies store
    ensures store.Valid()
    ensures var o := TrendObservation(query, trend, country);
      && (r.Success? <==> serverCommits && Fits(WrittenRow(old(store.Contents()), o)))
      && (r.Success? ==> store.Contents() == Upserted(old(store.Contents()), o))
    ensures r.Failure? ==> store.rows == old(store.rows) && store.nextId == old(store.nextId)
  {
    r := store.Upsert(TrendObservation(query, trend, country), serverCommits);
  }
}
