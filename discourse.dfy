/** The forum collector of collectors/discourse_collector.py: a GET with
    bounded retries and exponential back-off, the two fetchers built on it,
    and `upsert_topic`, which maps one topic to a Forum row. */
module Discourse {
  import opened Wrappers
  import opened Http
  import opened Models
  import opened Store
  import opened Retry
  import Decimal

  /** `DISCOURSE_BASE` when it is not set in the environment. */
  const DefaultBase: string := "https://community.n8n.io"

  /** The retry budget both fetchers pass. */
  const FetchRetries: int := 5

  // ---------------------------------------------------------------------
  // _get_with_retries

  /** The two `random.random()` draws of one failed attempt: the jitter
      added to the back-off and, after a 429, the extra wait. Each lies in
      [0, 1). */
  datatype Jitter = Jitter(spread: real, wait429: real)

  ghost predicate UnitJitter(j: Jitter) {
    UnitDraw(j.spread) && UnitDraw(j.wait429)
  }

  /** A client error other than 429: the loop gives up at once. */
  predicate Fatal<B>(o: HttpOutcome<B>) {
    o.Reply? && 400 <= o.status < 500 && o.status != 429
  }

  /** A failure after which the loop sleeps and tries again. */
  predicate Retriable<B>(o: HttpOutcome<B>) {
    Failed(o) && !Fatal(o)
  }

  function RealMax(a: real, b: real): real {
    if a < b then b else a
  }

  /** The sleep after a retriable failure: the back-off plus up to as much
      again of jitter, and after a 429 at least 20 to 30 seconds. */
  function SleepFor<B>(o: HttpOutcome<B>, backoff: real, j: Jitter): real {
    var s := Jittered(backoff, j.spread);
    if ErrorCode(o) == Some(429) then RealMax(s, 20.0 + j.wait429 * 10.0) else s
  }

  /** The loop from attempt `attempt` on, with the current back-off. */
  function RetryRun<B>(req: Request, maxRetries: int, server: Server<B>, jitter: nat -> Jitter,
                       attempt: nat, backoff: real): Attempts<B>
    decreases maxRetries - attempt
  {
    if attempt >= maxRetries then Attempts(None, attempt, [])
    else
      var o := server(req, attempt);
      if !Failed(o) then Attempts(Some(o.body), attempt + 1, [])
      else if Fatal(o) then Attempts(None, attempt + 1, [])
      else
        var rest := RetryRun(req, maxRetries, server, jitter, attempt + 1, Double(backoff));
        rest.(sleeps := [SleepFor(o, backoff, jitter(attempt))] + rest.sleeps)
  }

  /** `_get_with_retries(url, params, max_retries)`. The sleeps are
      returned instead of slept. */
  method GetWithRetries<B>(req: Request, maxRetries: int, server: Server<B>, jitter: nat -> Jitter)
    returns (a: Attempts<B>)
    ensures a == RetryRun(req, maxRetries, server, jitter, 0, 1.0)
  {
    var attempt: nat := 0;
    var backoff := 1.0;
    var sleeps: seq<real> := [];
    while attempt < maxRetries
      invariant var r := RetryRun(req, maxRetries, server, jitter, attempt, backoff);
        RetryRun(req, maxRetries, server, jitter, 0, 1.0) == r.(sleeps := sleeps + r.sleeps)
      decreases maxRetries - attempt
    {
      var o := server(req, attempt);
      if !Failed(o) {
        return Attempts(Some(o.body), attempt + 1, sleeps);
      }
      if Fatal(o) {
        return Attempts(None, attempt + 1, sleeps);
      }
      var s := SleepFor(o, backoff, jitter(attempt));
      ghost var rest := RetryRun(req, maxRetries, server, jitter, attempt + 1, Double(backoff));
      assert sleeps + ([s] + rest.sleeps) == (sleeps + [s]) + rest.sleeps;
      sleeps := sleeps + [s];
      backoff := backoff * 2.0;
      attempt := attempt + 1;
    }
    return Attempts(None, attempt, sleeps);
  }

  /** When every earlier attempt failed retriably and attempt `k` succeeds,
      the loop returns that response's body after k + 1 requests and one
      sleep per earlier attempt. */
  lemma {:induction false} RetryReturnsFirstSuccess<B>(req: Request, m: int, server: Server<B>,
      jitter: nat -> Jitter, a: nat, b: real, k: nat)
    requires a <= k < m && !Failed(server(req, k))
    requires forall i | a <= i < k :: Retriable(server(req, i))
    ensures RetryRun(req, m, server, jitter, a, b).result == Some(server(req, k).body)
    ensures RetryRun(req, m, server, jitter, a, b).requests == k + 1
    ensures |RetryRun(req, m, server, jitter, a, b).sleeps| == k - a
    decreases k - a
  {
    if a < k {
      RetryReturnsFirstSuccess(req, m, server, jitter, a + 1, Double(b), k);
    }
  }

  /** A client error other than 429 ends the loop at once, without a sleep
      after it and without a further request. */
  lemma {:induction false} RetryStopsOnFatal<B>(req: Request, m: int, server: Server<B>,
      jitter: nat -> Jitter, a: nat, b: real, k: nat)
    requires a <= k < m && Fatal(server(req, k))
    requires forall i | a <= i < k :: Retriable(server(req, i))
    ensures RetryRun(req, m, server, jitter, a, b).result.None?
    ensures RetryRun(req, m, server, jitter, a, b).requests == k + 1
    ensures |RetryRun(req, m, server, jitter, a, b).sleeps| == k - a
    decreases k - a
  {
    if a < k {
      RetryStopsOnFatal(req, m, server, jitter, a + 1, Double(b), k);
    }
  }

  /** When every attempt fails retriably the loop gives up after exactly
      `max_retries` requests, having slept after each of them. */
  lemma {:induction false} RetryExhausts<B>(req: Request, m: int, server: Server<B>,
      jitter: nat -> Jitter, a: nat, b: real)
    requires a <= m
    requires forall i | a <= i < m :: Retriable(server(req, i))
    ensures RetryRun(req, m, server, jitter, a, b).result.None?
    ensures RetryRun(req, m, server, jitter, a, b).requests == m
    ensures |RetryRun(req, m, server, jitter, a, b).sleeps| == m - a
    decreases m - a
  {
    if a < m {
      RetryExhausts(req, m, server, jitter, a + 1, Double(b));
    }
  }

  /** However the server answers, at most `max_retries` requests go out
      (none when it is not positive), and a body is only ever returned from
      a response that did not raise. */
  lemma {:induction false} RetryBounded<B>(req: Request, m: int, server: Server<B>,
      jitter: nat -> Jitter, a: nat, b: real)
    ensures var r := RetryRun(req, m, server, jitter, a, b);
      && a <= r.requests
      && (a < m ==> r.requests <= m)
      && (a >= m ==> r.requests == a && r.result.None?)
      && (r.result.Some? ==> r.requests > a && !Failed(server(req, r.requests - 1))
                             && r.result.value == server(req, r.requests - 1).body)
    decreases m - a
  {
    if a < m && Retriable(server(req, a)) {
      RetryBounded(req, m, server, jitter, a + 1, Double(b));
    }
  }

  /** The i-th sleep follows the i-th failure, with the back-off doubled i
      times. */
  lemma {:induction false} RetrySleeps<B>(req: Request, m: int, server: Server<B>,
      jitter: nat -> Jitter, a: nat, b: real, i: nat)
    requires i < |RetryRun(req, m, server, jitter, a, b).sleeps|
    ensures Retriable(server(req, a + i))
    ensures RetryRun(req, m, server, jitter, a, b).sleeps[i]
      == SleepFor(server(req, a + i), Backoff(b, i), jitter(a + i))
    decreases i
  {
    var o := server(req, a);
    assert a < m && Retriable(o);
    var rest := RetryRun(req, m, server, jitter, a + 1, Double(b));
    assert RetryRun(req, m, server, jitter, a, b).sleeps == [SleepFor(o, b, jitter(a))] + rest.sleeps;
    if i > 0 {
      RetrySleeps(req, m, server, jitter, a + 1, Double(b), i - 1);
    }
  }

  /** From the start of the loop, the i-th sleep is taken with a back-off
      of 2^i seconds. */
  lemma RetrySleepsFromStart<B>(req: Request, m: int, server: Server<B>, jitter: nat -> Jitter, i: nat)
    requires i < |RetryRun(req, m, server, jitter, 0, 1.0).sleeps|
    ensures Retriable(server(req, i))
    ensures RetryRun(req, m, server, jitter, 0, 1.0).sleeps[i] == SleepFor(server(req, i), Pow2(i), jitter(i))
  {
    RetrySleeps(req, m, server, jitter, 0, 1.0, i);
    BackoffIsPow2(1.0, i);
  }

  /** With jitter drawn from [0, 1) a sleep lies between the back-off and
      twice the back-off, and after a 429 it is at least 20 seconds. */
  lemma SleepBounds<B>(o: HttpOutcome<B>, backoff: real, j: Jitter)
    requires UnitJitter(j) && backoff > 0.0
    ensures SleepFor(o, backoff, j) >= backoff
    ensures ErrorCode(o) != Some(429) ==> SleepFor(o, backoff, j) < 2.0 * backoff
    ensures ErrorCode(o) == Some(429) ==>
      20.0 <= SleepFor(o, backoff, j) < RealMax(2.0 * backoff, 30.0)
  {
    JitteredBounds(backoff, j.spread);
  }

  // ---------------------------------------------------------------------
  // get_latest_topics, get_topic_details

  datatype FetchError =
    | GaveUp     // `RuntimeError`: no response after the retries
    | NotJson    // the response body does not parse as JSON

  /** The body of `/latest.json`: unparseable, or a JSON object whose
      `topic_list.topics` may be missing. */
  datatype LatestBody<T> = Unparseable | Latest(topics: Option<seq<T>>)

  function LatestUrl(base: string): string {
    base + "/latest.json"
  }

  /** `get_latest_topics(page)`: no response is an error; a body that does
      not parse gives no topics, as does a missing topic list. */
  method GetLatestTopics<T>(base: string, page: int, server: Server<LatestBody<T>>, jitter: nat -> Jitter)
    returns (r: Result<seq<T>, FetchError>)
    ensures var run := RetryRun(Request(LatestUrl(base), Some(page)), FetchRetries, server, jitter, 0, 1.0);
      && (r.Failure? <==> run.result.None?)
      && (r.Failure? ==> r.error == GaveUp)
      && (r.Success? && run.result.value.Unparseable? ==> r.value == [])
      && (r.Success? && run.result.value.Latest? ==> r.value == run.result.value.topics.GetOr([]))
  {
    var run := GetWithRetries(Request(LatestUrl(base), Some(page)), FetchRetries, server, jitter);
    if run.result.None? {
      return Failure(GaveUp);
    }
    match run.result.value
    case Unparseable =>
      r := Success([]);
    case Latest(topics) =>
      r := Success(topics.GetOr([]));
  }

  /** The body of `/t/{id}.json`. */
  datatype TopicBody<T> = Garbled | Parsed(topic: T)

  function TopicUrl(base: string, topicId: int): string {
    base + "/t/" + Decimal.DecimalString(topicId) + ".json"
  }

  /** `get_topic_details(topic_id)`: no response is an error, and so is a
      body that does not parse. */
  method GetTopicDetails<T>(base: string, topicId: int, server: Server<TopicBody<T>>, jitter: nat -> Jitter)
    returns (r: Result<T, FetchError>)
    ensures var run := RetryRun(Request(TopicUrl(base, topicId), None), FetchRetries, server, jitter, 0, 1.0);
      && (run.result.None? ==> r == Failure(GaveUp))
      && (run.result.Some? && run.result.value.Garbled? ==> r == Failure(NotJson))
      && (run.result.Some? && run.result.value.Parsed? ==> r == Success(run.result.value.topic))
  {
    var run := GetWithRetries(Request(TopicUrl(base, topicId), None), FetchRetries, server, jitter);
    if run.result.None? {
      return Failure(GaveUp);
    }
    match run.result.value
    case Garbled =>
      r := Failure(NotJson);
    case Parsed(t) =>
      r := Success(t);
  }

  // ---------------------------------------------------------------------
  // upsert_topic

  /** One entry of a post's `actions_summary`. */
  datatype ActionSummary = ActionSummary(id: Option<int>, count: Option<int>)

  /** The like action's id in `actions_summary`. */
  const LikeAction: int := 2

  /** A post as the topic JSON gives it. Each like field is None when the
      key is absent, and holds None when the key is there but the like
      count is missing or null. */
  datatype Post = Post(
    actionCounts: Option<Option<int>>,
    likeCount: Option<Option<int>>,
    actionsSummary: Option<seq<ActionSummary>>)

  /** A topic as `/t/{id}.json` gives it. `title` is None when the key is
      absent and Some(None) when it is null; a missing or null `posters` or
      `post_stream.posts` is the empty list. */
  datatype Topic = Topic(
    title: Option<Option<string>>,
    views: Option<int>,
    postsCount: Option<int>,
    posters: seq<int>,
    posts: seq<Post>,
    slug: Option<string>,
    id: Option<int>,
    url: Option<string>)

  /** The likes an `actions_summary` list records: the counts of its
      entries with id 2. */
  function SummaryLikes(actions: seq<ActionSummary>): int
    decreases |actions|
  {
    if actions == [] then 0
    else
      var last := actions[|actions| - 1];
      SummaryLikes(actions[..|actions| - 1]) + (if last.id == Some(LikeAction) then OrZero(last.count) else 0)
  }

  /** The likes of one post, from the first of the three shapes it has. */
  function PostLikes(p: Post): int {
    if p.actionCounts.Some? then OrZero(p.actionCounts.value)
    else if p.likeCount.Some? then OrZero(p.likeCount.value)
    else if p.actionsSummary.Some? then SummaryLikes(p.actionsSummary.value)
    else 0
  }

  /** The likes of a topic: the sum over its posts. */
  function TotalLikes(posts: seq<Post>): int
    decreases |posts|
  {
    if posts == [] then 0 else TotalLikes(posts[..|posts| - 1]) + PostLikes(posts[|posts| - 1])
  }

  /** The accumulation loop of `upsert_topic`. */
  method CountLikes(posts: seq<Post>) returns (likes: int)
    ensures likes == TotalLikes(posts)
  {
    likes := 0;
    for i := 0 to |posts|
      invariant likes == TotalLikes(posts[..i])
    {
      var p := posts[i];
      if p.actionCounts.Some? {
        likes := likes + OrZero(p.actionCounts.value);
      } else if p.likeCount.Some? {
        likes := likes + OrZero(p.likeCount.value);
      } else if p.actionsSummary.Some? {
        var actions := p.actionsSummary.value;
        ghost var before := likes;
        for k := 0 to |actions|
          invariant likes == before + SummaryLikes(actions[..k])
        {
          if actions[k].id == Some(LikeAction) {
            likes := likes + OrZero(actions[k].count);
          }
          assert actions[..k + 1][..k] == actions[..k];
        }
        assert actions[..|actions|] == actions;
      }
      assert posts[..i + 1][..i] == posts[..i];
    }
    assert posts[..|posts|] == posts;
  }

  /** The likes of the posts add up: those of a thread are those of its
      first part plus those of the rest. */
  lemma {:induction false} TotalLikesAppend(a: seq<Post>, b: seq<Post>)
    ensures TotalLikes(a + b) == TotalLikes(a) + TotalLikes(b)
    decreases |b|
  {
    if b != [] {
      assert (a + b)[..|a + b| - 1] == a + b[..|b| - 1];
      TotalLikesAppend(a, b[..|b| - 1]);
    } else {
      assert a + b == a;
    }
  }

  lemma {:induction false} SummaryLikesNonNegative(actions: seq<ActionSummary>)
    requires forall i | 0 <= i < |actions| :: OrZero(actions[i].count) >= 0
    ensures SummaryLikes(actions) >= 0
    decreases |actions|
  {
    if actions != [] {
      SummaryLikesNonNegative(actions[..|actions| - 1]);
    }
  }

  /** Each post is counted by the first like shape it has: once
      `action_counts` is there the other two are never looked at, and once
      `like_count` is there `actions_summary` is not. */
  lemma FirstShapeDecides(p: Post, q: Post)
    requires p.actionCounts == q.actionCounts
    requires p.actionCounts.None? ==> p.likeCount == q.likeCount
    requires p.actionCounts.None? && p.likeCount.None? ==> p.actionsSummary == q.actionsSummary
    ensures PostLikes(p) == PostLikes(q)
    ensures p.actionCounts.Some? ==> PostLikes(p) == OrZero(p.actionCounts.value)
  {
  }

  /** The topic's post count less one, never below zero (a missing count
      reads as zero): the opening post is not a reply. */
  function Replies(postsCount: Option<int>): (r: int)
    ensures r >= 0
    ensures r == Max(OrZero(postsCount) - 1, 0)
  {
    var pc := OrZero(postsCount);
    if pc > 0 then pc - 1 else 0
  }

  /** `title` with the default "unknown" when the key is absent; None when
      it is null. */
  function TopicTitle(t: Topic): Option<string> {
    match t.title
    case None => Some("unknown")
    case Some(v) => v
  }

  /** The topic's page under the forum base, built from its slug and id
      when both are truthy; otherwise the `url` the topic itself gives. */
  function TopicSourceUrl(base: string, t: Topic): Option<string> {
    if Truthy(t.slug) && t.id.Some? && t.id.value != 0 then
      Some(base + "/t/" + t.slug.value + "/" + Decimal.DecimalString(t.id.value))
    else t.url
  }

  /** With a slug and a non-zero id the URL is the topic's page under the
      base, and its last segment reads back as the topic id; otherwise it
      is the topic's own `url`, which may be missing. */
  lemma TopicUrlNamesTopic(base: string, t: Topic)
    ensures Truthy(t.slug) && t.id.Some? && t.id.value != 0 ==>
      var prefix := base + "/t/" + t.slug.value + "/";
      var u := TopicSourceUrl(base, t);
      && u.Some? && |prefix| <= |u.value| && u.value[..|prefix|] == prefix
      && Decimal.IsDecimal(u.value[|prefix|..])
      && Decimal.ParseDecimal(u.value[|prefix|..]) == t.id.value
    ensures !(Truthy(t.slug) && t.id.Some? && t.id.value != 0) ==> TopicSourceUrl(base, t) == t.url
  {
    if Truthy(t.slug) && t.id.Some? && t.id.value != 0 {
      var prefix := base + "/t/" + t.slug.value + "/";
      var digits := Decimal.DecimalString(t.id.value);
      var u := prefix + digits;
      assert TopicSourceUrl(base, t) == Some(u);
      assert u[..|prefix|] == prefix && u[|prefix|..] == digits;
      Decimal.DecimalStringRoundTrip(t.id.value);
    }
  }

  /** The forum evidence object. */
  function TopicEvidence(t: Topic): Evidence {
    ForumEvidence(t.id, OrZero(t.views), Replies(t.postsCount), TotalLikes(t.posts), |t.posters|)
  }

  /** The observation `upsert_topic` writes for a topic with a title:
      views, likes, replies and contributors as counted, comments 0. */
  function TopicObservation(base: string, t: Topic, title: string, country: string): Observation {
    Observation(
      Forum, title, country,
      Some(OrZero(t.views)), Some(TotalLikes(t.posts)), Some(0),
      Some(Replies(t.postsCount)), Some(|t.posters|),
      TopicEvidence(t), TopicSourceUrl(base, t))
  }

  /** The counters and the evidence of a topic's row agree: the evidence
      records exactly the counts the row is given. */
  lemma TopicEvidenceMatchesCounters(base: string, t: Topic, title: string, country: string)
    ensures var o := TopicObservation(base, t, title, country);
      && o.evidence.ForumEvidence?
      && o.views == Some(o.evidence.views) && o.likes == Some(o.evidence.likes)
      && o.replies == Some(o.evidence.replies) && o.contributors == Some(o.evidence.contributors)
      && o.evidence.topicId == t.id && o.comments == Some(0)
  {
  }

  /** On an existing Forum row an upsert raises views, likes, replies and
      contributors to the larger of stored (null as 0) and incoming, replaces
      evidence, source URL and name, and leaves comments, the key and the id
      alone. A new row gets the topic's counts and comments 0. */
  lemma TopicUpsertFields(w: Workflow, base: string, t: Topic, title: string, country: string, id: nat)
    ensures var o := TopicObservation(base, t, title, country);
      var w' := Merge(w, o);
      && w'.views == Some(Max(OrZero(w.views), OrZero(t.views)))
      && w'.likes == Some(Max(OrZero(w.likes), TotalLikes(t.posts)))
      && w'.replies == Some(Max(OrZero(w.replies), Replies(t.postsCount)))
      && w'.contributors == Some(Max(OrZero(w.contributors), |t.posters|))
      && w'.comments == w.comments
      && w'.evidence == TopicEvidence(t) && w'.sourceUrl == TopicSourceUrl(base, t) && w'.workflowName == title
      && KeyOf(w') == KeyOf(w) && w'.id == w.id
    ensures var n := NewRow(TopicObservation(base, t, title, country), id);
      && n.comments == Some(0) && n.views == Some(OrZero(t.views)) && n.likes == Some(TotalLikes(t.posts))
      && n.replies == Some(Replies(t.postsCount)) && n.contributors == Some(|t.posters|)
      && KeyOf(n) == KeyOfObservation(TopicObservation(base, t, title, country))
  {
    var o := TopicObservation(base, t, title, country);
    MergeKeepsIdentity(w, o);
  }

  /** `upsert_topic(topic_json, country)`. A null title leaves
      `workflow_name` null, which the NOT NULL column refuses at commit. */
  method UpsertTopic(store: WorkflowStore, base: string, t: Topic, country: string, serverCommits: bool)
    returns (r: Result<bool, UpsertError>)
    requires store.Valid()
    modifies store
    ensures store.Valid()
    ensures TopicTitle(t).None? ==> r == Failure(RowRejected) && store.rows == old(store.rows)
    ensures TopicTitle(t).Some? ==>
      var o := TopicObservation(base, t, TopicTitle(t).value, country);
      && (r.Success? <==> serverCommits && Fits(WrittenRow(old(store.Contents()), o)))
      && (r.Success? ==> store.Contents() == Upserted(old(store.Contents()), o))
    ensures r.Failure? ==> store.rows == old(store.rows) && store.nextId == old(store.nextId)
  {
    var title := TopicTitle(t);
    if title.None? {
      return Failure(RowRejected);
    }
    var likes := CountLikes(t.posts);
    var o := Observation(
      Forum, title.value, country,
      Some(OrZero(t.views)), Some(likes), Some(0),
      Some(Replies(t.postsCount)), Some(|t.posters|),
      ForumEvidence(t.id, OrZero(t.views), Replies(t.postsCount), likes, |t.posters|),
      TopicSourceUrl(base, t));
    assert o == TopicObservation(base, t, title.value, country);
    r := store.Upsert(o, serverCommits);
  }
}
