/** The read endpoint `GET /workflows` of api/main.py: filter the table by
    platform and country, order by views descending, take a page, and
    project each row to its popularity metrics. */
module Listing {
  import opened Wrappers
  import opened Models

  // ---------------------------------------------------------------------
  // Filter

  /** A query parameter filters only when it is given and non-empty; the
      comparison is exact. */
  predicate Matches(w: Workflow, platform: Option<string>, country: Option<string>) {
    && (Truthy(platform) ==> PlatformName(w.platform) == platform.value)
    && (Truthy(country) ==> w.country == country.value)
  }

  /** `q.filter(...)`: the matching rows, in table order. */
  function Filter(rows: seq<Workflow>, platform: Option<string>, country: Option<string>): (r: seq<Workflow>)
    ensures |r| <= |rows|
    ensures forall k | 0 <= k < |r| :: r[k] in rows && Matches(r[k], platform, country)
    decreases |rows|
  {
    if rows == [] then []
    else
      var rest := Filter(rows[1..], platform, country);
      if Matches(rows[0], platform, country) then [rows[0]] + rest else rest
  }

  /** The rows the filters drop. */
  function Rejected(rows: seq<Workflow>, platform: Option<string>, country: Option<string>): (r: seq<Workflow>)
    ensures forall k | 0 <= k < |r| :: !Matches(r[k], platform, country)
    decreases |rows|
  {
    if rows == [] then []
    else
      var rest := Rejected(rows[1..], platform, country);
      if Matches(rows[0], platform, country) then rest else [rows[0]] + rest
  }

  /** The filters split the table: every row is either listed or dropped,
      once, and only non-matching rows are dropped. */
  lemma {:induction false} FilterPartitions(rows: seq<Workflow>, platform: Option<string>, country: Option<string>)
    ensures multiset(Filter(rows, platform, country)) + multiset(Rejected(rows, platform, country)) == multiset(rows)
    decreases |rows|
  {
    if rows != [] {
      FilterPartitions(rows[1..], platform, country);
      assert rows == [rows[0]] + rows[1..];
    }
  }

  /** Without filters every row is listed. */
  lemma {:induction false} FilterNothing(rows: seq<Workflow>)
    ensures Filter(rows, None, None) == rows
    decreases |rows|
  {
    if rows != [] {
      FilterNothing(rows[1..]);
    }
  }

  // ---------------------------------------------------------------------
  // ORDER BY views DESC

  /** `a` sorts no later than `b` under `views DESC`, where MySQL puts
      NULL views last. */
  predicate NotBelow(a: Workflow, b: Workflow) {
    b.views.None? || (a.views.Some? && a.views.value >= b.views.value)
  }

  ghost predicate Sorted(s: seq<Workflow>) {
    forall i, j | 0 <= i < j < |s| :: NotBelow(s[i], s[j])
  }

  /** Puts `x` before the first row it does not sort below. */
  function Insert(x: Workflow, s: seq<Workflow>): (r: seq<Workflow>)
    ensures |r| == |s| + 1
    ensures forall k | 0 <= k < |r| :: r[k] == x || r[k] in s
    ensures x in r
    ensures forall k | 0 <= k < |s| :: s[k] in r
    decreases |s|
  {
    if s == [] || NotBelow(x, s[0]) then [x] + s else [s[0]] + Insert(x, s[1..])
  }

  /** `a` sorts no later than any row of `s`. */
  ghost predicate AllBelow(a: Workflow, s: seq<Workflow>) {
    forall k | 0 <= k < |s| :: NotBelow(a, s[k])
  }

  lemma InsertBelow(a: Workflow, x: Workflow, s: seq<Workflow>)
    requires AllBelow(a, s) && NotBelow(a, x)
    ensures AllBelow(a, Insert(x, s))
  {
  }

  lemma SortedCons(a: Workflow, s: seq<Workflow>)
    requires Sorted(s) && AllBelow(a, s)
    ensures Sorted([a] + s)
  {
  }

  lemma {:induction false} InsertSorted(x: Workflow, s: seq<Workflow>)
    requires Sorted(s)
    ensures Sorted(Insert(x, s))
    decreases |s|
  {
    if s == [] || NotBelow(x, s[0]) {
      if s != [] {
        assert AllBelow(s[0], s[1..]) by {
          forall k | 0 <= k < |s[1..]| ensures NotBelow(s[0], s[1..][k]) {
            assert s[1..][k] == s[k + 1];
          }
        }
      }
      assert AllBelow(x, s) by {
        forall k | 0 <= k < |s| ensures NotBelow(x, s[k]) {
          if k > 0 {
            assert NotBelow(s[0], s[k]);
          }
        }
      }
      SortedCons(x, s);
    } else {
      var t := s[1..];
      assert Sorted(t) by {
        forall i, j | 0 <= i < j < |t| ensures NotBelow(t[i], t[j]) {
          assert t[i] == s[i + 1] && t[j] == s[j + 1];
        }
      }
      assert AllBelow(s[0], t) by {
        forall k | 0 <= k < |t| ensures NotBelow(s[0], t[k]) {
          assert t[k] == s[k + 1];
        }
      }
      InsertSorted(x, t);
      InsertBelow(s[0], x, t);
      SortedCons(s[0], Insert(x, t));
    }
  }

  lemma InsertPermutes(x: Workflow, s: seq<Workflow>)
    ensures multiset(Insert(x, s)) == multiset(s) + multiset{x}
    decreases |s|
  {
    if s != [] && !NotBelow(x, s[0]) {
      InsertPermutes(x, s[1..]);
      assert s == [s[0]] + s[1..];
    }
  }

  /** The table order under `views DESC`, ties in table order. */
  function SortByViews(s: seq<Workflow>): (r: seq<Workflow>)
    ensures |r| == |s|
    decreases |s|
  {
    if s == [] then [] else Insert(s[0], SortByViews(s[1..]))
  }

  /** The order is by views, highest first, NULL last, and no row is lost
      or added. */
  lemma {:induction false} SortByViewsCorrect(s: seq<Workflow>)
    ensures Sorted(SortByViews(s))
    ensures multiset(SortByViews(s)) == multiset(s)
    decreases |s|
  {
    if s != [] {
      SortByViewsCorrect(s[1..]);
      InsertSorted(s[0], SortByViews(s[1..]));
      InsertPermutes(s[0], SortByViews(s[1..]));
      assert s == [s[0]] + s[1..];
    }
  }

  // ---------------------------------------------------------------------
  // OFFSET / LIMIT

  /** `.offset(offset).limit(limit)` on non-negative values. */
  function Page(s: seq<Workflow>, offset: nat, limit: nat): (r: seq<Workflow>)
    ensures |r| <= limit
    ensures |r| == MinNat(limit, |s| - MinNat(offset, |s|))
    ensures forall k | 0 <= k < |r| :: r[k] == s[offset + k]
  {
    var from := MinNat(offset, |s|);
    s[from..from + MinNat(limit, |s| - from)]
  }

  lemma PageSorted(s: seq<Workflow>, offset: nat, limit: nat)
    requires Sorted(s)
    ensures Sorted(Page(s, offset, limit))
  {
  }

  /** Consecutive pages follow each other without gap or overlap. */
  lemma PagesAdjoin(s: seq<Workflow>, offset: nat, limit: nat)
    requires offset + limit <= |s|
    ensures Page(s, offset, limit) + Page(s, offset + limit, |s|) == s[offset..]
  {
  }

  // ---------------------------------------------------------------------
  // Projection

  /** `popularity_metrics` and the fields around it. */
  datatype Listed = Listed(
    workflow: string,
    platform: string,
    views: int,
    likes: int,
    comments: int,
    replies: int,
    contributors: int,
    likeToViewRatio: real,
    commentToViewRatio: real,
    country: string,
    sourceUrl: Option<string>)

  /** A count per view: 0 when views are null or zero, otherwise the count
      (null read as 0) divided by the views. */
  function Ratio(x: Option<int>, views: Option<int>): (r: real)
    ensures OrZero(views) == 0 ==> r == 0.0
    ensures OrZero(views) != 0 ==> r * OrZero(views) as real == OrZero(x) as real
  {
    if OrZero(views) != 0 then OrZero(x) as real / OrZero(views) as real else 0.0
  }

  /** A like ratio lies in [0, 1] when the likes do not exceed the views. */
  lemma RatioBounds(x: Option<int>, views: Option<int>)
    requires 0 <= OrZero(x) <= OrZero(views)
    ensures 0.0 <= Ratio(x, views) <= 1.0
  {
    if OrZero(views) != 0 {
      var v := OrZero(views) as real;
      assert Ratio(x, views) * v <= v;
    }
  }

  /** One entry of `data`: null counters read as 0. */
  function Project(w: Workflow): Listed {
    Listed(
      w.workflowName, PlatformName(w.platform),
      OrZero(w.views), OrZero(w.likes), OrZero(w.comments), OrZero(w.replies), OrZero(w.contributors),
      Ratio(w.likes, w.views), Ratio(w.comments, w.views),
      w.country, w.sourceUrl)
  }

  /** Each entry echoes its row's name, platform label, country and source
      URL, reports null counters as 0, and its ratios are the likes and
      comments per view, or 0 when there are no views. */
  lemma ProjectMetrics(w: Workflow)
    ensures var e := Project(w);
      && e.workflow == w.workflowName && e.platform in {"YouTube", "Forum", "Google"}
      && ParsePlatform(e.platform) == Some(w.platform)
      && e.country == w.country && e.sourceUrl == w.sourceUrl
      && e.views == OrZero(w.views) && e.likes == OrZero(w.likes) && e.comments == OrZero(w.comments)
      && e.replies == OrZero(w.replies) && e.contributors == OrZero(w.contributors)
      && (e.views == 0 ==> e.likeToViewRatio == 0.0 && e.commentToViewRatio == 0.0)
      && (e.views != 0 ==> e.likeToViewRatio * e.views as real == e.likes as real
                           && e.commentToViewRatio * e.views as real == e.comments as real)
  {
    PlatformLabels(w.platform, w.platform);
  }

  /** The response body. */
  datatype Listing = Listing(count: nat, data: seq<Listed>)

  datatype QueryError = NegativeLimitOrOffset

  /** The rows a request selects, in response order. */
  function Selected(rows: seq<Workflow>, platform: Option<string>, country: Option<string>, limit: nat, offset: nat)
    : seq<Workflow>
  {
    Page(SortByViews(Filter(rows, platform, country)), offset, limit)
  }

  /** The loop that builds `data`, one entry per selected row. */
  method ProjectAll(items: seq<Workflow>) returns (res: seq<Listed>)
    ensures |res| == |items|
    ensures forall k | 0 <= k < |items| :: res[k] == Project(items[k])
  {
    res := [];
    for i := 0 to |items|
      invariant |res| == i
      invariant forall k | 0 <= k < i :: res[k] == Project(items[k])
    {
      res := res + [Project(items[i])];
    }
  }

  /** `list_workflows(platform, country, limit, offset)` over the rows of
      the table. MySQL refuses a negative LIMIT or OFFSET. */
  method ListWorkflows(rows: seq<Workflow>, platform: Option<string>, country: Option<string>, limit: int, offset: int)
    returns (r: Result<Listing, QueryError>)
    ensures r.Failure? <==> limit < 0 || offset < 0
    ensures r.Success? ==>
      var items := Selected(rows, platform, country, limit, offset);
      && r.value.count == |r.value.data| == |items|
      && forall k | 0 <= k < |items| :: r.value.data[k] == Project(items[k])
  {
    if limit < 0 || offset < 0 {
      return Failure(NegativeLimitOrOffset);
    }
    var items := Selected(rows, platform, country, limit, offset);
    var res := ProjectAll(items);
    r := Success(Listing(|res|, res));
  }

  /** What a page lists: at most `limit` rows, each matching the filters,
      highest views first. */
  lemma SelectedProperties(rows: seq<Workflow>, platform: Option<string>, country: Option<string>, limit: nat, offset: nat)
    ensures var items := Selected(rows, platform, country, limit, offset);
      && |items| <= limit
      && Sorted(items)
      && forall k | 0 <= k < |items| :: items[k] in rows && Matches(items[k], platform, country)
  {
    var f := Filter(rows, platform, country);
    SortByViewsCorrect(f);
    var sorted := SortByViews(f);
    PageSorted(sorted, offset, limit);
    var items := Selected(rows, platform, country, limit, offset);
    forall k | 0 <= k < |items| ensures items[k] in rows && Matches(items[k], platform, country) {
      assert items[k] in multiset(sorted);
      assert items[k] in multiset(f);
      var j :| 0 <= j < |f| && f[j] == items[k];
    }
  }

  /** A page from offset 0 as large as the matching rows lists every one
      of them exactly once. */
  lemma FirstPageListsAll(rows: seq<Workflow>, platform: Option<string>, country: Option<string>, limit: nat)
    requires limit >= |Filter(rows, platform, country)|
    ensures multiset(Selected(rows, platform, country, limit, 0)) == multiset(Filter(rows, platform, country))
  {
    var f := Filter(rows, platform, country);
    SortByViewsCorrect(f);
    assert Page(SortByViews(f), 0, limit) == SortByViews(f);
  }
}
