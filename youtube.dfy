/** The video collector of collectors/youtube_collector.py: a search that
    yields video ids, a statistics fetch for a batch of ids, and
    `upsert_video`, which maps one video to a YouTube row. */
module YouTubeCollector {
  import opened Wrappers
  import opened Http
  import opened Models
  import opened Store

  /** A body that is JSON with an optional `items` list, or is not JSON. */
  datatype ItemsBody<T> = NotJsonBody | Items(items: Option<seq<T>>)

  datatype ApiError =
    | RequestFailed  // no response, or `raise_for_status()` raised
    | BadJson        // the body does not parse
    | NullId         // a search result's `id` is null, so reading `videoId` from it raises

  /** The `items` of a response, or why there are none. */
  function ItemsOf<T>(o: HttpOutcome<ItemsBody<T>>): (r: Result<seq<T>, ApiError>)
    ensures r.Success? <==> !Failed(o) && o.body.Items?
    ensures r.Success? ==> r.value == o.body.items.GetOr([])
  {
    if Failed(o) then Failure(RequestFailed)
    else match o.body
      case NotJsonBody => Failure(BadJson)
      case Items(items) => Success(items.GetOr([]))
  }

  // ---------------------------------------------------------------------
  // search_videos

  /** The parameters of the search request that depend on the caller. */
  datatype SearchRequest = SearchRequest(query: string, regionCode: string, maxResults: int)

  /** A search result. `SearchItem` is one whose `id` is an object or is
      absent (read as an empty object); `videoId` is that object's video
      id, None when the key is absent or null. `NullIdItem` is one whose
      `id` is present but null. */
  datatype SearchItem = SearchItem(videoId: Option<string>) | NullIdItem

  /** The ids of the results that carry a non-empty video id, in order. */
  function ExtractVideoIds(items: seq<SearchItem>): (r: seq<string>)
    ensures |r| <= |items|
    ensures forall i | 0 <= i < |r| :: r[i] != []
    decreases |items|
  {
    if items == [] then []
    else
      var rest := ExtractVideoIds(items[1..]);
      if items[0].SearchItem? && Truthy(items[0].videoId) then [items[0].videoId.value] + rest else rest
  }

  /** Exactly the non-empty ids of the results are kept. */
  lemma {:induction false} ExtractVideoIdsMembers(items: seq<SearchItem>, v: string)
    ensures v in ExtractVideoIds(items) <==>
      v != [] && exists i | 0 <= i < |items| :: items[i] == SearchItem(Some(v))
    decreases |items|
  {
    if items != [] {
      ExtractVideoIdsMembers(items[1..], v);
      if exists i | 0 <= i < |items[1..]| :: items[1..][i] == SearchItem(Some(v)) {
        var i :| 0 <= i < |items[1..]| && items[1..][i] == SearchItem(Some(v));
        assert items[i + 1] == SearchItem(Some(v));
      }
      if exists i | 0 <= i < |items| :: items[i] == SearchItem(Some(v)) {
        var i :| 0 <= i < |items| && items[i] == SearchItem(Some(v));
        if i > 0 {
          assert items[1..][i - 1] == SearchItem(Some(v));
        }
      }
    }
  }

  /** The ids keep the order of the results: filtering distributes over
      concatenation. */
  lemma {:induction false} ExtractVideoIdsAppend(a: seq<SearchItem>, b: seq<SearchItem>)
    ensures ExtractVideoIds(a + b) == ExtractVideoIds(a) + ExtractVideoIds(b)
    decreases |a|
  {
    if a == [] {
      assert a + b == b;
    } else {
      assert (a + b)[0] == a[0] && (a + b)[1..] == a[1..] + b;
      ExtractVideoIdsAppend(a[1..], b);
    }
  }

  /** Whether some result has a null `id`. */
  predicate HasNullId(items: seq<SearchItem>) {
    exists i | 0 <= i < |items| :: items[i].NullIdItem?
  }

  /** `search_videos(query, region_code, max_results)`: one request, no
      retry; an error response or unparseable body raises, and so does a
      result whose `id` is null, whichever position it holds. */
  function SearchVideos(req: SearchRequest, server: SearchRequest -> HttpOutcome<ItemsBody<SearchItem>>)
    : (r: Result<seq<string>, ApiError>)
    ensures ItemsOf(server(req)).Failure? ==> r == Failure(ItemsOf(server(req)).error)
    ensures ItemsOf(server(req)).Success? && HasNullId(ItemsOf(server(req)).value) ==> r == Failure(NullId)
    ensures ItemsOf(server(req)).Success? && !HasNullId(ItemsOf(server(req)).value) ==>
      r == Success(ExtractVideoIds(ItemsOf(server(req)).value))
  {
    match ItemsOf(server(req))
    case Failure(e) => Failure(e)
    case Success(items) =>
      if HasNullId(items) then Failure(NullId) else Success(ExtractVideoIds(items))
  }

  // ---------------------------------------------------------------------
  // fetch_video_stats

  /** The ids joined into one string, separated by commas. */
  function JoinComma(ids: seq<string>): string
    decreases |ids|
  {
    if ids == [] then "" else if |ids| == 1 then ids[0] else ids[0] + "," + JoinComma(ids[1..])
  }

  /** `s.split(",")`, the inverse the API applies to the `id` parameter. */
  function SplitComma(s: string): (r: seq<string>)
    ensures r != []
    decreases |s|
  {
    if s == [] then [""]
    else
      var rest := SplitComma(s[1..]);
      if s[0] == ',' then [""] + rest else [[s[0]] + rest[0]] + rest[1..]
  }

  ghost predicate NoComma(w: string) {
    forall i | 0 <= i < |w| :: w[i] != ','
  }

  lemma {:induction false} SplitWord(w: string, t: string)
    requires NoComma(w)
    ensures SplitComma(w) == [w]
    ensures SplitComma(w + "," + t) == [w] + SplitComma(t)
    decreases |w|
  {
    if w == [] {
      assert w + "," + t == [','] + t;
      assert ([','] + t)[1..] == t;
    } else {
      SplitWord(w[1..], t);
      assert (w + "," + t)[1..] == w[1..] + "," + t;
      assert [w[0]] + w[1..] == w;
    }
  }

  /** Splitting the joined ids gives the ids back, as long as no id
      contains a comma. */
  lemma {:induction false} JoinCommaRoundTrip(ids: seq<string>)
    requires ids != []
    requires forall i | 0 <= i < |ids| :: NoComma(ids[i])
    ensures SplitComma(JoinComma(ids)) == ids
    decreases |ids|
  {
    if |ids| == 1 {
      SplitWord(ids[0], "");
    } else {
      SplitWord(ids[0], JoinComma(ids[1..]));
      JoinCommaRoundTrip(ids[1..]);
    }
  }

  /** The `statistics` counts of a video, each None when absent. */
  datatype VideoStats = VideoStats(viewCount: Option<int>, likeCount: Option<int>, commentCount: Option<int>)

  /** A video as `videos.list` returns it. `title` is None when the key (or
      the snippet) is absent and Some(None) when it is null. */
  datatype VideoItem = VideoItem(
    id: Option<string>,
    statistics: VideoStats,
    title: Option<Option<string>>,
    publishedAt: Option<string>)

  /** What a fetch did: the `id` parameter it sent, if it sent a request,
      and what it returned. */
  datatype Fetched = Fetched(sent: Option<string>, result: Result<seq<VideoItem>, ApiError>)

  /** `fetch_video_stats(video_ids)`: no ids, no request and no items;
      otherwise one request for all ids, joined by commas. */
  function FetchVideoStats(ids: seq<string>, server: string -> HttpOutcome<ItemsBody<VideoItem>>): (r: Fetched)
    ensures r.sent.None? <==> ids == []
    ensures ids == [] ==> r.result == Success([])
    ensures ids != [] ==> r.sent == Some(JoinComma(ids)) && r.result == ItemsOf(server(JoinComma(ids)))
  {
    if ids == [] then Fetched(None, Success([]))
    else
      var param := JoinComma(ids);
      Fetched(Some(param), ItemsOf(server(param)))
  }

  // ---------------------------------------------------------------------
  // upsert_video

  const WatchPrefix: string := "https://youtube.com/watch?v="

  /** The watch page of a video: the watch prefix followed by the id, or by
      "None", as Python formats a missing id. */
  function VideoUrl(vid: Option<string>): (r: string)
    ensures |r| >= |WatchPrefix| && r[..|WatchPrefix|] == WatchPrefix
    ensures vid.Some? ==> r[|WatchPrefix|..] == vid.value
    ensures vid.None? ==> r[|WatchPrefix|..] == "None"
  {
    WatchPrefix + vid.GetOr("None")
  }

  /** `snippet.title` with the default "Untitled" when absent; None when
      null. */
  function VideoTitle(item: VideoItem): Option<string> {
    match item.title
    case None => Some("Untitled")
    case Some(v) => v
  }

  /** The observation `upsert_video` writes: the three statistics (0 when
      absent), no replies or contributors, the video evidence and the watch
      URL. */
  function VideoObservation(item: VideoItem, title: string, country: string): Observation {
    Observation(
      YouTube, title, country,
      Some(OrZero(item.statistics.viewCount)), Some(OrZero(item.statistics.likeCount)),
      Some(OrZero(item.statistics.commentCount)), None, None,
      VideoEvidence(item.id, item.publishedAt), Some(VideoUrl(item.id)))
  }

  /** Missing statistics count as 0 and a missing title as "Untitled"; a
      missing id still yields a URL, ending in "None". */
  lemma VideoDefaults(item: VideoItem, country: string)
    requires item.statistics == VideoStats(None, None, None) && item.title.None?
    ensures VideoTitle(item) == Some("Untitled")
    ensures var o := VideoObservation(item, "Untitled", country);
      o.views == Some(0) && o.likes == Some(0) && o.comments == Some(0)
  {
  }

  /** On an existing YouTube row an upsert raises views, likes and comments
      to the larger of stored (null as 0) and incoming, replaces evidence,
      source URL and name, and leaves replies, contributors, the key and the
      id alone. */
  lemma VideoMergeFields(w: Workflow, item: VideoItem, title: string, country: string)
    ensures var w' := Merge(w, VideoObservation(item, title, country));
      && w'.views == Some(Max(OrZero(w.views), OrZero(item.statistics.viewCount)))
      && w'.likes == Some(Max(OrZero(w.likes), OrZero(item.statistics.likeCount)))
      && w'.comments == Some(Max(OrZero(w.comments), OrZero(item.statistics.commentCount)))
      && w'.replies == w.replies && w'.contributors == w.contributors
      && w'.evidence == VideoEvidence(item.id, item.publishedAt)
      && w'.sourceUrl == Some(VideoUrl(item.id)) && w'.workflowName == title
      && KeyOf(w') == KeyOf(w) && w'.id == w.id
  {
  }

  /** A video never writes replies or contributors: a new row gets the
      column default 0, and an existing row keeps what it had. */
  lemma VideoLeavesForumCounters(t: Table, item: VideoItem, title: string, country: string, i: nat)
    requires i < |t.rows|
    ensures var o := VideoObservation(item, title, country);
      var t' := Upserted(t, o);
      && t'.rows[i].replies == t.rows[i].replies
      && t'.rows[i].contributors == t.rows[i].contributors
      && (|t'.rows| > |t.rows| ==> t'.rows[|t.rows|].replies == Some(0) && t'.rows[|t.rows|].contributors == Some(0))
  {
    var o := VideoObservation(item, title, country);
    UpsertTouchesOnlyItsKey(t, o);
    match FindRow(t.rows, KeyOfObservation(o))
    case Some(j) =>
      CountOfMerge(t.rows[j], o, Replies);
      CountOfMerge(t.rows[j], o, Contributors);
    case None =>
  }

  /** Two videos whose titles normalise alike update the same row: the
      later one adds no second row, the key still resolves to the row the
      first one left, and that row is the later video merged into it. */
  lemma SameTitleSameRow(t: Table, a: VideoItem, b: VideoItem, ta: string, tb: string, country: string)
    requires Normalize.Normalize(ta) == Normalize.Normalize(tb)
    ensures var t1 := Upserted(t, VideoObservation(a, ta, country));
      var t2 := Upserted(t1, VideoObservation(b, tb, country));
      var k := KeyOfObservation(VideoObservation(a, ta, country));
      && |t2.rows| == |t1.rows|
      && FindRow(t1.rows, k).Some?
      && FindRow(t2.rows, k) == FindRow(t1.rows, k)
      && t2.rows[FindRow(t1.rows, k).value] == Merge(t1.rows[FindRow(t1.rows, k).value], VideoObservation(b, tb, country))
  {
    var oa := VideoObservation(a, ta, country);
    var ob := VideoObservation(b, tb, country);
    var t1 := Upserted(t, oa);
    assert KeyOfObservation(oa) == KeyOfObservation(ob);
    UpsertShape(t, oa);
    FindRowAfterUpsert(t, oa);
    UpsertShape(t1, ob);
    FindRowAfterUpsert(t1, ob);
  }

  /** `upsert_video(item, country)`. A null title leaves `workflow_name`
      null, which the NOT NULL column refuses at commit. */
  method UpsertVideo(store: WorkflowStore, item: VideoItem, country: string, serverCommits: bool)
    returns (r: Result<bool, UpsertError>)
    requires store.Valid()
    modifies store
    ensures store.Valid()
    ensures VideoTitle(item).None? ==> r == Failure(RowRejected)
    ensures VideoTitle(item).Some? ==>
      var o := VideoObservation(item, VideoTitle(item).value, country);
      && (r.Success? <==> serverCommits && Fits(WrittenRow(old(store.Contents()), o)))
      && (r.Success? ==> store.Contents() == Upserted(old(store.Contents()), o))
    ensures r.Failure? ==> store.rows == old(store.rows) && store.nextId == old(store.nextId)
  {
    var title := VideoTitle(item);
    if title.None? {
      return Failure(RowRejected);
    }
    r := store.Upsert(VideoObservation(item, title.value, country), serverCommits);
  }
}
