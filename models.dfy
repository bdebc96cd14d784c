/** The `workflows` table of api/models.py: one row per workflow seen on one
    platform in one country. */
module Models {
  import opened Wrappers

  /** The `platform` column, `Enum('YouTube', 'Forum', 'Google')`. */
  datatype Platform = YouTube | Forum | Google

  /** The label the database stores and the listing reports. */
  function PlatformName(p: Platform): string {
    match p
    case YouTube => "YouTube"
    case Forum => "Forum"
    case Google => "Google"
  }

  /** The inverse of `PlatformName`: a label outside the enum names no
      platform. */
  function ParsePlatform(s: string): (r: Option<Platform>)
    ensures r.Some? ==> PlatformName(r.value) == s
    ensures r.None? ==> s != "YouTube" && s != "Forum" && s != "Google"
  {
    if s == "YouTube" then Some(YouTube)
    else if s == "Forum" then Some(Forum)
    else if s == "Google" then Some(Google)
    else None
  }

  /** Every platform has exactly one of the three labels, and the labels
      tell the platforms apart. */
  lemma PlatformLabels(p: Platform, q: Platform)
    ensures PlatformName(p) in {"YouTube", "Forum", "Google"}
    ensures ParsePlatform(PlatformName(p)) == Some(p)
    ensures PlatformName(p) == PlatformName(q) ==> p == q
  {
  }

  /** The pytrends result kept as the evidence of a Google row. */
  datatype TrendPayload = TrendPayload(
    query: string,
    geo: string,
    timeframe: string,
    avgRecent: real,
    changePct: real,
    series: seq<int>)

  /** The `evidence` JSON column: each collector writes its own shape and an
      upsert replaces it whole. */
  datatype Evidence =
    | ForumEvidence(topicId: Option<int>, views: int, replies: int, likes: int, contributors: int)
    | VideoEvidence(videoId: Option<string>, publishedAt: Option<string>)
    | TrendEvidence(payload: TrendPayload)  // {"type": "google_trends", "payload": ...}

  /** One row. The non-nullable columns (workflow_name, normalized_name,
      platform, country, evidence) are plain values; the counters and
      source_url are nullable. The server-side timestamps are not part of
      this model. */
  datatype Workflow = Workflow(
    id: nat,
    workflowName: string,
    normalizedName: string,
    platform: Platform,
    country: string,
    evidence: Evidence,
    views: Option<int>,
    likes: Option<int>,
    comments: Option<int>,
    replies: Option<int>,
    contributors: Option<int>,
    sourceUrl: Option<string>)

  /** The identity the collectors look a row up by. */
  datatype Key = Key(platform: Platform, normalizedName: string, country: string)

  function KeyOf(w: Workflow): Key {
    Key(w.platform, w.normalizedName, w.country)
  }

  /** `default=0` of the counter columns: a counter left out of an insert is
      stored as 0. */
  function ColumnDefault(supplied: Option<int>): (r: Option<int>)
    ensures r.Some?
    ensures supplied.Some? ==> r == supplied
    ensures supplied.None? ==> r == Some(0)
  {
    Some(supplied.GetOr(0))
  }

  const NameLength: nat := 512
  const CountryLength: nat := 8
  const UrlLength: nat := 1024

  /** A value a `BigInteger` column (signed 64 bits) can hold. */
  predicate InBigInt(x: Option<int>) {
    x.None? || -0x8000_0000_0000_0000 <= x.value < 0x8000_0000_0000_0000
  }

  /** A value an `Integer` column (signed 32 bits) can hold. */
  predicate InInteger(x: Option<int>) {
    x.None? || -0x8000_0000 <= x.value < 0x8000_0000
  }

  /** The row satisfies the column types: String(512) names, String(8)
      country, String(1024) source_url, BigInteger counters and an Integer
      contributors count. A strict-mode MySQL server refuses any other row. */
  predicate Fits(w: Workflow) {
    && |w.workflowName| <= NameLength
    && |w.normalizedName| <= NameLength
    && |w.country| <= CountryLength
    && (w.sourceUrl.Some? ==> |w.sourceUrl.value| <= UrlLength)
    && InBigInt(w.views) && InBigInt(w.likes) && InBigInt(w.comments) && InBigInt(w.replies)
    && InInteger(w.contributors)
  }
}
