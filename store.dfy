/** The find-then-merge-or-insert every collector performs on the
    `workflows` table (collectors/discourse_collector.py:83-112,
    collectors/youtube_collector.py:49-76, collectors/trends_collector.py:68-101).
    A collector first maps its item to an `Observation`; the upsert then looks
    up the row for (platform, normalised title, country), takes the maximum
    of the counters its platform merges, replaces the display fields and the
    evidence, or inserts a new row. */
module Store {
  import opened Wrappers
  import opened Models
  import Normalize

  /** What a collector hands over for one item. A counter that the
      collector's insert does not supply is None and gets the column
      default. */
  datatype Observation = Observation(
    platform: Platform,
    title: string,
    country: string,
    views: Option<int>,
    likes: Option<int>,
    comments: Option<int>,
    replies: Option<int>,
    contributors: Option<int>,
    evidence: Evidence,
    sourceUrl: Option<string>)

  function KeyOfObservation(o: Observation): Key {
    Key(o.platform, Normalize.Normalize(o.title), o.country)
  }

  datatype Counter = Views | Likes | Comments | Replies | Contributors

  function Count(w: Workflow, c: Counter): Option<int> {
    match c
    case Views => w.views
    case Likes => w.likes
    case Comments => w.comments
    case Replies => w.replies
    case Contributors => w.contributors
  }

  function Incoming(o: Observation, c: Counter): Option<int> {
    match c
    case Views => o.views
    case Likes => o.likes
    case Comments => o.comments
    case Replies => o.replies
    case Contributors => o.contributors
  }

  /** The counters an update on each platform raises to the maximum: the
      forum all but comments, YouTube views, likes and comments, Google
      views only. */
  predicate Merges(p: Platform, c: Counter) {
    match p
    case Forum => c != Comments
    case YouTube => c == Views || c == Likes || c == Comments
    case Google => c == Views
  }

  /** A counter the platform merges becomes the larger of the stored and
      the incoming value, each null read as 0; any other counter is left as
      stored. */
  function MergedCount(p: Platform, c: Counter, stored: Option<int>, incoming: Option<int>): Option<int> {
    if Merges(p, c) then Some(Max(OrZero(stored), OrZero(incoming))) else stored
  }

  /** The in-place update of a found row. */
  function Merge(w: Workflow, o: Observation): Workflow {
    w.(
      workflowName := o.title,
      evidence := o.evidence,
      sourceUrl := if o.platform == Google then w.sourceUrl else o.sourceUrl,
      views := MergedCount(o.platform, Views, w.views, o.views),
      likes := MergedCount(o.platform, Likes, w.likes, o.likes),
      comments := MergedCount(o.platform, Comments, w.comments, o.comments),
      replies := MergedCount(o.platform, Replies, w.replies, o.replies),
      contributors := MergedCount(o.platform, Contributors, w.contributors, o.contributors))
  }

  /** The row `Workflow(...)` adds when no row has the key. */
  function NewRow(o: Observation, id: nat): Workflow {
    Workflow(
      id, o.title, Normalize.Normalize(o.title), o.platform, o.country, o.evidence,
      ColumnDefault(o.views), ColumnDefault(o.likes), ColumnDefault(o.comments),
      ColumnDefault(o.replies), ColumnDefault(o.contributors), o.sourceUrl)
  }

  lemma CountOfMerge(w: Workflow, o: Observation, c: Counter)
    ensures Count(Merge(w, o), c) == MergedCount(o.platform, c, Count(w, c), Incoming(o, c))
  {
  }

  /** A merge never moves a row to another key or changes its id. */
  lemma MergeKeepsIdentity(w: Workflow, o: Observation)
    ensures KeyOf(Merge(w, o)) == KeyOf(w) && Merge(w, o).id == w.id
  {
  }

  lemma CountOfNewRow(o: Observation, id: nat, c: Counter)
    ensures Count(NewRow(o, id), c) == ColumnDefault(Incoming(o, c))
  {
  }

  /** The lookup by platform, normalised name and country: the first row
      with the key, if any. */
  function FindRow(rows: seq<Workflow>, k: Key): (r: Option<nat>)
    ensures r.Some? ==> r.value < |rows| && KeyOf(rows[r.value]) == k
    ensures r.Some? ==> forall j | 0 <= j < r.value :: KeyOf(rows[j]) != k
    ensures r.None? ==> forall j | 0 <= j < |rows| :: KeyOf(rows[j]) != k
  {
    if rows == [] then None
    else if KeyOf(rows[0]) == k then Some(0)
    else match FindRow(rows[1..], k)
      case None => None
      case Some(i) => Some(i + 1)
  }

  /** The table as a value: its rows in insertion order and the next
      auto-increment id. */
  datatype Table = Table(rows: seq<Workflow>, nextId: nat)

  /** The row one upsert writes: the found row merged, or a new row. */
  function WrittenRow(t: Table, o: Observation): Workflow {
    match FindRow(t.rows, KeyOfObservation(o))
    case Some(i) => Merge(t.rows[i], o)
    case None => NewRow(o, t.nextId)
  }

  /** The table after one committed upsert. */
  function Upserted(t: Table, o: Observation): Table {
    match FindRow(t.rows, KeyOfObservation(o))
    case Some(i) => Table(t.rows[i := Merge(t.rows[i], o)], t.nextId)
    case None => Table(t.rows + [NewRow(o, t.nextId)], t.nextId + 1)
  }

  /** At most one row per key. The schema has no unique constraint, so this
      rests on the collectors' find-then-insert alone. */
  ghost predicate UniqueKeys(rows: seq<Workflow>) {
    forall i, j | 0 <= i < j < |rows| :: KeyOf(rows[i]) != KeyOf(rows[j])
  }

  /** Auto-increment ids grow along the table and stay below the next id. */
  ghost predicate IdsIncreasing(t: Table) {
    && (forall i | 0 <= i < |t.rows| :: t.rows[i].id < t.nextId)
    && (forall i, j | 0 <= i < j < |t.rows| :: t.rows[i].id < t.rows[j].id)
  }

  ghost predicate ValidTable(t: Table) {
    && UniqueKeys(t.rows)
    && IdsIncreasing(t)
    && (forall i | 0 <= i < |t.rows| :: Fits(t.rows[i]))
  }

  // ---------------------------------------------------------------------
  // One upsert

  /** An upsert merges into the row of its key when there is one and adds
      exactly one row otherwise; afterwards the key has a row. */
  lemma UpsertShape(t: Table, o: Observation)
    ensures FindRow(t.rows, KeyOfObservation(o)).Some? ==> |Upserted(t, o).rows| == |t.rows|
    ensures FindRow(t.rows, KeyOfObservation(o)).None? ==> |Upserted(t, o).rows| == |t.rows| + 1
    ensures FindRow(Upserted(t, o).rows, KeyOfObservation(o)).Some?
  {
    var k := KeyOfObservation(o);
    var t' := Upserted(t, o);
    match FindRow(t.rows, k)
    case Some(i) =>
      assert KeyOf(t'.rows[i]) == k;
    case None =>
      assert KeyOf(t'.rows[|t.rows|]) == k;
  }

  /** Every other row is left as it was: a row whose key differs is never
      touched, and a new row only ever goes at the end. */
  lemma UpsertTouchesOnlyItsKey(t: Table, o: Observation)
    ensures |Upserted(t, o).rows| >= |t.rows|
    ensures forall i | 0 <= i < |t.rows| && KeyOf(t.rows[i]) != KeyOfObservation(o) ::
      Upserted(t, o).rows[i] == t.rows[i]
    ensures forall i | |t.rows| <= i < |Upserted(t, o).rows| ::
      KeyOf(Upserted(t, o).rows[i]) == KeyOfObservation(o)
  {
  }

  /** Sequential upserts never create a second row for a key. */
  lemma UpsertKeepsKeysUnique(t: Table, o: Observation)
    requires UniqueKeys(t.rows)
    ensures UniqueKeys(Upserted(t, o).rows)
  {
    var k := KeyOfObservation(o);
    var rows' := Upserted(t, o).rows;
    match FindRow(t.rows, k)
    case Some(i) =>
      forall a, b | 0 <= a < b < |rows'| ensures KeyOf(rows'[a]) != KeyOf(rows'[b]) {
        assert KeyOf(rows'[a]) == KeyOf(t.rows[a]) && KeyOf(rows'[b]) == KeyOf(t.rows[b]);
      }
    case None =>
      forall a, b | 0 <= a < b < |rows'| ensures KeyOf(rows'[a]) != KeyOf(rows'[b]) {
        if b == |t.rows| {
          assert KeyOf(rows'[b]) == k && rows'[a] == t.rows[a];
        }
      }
  }

  lemma UpsertKeepsIds(t: Table, o: Observation)
    requires IdsIncreasing(t)
    ensures IdsIncreasing(Upserted(t, o))
    ensures Upserted(t, o).nextId >= t.nextId
  {
  }

  /** The stored counters never go down: each merged counter becomes the
      maximum of the stored value (null read as 0) and the incoming one. */
  lemma UpsertNeverLowersCounters(t: Table, o: Observation, i: nat, c: Counter)
    requires i < |t.rows|
    ensures i < |Upserted(t, o).rows|
    ensures OrZero(Count(Upserted(t, o).rows[i], c)) >= OrZero(Count(t.rows[i], c))
  {
    match FindRow(t.rows, KeyOfObservation(o))
    case Some(j) =>
      if i == j {
        CountOfMerge(t.rows[i], o, c);
      }
    case None =>
  }

  lemma FindRowAfterUpdate(rows: seq<Workflow>, k: Key, i: nat, w: Workflow)
    requires FindRow(rows, k) == Some(i) && KeyOf(w) == k
    ensures FindRow(rows[i := w], k) == Some(i)
  {
    var rows' := rows[i := w];
    var r := FindRow(rows', k);
    assert KeyOf(rows'[i]) == k;
    assert forall j | 0 <= j < i :: rows'[j] == rows[j];
  }

  lemma FindRowAfterAppend(rows: seq<Workflow>, k: Key, w: Workflow)
    requires FindRow(rows, k).None? && KeyOf(w) == k
    ensures FindRow(rows + [w], k) == Some(|rows|)
  {
    var rows' := rows + [w];
    var r := FindRow(rows', k);
    assert KeyOf(rows'[|rows|]) == k;
    assert forall j | 0 <= j < |rows| :: rows'[j] == rows[j];
  }

  /** Where the key's row is after an upsert. */
  lemma FindRowAfterUpsert(t: Table, o: Observation)
    ensures FindRow(Upserted(t, o).rows, KeyOfObservation(o))
      == Some(match FindRow(t.rows, KeyOfObservation(o)) case Some(i) => i case None => |t.rows|)
  {
    var k := KeyOfObservation(o);
    match FindRow(t.rows, k)
    case Some(i) =>
      FindRowAfterUpdate(t.rows, k, i, Merge(t.rows[i], o));
    case None =>
      FindRowAfterAppend(t.rows, k, NewRow(o, t.nextId));
  }

  lemma MergeIdempotent(w: Workflow, o: Observation)
    ensures Merge(Merge(w, o), o) == Merge(w, o)
  {
  }

  /** Upserting the same observation twice leaves the table as upserting it
      once does. */
  lemma UpsertIdempotent(t: Table, o: Observation)
    ensures Upserted(Upserted(t, o), o) == Upserted(t, o)
  {
    var k := KeyOfObservation(o);
    var t1 := Upserted(t, o);
    FindRowAfterUpsert(t, o);
    match FindRow(t.rows, k)
    case Some(i) =>
      MergeIdempotent(t.rows[i], o);
      assert t1.rows[i] == Merge(t.rows[i], o);
    case None =>
      var n := NewRow(o, t.nextId);
      assert t1.rows[|t.rows|] == n;
      assert Merge(n, o) == n;
  }

  /** Observations whose platform or country differ have different keys,
      so an upsert of one never touches the row of the other. */
  lemma DistinctPlatformsOrCountriesNeverMerge(t: Table, o1: Observation, o2: Observation, i: nat)
    requires o1.platform != o2.platform || o1.country != o2.country
    requires i < |t.rows| && KeyOf(t.rows[i]) == KeyOfObservation(o1)
    ensures Upserted(t, o2).rows[i] == t.rows[i]
  {
    UpsertTouchesOnlyItsKey(t, o2);
  }

  // ---------------------------------------------------------------------
  // A run of upserts

  /** The table after committing `os` one after another. */
  function UpsertAll(t: Table, os: seq<Observation>): Table
    decreases |os|
  {
    if os == [] then t else UpsertAll(Upserted(t, os[0]), os[1..])
  }

  /** The largest value of counter `c` among the observations, a missing
      value read as 0. */
  function MaxSeen(os: seq<Observation>, c: Counter): (m: int)
    requires os != []
    ensures forall i | 0 <= i < |os| :: OrZero(Incoming(os[i], c)) <= m
    ensures exists i | 0 <= i < |os| :: OrZero(Incoming(os[i], c)) == m
    decreases |os|
  {
    if |os| == 1 then OrZero(Incoming(os[0], c))
    else
      var rest := MaxSeen(os[1..], c);
      assert forall i | 1 <= i < |os| :: os[i] == os[1..][i - 1];
      Max(OrZero(Incoming(os[0], c)), rest)
  }

  lemma {:induction false} UpsertAllKeepsKeysUnique(t: Table, os: seq<Observation>)
    requires UniqueKeys(t.rows)
    ensures UniqueKeys(UpsertAll(t, os).rows)
    decreases |os|
  {
    if os != [] {
      UpsertKeepsKeysUnique(t, os[0]);
      UpsertAllKeepsKeysUnique(Upserted(t, os[0]), os[1..]);
    }
  }

  /** The row after merging every observation of a run into it, in order. */
  function MergeAll(w: Workflow, os: seq<Observation>): Workflow
    decreases |os|
  {
    if os == [] then w else MergeAll(Merge(w, os[0]), os[1..])
  }

  lemma KeyOfTail(os: seq<Observation>, k: Key)
    requires os != []
    requires forall j | 0 <= j < |os| :: KeyOfObservation(os[j]) == k
    ensures forall j | 0 <= j < |os[1..]| :: KeyOfObservation(os[1..][j]) == k
  {
    forall j | 0 <= j < |os[1..]| ensures KeyOfObservation(os[1..][j]) == k {
      assert os[1..][j] == os[j + 1];
    }
  }

  /** On a key that already has a row, a run of upserts for that key keeps
      the row where it is and merges every observation into it in turn. */
  lemma {:induction false} RunOnExistingRow(t: Table, os: seq<Observation>, k: Key, i: nat)
    requires forall j | 0 <= j < |os| :: KeyOfObservation(os[j]) == k
    requires FindRow(t.rows, k) == Some(i)
    ensures FindRow(UpsertAll(t, os).rows, k) == Some(i)
    ensures UpsertAll(t, os).rows[i] == MergeAll(t.rows[i], os)
    decreases |os|
  {
    if os != [] {
      var o := os[0];
      var t1 := Upserted(t, o);
      assert KeyOfObservation(o) == k;
      FindRowAfterUpsert(t, o);
      assert t1.rows[i] == Merge(t.rows[i], o);
      KeyOfTail(os, k);
      RunOnExistingRow(t1, os[1..], k, i);
    }
  }

  /** Merging a run of observations of one platform leaves each merged
      counter at the maximum of its stored value (null read as 0) and every
      value seen, and every other counter as stored. */
  lemma {:induction false} MergeAllCounts(w: Workflow, os: seq<Observation>, p: Platform, c: Counter)
    requires forall j | 0 <= j < |os| :: os[j].platform == p
    ensures os != [] && Merges(p, c) ==>
      Count(MergeAll(w, os), c) == Some(Max(OrZero(Count(w, c)), MaxSeen(os, c)))
    ensures !Merges(p, c) ==> Count(MergeAll(w, os), c) == Count(w, c)
    decreases |os|
  {
    if os != [] {
      var o := os[0];
      CountOfMerge(w, o, c);
      PlatformOfTail(os, p);
      MergeAllCounts(Merge(w, o), os[1..], p, c);
      if |os| > 1 && Merges(p, c) {
        MaxSeenCons(os, c);
      }
    }
  }

  lemma PlatformOfTail(os: seq<Observation>, p: Platform)
    requires os != []
    requires forall j | 0 <= j < |os| :: os[j].platform == p
    ensures forall j | 0 <= j < |os[1..]| :: os[1..][j].platform == p
  {
    forall j | 0 <= j < |os[1..]| ensures os[1..][j].platform == p {
      assert os[1..][j] == os[j + 1];
    }
  }

  lemma MaxSeenCons(os: seq<Observation>, c: Counter)
    requires |os| > 1
    ensures MaxSeen(os, c) == Max(OrZero(Incoming(os[0], c)), MaxSeen(os[1..], c))
  {
  }

  /** On a key that already has a row, a run of upserts for that key leaves
      every merged counter at the maximum of its stored value and all values
      seen, and every other counter as stored. */
  lemma RunningMaxOnExistingRow(t: Table, os: seq<Observation>, k: Key, i: nat, c: Counter)
    requires forall j | 0 <= j < |os| :: KeyOfObservation(os[j]) == k
    requires FindRow(t.rows, k) == Some(i)
    ensures FindRow(UpsertAll(t, os).rows, k) == Some(i)
    ensures os != [] && Merges(k.platform, c) ==>
      Count(UpsertAll(t, os).rows[i], c) == Some(Max(OrZero(Count(t.rows[i], c)), MaxSeen(os, c)))
    ensures !Merges(k.platform, c) ==> Count(UpsertAll(t, os).rows[i], c) == Count(t.rows[i], c)
  {
    RunOnExistingRow(t, os, k, i);
    assert forall j | 0 <= j < |os| :: os[j].platform == k.platform by {
      forall j | 0 <= j < |os| ensures os[j].platform == k.platform {
        assert KeyOfObservation(os[j]) == k;
      }
    }
    MergeAllCounts(t.rows[i], os, k.platform, c);
  }

  /** On a key with no row yet, a run of upserts for that key creates one
      row, at the end of the table, whose merged counters hold the maximum
      of all values seen. */
  lemma RunningMaxOnNewRow(t: Table, os: seq<Observation>, k: Key, c: Counter)
    requires os != []
    requires forall j | 0 <= j < |os| :: KeyOfObservation(os[j]) == k
    requires FindRow(t.rows, k).None?
    requires Merges(k.platform, c)
    ensures FindRow(UpsertAll(t, os).rows, k) == Some(|t.rows|)
    ensures Count(UpsertAll(t, os).rows[|t.rows|], c) == Some(MaxSeen(os, c))
  {
    var o := os[0];
    var t1 := Upserted(t, o);
    assert KeyOfObservation(o) == k;
    FindRowAfterUpsert(t, o);
    assert t1.rows[|t.rows|] == NewRow(o, t.nextId);
    CountOfNewRow(o, t.nextId, c);
    KeyOfTail(os, k);
    RunningMaxOnExistingRow(t1, os[1..], k, |t.rows|, c);
    if |os| > 1 {
      MaxSeenCons(os, c);
    }
  }

  // ---------------------------------------------------------------------
  // The table in memory

  /** Why an upsert was rolled back. */
  datatype UpsertError =
    | ServerError  // the database refused or lost the commit
    | RowRejected  // a value does not fit its column

  /** The `workflows` table. Each upsert runs in its own session: it stages
      the merged or new row, and on commit either the whole change lands or
      the session is rolled back, the table is left as it was and the error
      goes back to the caller. */
  class WorkflowStore {
    var rows: seq<Workflow>
    var nextId: nat

    function Contents(): Table
      reads this
    {
      Table(rows, nextId)
    }

    ghost predicate Valid()
      reads this
    {
      ValidTable(Contents())
    }

    constructor ()
      ensures Valid() && rows == [] && nextId == 1
    {
      rows := [];
      nextId := 1;
    }

    /** Find the row of the observation's key, merge into it or insert a
        new one, and commit; `serverCommits` is whether the database server
        accepts the commit. */
    method Upsert(o: Observation, serverCommits: bool) returns (r: Result<bool, UpsertError>)
      requires Valid()
      modifies this
      ensures Valid()
      ensures r.Success? <==> serverCommits && Fits(WrittenRow(old(Contents()), o))
      ensures r.Success? ==> r.value && Contents() == Upserted(old(Contents()), o)
      ensures r.Failure? ==> rows == old(rows) && nextId == old(nextId)
      ensures r == Failure(RowRejected) <==> !Fits(WrittenRow(old(Contents()), o))
    {
      var found := FindRow(rows, KeyOfObservation(o));
      var row: Workflow;
      if found.Some? {
        row := Merge(rows[found.value], o);
      } else {
        row := NewRow(o, nextId);
      }
      if !Fits(row) {
        return Failure(RowRejected);
      }
      if !serverCommits {
        return Failure(ServerError);
      }
      ghost var before := Contents();
      if found.Some? {
        rows := rows[found.value := row];
      } else {
        rows := rows + [row];
        nextId := nextId + 1;
      }
      UpsertKeepsKeysUnique(before, o);
      UpsertKeepsIds(before, o);
      r := Success(true);
    }
  }
}
