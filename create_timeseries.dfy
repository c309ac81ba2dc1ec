/** The date-enrichment pass of `src/create_timeseries.py`. For each movie directory it picks
    the sentiment table, drops rows without an id or with a known-dead id, looks the remaining
    ids up in label-range batches, writes the date part of each returned `created_at` back
    into the matching rows, and saves a `_date.csv` copy. The lookup endpoint (with its retry
    and sleep policy), the CSV reader and the directory scan are parameters. */
module Timeseries {
  import opened Wrappers
  import opened Strings
  import opened Paths
  import TwitterApi

  /** Ids the lookup endpoint no longer resolves; a batch holding one fails as a whole. */
  const FailingIds: seq<int> := [1514335562576052224, 1534314350307069952]

  /** Batch starts advance by 99 labels; `.loc[i:i+99]` spans 100 labels. */
  const BatchStep: nat := 99

  /** The request count at which `main` pauses before the next movie. */
  const PauseThreshold: nat := 299

  const LookupPrefix := "https://api.twitter.com/2/tweets?ids="
  const LookupSuffix := "&tweet.fields=id,created_at"

  function Min(a: int, b: int): int { if a <= b then a else b }
  function Max(a: int, b: int): int { if a <= b then b else a }

  // ---------------------------------------------------------------- request construction

  /** `create_url`: the lookup endpoint with the id list and the field selection. */
  function CreateUrl(tweetIds: string): (url: string)
  {
    LookupPrefix + tweetIds + LookupSuffix
  }

  /** The id list sits between the fixed prefix and the field selection. */
  lemma CreateUrlShape(tweetIds: string)
    ensures var url := CreateUrl(tweetIds);
      && StartsWith(url, LookupPrefix) && EndsWith(url, LookupSuffix)
      && |url| == |LookupPrefix| + |tweetIds| + |LookupSuffix|
      && url[|LookupPrefix|..|url| - |LookupSuffix|] == tweetIds
  {
    var url := CreateUrl(tweetIds);
    assert url[..|LookupPrefix|] == LookupPrefix;
    assert url[|url| - |LookupSuffix|..] == LookupSuffix;
  }

  /** `map(str, map(int, ids))` */
  function IdStrings(ids: seq<int>): (parts: seq<string>)
  {
    seq(|ids|, k requires 0 <= k < |ids| => IntToString(ids[k]))
  }

  /** `','.join(map(str, map(int, ids)))` */
  function IdsString(ids: seq<int>): string
  {
    Join(IdStrings(ids), ',')
  }

  /** The id list in a lookup URL, split on ',' and parsed, gives back the batch in order. */
  lemma LookupUrlRoundTrip(ids: seq<int>)
    requires |ids| > 0
    ensures var url := CreateUrl(IdsString(ids));
      var parts := Split(url[|LookupPrefix|..|url| - |LookupSuffix|], ',');
      && |parts| == |ids|
      && forall k :: 0 <= k < |ids| ==> IsInteger(parts[k]) && ParseInt(parts[k]) == ids[k]
  {
    var parts := IdStrings(ids);
    forall k | 0 <= k < |ids|
      ensures ',' !in parts[k] && IsInteger(parts[k]) && ParseInt(parts[k]) == ids[k]
    {
      assert parts[k] == IntToString(ids[k]);
      IntToStringRoundTrip(ids[k]);
    }
    SplitJoin(parts, ',');
    CreateUrlShape(IdsString(ids));
  }

  // ---------------------------------------------------------------- the table

  /** The `date` column: the float 0 that `assign` puts there, or a date string. */
  datatype DateCell = Zero | Day(text: string)

  /** A row of the sentiment table as the pass sees it: its index label (its position in the
      file), its id and its date column. */
  datatype Row = Row(index: nat, id: int, date: DateCell)

  /** A row survives `notna()` and `~isin(failing_ids)`. */
  predicate Kept(id: Option<int>)
  {
    id.Some? && id.value !in FailingIds
  }

  predicate LabelsIncreasing(rows: seq<Row>)
  {
    forall a, b :: 0 <= a < b < |rows| ==> rows[a].index < rows[b].index
  }

  /** The table after `assign(date=0)`, `notna()` and `~isin(failing_ids)`, from the file's
      `id` column, each kept row under its original label. */
  function Survivors(ids: seq<Option<int>>): (rows: seq<Row>)
  {
    if |ids| == 0 then []
    else
      var n := |ids| - 1;
      Survivors(ids[..n]) + (if Kept(ids[n]) then [Row(n, ids[n].value, Zero)] else [])
  }

  /** The filter keeps exactly the rows with an id off the deny-list, each under its original
      label with date 0, in file order. */
  lemma {:induction false} SurvivorsShape(ids: seq<Option<int>>)
    ensures forall r :: r in Survivors(ids) ==>
      r.index < |ids| && ids[r.index] == Some(r.id) && r.id !in FailingIds && r.date == Zero
    ensures forall k :: 0 <= k < |ids| && Kept(ids[k]) ==> Row(k, ids[k].value, Zero) in Survivors(ids)
    ensures LabelsIncreasing(Survivors(ids))
  {
    if |ids| > 0 {
      var n := |ids| - 1;
      var front := Survivors(ids[..n]);
      SurvivorsShape(ids[..n]);
      assert forall r :: r in front ==> r.index < n && ids[r.index] == ids[..n][r.index];
      var rows := Survivors(ids);
      assert rows == front + (if Kept(ids[n]) then [Row(n, ids[n].value, Zero)] else []);
      assert forall a :: 0 <= a < |front| ==> rows[a] == front[a] && front[a] in front;
      assert forall k :: 0 <= k < n ==> ids[k] == ids[..n][k];
    }
  }

  /** The ids of `sentiment_df.loc[i:j]`: the rows whose label lies in [i, j], both ends
      included, in table order. */
  function BatchIds(rows: seq<Row>, i: int, j: int): (ids: seq<int>)
  {
    if |rows| == 0 then []
    else
      var n := |rows| - 1;
      BatchIds(rows[..n], i, j) + (if i <= rows[n].index <= j then [rows[n].id] else [])
  }

  /** `.loc[i:j]` holds the id of every row labelled within [i, j], and nothing else. */
  lemma {:induction false} BatchIdsMembers(rows: seq<Row>, i: int, j: int)
    ensures forall x :: x in BatchIds(rows, i, j) ==> exists r :: r in rows && i <= r.index <= j && r.id == x
    ensures forall r :: r in rows && i <= r.index <= j ==> r.id in BatchIds(rows, i, j)
  {
    if |rows| > 0 {
      var n := |rows| - 1;
      assert rows == rows[..n] + [rows[n]];
      BatchIdsMembers(rows[..n], i, j);
    }
  }

  /** With increasing labels all below m, `.loc[i:j]` holds at most as many rows as there are
      labels in [i, min(j, m - 1)]. */
  lemma {:induction false} BatchSizeBound(rows: seq<Row>, i: int, j: int, m: int)
    requires LabelsIncreasing(rows)
    requires forall r :: r in rows ==> r.index < m
    ensures |BatchIds(rows, i, j)| <= Max(0, Min(j, m - 1) - i + 1)
  {
    if |rows| > 0 {
      var n := |rows| - 1;
      var last := rows[n];
      assert LabelsIncreasing(rows[..n]);
      assert forall r :: r in rows[..n] ==> r.index < last.index by {
        forall r | r in rows[..n] ensures r.index < last.index {
          var a :| 0 <= a < n && rows[..n][a] == r;
        }
      }
      BatchSizeBound(rows[..n], i, j, last.index);
      assert last in rows;
    }
  }

  /** A batch never holds more than 100 ids. */
  lemma BatchAtMost100(ids: seq<Option<int>>, i: int)
    ensures |BatchIds(Survivors(ids), i, Min(|ids|, i + BatchStep))| <= 100
  {
    SurvivorsShape(ids);
    BatchSizeBound(Survivors(ids), i, Min(|ids|, i + BatchStep), |ids|);
  }

  /** Every surviving row falls into the batch that starts at a multiple of 99 no greater
      than its label, and that batch start lies below the unfiltered row count. */
  lemma EverySurvivorBatched(ids: seq<Option<int>>, r: Row)
    requires r in Survivors(ids)
    ensures var b := r.index / BatchStep * BatchStep;
      b < |ids| && r.id in BatchIds(Survivors(ids), b, Min(|ids|, b + BatchStep))
  {
    SurvivorsShape(ids);
    BatchIdsMembers(Survivors(ids), r.index / BatchStep * BatchStep,
                    Min(|ids|, r.index / BatchStep * BatchStep + BatchStep));
  }

  /** Consecutive batches overlap: the row labelled i+99 is looked up in both. */
  lemma ConsecutiveBatchesShareLabel(ids: seq<Option<int>>, i: nat, r: Row)
    requires r in Survivors(ids) && r.index == i + BatchStep
    ensures r.id in BatchIds(Survivors(ids), i, Min(|ids|, i + BatchStep))
    ensures r.id in BatchIds(Survivors(ids), i + BatchStep, Min(|ids|, i + 2 * BatchStep))
  {
    SurvivorsShape(ids);
    BatchIdsMembers(Survivors(ids), i, Min(|ids|, i + BatchStep));
    BatchIdsMembers(Survivors(ids), i + BatchStep, Min(|ids|, i + 2 * BatchStep));
  }

  // ---------------------------------------------------------------- merging dates

  /** One tweet of a lookup response; `created_at` may be missing. */
  datatype Returned = Returned(id: int, createdAt: Option<string>)

  /** One `sentiment_df.loc[id == tweet_id, 'date'] = date` assignment. */
  datatype Update = Update(id: int, date: string)

  /** `created_at.split('T')[0]`: for an RFC 3339 timestamp, its `full-date` part. */
  function DatePart(createdAt: string): (d: string)
  {
    Split(createdAt, 'T')[0]
  }

  /** The date part is the text before the first 'T', or all of it when there is none. */
  lemma DatePartIsPrefix(createdAt: string)
    ensures var d := DatePart(createdAt);
      StartsWith(createdAt, d) && 'T' !in d && (|d| == |createdAt| || createdAt[|d|] == 'T')
  {
    if 'T' in createdAt {
      var k := IndexOf(createdAt, 'T');
      assert DatePart(createdAt) == createdAt[..k];
    }
  }

  /** The assignments the data loop makes for one response: one per tweet, up to the first
      tweet without `created_at`, where the KeyError ends the loop. */
  function Updates(items: seq<Returned>): (us: seq<Update>)
    ensures |us| <= |items|
  {
    if |items| == 0 || items[0].createdAt.None? then []
    else [Update(items[0].id, DatePart(items[0].createdAt.value))] + Updates(items[1..])
  }

  /** A response without `data` (the KeyError path) makes no assignment. */
  function ResponseUpdates(response: Option<seq<Returned>>): seq<Update>
  {
    match response
    case None => []
    case Some(items) => Updates(items)
  }

  /** The tweets of a response the data loop gets through: the longest prefix whose tweets
      all carry `created_at`. */
  function Answered(items: seq<Returned>): (ts: seq<Returned>)
    ensures |ts| <= |items| && ts == items[..|ts|]
    ensures forall q :: 0 <= q < |ts| ==> ts[q].createdAt.Some?
    ensures |ts| == |items| || items[|ts|].createdAt.None?
  {
    if |items| == 0 || items[0].createdAt.None? then []
    else
      var rest := Answered(items[1..]);
      assert [items[0]] + rest == items[..1 + |rest|];
      [items[0]] + rest
  }

  /** The assignment each tweet with a `created_at` makes, in order. */
  function Dated(ts: seq<Returned>): seq<Update>
    requires forall q :: 0 <= q < |ts| ==> ts[q].createdAt.Some?
  {
    seq(|ts|, q requires 0 <= q < |ts| => Update(ts[q].id, DatePart(ts[q].createdAt.value)))
  }

  lemma DatedConcat(a: seq<Returned>, b: seq<Returned>)
    requires forall q :: 0 <= q < |a| ==> a[q].createdAt.Some?
    requires forall q :: 0 <= q < |b| ==> b[q].createdAt.Some?
    ensures forall q :: 0 <= q < |a + b| ==> (a + b)[q].createdAt.Some?
    ensures Dated(a + b) == Dated(a) + Dated(b)
  {
    assert forall q :: 0 <= q < |a + b| ==> (a + b)[q] == if q < |a| then a[q] else b[q - |a|];
  }

  /** The data loop makes exactly one assignment per tweet it gets through, in response order,
      each giving that tweet's id the date part of its own `created_at`. */
  lemma {:induction false} UpdatesAnswered(items: seq<Returned>)
    ensures Updates(items) == Dated(Answered(items))
  {
    if |items| > 0 && items[0].createdAt.Some? {
      var t := items[0];
      var rest := Answered(items[1..]);
      UpdatesAnswered(items[1..]);
      assert Answered(items) == [t] + rest;
      DatedConcat([t], rest);
      assert Dated([t]) == [Update(t.id, DatePart(t.createdAt.value))];
      assert Updates(items) == [Update(t.id, DatePart(t.createdAt.value))] + Updates(items[1..]);
    }
  }

  /** Every assignment the data loop makes comes from a returned tweet with `created_at`. */
  lemma UpdatesFromTweets(items: seq<Returned>, u: Update)
    requires u in Updates(items)
    ensures exists t :: t in items && t.createdAt.Some? && u == Update(t.id, DatePart(t.createdAt.value))
  {
    var a := Answered(items);
    UpdatesAnswered(items);
    assert u in Dated(a);
    var q :| 0 <= q < |Dated(a)| && Dated(a)[q] == u;
    assert a[q] == items[q];
  }

  /** The tweets of one response the data loop gets through; none without `data`. */
  function ResponseAnswered(response: Option<seq<Returned>>): (ts: seq<Returned>)
    ensures forall q :: 0 <= q < |ts| ==> ts[q].createdAt.Some?
  {
    match response
    case None => []
    case Some(items) => Answered(items)
  }

  /** Every row whose id equals tid gets the date; the others are left as they are. */
  function SetDate(rows: seq<Row>, tid: int, d: string): (r: seq<Row>)
    ensures |r| == |rows|
    ensures forall k :: 0 <= k < |rows| ==>
      r[k] == if rows[k].id == tid then rows[k].(date := Day(d)) else rows[k]
  {
    seq(|rows|, k requires 0 <= k < |rows| =>
      if rows[k].id == tid then rows[k].(date := Day(d)) else rows[k])
  }

  /** The table after a sequence of assignments, applied in order. */
  function Apply(rows: seq<Row>, us: seq<Update>): (r: seq<Row>)
    ensures |r| == |rows|
  {
    if |us| == 0 then rows
    else
      var n := |us| - 1;
      SetDate(Apply(rows, us[..n]), us[n].id, us[n].date)
  }

  /** Assignments only ever touch the date column: labels and ids stay as they were. */
  lemma {:induction false} ApplyKeepsKeys(rows: seq<Row>, us: seq<Update>)
    ensures forall k :: 0 <= k < |rows| ==>
      Apply(rows, us)[k].index == rows[k].index && Apply(rows, us)[k].id == rows[k].id
  {
    if |us| > 0 {
      ApplyKeepsKeys(rows, us[..|us| - 1]);
    }
  }

  /** The date of the last assignment to id, if any. */
  function LastFor(us: seq<Update>, id: int): (d: Option<string>)
  {
    if |us| == 0 then None
    else
      var n := |us| - 1;
      if us[n].id == id then Some(us[n].date) else LastFor(us[..n], id)
  }

  /** LastFor finds an assignment to id exactly when there is one, and it is the last. */
  lemma {:induction false} LastForIsLast(us: seq<Update>, id: int)
    ensures LastFor(us, id).None? <==> forall u :: u in us ==> u.id != id
    ensures LastFor(us, id).Some? ==>
      exists k :: (0 <= k < |us| && us[k] == Update(id, LastFor(us, id).value)
                   && forall q :: k < q < |us| ==> us[q].id != id)
  {
    if |us| > 0 {
      var n := |us| - 1;
      assert us == us[..n] + [us[n]];
      LastForIsLast(us[..n], id);
      if us[n].id != id && LastFor(us, id).Some? {
        var k :| 0 <= k < n && us[..n][k] == Update(id, LastFor(us, id).value)
          && forall q :: k < q < n ==> us[..n][q].id != id;
        assert us[k] == us[..n][k];
      }
    }
  }

  /** After the assignments, a row holds the date of the last assignment to its id, and is
      untouched when there was none. */
  lemma {:induction false} ApplyAt(rows: seq<Row>, us: seq<Update>, k: nat)
    requires k < |rows|
    ensures Apply(rows, us)[k] ==
      match LastFor(us, rows[k].id)
      case None => rows[k]
      case Some(d) => rows[k].(date := Day(d))
  {
    if |us| > 0 {
      ApplyAt(rows, us[..|us| - 1], k);
    }
  }

  lemma {:induction false} ApplyConcat(rows: seq<Row>, a: seq<Update>, b: seq<Update>)
    ensures Apply(rows, a + b) == Apply(Apply(rows, a), b)
    decreases |b|
  {
    if |b| == 0 {
      assert a + b == a;
    } else {
      var n := |b| - 1;
      assert (a + b)[..|a + b| - 1] == a + b[..n];
      ApplyConcat(rows, a, b[..n]);
    }
  }

  /** Batches depend only on labels and ids, which date assignments never change. */
  lemma {:induction false} BatchIdsIgnoreDates(rows: seq<Row>, other: seq<Row>, i: int, j: int)
    requires |rows| == |other|
    requires forall k :: 0 <= k < |rows| ==> rows[k].index == other[k].index && rows[k].id == other[k].id
    ensures BatchIds(rows, i, j) == BatchIds(other, i, j)
  {
    if |rows| > 0 {
      BatchIdsIgnoreDates(rows[..|rows| - 1], other[..|other| - 1], i, j);
    }
  }

  // ---------------------------------------------------------------- the batch loop

  /** The lookup endpoint behind `get_json`, retries included: the tweets of the `data` key,
      or None when the body has no `data`. */
  type Lookup = (string, map<string, string>) -> Option<seq<Returned>>

  /** The answer to the request for one batch of ids. */
  type Respond = seq<int> -> Option<seq<Returned>>

  /** The batch request of the loop: `get_json(create_url(ids_string), headers)`. */
  function Endpoint(lookup: Lookup, headers: map<string, string>): Respond
  {
    batch => lookup(CreateUrl(IdsString(batch)), headers)
  }

  /** What the batch loop produces: `total`, the id lists of the batches that reached the
      endpoint, and every date assignment made, in order. */
  datatype Pass = Pass(total: nat, batches: seq<seq<int>>, updates: seq<Update>)

  /** The loop `for i in range(start, length, 99)`, from batch start i on. The batches are
      read from rows carrying the table's labels and ids, which the assignments never change
      (BatchIdsIgnoreDates). */
  function EnrichFrom(rows: seq<Row>, length: nat, i: nat, respond: Respond): Pass
    decreases length - i
  {
    if i >= length then Pass(0, [], [])
    else
      var batch := BatchIds(rows, i, Min(length, i + BatchStep));
      if |batch| == 0 then Pass(0, [], [])
      else
        var next := EnrichFrom(rows, length, i + BatchStep, respond);
        Pass(|batch| + next.total, [batch] + next.batches, ResponseUpdates(respond(batch)) + next.updates)
  }

  function SumSizes(batches: seq<seq<int>>): nat
  {
    if |batches| == 0 then 0 else |batches[0]| + SumSizes(batches[1..])
  }

  /** One round of the loop, spelled out: a non-empty batch is sent, its assignments are
      made, and the loop continues 99 labels further on. */
  lemma EnrichStep(rows: seq<Row>, length: nat, i: nat, respond: Respond)
    requires i < length && |BatchIds(rows, i, Min(length, i + BatchStep))| > 0
    ensures var batch := BatchIds(rows, i, Min(length, i + BatchStep));
      var next := EnrichFrom(rows, length, i + BatchStep, respond);
      EnrichFrom(rows, length, i, respond)
        == Pass(|batch| + next.total, [batch] + next.batches, ResponseUpdates(respond(batch)) + next.updates)
  {
  }

  /** The tweets the data loop gets through, over the responses to the given batches in turn. */
  function Answers(batches: seq<seq<int>>, respond: Respond): (ts: seq<Returned>)
    ensures forall q :: 0 <= q < |ts| ==> ts[q].createdAt.Some?
  {
    if |batches| == 0 then []
    else
      var first := ResponseAnswered(respond(batches[0]));
      var rest := Answers(batches[1..], respond);
      assert forall q :: 0 <= q < |first + rest| ==>
        (first + rest)[q] == if q < |first| then first[q] else rest[q - |first|];
      first + rest
  }

  /** The pass's assignments are those of the tweets it gets through, in order. */
  lemma {:induction false} EnrichUpdatesAnswered(rows: seq<Row>, length: nat, i: nat, respond: Respond)
    ensures var p := EnrichFrom(rows, length, i, respond);
      p.updates == Dated(Answers(p.batches, respond))
    decreases length - i
  {
    if i < length && |BatchIds(rows, i, Min(length, i + BatchStep))| > 0 {
      var batch := BatchIds(rows, i, Min(length, i + BatchStep));
      var next := EnrichFrom(rows, length, i + BatchStep, respond);
      EnrichStep(rows, length, i, respond);
      EnrichUpdatesAnswered(rows, length, i + BatchStep, respond);
      if respond(batch).Some? {
        UpdatesAnswered(respond(batch).value);
      }
      assert ([batch] + next.batches)[1..] == next.batches;
      DatedConcat(ResponseAnswered(respond(batch)), Answers(next.batches, respond));
    }
  }

  /** `total` is the number of ids in the batches sent. */
  lemma {:induction false} EnrichTotal(rows: seq<Row>, length: nat, i: nat, respond: Respond)
    ensures var p := EnrichFrom(rows, length, i, respond);
      p.total == SumSizes(p.batches)
    decreases length - i
  {
    if i < length && |BatchIds(rows, i, Min(length, i + BatchStep))| > 0 {
      var batch := BatchIds(rows, i, Min(length, i + BatchStep));
      var next := EnrichFrom(rows, length, i + BatchStep, respond);
      EnrichStep(rows, length, i, respond);
      EnrichTotal(rows, length, i + BatchStep, respond);
      assert ([batch] + next.batches)[1..] == next.batches;
    }
  }

  /** The t-th batch sent is the label range starting at i + 99t, and it is not empty. */
  lemma {:induction false} EnrichBatchAt(rows: seq<Row>, length: nat, i: nat, respond: Respond, t: nat)
    requires t < |EnrichFrom(rows, length, i, respond).batches|
    ensures var b := EnrichFrom(rows, length, i, respond).batches[t];
      b == BatchIds(rows, i + 99 * t, Min(length, i + 99 * t + BatchStep)) && |b| > 0
    decreases t
  {
    assert i < length && |BatchIds(rows, i, Min(length, i + BatchStep))| > 0;
    EnrichStep(rows, length, i, respond);
    if t > 0 {
      EnrichBatchAt(rows, length, i + BatchStep, respond, t - 1);
      assert i + 99 * t == (i + BatchStep) + 99 * (t - 1);
    }
  }

  /** The loop stops at the end of the table or at the first empty label range. */
  lemma {:induction false} EnrichStops(rows: seq<Row>, length: nat, i: nat, respond: Respond)
    ensures var stop := i + 99 * |EnrichFrom(rows, length, i, respond).batches|;
      stop >= length || BatchIds(rows, stop, Min(length, stop + BatchStep)) == []
    decreases length - i
  {
    if i < length && |BatchIds(rows, i, Min(length, i + BatchStep))| > 0 {
      var next := EnrichFrom(rows, length, i + BatchStep, respond);
      EnrichStep(rows, length, i, respond);
      EnrichStops(rows, length, i + BatchStep, respond);
      assert i + 99 * (1 + |next.batches|) == (i + BatchStep) + 99 * |next.batches|;
    }
  }

  /** A batch whose response has no `data` makes no assignment, and the loop goes on with
      the next label range. */
  lemma MissingDataSkipsBatch(rows: seq<Row>, length: nat, i: nat, respond: Respond)
    requires i < length
    requires var batch := BatchIds(rows, i, Min(length, i + BatchStep));
      |batch| > 0 && respond(batch).None?
    ensures var batch := BatchIds(rows, i, Min(length, i + BatchStep));
      var next := EnrichFrom(rows, length, i + BatchStep, respond);
      EnrichFrom(rows, length, i, respond)
        == Pass(|batch| + next.total, [batch] + next.batches, next.updates)
  {
    var batch := BatchIds(rows, i, Min(length, i + BatchStep));
    var next := EnrichFrom(rows, length, i + BatchStep, respond);
    assert ResponseUpdates(respond(batch)) + next.updates == next.updates;
  }

  /** The pass over one sentiment table, from its `id` column. */
  function Enrich(ids: seq<Option<int>>, lookup: Lookup, headers: map<string, string>): Pass
  {
    EnrichFrom(Survivors(ids), |ids|, 0, Endpoint(lookup, headers))
  }

  /** The table the pass saves: the filtered table with every assignment made, in order. */
  function EnrichedTable(ids: seq<Option<int>>, lookup: Lookup, headers: map<string, string>): seq<Row>
  {
    Apply(Survivors(ids), Enrich(ids, lookup, headers).updates)
  }

  /** The saved table: exactly the rows with a usable id, in file order, each with its label
      and id unchanged. A row's date stays 0 exactly when no tweet the loop gets through has
      its id; otherwise it is the date part of the `created_at` of the last such tweet, where
      the loop gets through a response up to its first tweet without `created_at`. */
  lemma EnrichedRows(ids: seq<Option<int>>, lookup: Lookup, headers: map<string, string>, k: nat)
    requires k < |Survivors(ids)|
    ensures var saved := EnrichedTable(ids, lookup, headers);
      var r := Survivors(ids)[k];
      var answers := Answers(Enrich(ids, lookup, headers).batches, Endpoint(lookup, headers));
      && |saved| == |Survivors(ids)|
      && saved[k].index == r.index && saved[k].id == r.id
      && r.index < |ids| && ids[r.index] == Some(r.id) && r.id !in FailingIds
      && (saved[k].date == Zero <==> forall q :: 0 <= q < |answers| ==> answers[q].id != r.id)
      && (saved[k].date != Zero ==>
           exists q :: 0 <= q < |answers| && answers[q].id == r.id
             && saved[k].date == Day(DatePart(answers[q].createdAt.value))
             && forall q' :: q < q' < |answers| ==> answers[q'].id != r.id)
  {
    var rows := Survivors(ids);
    var respond := Endpoint(lookup, headers);
    var p := Enrich(ids, lookup, headers);
    var answers := Answers(p.batches, respond);
    var us := p.updates;
    SurvivorsShape(ids);
    ApplyAt(rows, us, k);
    assert rows[k] in rows;
    EnrichUpdatesAnswered(rows, |ids|, 0, respond);
    assert |us| == |answers|;
    assert forall q :: 0 <= q < |us| ==> us[q] == Update(answers[q].id, DatePart(answers[q].createdAt.value));
    LastForIsLast(us, rows[k].id);
    if LastFor(us, rows[k].id).None? {
      forall q | 0 <= q < |answers|
        ensures answers[q].id != rows[k].id
      {
        assert us[q] in us;
      }
    }
  }

  // ---------------------------------------------------------------- imperative pass

  /** Reads the ids of `.loc[i:j]` off the table. */
  method SelectBatch(table: array<Row>, i: int, j: int) returns (batch: seq<int>)
    ensures batch == BatchIds(table[..], i, j)
  {
    batch := [];
    var k := 0;
    while k < table.Length
      invariant 0 <= k <= table.Length
      invariant batch == BatchIds(table[..k], i, j)
    {
      assert table[..k + 1][..k] == table[..k];
      if i <= table[k].index <= j {
        batch := batch + [table[k].id];
      }
      k := k + 1;
    }
    assert table[..k] == table[..];
  }

  /** `sentiment_df.loc[sentiment_df['id'] == tweet_id, 'date'] = date` */
  method SetDateInPlace(table: array<Row>, tid: int, d: string)
    modifies table
    ensures table[..] == SetDate(old(table[..]), tid, d)
  {
    var k := 0;
    while k < table.Length
      invariant 0 <= k <= table.Length
      invariant forall q :: 0 <= q < k ==>
        table[q] == if old(table[q]).id == tid then old(table[q]).(date := Day(d)) else old(table[q])
      invariant forall q :: k <= q < table.Length ==> table[q] == old(table[q])
    {
      if table[k].id == tid {
        table[k] := table[k].(date := Day(d));
      }
      k := k + 1;
    }
  }

  /** The `for tweet in json_response['data']` loop; a tweet without `created_at` raises the
      KeyError that ends it, keeping the assignments already made. */
  method MergeResponse(table: array<Row>, items: seq<Returned>)
    modifies table
    ensures table[..] == Apply(old(table[..]), Updates(items))
  {
    ghost var orig := table[..];
    ghost var us: seq<Update> := [];
    var t := 0;
    while t < |items|
      invariant 0 <= t <= |items|
      invariant us + Updates(items[t..]) == Updates(items)
      invariant table[..] == Apply(orig, us)
    {
      if items[t].createdAt.None? {
        assert Updates(items[t..]) == [];
        break;
      }
      var date := DatePart(items[t].createdAt.value);
      assert items[t..][1..] == items[t + 1..];
      SetDateInPlace(table, items[t].id, date);
      assert (us + [Update(items[t].id, date)])[..|us|] == us;
      us := us + [Update(items[t].id, date)];
      t := t + 1;
    }
    assert t == |items| ==> items[t..] == [];
    assert Updates(items[t..]) == [];
    assert us + [] == us;
  }

  lemma AppendAssoc(a: seq<Update>, b: seq<Update>, c: seq<Update>)
    ensures a + (b + c) == (a + b) + c
  {
  }

  /** One round of the loop body: select `.loc[i:i+99]`, and when it is not empty, send it
      and merge the response. Returns the batch size; the batch is read off the current
      table, whose labels and ids are still those of `start`. */
  method ProcessBatch(table: array<Row>, ghost start: seq<Row>, ghost us: seq<Update>, length: nat, i: nat,
                      lookup: Lookup, headers: map<string, string>)
    returns (size: nat)
    requires table[..] == Apply(start, us)
    modifies table
    ensures var batch := BatchIds(start, i, Min(length, i + BatchStep));
      && size == |batch|
      && table[..] == Apply(old(table[..]),
                            if size == 0 then [] else ResponseUpdates(Endpoint(lookup, headers)(batch)))
  {
    var batch := SelectBatch(table, i, Min(length, i + BatchStep));
    ApplyKeepsKeys(start, us);
    BatchIdsIgnoreDates(table[..], start, i, Min(length, i + BatchStep));
    size := |batch|;
    if size == 0 {
      return;
    }
    var url := CreateUrl(IdsString(batch));
    var response := lookup(url, headers);
    if response.Some? {
      MergeResponse(table, response.value);
    }
  }

  /** The batch loop over a table that starts out as `start`; the counter grows by 100 for
      every batch that reaches the endpoint. */
  method RunBatches(table: array<Row>, length: nat, lookup: Lookup, headers: map<string, string>,
                    counter: nat)
    returns (total: nat, counterOut: nat)
    modifies table
    ensures var p := EnrichFrom(old(table[..]), length, 0, Endpoint(lookup, headers));
      && table[..] == Apply(old(table[..]), p.updates)
      && total == p.total && counterOut == counter + 100 * |p.batches|
  {
    ghost var start := table[..];
    ghost var respond := Endpoint(lookup, headers);
    ghost var goal := EnrichFrom(start, length, 0, respond);
    ghost var us: seq<Update> := [];
    ghost var calls := 0;
    total, counterOut := 0, counter;
    var i := 0;
    while i < length
      invariant table[..] == Apply(start, us)
      invariant var p := EnrichFrom(start, length, i, respond);
        && us + p.updates == goal.updates && total + p.total == goal.total
        && calls + |p.batches| == |goal.batches|
      invariant counterOut == counter + 100 * calls
      decreases length - i
    {
      var size := ProcessBatch(table, start, us, length, i, lookup, headers);
      total := total + size;
      if size == 0 {
        break;
      }
      EnrichStep(start, length, i, respond);
      ghost var made := ResponseUpdates(respond(BatchIds(start, i, Min(length, i + BatchStep))));
      ApplyConcat(start, us, made);
      AppendAssoc(us, made, EnrichFrom(start, length, i + BatchStep, respond).updates);
      us := us + made;
      counterOut := counterOut + 100;
      calls := calls + 1;
      i := i + BatchStep;
    }
    assert us + [] == us;
  }

  /** `main`'s work on one sentiment table: filter, batch, look up, merge, count. */
  method EnrichTable(ids: seq<Option<int>>, lookup: Lookup, headers: map<string, string>,
                     counter: nat)
    returns (rows: seq<Row>, total: nat, counterOut: nat)
    ensures rows == EnrichedTable(ids, lookup, headers)
    ensures var p := Enrich(ids, lookup, headers);
      total == p.total && counterOut == counter + 100 * |p.batches|
  {
    var start := Survivors(ids);
    var table := new Row[|start|](k requires 0 <= k < |start| => start[k]);
    assert table[..] == start;
    total, counterOut := RunBatches(table, |ids|, lookup, headers, counter);
    rows := table[..];
  }

  // ---------------------------------------------------------------- files

  /** The name `get_sentiment_file` looks for. */
  predicate IsSentimentName(name: string)
  {
    EndsWith(name, "sentiment.csv") && !Contains(name, "subset") && !Contains(name, "date")
  }

  /** The position of the last sentiment name in a listing. */
  function LastSentimentIndex(listing: seq<string>): (k: Option<nat>)
  {
    if |listing| == 0 then None
    else if IsSentimentName(listing[|listing| - 1]) then Some(|listing| - 1)
    else LastSentimentIndex(listing[..|listing| - 1])
  }

  /** The file picked is the last sentiment name of the listing; None when there is none. */
  lemma {:induction false} LastSentimentIndexIsLast(listing: seq<string>)
    ensures var k := LastSentimentIndex(listing);
      && (k.Some? ==>
            && k.value < |listing| && IsSentimentName(listing[k.value])
            && forall m :: k.value < m < |listing| ==> !IsSentimentName(listing[m]))
      && (k.None? ==> forall m :: 0 <= m < |listing| ==> !IsSentimentName(listing[m]))
  {
    if |listing| > 0 && !IsSentimentName(listing[|listing| - 1]) {
      var n := |listing| - 1;
      LastSentimentIndexIsLast(listing[..n]);
      assert forall m :: 0 <= m < n ==> listing[..n][m] == listing[m];
    }
  }

  /** The file `get_sentiment_file` returns: the last sentiment name joined to the directory,
      or "" when there is none. */
  function SentimentFile(directory: string, listing: seq<string>): (file: string)
    ensures file == "" <==> LastSentimentIndex(listing).None?
  {
    LastSentimentIndexIsLast(listing);
    match LastSentimentIndex(listing)
    case None => ""
    case Some(k) => PathJoin(directory, listing[k])
  }

  method GetSentimentFile(directory: string, listing: seq<string>) returns (file: string)
    ensures file == SentimentFile(directory, listing)
  {
    file := "";
    for k := 0 to |listing|
      invariant file == SentimentFile(directory, listing[..k])
    {
      assert listing[..k + 1][..k] == listing[..k];
      assert listing[..k + 1][k] == listing[k];
      if IsSentimentName(listing[k]) {
        assert LastSentimentIndex(listing[..k + 1]) == Some(k);
        file := PathJoin(directory, listing[k]);
      } else {
        assert LastSentimentIndex(listing[..k + 1]) == LastSentimentIndex(listing[..k]);
        LastSentimentIndexIsLast(listing[..k]);
      }
    }
    assert listing[..|listing|] == listing;
  }

  /** `<stem>_date.csv` in the movie directory. */
  function DatedPath(movie: string, sentimentFile: string): string
  {
    PathJoin(movie, Stem(sentimentFile) + "_date.csv")
  }

  /** The saved copy sits in the movie directory, is named after the sentiment file, and is
      never itself picked up as a sentiment file. */
  lemma DatedPathShape(movie: string, name: string)
    requires '/' !in name
    ensures '/' !in Stem(name) + "_date.csv"
    ensures BaseName(DatedPath(movie, PathJoin(movie, name))) == Stem(name) + "_date.csv"
    ensures !IsSentimentName(Stem(name) + "_date.csv")
  {
    StemOfJoin(movie, name);
    StemHasNoSlash(name);
    DatedNameHasNoSlash(Stem(name));
    BaseNameOfJoin(movie, Stem(name) + "_date.csv");
    DatedNameNotSentiment(Stem(name));
  }

  lemma DatedNameHasNoSlash(stem: string)
    requires '/' !in stem
    ensures '/' !in stem + "_date.csv"
  {
    assert forall c :: c in stem + "_date.csv" ==> c in stem || c in "_date.csv";
  }

  lemma DatedNameNotSentiment(stem: string)
    ensures !IsSentimentName(stem + "_date.csv")
  {
    DatedNameContainsDate(stem);
  }

  lemma DatedNameContainsDate(stem: string)
    ensures Contains(stem + "_date.csv", "date")
  {
    var out := stem + "_date.csv";
    assert out[|stem| + 1..|stem| + 5] == "date";
    assert OccursAt(out, "date", |stem| + 1);
  }

  /** `get_df`: a one-row frame holding the last tweet's id and `created_at`. None stands for
      the KeyError of a body without `data` or of a tweet without `created_at`, and for the
      unbound `all_data` of an empty `data` list. */
  method GetDf(response: Option<seq<Returned>>) returns (r: Option<(int, string)>)
    ensures r.Some? <==>
      && response.Some? && |response.value| > 0
      && forall k :: 0 <= k < |response.value| ==> response.value[k].createdAt.Some?
    ensures r.Some? ==> var last := response.value[|response.value| - 1];
      r.value == (last.id, last.createdAt.value)
  {
    if response.None? {
      return None;
    }
    var data := response.value;
    var allData: Option<(int, string)> := None;
    var k := 0;
    while k < |data|
      invariant 0 <= k <= |data|
      invariant forall q :: 0 <= q < k ==> data[q].createdAt.Some?
      invariant allData.Some? <==> k > 0
      invariant k > 0 ==> allData.value == (data[k - 1].id, data[k - 1].createdAt.value)
    {
      if data[k].createdAt.None? {
        return None;
      }
      allData := Some((data[k].id, data[k].createdAt.value));
      k := k + 1;
    }
    r := allData;
  }

  // ---------------------------------------------------------------- main

  /** A movie directory from `get_movie_dirs`, with its listing. */
  datatype MovieDir = MovieDir(path: string, listing: seq<string>)

  /** One saved `_date.csv`: its path and its rows. */
  datatype Output = Output(path: string, rows: seq<Row>)

  /** The `id` column of the CSV file at a path. */
  type Reader = string -> seq<Option<int>>

  function MovieFile(movie: MovieDir): string
  {
    SentimentFile(movie.path, movie.listing)
  }

  /** What the body of `main` does for one movie: nothing when the directory holds no
      sentiment file, otherwise the saved copy and the number of batches sent. */
  datatype MovieResult = Missing | Saved(output: Output, calls: nat)

  /** The body of `main` for one movie, as a value the run over all movies can be stated in. */
  type MovieRun = MovieDir -> MovieResult

  function MovieResultOf(movie: MovieDir, read: Reader, lookup: Lookup, headers: map<string, string>)
    : MovieResult
  {
    var file := MovieFile(movie);
    if file == "" then Missing
    else Saved(Output(DatedPath(movie.path, file), EnrichedTable(read(file), lookup, headers)),
               |Enrich(read(file), lookup, headers).batches|)
  }

  function Pipeline(read: Reader, lookup: Lookup, headers: map<string, string>): MovieRun
  {
    movie => MovieResultOf(movie, read, lookup, headers)
  }

  /** A movie whose listing (plain names, as `os.listdir` gives them) holds no sentiment name
      yields nothing. Otherwise the copy of the last sentiment name's table is saved beside
      it as `<stem>_date.csv`, a name never picked up again by the search. The copy holds the
      enriched rows of that table, and the counter grows by 100 per batch sent. */
  lemma PipelineSaves(read: Reader, lookup: Lookup, headers: map<string, string>, movie: MovieDir)
    requires forall m :: 0 <= m < |movie.listing| ==> '/' !in movie.listing[m]
    ensures var r := Pipeline(read, lookup, headers)(movie);
      && (r.Missing? <==> forall m :: 0 <= m < |movie.listing| ==> !IsSentimentName(movie.listing[m]))
      && (r.Saved? ==> exists m :: (0 <= m < |movie.listing|
           && IsSentimentName(movie.listing[m])
           && (forall q :: m < q < |movie.listing| ==> !IsSentimentName(movie.listing[q]))
           && var ids := read(PathJoin(movie.path, movie.listing[m]));
              && BaseName(r.output.path) == Stem(movie.listing[m]) + "_date.csv"
              && !IsSentimentName(BaseName(r.output.path))
              && ((|movie.path| > 0 && movie.path[|movie.path| - 1] != '/') ==> DirName(r.output.path) == movie.path)
              && r.output.rows == EnrichedTable(ids, lookup, headers)
              && |r.output.rows| == |Survivors(ids)|
              && r.calls == |Enrich(ids, lookup, headers).batches|))
  {
    LastSentimentIndexIsLast(movie.listing);
    var r := Pipeline(read, lookup, headers)(movie);
    if r.Saved? {
      var m := LastSentimentIndex(movie.listing).value;
      var name := movie.listing[m];
      assert MovieFile(movie) == PathJoin(movie.path, name);
      DatedPathShape(movie.path, name);
      if |movie.path| > 0 && movie.path[|movie.path| - 1] != '/' {
        StemOfJoin(movie.path, name);
        DirNameOfJoin(movie.path, Stem(name) + "_date.csv");
      }
    }
  }

  /** The state `main` carries from movie to movie. */
  datatype MainState = MainState(outputs: seq<Output>, pauses: seq<nat>, counter: nat, stopped: bool)

  /** The check before each movie: at 299 or more, pause and start again from 0. */
  function Carried(counter: nat): nat
  {
    if counter >= PauseThreshold then 0 else counter
  }

  /** One iteration of `main`'s loop, for movie m: the pause check, then either the raise of
      `read_csv("")` or the saved copy and the grown counter. Once stopped, nothing happens. */
  function MainStep(s: MainState, m: nat, r: MovieResult): (t: MainState)
  {
    if s.stopped then s
    else
      var pauses := if s.counter >= PauseThreshold then s.pauses + [m] else s.pauses;
      match r
      case Missing => MainState(s.outputs, pauses, Carried(s.counter), true)
      case Saved(out, calls) => MainState(s.outputs + [out], pauses, Carried(s.counter) + 100 * calls, false)
  }

  /** `main` over the movies in order. */
  function RunMain(movies: seq<MovieDir>, run: MovieRun): MainState
  {
    if |movies| == 0 then MainState([], [], 0, false)
    else
      var n := |movies| - 1;
      MainStep(RunMain(movies[..n], run), n, run(movies[n]))
  }

  /** The batch counts of the movies, 0 for a movie without a sentiment file. */
  function CallCounts(movies: seq<MovieDir>, run: MovieRun): (calls: seq<nat>)
    ensures |calls| == |movies|
  {
    if |movies| == 0 then []
    else
      var n := |movies| - 1;
      var r := run(movies[n]);
      CallCounts(movies[..n], run) + [if r.Saved? then r.calls else 0]
  }

  /** The m-th count is the number of batches sent for the m-th movie. */
  lemma {:induction false} CallCountsAt(movies: seq<MovieDir>, run: MovieRun, m: nat)
    requires m < |movies|
    ensures var r := run(movies[m]);
      CallCounts(movies, run)[m] == if r.Saved? then r.calls else 0
  {
    var n := |movies| - 1;
    if m < n {
      CallCountsAt(movies[..n], run, m);
      assert movies[..n][m] == movies[m];
    }
  }

  /** The counter `main` holds when it reaches movie m, given every movie's batch count. */
  function CounterBefore(calls: seq<nat>, m: nat): nat
    requires m <= |calls|
  {
    if m == 0 then 0 else Carried(CounterBefore(calls, m - 1)) + 100 * calls[m - 1]
  }

  /** The counter only ever holds whole hundreds, so the pause at 299 is a pause at 300. */
  lemma {:induction false} CounterHundreds(calls: seq<nat>, m: nat) returns (hundreds: nat)
    requires m <= |calls|
    ensures CounterBefore(calls, m) == 100 * hundreds
    ensures CounterBefore(calls, m) >= PauseThreshold <==> CounterBefore(calls, m) >= 300
  {
    if m == 0 {
      hundreds := 0;
    } else {
      var before := CounterHundreds(calls, m - 1);
      hundreds := (if before >= 3 then 0 else before) + calls[m - 1];
    }
  }

  /** The movies `main` reaches: all of them, or up to and including the first one without a
      sentiment file. */
  function Started(movies: seq<MovieDir>, run: MovieRun): (started: nat)
    ensures started <= |movies|
  {
    RunMainOutputs(movies, run);
    var s := RunMain(movies, run);
    if s.stopped then |s.outputs| + 1 else |movies|
  }

  /** The run saves the movies' copies in order and stops at the first movie without a
      sentiment file, having saved the copies of every movie before it. */
  lemma {:induction false} RunMainOutputs(movies: seq<MovieDir>, run: MovieRun)
    ensures var s := RunMain(movies, run);
      && |s.outputs| <= |movies|
      && (s.stopped <==> |s.outputs| < |movies|)
      && (s.stopped ==> run(movies[|s.outputs|]).Missing?)
      && forall k :: 0 <= k < |s.outputs| ==> run(movies[k]).Saved? && s.outputs[k] == run(movies[k]).output
  {
    if |movies| > 0 {
      var n := |movies| - 1;
      var prev := RunMain(movies[..n], run);
      RunMainOutputs(movies[..n], run);
      assert forall k :: 0 <= k < n ==> movies[..n][k] == movies[k];
    }
  }

  /** The run completes exactly when every movie directory holds a sentiment file. */
  lemma RunMainCompletes(movies: seq<MovieDir>, run: MovieRun)
    ensures !RunMain(movies, run).stopped <==> forall m :: 0 <= m < |movies| ==> run(movies[m]).Saved?
  {
    RunMainOutputs(movies, run);
    var s := RunMain(movies, run);
    if s.stopped {
      assert run(movies[|s.outputs|]).Missing?;
    } else {
      assert forall m :: 0 <= m < |movies| ==> run(movies[m]).Saved? && s.outputs[m] == run(movies[m]).output;
    }
  }

  /** Before a stop, the counter is the one the batch counts give, and `main` pauses before
      movie q exactly when the counter it carries there is at least 299. */
  lemma {:induction false} RunMainPauses(movies: seq<MovieDir>, run: MovieRun)
    ensures var s := RunMain(movies, run);
      var calls := CallCounts(movies, run);
      && (!s.stopped ==> s.counter == CounterBefore(calls, |movies|))
      && forall q: nat :: q in s.pauses <==> q < Started(movies, run) && CounterBefore(calls, q) >= PauseThreshold
  {
    if |movies| > 0 {
      var n := |movies| - 1;
      var prev := RunMain(movies[..n], run);
      var calls := CallCounts(movies, run);
      RunMainPauses(movies[..n], run);
      RunMainOutputs(movies[..n], run);
      assert calls[..n] == CallCounts(movies[..n], run);
      CounterPrefix(calls, n);
      if !prev.stopped {
        assert Started(movies[..n], run) == n;
        CallCountsAt(movies, run, n);
      }
    }
  }

  /** The counter before movie q depends on the counts before q only. */
  lemma {:induction false} CounterPrefix(calls: seq<nat>, n: nat)
    requires n <= |calls|
    ensures forall q :: 0 <= q <= n ==> CounterBefore(calls[..n], q) == CounterBefore(calls, q)
  {
    forall q | 0 <= q <= n
      ensures CounterBefore(calls[..n], q) == CounterBefore(calls, q)
    {
      CounterPrefixAt(calls, n, q);
    }
  }

  lemma {:induction false} CounterPrefixAt(calls: seq<nat>, n: nat, q: nat)
    requires q <= n <= |calls|
    ensures CounterBefore(calls[..n], q) == CounterBefore(calls, q)
  {
    if q > 0 {
      CounterPrefixAt(calls, n, q - 1);
    }
  }

  /** Once stopped, the later movies change nothing. */
  lemma {:induction false} RunMainStopped(movies: seq<MovieDir>, run: MovieRun, m: nat)
    requires m <= |movies|
    requires RunMain(movies[..m], run).stopped
    ensures RunMain(movies, run) == RunMain(movies[..m], run)
  {
    if m < |movies| {
      var n := |movies| - 1;
      assert movies[..n][..m] == movies[..m];
      RunMainStopped(movies[..n], run, m);
    } else {
      assert movies[..m] == movies;
    }
  }

  /** The body of `main` for one movie: find the sentiment table, run the batch pass over it
      and name its copy. */
  method ProcessMovie(movie: MovieDir, read: Reader, lookup: Lookup, headers: map<string, string>,
                      counter: nat)
    returns (r: MovieResult, counterOut: nat)
    ensures r == MovieResultOf(movie, read, lookup, headers)
    ensures r.Saved? ==> counterOut == counter + 100 * r.calls
  {
    var file := GetSentimentFile(movie.path, movie.listing);
    if file == "" {
      return Missing, counter;
    }
    var rows, total;
    rows, total, counterOut := EnrichTable(read(file), lookup, headers, counter);
    r := Saved(Output(DatedPath(movie.path, file), rows), |Enrich(read(file), lookup, headers).batches|);
  }

  /** One round of `main`'s loop, for movie m: the pause check, then the body. */
  method MainRound(movie: MovieDir, m: nat, read: Reader, lookup: Lookup, headers: map<string, string>,
                   s: MainState)
    returns (t: MainState)
    requires !s.stopped
    ensures t == MainStep(s, m, MovieResultOf(movie, read, lookup, headers))
  {
    var pauses := s.pauses;
    if s.counter >= PauseThreshold {
      pauses := pauses + [m];
    }
    var counter := Carried(s.counter);
    var r;
    r, counter := ProcessMovie(movie, read, lookup, headers, counter);
    if r.Missing? {
      return MainState(s.outputs, pauses, Carried(s.counter), true);
    }
    t := MainState(s.outputs + [r.output], pauses, counter, false);
  }

  /** `main`: runs the pass over every movie directory in order, pausing whenever the counter
      has reached 299. A directory without a sentiment file makes `read_csv("")` raise: the
      run stops there, with the copies already saved left in place. */
  method CreateTimeseries(token: Option<string>, movies: seq<MovieDir>, read: Reader, lookup: Lookup)
    returns (outputs: seq<Output>, pauses: seq<nat>, completed: bool)
    ensures var s := RunMain(movies, Pipeline(read, lookup, TwitterApi.CreateHeaders(token)));
      outputs == s.outputs && pauses == s.pauses && completed == !s.stopped
  {
    var headers := TwitterApi.CreateHeaders(token);
    ghost var run := Pipeline(read, lookup, headers);
    var s := MainState([], [], 0, false);
    var m := 0;
    while m < |movies|
      invariant 0 <= m <= |movies|
      invariant RunMain(movies[..m], run) == s && !s.stopped
    {
      assert movies[..m + 1][..m] == movies[..m];
      s := MainRound(movies[m], m, read, lookup, headers, s);
      m := m + 1;
      if s.stopped {
        RunMainStopped(movies, run, m);
        return s.outputs, s.pauses, false;
      }
    }
    assert movies[..m] == movies;
    return s.outputs, s.pauses, true;
  }
}
