/**
 * The second half of `drawTimeline` in js/script.js: the tracks that are drawn, and
 * the chart datasets made from them. Main tracks holding no point of any selected
 * actor are dropped; when there are orphan tracks, six empty tracks and then the
 * orphan tracks follow. Every drawn track with a point showing all selected actors
 * becomes one dataset, whose `data` holds the track's row number at those slots.
 */
module Projection {
  import opened Wrappers
  import opened Entities
  import opened Tracks

  /** One chart dataset: its row, whether it is drawn in the orphan colour, and its sparse arrays. */
  datatype Dataset = Dataset(row: nat, orphan: bool, data: seq<Option<nat>>, points: seq<Option<Point>>)

  /** The number of empty tracks drawn between the main and the orphan tracks. */
  const PaddingTracks: nat := 6

  /** The slot holds a point whose speech has every selected actor. */
  predicate ShownAt(slot: Option<Point>, actorIds: seq<string>) {
    slot.Some? && slot.value.speech.HasActors(actorIds)
  }

  /** Some point of the track has one of the selected actors; holes are skipped. */
  predicate Relevant(t: Track, actorIds: seq<string>) {
    exists j :: 0 <= j < |t| && t[j].Some? && t[j].value.speech.HasAnyOfActors(actorIds)
  }

  /** `this.timelines.filter(...)`: the relevant tracks, in order. */
  function KeptTracks(ts: seq<Track>, actorIds: seq<string>): (r: seq<Track>)
    ensures |r| <= |ts|
    ensures forall k :: 0 <= k < |r| ==> Relevant(r[k], actorIds)
    ensures forall k :: 0 <= k < |ts| && Relevant(ts[k], actorIds) ==> ts[k] in r
    ensures forall t :: t in r ==> t in ts
  {
    if ts == [] then []
    else
      var rest := KeptTracks(ts[1..], actorIds);
      assert forall k :: 1 <= k < |ts| ==> ts[k] == ts[1..][k - 1];
      if Relevant(ts[0], actorIds) then [ts[0]] + rest else rest
  }

  /** The filter keeps one track exactly when it is relevant. */
  lemma KeptTracksSingle(t: Track, actorIds: seq<string>)
    ensures KeptTracks([t], actorIds) == if Relevant(t, actorIds) then [t] else []
  {
    assert [t][1..] == [];
  }

  /** The filter works track by track, in order: filtering a concatenation concatenates the filtered parts. */
  lemma {:induction false} KeptTracksAppend(a: seq<Track>, c: seq<Track>, actorIds: seq<string>)
    ensures KeptTracks(a + c, actorIds) == KeptTracks(a, actorIds) + KeptTracks(c, actorIds)
    decreases |a|
  {
    if a == [] {
      assert a + c == c;
    } else {
      assert (a + c)[0] == a[0] && (a + c)[1..] == a[1..] + c;
      KeptTracksAppend(a[1..], c, actorIds);
    }
  }

  /** The tracks `drawTimeline` draws, in row order. */
  function Visible(main: seq<Track>, orphans: seq<Track>, actorIds: seq<string>): (r: seq<Track>)
    ensures var kept := KeptTracks(main, actorIds);
      |kept| <= |r| && r[..|kept|] == kept &&
      (|orphans| == 0 ==> |r| == |kept|) &&
      (|orphans| > 0 ==>
        |r| == |kept| + PaddingTracks + |orphans| &&
        (forall i :: |kept| <= i < |kept| + PaddingTracks ==> r[i] == []) &&
        r[|kept| + PaddingTracks..] == orphans)
  {
    var kept := KeptTracks(main, actorIds);
    if |orphans| > 0 then kept + seq(PaddingTracks, _ => []) + orphans else kept
  }

  /** The first row of `Visible` that is an orphan track. */
  function FirstOrphan(main: seq<Track>, orphans: seq<Track>, actorIds: seq<string>): (r: nat)
    ensures var vis := Visible(main, orphans, actorIds);
      r <= |vis| && (|orphans| == 0 ==> r == |vis|) && (|orphans| > 0 ==> vis[r..] == orphans)
  {
    |KeptTracks(main, actorIds)| + if |orphans| > 0 then PaddingTracks else 0
  }

  /** The last slot of the track that is shown, or -1 when none is. */
  function LastShown(t: Track, actorIds: seq<string>): (r: int)
    ensures -1 <= r < |t|
    ensures r >= 0 ==> ShownAt(t[r], actorIds)
    ensures forall j :: r < j < |t| ==> !ShownAt(t[j], actorIds)
  {
    if t == [] then -1
    else if ShownAt(t[|t| - 1], actorIds) then |t| - 1
    else LastShown(t[..|t| - 1], actorIds)
  }

  /** A dataset's `data` array for the track drawn at row `row`. */
  function Marks(t: Track, row: nat, actorIds: seq<string>): (r: seq<Option<nat>>)
    ensures |r| <= |t|
    ensures forall j :: 0 <= j < |r| && r[j].Some? ==> r[j].value == row
  {
    seq(LastShown(t, actorIds) + 1, j requires 0 <= j < LastShown(t, actorIds) + 1 =>
      if ShownAt(t[j], actorIds) then Some(row) else None)
  }

  /** A dataset's `points` array for the track. */
  function Shown(t: Track, actorIds: seq<string>): (r: seq<Option<Point>>)
    ensures |r| <= |t|
    ensures forall j :: 0 <= j < |r| && r[j].Some? ==> r[j] == t[j]
  {
    seq(LastShown(t, actorIds) + 1, j requires 0 <= j < LastShown(t, actorIds) + 1 =>
      if ShownAt(t[j], actorIds) then t[j] else None)
  }

  /** The dataset `drawTimeline` makes from the track drawn at row `row`. */
  function DatasetOf(t: Track, row: nat, orphan: bool, actorIds: seq<string>): (d: Dataset)
    ensures d.row == row && d.orphan == orphan && |d.data| == |d.points| <= |t|
  {
    Dataset(row, orphan, Marks(t, row, actorIds), Shown(t, actorIds))
  }

  /** The datasets made from the first `n` drawn tracks. */
  function DatasetsUpTo(ts: seq<Track>, n: nat, firstOrphan: nat, actorIds: seq<string>): (r: seq<Dataset>)
    requires n <= |ts|
    ensures |r| <= n
  {
    if n == 0 then []
    else
      DatasetsUpTo(ts, n - 1, firstOrphan, actorIds) +
      if LastShown(ts[n - 1], actorIds) >= 0
      then [DatasetOf(ts[n - 1], n - 1, n - 1 >= firstOrphan, actorIds)]
      else []
  }

  /** `maxX` after the first `n` drawn tracks. */
  function MaxUpTo(ts: seq<Track>, n: nat, actorIds: seq<string>): (r: nat)
    requires n <= |ts|
    ensures forall i :: 0 <= i < n ==> LastShown(ts[i], actorIds) <= r
  {
    if n == 0 then 0
    else
      var m := MaxUpTo(ts, n - 1, actorIds);
      var last := LastShown(ts[n - 1], actorIds);
      if last > m then last else m
  }

  /** What a dataset says about its track. */
  lemma DatasetOfMeaning(t: Track, row: nat, orphan: bool, actorIds: seq<string>)
    ensures var d := DatasetOf(t, row, orphan, actorIds);
      |d.data| == |d.points| <= |t| &&
      (forall j :: 0 <= j < |d.data| ==> (d.data[j].Some? <==> ShownAt(t[j], actorIds))) &&
      (forall j :: 0 <= j < |d.data| && d.data[j].Some? ==> d.data[j].value == row && d.points[j] == t[j]) &&
      (forall j :: 0 <= j < |d.points| && d.points[j].Some? ==> d.data[j].Some?) &&
      (forall j :: |d.data| <= j < |t| ==> !ShownAt(t[j], actorIds)) &&
      (|d.data| > 0 <==> exists j :: 0 <= j < |t| && ShownAt(t[j], actorIds))
  {
  }

  /** One more drawn track adds its dataset after the others, or nothing. */
  lemma DatasetsSnoc(ts: seq<Track>, n: nat, firstOrphan: nat, actorIds: seq<string>)
    requires 0 < n <= |ts|
    ensures var prev := DatasetsUpTo(ts, n - 1, firstOrphan, actorIds);
      var ds := DatasetsUpTo(ts, n, firstOrphan, actorIds);
      (forall k :: 0 <= k < |prev| ==> k < |ds| && ds[k] == prev[k]) &&
      if LastShown(ts[n - 1], actorIds) >= 0
      then |ds| == |prev| + 1 && ds[|prev|] == DatasetOf(ts[n - 1], n - 1, n - 1 >= firstOrphan, actorIds)
      else ds == prev
  {
  }

  /** Each dataset is the one its row's track makes, and it has data. */
  lemma {:induction false} DatasetsSound(ts: seq<Track>, n: nat, firstOrphan: nat, actorIds: seq<string>)
    requires n <= |ts|
    ensures var ds := DatasetsUpTo(ts, n, firstOrphan, actorIds);
      forall k :: 0 <= k < |ds| ==>
        ds[k].row < n && |ds[k].data| > 0 &&
        ds[k] == DatasetOf(ts[ds[k].row], ds[k].row, ds[k].row >= firstOrphan, actorIds)
  {
    if n > 0 {
      DatasetsSound(ts, n - 1, firstOrphan, actorIds);
      DatasetsSnoc(ts, n, firstOrphan, actorIds);
    }
  }

  /** The datasets come in increasing row order, so no track makes two. */
  lemma {:induction false} DatasetsOrdered(ts: seq<Track>, n: nat, firstOrphan: nat, actorIds: seq<string>)
    requires n <= |ts|
    ensures var ds := DatasetsUpTo(ts, n, firstOrphan, actorIds);
      forall k, m :: 0 <= k < m < |ds| ==> ds[k].row < ds[m].row
  {
    if n > 0 {
      DatasetsOrdered(ts, n - 1, firstOrphan, actorIds);
      DatasetsSound(ts, n - 1, firstOrphan, actorIds);
      DatasetsSnoc(ts, n, firstOrphan, actorIds);
    }
  }

  /** Every drawn track with a shown point makes a dataset. */
  lemma {:induction false} DatasetsComplete(ts: seq<Track>, n: nat, firstOrphan: nat, actorIds: seq<string>)
    requires n <= |ts|
    ensures var ds := DatasetsUpTo(ts, n, firstOrphan, actorIds);
      forall i :: 0 <= i < n && LastShown(ts[i], actorIds) >= 0 ==> exists k :: 0 <= k < |ds| && ds[k].row == i
  {
    if n > 0 {
      DatasetsComplete(ts, n - 1, firstOrphan, actorIds);
      DatasetsSnoc(ts, n, firstOrphan, actorIds);
      var prev := DatasetsUpTo(ts, n - 1, firstOrphan, actorIds);
      var ds := DatasetsUpTo(ts, n, firstOrphan, actorIds);
      forall i | 0 <= i < n && LastShown(ts[i], actorIds) >= 0
        ensures exists k :: 0 <= k < |ds| && ds[k].row == i
      {
        if i == n - 1 {
          assert ds[|prev|].row == i;
        } else {
          var k :| 0 <= k < |prev| && prev[k].row == i;
          assert ds[k].row == i;
        }
      }
    }
  }

  /** `maxX` is the last shown slot over all drawn tracks, and 0 when nothing is shown. */
  lemma {:induction false} MaxUpToMeaning(ts: seq<Track>, n: nat, actorIds: seq<string>)
    requires n <= |ts|
    ensures forall i, j :: 0 <= i < n && 0 <= j < |ts[i]| && ShownAt(ts[i][j], actorIds) ==>
      j <= MaxUpTo(ts, n, actorIds)
    ensures MaxUpTo(ts, n, actorIds) == 0 ||
      exists i :: 0 <= i < n && MaxUpTo(ts, n, actorIds) < |ts[i]| && ShownAt(ts[i][MaxUpTo(ts, n, actorIds)], actorIds)
  {
    if n > 0 {
      MaxUpToMeaning(ts, n - 1, actorIds);
      var m := MaxUpTo(ts, n - 1, actorIds);
      var last := LastShown(ts[n - 1], actorIds);
      if last > m {
        assert ShownAt(ts[n - 1][last], actorIds);
      } else if m > 0 {
        var i :| 0 <= i < n - 1 && m < |ts[i]| && ShownAt(ts[i][m], actorIds);
        assert 0 <= i < n;
      }
    }
  }

  /**
   * With at least one actor selected, a dropped main track would have made no
   * dataset: a point showing all selected actors shows one of them.
   */
  lemma DroppedTracksShowNothing(t: Track, actorIds: seq<string>)
    requires |actorIds| > 0 && !Relevant(t, actorIds)
    ensures LastShown(t, actorIds) == -1
  {
    var r := LastShown(t, actorIds);
    if r >= 0 {
      MembershipLaws(t[r].value.speech, actorIds);
      assert false;
    }
  }

  /** With no actor selected, every main track is dropped, while every point counts as shown. */
  lemma NoActorsSelected(main: seq<Track>, orphans: seq<Track>)
    ensures KeptTracks(main, []) == []
    ensures Visible(main, orphans, []) == if |orphans| > 0 then seq(PaddingTracks, _ => []) + orphans else []
    ensures forall slot: Option<Point> :: slot.Some? ==> ShownAt(slot, [])
  {
    forall k | 0 <= k < |main|
      ensures !Relevant(main[k], [])
    {
      forall j | 0 <= j < |main[k]| && main[k][j].Some? {
        MembershipLaws(main[k][j].value.speech, []);
      }
    }
    forall slot: Option<Point> | slot.Some? ensures ShownAt(slot, []) {
      MembershipLaws(slot.value.speech, []);
    }
    if |orphans| > 0 {
      assert [] + seq(PaddingTracks, _ => []) + orphans == seq(PaddingTracks, _ => []) + orphans;
    }
  }

  /**
   * The inner loop of `drawTimeline` for the track drawn at row `row`: the shown
   * points and the row marks go into sparse arrays, and `maxX` follows the largest
   * shown slot.
   */
  method ScanTrack(t: Track, row: nat, maxX0: nat, actorIds: seq<string>)
    returns (data: seq<Option<nat>>, points: seq<Option<Point>>, maxX: nat)
    ensures data == Marks(t, row, actorIds) && points == Shown(t, actorIds)
    ensures maxX == if LastShown(t, actorIds) > maxX0 then LastShown(t, actorIds) else maxX0
  {
    data, points, maxX := [], [], maxX0;
    for j := 0 to |t|
      invariant data == Marks(t[..j], row, actorIds)
      invariant points == Shown(t[..j], actorIds)
      invariant maxX == if LastShown(t[..j], actorIds) > maxX0 then LastShown(t[..j], actorIds) else maxX0
    {
      MarksStep(t, j, row, actorIds);
      if ShownAt(t[j], actorIds) {
        points := SetAt(points, j, t[j].value);
        data := SetAt(data, j, row);
        maxX := if j > maxX then j else maxX;
      }
    }
    assert t[..|t|] == t;
  }

  /**
   * The dataset loop of `drawTimeline` over the drawn tracks `ts`: tracks with no
   * shown point are not pushed; `labels` numbers the slots from 1 up to `maxX + 2`.
   */
  method Project(ts: seq<Track>, firstOrphan: nat, actorIds: seq<string>)
    returns (datasets: seq<Dataset>, maxX: nat, labels: seq<nat>)
    ensures datasets == DatasetsUpTo(ts, |ts|, firstOrphan, actorIds)
    ensures maxX == MaxUpTo(ts, |ts|, actorIds)
    ensures |labels| == maxX + 2 && forall k :: 0 <= k < |labels| ==> labels[k] == k + 1
  {
    datasets := [];
    maxX := 0;
    for i := 0 to |ts|
      invariant datasets == DatasetsUpTo(ts, i, firstOrphan, actorIds)
      invariant maxX == MaxUpTo(ts, i, actorIds)
    {
      var data, points;
      data, points, maxX := ScanTrack(ts[i], i, maxX, actorIds);
      if |data| > 0 {
        datasets := datasets + [Dataset(i, i >= firstOrphan, data, points)];
      }
    }
    labels := seq(maxX + 2, k requires 0 <= k < maxX + 2 => k + 1);
  }

  /** How one more slot extends the sparse arrays. */
  lemma MarksStep(t: Track, j: nat, row: nat, actorIds: seq<string>)
    requires j < |t|
    ensures ShownAt(t[j], actorIds) ==>
      Marks(t[..j + 1], row, actorIds) == SetAt(Marks(t[..j], row, actorIds), j, row) &&
      Shown(t[..j + 1], actorIds) == SetAt(Shown(t[..j], actorIds), j, t[j].value)
    ensures !ShownAt(t[j], actorIds) ==>
      Marks(t[..j + 1], row, actorIds) == Marks(t[..j], row, actorIds) &&
      Shown(t[..j + 1], actorIds) == Shown(t[..j], actorIds)
  {
    assert t[..j + 1][..j] == t[..j];
  }
}
