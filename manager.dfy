/**
 * The mutable objects of js/script.js: `Timeline`, whose points array is filled in
 * place, and `TimelineManager`, whose `processTimeline` pushes new tracks and adds
 * points to existing ones, and whose `drawTimeline` runs the layout and projects
 * it for the chart. Each method is proved against the value model in `Layout`.
 */
module Manager {
  import opened Wrappers
  import opened Tracks
  import opened Layout
  import Projection

  /** A `Timeline`: one track. */
  class Timeline {
    var points: Track

    /** `new Timeline(point)`: empty, or holding the given point at slot 0. */
    constructor (point: Option<Point>)
      ensures points == if point.Some? then [point] else []
    {
      points := [];
      new;
      if point.Some? {
        AddPoint(0, point.value);
      }
    }

    /** `pointAt(index)`. */
    function PointAt(index: int): (r: Option<Point>)
      reads this
      ensures r.Some? <==> 0 <= index < |points| && points[index].Some?
      ensures r.Some? ==> r == points[index]
    {
      Tracks.PointAt(points, index)
    }

    /** `addPoint(index, point)`: stores into a free slot, or inserts before an occupied one. */
    method AddPoint(index: int, point: Point)
      modifies this
      ensures points == Tracks.AddPoint(old(points), index, point)
    {
      var i := if index < 0 then 0 else index;
      if Tracks.PointAt(points, i).None? {
        points := SetAt(points, i, point);
      } else {
        points := Insert(points, i, Some(point));
      }
    }
  }

  /** The tracks of a list of timelines. */
  function TracksOf(ts: seq<Timeline>): (r: seq<Track>)
    reads ts
    ensures |r| == |ts|
  {
    seq(|ts|, i reads ts requires 0 <= i < |ts| => ts[i].points)
  }

  /** Pushing a timeline pushes its track. */
  lemma TracksOfAppend(ts: seq<Timeline>, t: Timeline)
    ensures TracksOf(ts + [t]) == TracksOf(ts) + [t.points]
  {
    assert (ts + [t])[..|ts|] == ts;
  }

  /** `new Timeline()` followed by `addPoint(index, point)` on it. */
  method NewTimelineWith(index: int, point: Point) returns (t: Timeline)
    ensures fresh(t) && t.points == Tracks.AddPoint([], index, point)
  {
    t := new Timeline(None);
    t.AddPoint(index, point);
  }

  /** No timeline object occurs twice: each one is new to the timelines before it. */
  ghost predicate Distinct(ts: seq<Timeline>)
    decreases |ts|
  {
    ts == [] || (ts[|ts| - 1] !in ts[..|ts| - 1] && Distinct(ts[..|ts| - 1]))
  }

  /** Two positions of a distinct list hold two different timelines. */
  lemma {:induction false} DistinctApart(ts: seq<Timeline>, i: nat, j: nat)
    requires Distinct(ts) && i < |ts| && j < |ts| && i != j
    ensures ts[i] != ts[j]
  {
    var last := |ts| - 1;
    if i == last {
      assert ts[j] == ts[..last][j];
    } else if j == last {
      assert ts[i] == ts[..last][i];
    } else {
      DistinctApart(ts[..last], i, j);
    }
  }

  /** A timeline the list does not hold may be pushed onto it. */
  lemma DistinctPush(a: seq<Timeline>, t: Timeline)
    requires Distinct(a) && t !in a
    ensures Distinct(a + [t])
  {
    assert (a + [t])[..|a|] == a;
  }

  /** A timeline held by no list may join any of them. */
  lemma {:induction false} DistinctInsert(a: seq<Timeline>, b: seq<Timeline>, t: Timeline)
    requires Distinct(a + b) && t !in a && t !in b
    ensures Distinct(a + [t] + b)
    decreases |b|
  {
    if b == [] {
      assert a + b == a && a + [t] + b == a + [t];
      DistinctPush(a, t);
    } else {
      var b', last := b[..|b| - 1], b[|b| - 1];
      assert a + b == (a + b') + [last] && (a + b)[..|a + b| - 1] == a + b';
      DistinctInsert(a, b', t);
      assert a + [t] + b == (a + [t] + b') + [last] && (a + [t] + b)[..|a + [t] + b| - 1] == a + [t] + b';
    }
  }

  /** A `TimelineManager` after `load`: its relations, its track lists and its last orphan report. */
  class TimelineManager {
    var relations: seq<Relation>
    var timelines: seq<Timeline>
    var orphanTimelines: seq<Timeline>
    var orphans: seq<Relation>
    /** The timeline objects the manager owns. */
    ghost var Repr: set<object>

    /** Every timeline the manager holds, in the order the lookups scan them. */
    function Objects(): seq<Timeline>
      reads `timelines, `orphanTimelines
    {
      timelines + orphanTimelines
    }

    /** Each timeline object is held once, so changing one track changes no other. */
    ghost predicate Valid()
      reads `timelines, `orphanTimelines, `Repr
    {
      (forall t :: t in timelines ==> t in Repr) &&
      (forall t :: t in orphanTimelines ==> t in Repr) &&
      Distinct(timelines + orphanTimelines)
    }

    /** The board the manager's timelines hold. */
    function View(): Board
      reads `timelines, `orphanTimelines, timelines, orphanTimelines
    {
      Board(TracksOf(timelines), TracksOf(orphanTimelines))
    }

    constructor (relations: seq<Relation>)
      ensures Valid() && View() == Board([], [])
      ensures this.relations == relations && orphans == []
    {
      this.relations := relations;
      timelines := [];
      orphanTimelines := [];
      orphans := [];
      Repr := {};
    }

    /** The frame every step of `processTimeline` keeps. */
    twostate predicate StepFrame()
      reads this
    {
      Valid() && relations == old(relations) && orphans == old(orphans) &&
      fresh(Repr - old(Repr))
    }

    /** The frame of `drawTimeline`, which also replaces the orphan report. */
    twostate predicate DrawFrame()
      reads `relations, `timelines, `orphanTimelines, `Repr
    {
      Valid() && relations == old(relations) && fresh(Repr - old(Repr))
    }

    /** The start of a loop iteration: with no main track yet, push a track holding `to`. */
    method SeedWith(to: Entities.Speech)
      requires Valid()
      modifies this
      ensures StepFrame()
      ensures View() == Seed(old(View()), to)
    {
      if |timelines| == 0 {
        var first := new Timeline(Some(Point(to)));
        DistinctInsert(timelines, orphanTimelines, first);
        timelines := timelines + [first];
        Repr := Repr + {first};
      }
    }

    /** `timelines.push(new Timeline())`: an empty main track. */
    method PushEmpty()
      requires Valid()
      modifies this
      ensures StepFrame()
      ensures View() == Board(old(View()).main + [[]], old(View()).orphans)
    {
      ghost var main, orphanTracks := TracksOf(timelines), TracksOf(orphanTimelines);
      var pad := new Timeline(None);
      assert TracksOf(timelines) == main && TracksOf(orphanTimelines) == orphanTracks;
      DistinctInsert(timelines, orphanTimelines, pad);
      TracksOfAppend(timelines, pad);
      timelines := timelines + [pad];
      Repr := Repr + {pad};
    }

    /** `orphanTimelines.push(new Timeline(toPoint))`: an orphan track holding `to`. */
    method PushOrphan(to: Entities.Speech)
      requires Valid()
      modifies this
      ensures StepFrame()
      ensures View() == Board(old(View()).main, old(View()).orphans + [[Some(Point(to))]])
    {
      var orphan := new Timeline(Some(Point(to)));
      DistinctPush(timelines + orphanTimelines, orphan);
      assert timelines + orphanTimelines + [orphan] == timelines + (orphanTimelines + [orphan]);
      orphanTimelines := orphanTimelines + [orphan];
      Repr := Repr + {orphan};
    }

    /** When `to` is on no main track: push two padding tracks and an orphan track holding `to`. */
    method AnchorTo(to: Entities.Speech)
      requires Valid()
      modifies this
      ensures StepFrame()
      ensures View() == Anchor(old(View()), to)
    {
      var toPoint := PointFromSpeech(TracksOf(timelines), to.id);
      if toPoint.None? {
        ghost var before := View();
        PushEmpty();
        PushEmpty();
        PushOrphan(to);
        assert before.main + [[]] + [[]] == before.main + [[], []];
      }
    }

    /** `new Timeline()`, then `addPoint(index, point)` on it, pushed onto the main tracks. */
    method PushTimeline(index: int, point: Point)
      requires Valid()
      modifies this
      ensures StepFrame()
      ensures View() == Board(old(View()).main + [Tracks.AddPoint([], index, point)], old(View()).orphans)
    {
      var timeline := NewTimelineWith(index, point);
      DistinctInsert(timelines, orphanTimelines, timeline);
      TracksOfAppend(timelines, timeline);
      timelines := timelines + [timeline];
      Repr := Repr + {timeline};
    }

    /** `addPoint(index, point)` on the track at position `k` of the main and orphan tracks. */
    method AddToTimeline(k: nat, index: int, point: Point)
      requires Valid() && k < |Objects()|
      modifies Objects()[k]
      ensures StepFrame()
      ensures View() == UpdateTrack(old(View()), k, Tracks.AddPoint(All(old(View()))[k], index, point))
    {
      ghost var before := View();
      ghost var all := All(before);
      var timeline := Objects()[k];
      assert all[k] == timeline.points;
      assert forall i :: 0 <= i < |all| ==> all[i] == Objects()[i].points;
      timeline.AddPoint(index, point);
      ghost var after := all[k := timeline.points];
      forall i | 0 <= i < |all|
        ensures All(View())[i] == after[i]
      {
        if i != k {
          DistinctApart(Objects(), i, k);
        }
      }
      assert All(View()) == after;
      BoardOfAll(View(), UpdateTrack(before, k, timeline.points));
    }

    /**
     * The placement of `from` next to the first point of `to`, on its track or on a
     * new one.
     */
    method PlaceFrom(relation: Relation)
      requires Valid()
      requires OnAny(All(View()), relation.to.id)
      modifies this, Repr
      ensures StepFrame()
      ensures View() == Place(old(View()), relation)
    {
      ghost var before := View();
      var point := Point(relation.from);
      var all := TracksOf(timelines + orphanTimelines);
      assert all == All(before);
      var x := IndexOfPoint(all, relation.to.id).value;
      var k := TimelineOfPoint(all, relation.to.id).value;
      var timeline := Objects()[k];
      if relation.kind == Simultaneous {
        PushTimeline(x, point);
      } else {
        // `newX` stays undefined for a simultaneous relation, as NewX says
        var newX := NewX(relation.kind, x);
        if newX.Some? {
          if timeline.PointAt(newX.value).Some? {
            PushTimeline(newX.value, point);
          } else {
            AddToTimeline(k, newX.value, point);
          }
        } else {
          assert Place(before, relation) == before;
        }
      }
    }

    /** The part of a loop iteration before the placement: seed the board, anchor `to`. */
    method Prepare(to: Entities.Speech)
      requires Valid()
      modifies this
      ensures StepFrame()
      ensures View() == Anchor(Seed(old(View()), to), to)
      ensures OnAny(All(View()), to.id)
    {
      SeedWith(to);
      ghost var seeded := View();
      AnchorTo(to);
      AnchorFinds(seeded, to);
    }

    /** One iteration of `processTimeline`'s loop. */
    method ProcessRelation(relation: Relation)
      requires Valid()
      modifies this, Repr
      ensures StepFrame()
      ensures View() == Step(old(View()), relation)
    {
      if PointFromSpeech(TracksOf(timelines), relation.from.id).None? {
        Prepare(relation.to);
        PlaceFrom(relation);
      }
    }

    /**
     * `processTimeline()`: one pass over the relations, which leaves the board the
     * value model computes; the orphan list it returns is never appended to.
     */
    method ProcessTimeline() returns (result: seq<Relation>)
      requires Valid()
      modifies this, Repr
      ensures StepFrame()
      ensures View() == Process(old(View()), relations)
      ensures result == []
    {
      result := [];
      var n := 0;
      while n < |relations|
        invariant 0 <= n <= |relations|
        invariant StepFrame()
        invariant View() == Process(old(View()), relations[..n])
      {
        ProcessRelation(relations[n]);
        assert relations[..n + 1][..n] == relations[..n];
        n := n + 1;
      }
      assert relations[..|relations|] == relations;
    }

    /**
     * The layout part of `drawTimeline`: the first pass of `processTimeline`, retried
     * up to ten times while it reports orphans. Since a pass never reports orphans,
     * the first pass fixes the board.
     */
    method Layout()
      requires Valid()
      modifies this, Repr
      ensures DrawFrame()
      ensures View() == Process(old(View()), relations)
      ensures orphans == []
    {
      var retries := 0;
      var pending := ProcessTimeline();
      while |pending| > 0 && retries < 10
        invariant DrawFrame()
        invariant 0 <= retries <= 10
        // `ProcessTimeline` always returns `[]`, so the loop never iterates. The two
        // invariants below keep the body meaningful for a non-empty `pending`
        // instead of stating `pending == []`, which would leave the body unreachable.
        invariant |pending| > 0 ==> retries == 0 && View() == old(View())
        invariant |pending| == 0 ==> View() == Process(old(View()), relations)
        decreases 10 - retries
      {
        retries := retries + 1;
        pending := ProcessTimeline();
      }
      orphans := pending;
    }

    /**
     * `drawTimeline(actorIds)`: the layout, then the projection of its tracks into
     * the chart's datasets and labels.
     */
    method DrawTimeline(actorIds: seq<string>)
      returns (datasets: seq<Projection.Dataset>, maxX: nat, labels: seq<nat>)
      requires Valid()
      modifies this, Repr
      ensures DrawFrame()
      ensures View() == Process(old(View()), relations)
      ensures orphans == []
      ensures var drawn := Projection.Visible(View().main, View().orphans, actorIds);
        var firstOrphan := Projection.FirstOrphan(View().main, View().orphans, actorIds);
        datasets == Projection.DatasetsUpTo(drawn, |drawn|, firstOrphan, actorIds) &&
        maxX == Projection.MaxUpTo(drawn, |drawn|, actorIds) &&
        |labels| == maxX + 2 && forall k :: 0 <= k < |labels| ==> labels[k] == k + 1
    {
      Layout();
      var main := TracksOf(timelines);
      var orphanTracks := TracksOf(orphanTimelines);
      var drawn := Projection.Visible(main, orphanTracks, actorIds);
      datasets, maxX, labels := Projection.Project(drawn, Projection.FirstOrphan(main, orphanTracks, actorIds), actorIds);
    }
  }
}
