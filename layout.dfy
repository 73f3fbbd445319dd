/**
 * The multi-track layout of js/script.js (`TimelineManager.processTimeline`) as a
 * function on values. A board is the pair of the manager's track lists: the main
 * tracks (`timelines`) and the orphan tracks (`orphanTimelines`). One pass walks
 * the relations in order and places each relation's `from` speech relative to its
 * `to` speech.
 */
module Layout {
  import opened Wrappers
  import opened Entities
  import opened Tracks

  /** The `REL` attribute of a relation; any other text places nothing. */
  datatype RelKind = ImmediatelyBefore | ImmediatelyAfter | Before | After | Simultaneous | Unrecognized(tag: string)

  /** The relation kinds `processTimeline` tests for, by exact string comparison. */
  function KindOf(tag: string): (k: RelKind)
    ensures k.Unrecognized? <==>
      tag != "IMMEDIATELY_BEFORE" && tag != "IMMEDIATELY_AFTER" && tag != "BEFORE" && tag != "AFTER" && tag != "SIMULTANEOUS"
    ensures k.Unrecognized? ==> k.tag == tag
    ensures tag == "IMMEDIATELY_BEFORE" ==> k == ImmediatelyBefore
    ensures tag == "IMMEDIATELY_AFTER" ==> k == ImmediatelyAfter
    ensures tag == "BEFORE" ==> k == Before
    ensures tag == "AFTER" ==> k == After
    ensures tag == "SIMULTANEOUS" ==> k == Simultaneous
  {
    if tag == "IMMEDIATELY_BEFORE" then ImmediatelyBefore
    else if tag == "IMMEDIATELY_AFTER" then ImmediatelyAfter
    else if tag == "BEFORE" then Before
    else if tag == "AFTER" then After
    else if tag == "SIMULTANEOUS" then Simultaneous
    else Unrecognized(tag)
  }

  /** A relation (a `TREL` element) with both endpoints resolved. */
  datatype Relation = Relation(id: string, from: Speech, to: Speech, kind: RelKind, trigger: string)

  /** The manager's two track lists. */
  datatype Board = Board(main: seq<Track>, orphans: seq<Track>)

  /** `[...this.timelines, ...this.orphanTimelines]`, the list `timelineOfPoint` and `indexOfPoint` scan. */
  function All(b: Board): seq<Track>
  {
    b.main + b.orphans
  }

  /** `newX`: the slot the four spaced kinds target from the slot `x` of `to`; undefined for the others. */
  function NewX(kind: RelKind, x: int): (r: Option<int>)
    ensures r.Some? <==> kind in {ImmediatelyBefore, ImmediatelyAfter, Before, After}
    ensures r.Some? ==> r.value != x && -2 <= r.value - x <= 2
    ensures kind == ImmediatelyBefore ==> r == Some(x - 1)
    ensures kind == ImmediatelyAfter ==> r == Some(x + 1)
    ensures kind == Before ==> r == Some(x - 2)
    ensures kind == After ==> r == Some(x + 2)
  {
    match kind
    case ImmediatelyBefore => Some(x - 1)
    case ImmediatelyAfter => Some(x + 1)
    case Before => Some(x - 2)
    case After => Some(x + 2)
    case _ => None
  }

  /** When there is no main track yet, a first one is made holding `to`. */
  function Seed(b: Board, to: Speech): (r: Board)
    ensures |r.main| > 0 && r.orphans == b.orphans
    ensures |b.main| > 0 ==> r == b
    ensures |b.main| == 0 ==> |r.main| == 1 && OnTrack(r.main[0], to.id)
  {
    if |b.main| == 0 then
      var r := Board([[Some(Point(to))]], b.orphans);
      assert Holds(r.main[0][0], to.id);
      r
    else b
  }

  /**
   * When `to` is on no main track, two empty padding tracks are appended to the main
   * tracks and a track holding only `to` to the orphan tracks.
   */
  function Anchor(b: Board, to: Speech): (r: Board)
    ensures r == b <==> OnAny(b.main, to.id)
    ensures r != b ==>
      |r.main| == |b.main| + 2 && |r.orphans| == |b.orphans| + 1 &&
      r.main[..|b.main|] == b.main && r.orphans[..|b.orphans|] == b.orphans
  {
    if PointFromSpeech(b.main, to.id).Some? then b
    else Board(b.main + [[], []], b.orphans + [[Some(Point(to))]])
  }

  lemma {:induction false} AnchorFinds(b: Board, to: Speech)
    ensures OnAny(All(Anchor(b, to)), to.id)
  {
    var a := Anchor(b, to);
    if PointFromSpeech(b.main, to.id).Some? {
      var k :| 0 <= k < |b.main| && OnTrack(b.main[k], to.id);
      assert All(a)[k] == b.main[k];
    } else {
      var last := |All(a)| - 1;
      assert All(a)[last] == [Some(Point(to))];
      assert Holds(All(a)[last][0], to.id);
    }
  }

  /** A board is determined by its track list and the number of main tracks. */
  lemma BoardOfAll(b1: Board, b2: Board)
    requires |b1.main| == |b2.main| && All(b1) == All(b2)
    ensures b1 == b2
  {
    assert b1.main == All(b1)[..|b1.main|] && b2.main == All(b2)[..|b2.main|];
    assert b1.orphans == All(b1)[|b1.main|..] && b2.orphans == All(b2)[|b2.main|..];
  }

  /** Replaces the track at position `k` of `All(b)`, a main track or an orphan track. */
  function UpdateTrack(b: Board, k: nat, t: Track): (r: Board)
    requires k < |All(b)|
    ensures |r.main| == |b.main| && |r.orphans| == |b.orphans|
    ensures All(r) == All(b)[k := t]
  {
    if k < |b.main| then Board(b.main[k := t], b.orphans)
    else Board(b.main, b.orphans[k - |b.main| := t])
  }

  /**
   * The placement of `from`, once `to` is on some track: `x` is the slot of the first
   * point of `to` over all tracks and `k` the track it is on. A simultaneous `from`
   * goes at slot `x` of a new main track. For the four spaced kinds, `from` goes at
   * the target slot of track `k`, unless that slot holds a point, in which case it
   * goes at the same slot of a new main track. Any other kind places nothing.
   */
  function Place(b: Board, r: Relation): (pl: Board)
    requires OnAny(All(b), r.to.id)
    ensures r.kind.Unrecognized? ==> pl == b
    ensures |pl.orphans| == |b.orphans| && |b.main| <= |pl.main| <= |b.main| + 1
    ensures |pl.main| == |b.main| + 1 ==> pl.main[..|b.main|] == b.main && pl.orphans == b.orphans
  {
    var all := All(b);
    var k := TimelineOfPoint(all, r.to.id).value;
    var x := IndexOfPoint(all, r.to.id).value;
    var p := Point(r.from);
    if r.kind == Simultaneous then Board(b.main + [AddPoint([], x, p)], b.orphans)
    else
      match NewX(r.kind, x)
      case None => b
      case Some(t) =>
        if PointAt(all[k], t).Some? then Board(b.main + [AddPoint([], t, p)], b.orphans)
        else UpdateTrack(b, k, AddPoint(all[k], t, p))
  }

  /** `to`'s track and slot as the lookups report them: the first point of `to` over all tracks. */
  lemma ToFound(b: Board, r: Relation)
    requires OnAny(All(b), r.to.id)
    ensures var all := All(b);
      var k, x := TimelineOfPoint(all, r.to.id).value, IndexOfPoint(all, r.to.id).value;
      k < |all| && x < |all[k]| && Holds(all[k][x], r.to.id)
  {
    LookupsAgree(All(b), r.to.id);
  }

  /**
   * A simultaneous `from` opens a new main track, at the slot where `to` was found,
   * with holes below it and nothing after it; all other tracks stay as they are.
   */
  lemma PlaceSimultaneous(b: Board, r: Relation)
    requires OnAny(All(b), r.to.id) && r.kind == Simultaneous
    ensures var all, pl := All(b), Place(b, r);
      var k, x := TimelineOfPoint(all, r.to.id).value, IndexOfPoint(all, r.to.id).value;
      var t := pl.main[|pl.main| - 1];
      x < |all[k]| && Holds(all[k][x], r.to.id) &&
      pl.orphans == b.orphans && |pl.main| == |b.main| + 1 && pl.main[..|b.main|] == b.main &&
      |t| == x + 1 && t[x] == Some(Point(r.from)) && forall j :: 0 <= j < x ==> t[j].None?
  {
    ToFound(b, r);
    assert (b.main + [Place(b, r).main[|b.main|]])[..|b.main|] == b.main;
  }

  /**
   * A spaced `from` whose target slot on `to`'s track holds a point opens a new
   * main track holding it at that slot, with holes below it; all other tracks stay
   * as they are.
   */
  lemma PlaceOccupied(b: Board, r: Relation)
    requires OnAny(All(b), r.to.id)
    requires var all := All(b);
      var k, x := TimelineOfPoint(all, r.to.id).value, IndexOfPoint(all, r.to.id).value;
      NewX(r.kind, x).Some? && PointAt(all[k], NewX(r.kind, x).value).Some?
    ensures var all, pl := All(b), Place(b, r);
      var x := IndexOfPoint(all, r.to.id).value;
      var target, t := NewX(r.kind, x).value, pl.main[|pl.main| - 1];
      pl.orphans == b.orphans && |pl.main| == |b.main| + 1 && pl.main[..|b.main|] == b.main &&
      0 <= target && |t| == target + 1 && t[target] == Some(Point(r.from)) && forall j :: 0 <= j < target ==> t[j].None?
  {
    assert (b.main + [Place(b, r).main[|b.main|]])[..|b.main|] == b.main;
  }

  /**
   * A spaced `from` whose target slot on `to`'s track is free goes on that track:
   * the track keeps its position in its list, the point is added there by
   * `addPoint`, and every other track stays as it is. For a target of zero or
   * more, the point fills the slot (growing the track with holes if it lies past
   * the end), every other slot is kept and `to` keeps its slot.
   */
  lemma PlaceFree(b: Board, r: Relation)
    requires OnAny(All(b), r.to.id)
    requires var all := All(b);
      var k, x := TimelineOfPoint(all, r.to.id).value, IndexOfPoint(all, r.to.id).value;
      NewX(r.kind, x).Some? && PointAt(all[k], NewX(r.kind, x).value).None?
    ensures var all, pl := All(b), Place(b, r);
      var k, x := TimelineOfPoint(all, r.to.id).value, IndexOfPoint(all, r.to.id).value;
      var target := NewX(r.kind, x).value;
      |pl.main| == |b.main| && |pl.orphans| == |b.orphans| &&
      All(pl) == all[k := AddPoint(all[k], target, Point(r.from))] &&
      (target >= 0 ==>
        var t := All(pl)[k];
        t[target] == Some(Point(r.from)) && x < |all[k]| && x < |t| && t[x] == all[k][x] &&
        forall j :: 0 <= j < |t| && j != target ==> t[j] == if j < |all[k]| then all[k][j] else None)
  {
    ToFound(b, r);
  }

  /**
   * A target below zero (`to` at slot 0 or 1 and a kind reaching back past the
   * start) acts as slot 0 of `to`'s track: `from` fills slot 0 when it is a hole,
   * and otherwise is prepended, shifting every point of the track one slot on.
   */
  lemma PlaceClamped(b: Board, r: Relation)
    requires OnAny(All(b), r.to.id)
    requires var all := All(b);
      var x := IndexOfPoint(all, r.to.id).value;
      NewX(r.kind, x).Some? && NewX(r.kind, x).value < 0
    ensures var all, pl := All(b), Place(b, r);
      var k, x := TimelineOfPoint(all, r.to.id).value, IndexOfPoint(all, r.to.id).value;
      var t := All(pl)[k];
      x <= 1 && |pl.main| == |b.main| && |pl.orphans| == |b.orphans| &&
      (forall m :: 0 <= m < |all| && m != k ==> All(pl)[m] == all[m]) &&
      (all[k][0].None? ==> t == all[k][0 := Some(Point(r.from))]) &&
      (all[k][0].Some? ==> t == [Some(Point(r.from))] + all[k])
  {
    ToFound(b, r);
    var all := All(b);
    var k := TimelineOfPoint(all, r.to.id).value;
    var t := All(Place(b, r))[k];
    if all[k][0].Some? {
      assert t == [Some(Point(r.from))] + all[k];
    } else {
      assert t == all[k][0 := Some(Point(r.from))];
    }
  }

  /**
   * The speech ids of the board change by `id` on exactly one of its two lists:
   * one point was added, to a main track or to an orphan track, and nothing else.
   */
  predicate AddsOne(b: Board, b': Board, id: string)
  {
    (Bag(b'.main) == Bag(b.main) + multiset{id} && Bag(b'.orphans) == Bag(b.orphans)) ||
    (Bag(b'.main) == Bag(b.main) && Bag(b'.orphans) == Bag(b.orphans) + multiset{id})
  }

  /** The speech ids of the whole board. */
  function BoardBag(b: Board): (r: multiset<string>)
    ensures r == Bag(b.main) + Bag(b.orphans)
  {
    BagConcat(b.main, b.orphans);
    Bag(All(b))
  }

  /** Seeding adds `to` as the only point of the only main track, and only to an empty board. */
  lemma SeedBag(b: Board, to: Speech)
    ensures |b.main| == 0 ==> Bag(Seed(b, to).main) == multiset{to.id} && Seed(b, to).orphans == b.orphans
    ensures |b.main| > 0 ==> Seed(b, to) == b
    ensures |Seed(b, to).main| > 0
  {
    if |b.main| == 0 {
      TrackBagSingle(Point(to));
      assert [[Some(Point(to))]][..0] == [];
    }
  }

  /**
   * Anchoring a `to` that is on no main track adds its id to the orphan tracks and
   * two empty tracks to the main ones, so the main ids stay as they are.
   */
  lemma AnchorBag(b: Board, to: Speech)
    ensures var a := Anchor(b, to);
      if OnAny(b.main, to.id) then a == b
      else
        |a.main| == |b.main| + 2 && |a.orphans| == |b.orphans| + 1 &&
        Bag(a.main) == Bag(b.main) && Bag(a.orphans) == Bag(b.orphans) + multiset{to.id}
  {
    if !OnAny(b.main, to.id) {
      TrackBagEmpty();
      BagAppend(b.main, []);
      BagAppend(b.main + [[]], []);
      assert b.main + [[], []] == b.main + [[]] + [[]];
      TrackBagSingle(Point(to));
      BagAppend(b.orphans, [Some(Point(to))]);
    }
  }

  /** A new main track holding only `p` adds its id to the main tracks. */
  lemma NewTrackBag(b: Board, x: int, p: Point)
    ensures AddsOne(b, Board(b.main + [AddPoint([], x, p)], b.orphans), p.speech.id)
  {
    TrackBagEmpty();
    TrackBagAddPoint([], x, p);
    BagAppend(b.main, AddPoint([], x, p));
  }

  /** Adding `p` to the track at position `k` adds its id to the list that track is on. */
  lemma UpdateTrackBag(b: Board, k: nat, x: int, p: Point)
    requires k < |All(b)|
    ensures AddsOne(b, UpdateTrack(b, k, AddPoint(All(b)[k], x, p)), p.speech.id)
  {
    var t := All(b)[k];
    TrackBagAddPoint(t, x, p);
    if k < |b.main| {
      assert t == b.main[k];
      BagUpdate(b.main, k, AddPoint(t, x, p), p.speech.id);
    } else {
      assert t == b.orphans[k - |b.main|];
      BagUpdate(b.orphans, k - |b.main|, AddPoint(t, x, p), p.speech.id);
    }
  }

  /**
   * Placing `from` adds its id to exactly one of the two lists when the kind is one
   * `processTimeline` tests for, and leaves the board alone otherwise. The orphan
   * tracks keep their number; the main tracks grow by at most one.
   */
  lemma PlaceBag(b: Board, r: Relation)
    requires OnAny(All(b), r.to.id)
    ensures var pl := Place(b, r);
      (r.kind.Unrecognized? ==> pl == b) &&
      (!r.kind.Unrecognized? ==> AddsOne(b, pl, r.from.id)) &&
      |pl.orphans| == |b.orphans| && |b.main| <= |pl.main| <= |b.main| + 1
  {
    var all := All(b);
    var k := TimelineOfPoint(all, r.to.id).value;
    var x := IndexOfPoint(all, r.to.id).value;
    var p := Point(r.from);
    if r.kind == Simultaneous {
      NewTrackBag(b, x, p);
    } else if NewX(r.kind, x).Some? {
      var t := NewX(r.kind, x).value;
      if PointAt(all[k], t).Some? {
        NewTrackBag(b, t, p);
      } else {
        UpdateTrackBag(b, k, t, p);
      }
    }
  }

  /**
   * How the ids of the two lists add up when a step adds `add` to the main ids and
   * `orphan` to the orphan ids, and then `one` to either list or nothing at all.
   */
  lemma StepArith(m0: multiset<string>, o0: multiset<string>, m3: multiset<string>, o3: multiset<string>,
                  add: multiset<string>, orphan: multiset<string>, one: multiset<string>)
    requires (m3 == m0 + add + one && o3 == o0 + orphan) || (m3 == m0 + add && o3 == o0 + orphan + one) ||
      (one == multiset{} && m3 == m0 + add && o3 == o0 + orphan)
    ensures m3 + o3 == m0 + o0 + add + orphan + one
    ensures m0 <= m3 && o0 <= o3 && m3 <= m0 + add + one
  {
  }

  /** The ids a non-skipped step adds to the main tracks before placing: `to`, on an empty board. */
  function SeedAdds(b: Board, r: Relation): multiset<string>
  {
    if |b.main| == 0 then multiset{r.to.id} else multiset{}
  }

  /** The ids a non-skipped step adds to the orphan tracks before placing: `to`, when it is on no main track of a non-empty board. */
  function AnchorAdds(b: Board, r: Relation): multiset<string>
  {
    if |b.main| > 0 && !OnAny(b.main, r.to.id) then multiset{r.to.id} else multiset{}
  }

  /** The ids placing adds: `from`, for a recognized kind. */
  function PlaceAdds(r: Relation): multiset<string>
  {
    if r.kind.Unrecognized? then multiset{} else multiset{r.from.id}
  }

  /** The board after seeding and anchoring `to`: the board `Place` works on. */
  function Anchored(b: Board, r: Relation): (a: Board)
    ensures OnAny(All(a), r.to.id)
  {
    AnchorFinds(Seed(b, r.to), r.to);
    Anchor(Seed(b, r.to), r.to)
  }

  /**
   * One iteration of `processTimeline`'s loop: a relation whose `from` is already on
   * a main track is skipped; otherwise the board is seeded, `to` anchored and `from`
   * placed.
   */
  function Step(b: Board, r: Relation): (s: Board)
    ensures OnAny(b.main, r.from.id) ==> s == b
    ensures |b.main| <= |s.main| && |b.orphans| <= |s.orphans| <= |b.orphans| + 1
    ensures |s.main| > 0
  {
    if PointFromSpeech(b.main, r.from.id).Some? then b else Place(Anchored(b, r), r)
  }

  /** `processTimeline`: one pass over the relations in order. */
  function Process(b: Board, rels: seq<Relation>): (p: Board)
    ensures |b.main| <= |p.main| && |b.orphans| <= |p.orphans| <= |b.orphans| + |rels|
    ensures rels != [] ==> |p.main| > 0
    decreases |rels|
  {
    if rels == [] then b else Step(Process(b, rels[..|rels| - 1]), rels[|rels| - 1])
  }

  /** Seeding and anchoring add `to` to the main tracks of an empty board, or to the orphans when it is on no main track. */
  lemma AnchoredBag(b: Board, r: Relation)
    ensures var a := Anchored(b, r);
      Bag(a.main) == Bag(b.main) + SeedAdds(b, r) && Bag(a.orphans) == Bag(b.orphans) + AnchorAdds(b, r) &&
      |b.main| <= |a.main| && |b.orphans| <= |a.orphans| <= |b.orphans| + 1
  {
    var sd := Seed(b, r.to);
    SeedBag(b, r.to);
    if |b.main| == 0 {
      assert Holds(sd.main[0][0], r.to.id);
      assert Bag(b.main) == multiset{};
    }
    AnchorBag(sd, r.to);
  }

  /** One step skips a relation whose `from` is already on a main track. */
  lemma StepSkips(b: Board, r: Relation)
    requires OnAny(b.main, r.from.id)
    ensures Step(b, r) == b
  {
  }

  /** A step on a relation whose `from` is on no main track: `to` is seeded or anchored, then `from` lands on one list. */
  lemma StepParts(b: Board, r: Relation)
    requires !OnAny(b.main, r.from.id)
    ensures var s := Step(b, r);
      var m0, o0, m3, o3 := Bag(b.main), Bag(b.orphans), Bag(s.main), Bag(s.orphans);
      var add, orphan, one := SeedAdds(b, r), AnchorAdds(b, r), PlaceAdds(r);
      ((m3 == m0 + add + one && o3 == o0 + orphan) || (m3 == m0 + add && o3 == o0 + orphan + one) ||
       (one == multiset{} && m3 == m0 + add && o3 == o0 + orphan)) &&
      |b.main| <= |s.main| && |b.orphans| <= |s.orphans| <= |b.orphans| + 1
  {
    var a := Anchored(b, r);
    AnchoredBag(b, r);
    PlaceBag(a, r);
  }

  /**
   * A step on a relation whose `from` is on no main track adds `to` once, on a main
   * track of an empty board or on an orphan track when `to` is on no main track,
   * adds `from` once when the kind is recognized, and removes nothing.
   */
  lemma StepBag(b: Board, r: Relation)
    requires !OnAny(b.main, r.from.id)
    ensures BoardBag(Step(b, r)) == BoardBag(b) + SeedAdds(b, r) + AnchorAdds(b, r) + PlaceAdds(r)
  {
    var s := Step(b, r);
    StepParts(b, r);
    StepArith(Bag(b.main), Bag(b.orphans), Bag(s.main), Bag(s.orphans), SeedAdds(b, r), AnchorAdds(b, r), PlaceAdds(r));
  }

  /**
   * A step removes nothing from either list and no track; the main tracks gain at
   * most `from` and, on an empty board, `to`; the orphan tracks gain at most one track.
   */
  lemma StepKeeps(b: Board, r: Relation)
    ensures var s := Step(b, r);
      Bag(b.main) <= Bag(s.main) && Bag(b.orphans) <= Bag(s.orphans) &&
      Bag(s.main) <= Bag(b.main) + SeedAdds(b, r) + PlaceAdds(r) &&
      |b.main| <= |s.main| && |b.orphans| <= |s.orphans| <= |b.orphans| + 1
  {
    if !OnAny(b.main, r.from.id) {
      var s := Step(b, r);
      StepParts(b, r);
      StepArith(Bag(b.main), Bag(b.orphans), Bag(s.main), Bag(s.orphans), SeedAdds(b, r), AnchorAdds(b, r), PlaceAdds(r));
    }
  }

  /** After a step, a relation of a recognized kind has its `from` on some track. */
  lemma StepPlaces(b: Board, r: Relation)
    requires !r.kind.Unrecognized?
    ensures OnAny(All(Step(b, r)), r.from.id)
  {
    var s := Step(b, r);
    if OnAny(b.main, r.from.id) {
      var k :| 0 <= k < |b.main| && OnTrack(b.main[k], r.from.id);
      assert All(s)[k] == b.main[k];
    } else {
      StepBag(b, r);
      OnAnyBag(All(s), r.from.id);
    }
  }

  /** A pass never removes a track or a point: the ids of both lists only grow, and so do their lengths. */
  lemma {:induction false} ProcessKeeps(b: Board, rels: seq<Relation>)
    ensures var p := Process(b, rels);
      Bag(b.main) <= Bag(p.main) && Bag(b.orphans) <= Bag(p.orphans) &&
      |b.main| <= |p.main| && |b.orphans| <= |p.orphans|
    decreases |rels|
  {
    if rels != [] {
      var init := rels[..|rels| - 1];
      ProcessKeeps(b, init);
      StepKeeps(Process(b, init), rels[|rels| - 1]);
    }
  }

  /** After a pass, every relation of a recognized kind has its `from` on some track. */
  lemma {:induction false} ProcessPlaces(b: Board, rels: seq<Relation>)
    ensures forall i :: 0 <= i < |rels| && !rels[i].kind.Unrecognized? ==>
      OnAny(All(Process(b, rels)), rels[i].from.id)
    decreases |rels|
  {
    if rels != [] {
      var init, last := rels[..|rels| - 1], rels[|rels| - 1];
      var prev := Process(b, init);
      ProcessPlaces(b, init);
      StepKeeps(prev, last);
      assert BoardBag(prev) <= BoardBag(Step(prev, last));
      forall i | 0 <= i < |rels| && !rels[i].kind.Unrecognized?
        ensures OnAny(All(Process(b, rels)), rels[i].from.id)
      {
        if i == |rels| - 1 {
          StepPlaces(prev, last);
        } else {
          assert init[i] == rels[i];
          OnAnyBag(All(prev), rels[i].from.id);
          OnAnyBag(All(Step(prev, last)), rels[i].from.id);
        }
      }
    }
  }

  /**
   * A `to` that is on no main track is anchored again even when an orphan track
   * already holds it, because `pointFromSpeech` scans only the main tracks: the
   * board then holds `to` at least twice.
   */
  lemma StepRepeatsTo(b: Board, r: Relation)
    requires |b.main| > 0 && !OnAny(b.main, r.from.id) && !OnAny(b.main, r.to.id)
    requires r.to.id in Bag(b.orphans)
    ensures BoardBag(Step(b, r))[r.to.id] >= 2
  {
    StepBag(b, r);
    assert AnchorAdds(b, r) == multiset{r.to.id};
  }

  /**
   * A `from` that is only on an orphan track is placed again, because the skip test
   * scans only the main tracks: the board then holds `from` at least twice.
   */
  lemma StepRepeatsFrom(b: Board, r: Relation)
    requires !OnAny(b.main, r.from.id) && !r.kind.Unrecognized?
    requires r.from.id in Bag(b.orphans)
    ensures BoardBag(Step(b, r))[r.from.id] >= 2
  {
    StepBag(b, r);
    assert PlaceAdds(r) == multiset{r.from.id};
  }

  /**
   * A relation of a recognized kind from a speech to itself, on an empty board: the
   * speech seeds the first main track and is then placed again, so the main tracks
   * hold it twice.
   */
  lemma SelfRelationRepeats(r: Relation)
    requires r.from.id == r.to.id && !r.kind.Unrecognized?
    ensures Bag(Step(Board([], []), r).main)[r.from.id] == 2
  {
    var b := Board([], []);
    var s := Step(b, r);
    var sd := Seed(b, r.to);
    assert OnAny(sd.main, r.to.id) by {
      assert OnTrack(sd.main[0], r.to.id);
    }
    assert Anchored(b, r) == sd;
    assert |s.orphans| == 0;
    assert Bag(s.orphans) == multiset{};
    StepBag(b, r);
    assert BoardBag(b) == multiset{};
    assert SeedAdds(b, r) == multiset{r.to.id} && AnchorAdds(b, r) == multiset{} && PlaceAdds(r) == multiset{r.from.id};
    assert BoardBag(s)[r.from.id] == 2;
    assert BoardBag(s) == Bag(s.main) + Bag(s.orphans);
  }

  /** No speech is on the main tracks twice. */
  predicate UniqueOnMain(b: Board)
  {
    forall id :: id in Bag(b.main) ==> Bag(b.main)[id] == 1
  }

  /**
   * A step keeps the main tracks free of duplicates, unless it relates a speech to
   * itself on an empty board.
   */
  lemma StepUnique(b: Board, r: Relation)
    requires UniqueOnMain(b) && (|b.main| > 0 || r.from.id != r.to.id)
    ensures UniqueOnMain(Step(b, r))
  {
    StepKeeps(b, r);
    OnAnyBag(b.main, r.from.id);
    if |b.main| == 0 {
      assert Bag(b.main) == multiset{};
    }
  }

  /**
   * A pass keeps the main tracks free of duplicates, unless its first relation relates
   * a speech to itself on an empty board.
   */
  lemma {:induction false} ProcessUnique(b: Board, rels: seq<Relation>)
    requires UniqueOnMain(b)
    requires |b.main| > 0 || rels == [] || rels[0].from.id != rels[0].to.id
    ensures UniqueOnMain(Process(b, rels))
    decreases |rels|
  {
    if rels != [] {
      var init := rels[..|rels| - 1];
      if init != [] {
        assert init[0] == rels[0];
      }
      ProcessUnique(b, init);
      StepUnique(Process(b, init), rels[|rels| - 1]);
    }
  }
}
