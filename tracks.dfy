/**
 * The tracks of the layout. A track (`Timeline.points` in js/script.js) is a
 * JavaScript sparse array of timeline points: `None` stands for a hole, reading
 * past the end also gives nothing, and writing past the end leaves holes below
 * the written slot. This module holds the array operations `Timeline` uses
 * (`Array.prototype.insert`, an indexed store, `addPoint`, `pointAt`) on track
 * values, and the first-match lookups of `TimelineManager` over a list of tracks.
 */
module Tracks {
  import opened Wrappers
  import opened Entities

  /** A `TimelinePoint`: one speech placed on a track. */
  datatype Point = Point(speech: Speech)

  /** The points of one track, `None` marking a hole. */
  type Track = seq<Option<Point>>

  /** `n` holes. */
  function Holes<T>(n: nat): (r: seq<Option<T>>)
    ensures |r| == n && forall k :: 0 <= k < n ==> r[k].None?
  {
    seq(n, _ => None)
  }

  /** Where `splice(index, ...)` starts on an array of length `len`: negative indices count from the end, and both ends clamp. */
  function SpliceStart(len: nat, index: int): (c: nat)
    ensures c <= len
    ensures 0 <= index <= len ==> c == index
  {
    if index < 0 then (if len + index < 0 then 0 else len + index)
    else if index > len then len
    else index
  }

  /**
   * `Array.prototype.insert(index, item)`, i.e. `splice(index, 0, item)`: the item
   * goes in at the splice start, the entries from there on move right by one.
   */
  function Insert<T>(s: seq<T>, index: int, x: T): (r: seq<T>)
    ensures |r| == |s| + 1
    ensures var c := SpliceStart(|s|, index);
      r[c] == x &&
      (forall k :: 0 <= k < c ==> r[k] == s[k]) &&
      (forall k :: c < k < |r| ==> r[k] == s[k - 1])
  {
    var c := SpliceStart(|s|, index);
    s[..c] + [x] + s[c..]
  }

  /** Inserting loses nothing and adds exactly the item. */
  lemma InsertPermutes<T>(s: seq<T>, index: int, x: T)
    ensures multiset(Insert(s, index, x)) == multiset(s) + multiset{x}
  {
    var c := SpliceStart(|s|, index);
    assert s == s[..c] + s[c..];
  }

  /**
   * The store `arr[i] = x` on a sparse array: the slot is overwritten in place, or,
   * past the end, the array grows to `i + 1` and the new slots below `i` are holes.
   */
  function SetAt<T>(s: seq<Option<T>>, i: nat, x: T): (r: seq<Option<T>>)
    ensures |r| == if i < |s| then |s| else i + 1
    ensures r[i] == Some(x)
    ensures forall k :: 0 <= k < |r| && k != i ==> r[k] == if k < |s| then s[k] else None
  {
    if i < |s| then s[i := Some(x)] else s + Holes(i - |s|) + [Some(x)]
  }

  /** `pointAt(index)`: the point at that slot, or nothing for a hole, a negative index or one past the end. */
  function PointAt(t: Track, index: int): (r: Option<Point>)
    ensures r.Some? <==> 0 <= index < |t| && t[index].Some?
    ensures r.Some? ==> r == t[index]
  {
    if 0 <= index < |t| then t[index] else None
  }

  /**
   * `addPoint(index, point)`: a negative index counts as 0; a free slot (a hole or
   * past the end) is filled in place; an occupied slot gets the point inserted
   * before its occupant.
   */
  function AddPoint(t: Track, index: int, p: Point): (r: Track)
    ensures var i := if index < 0 then 0 else index;
      if PointAt(t, i).None? then
        |r| == (if i < |t| then |t| else i + 1) && r[i] == Some(p) &&
        forall k :: 0 <= k < |r| && k != i ==> r[k] == if k < |t| then t[k] else None
      else
        |r| == |t| + 1 && r[i] == Some(p) &&
        (forall k :: 0 <= k < i ==> r[k] == t[k]) &&
        (forall k :: i < k < |r| ==> r[k] == t[k - 1])
  {
    var i := if index < 0 then 0 else index;
    if PointAt(t, i).None? then SetAt(t, i, p) else Insert(t, i, Some(p))
  }

  /** The defined points of a track, in slot order. */
  function Defined(t: Track): seq<Point>
  {
    if t == [] then []
    else Defined(t[..|t| - 1]) + (if t[|t| - 1].Some? then [t[|t| - 1].value] else [])
  }

  lemma {:induction false} DefinedAppend(a: Track, b: Track)
    ensures Defined(a + b) == Defined(a) + Defined(b)
    decreases |b|
  {
    if b == [] {
      assert a + b == a;
    } else {
      var b' := b[..|b| - 1];
      assert (a + b)[..|a + b| - 1] == a + b';
      DefinedAppend(a, b');
    }
  }

  lemma {:induction false} DefinedHoles(n: nat)
    ensures Defined(Holes<Point>(n)) == []
  {
    if n > 0 {
      assert Holes<Point>(n)[..n - 1] == Holes<Point>(n - 1);
      DefinedHoles(n - 1);
    }
  }

  lemma {:induction false} DefinedSingle(x: Option<Point>)
    ensures Defined([x]) == if x.Some? then [x.value] else []
  {
    assert [x][..0] == [];
  }

  /** Filling the hole at `i`: the point joins the defined points between those below and above `i`. */
  lemma {:induction false} DefinedFill(t: Track, i: nat, p: Point)
    requires i < |t| && t[i].None?
    ensures Defined(t[i := Some(p)]) == Defined(t[..i]) + [p] + Defined(t[i..])
  {
    assert t[i := Some(p)] == (t[..i] + [Some(p)]) + t[i + 1..];
    assert t[i..] == [None] + t[i + 1..];
    DefinedAppend(t[..i] + [Some(p)], t[i + 1..]);
    DefinedAppend(t[..i], [Some(p)]);
    DefinedAppend([None], t[i + 1..]);
    DefinedSingle(Some(p));
    DefinedSingle(None);
  }

  /** Storing past the end: the point comes after every defined point. */
  lemma {:induction false} DefinedExtend(t: Track, i: nat, p: Point)
    requires i >= |t|
    ensures Defined(t + Holes(i - |t|) + [Some(p)]) == Defined(t) + [p]
  {
    DefinedAppend(t + Holes(i - |t|), [Some(p)]);
    DefinedAppend(t, Holes(i - |t|));
    DefinedHoles(i - |t|);
    DefinedSingle(Some(p));
  }

  /** Inserting at `i`: the point joins the defined points between those below and from `i` on. */
  lemma {:induction false} DefinedInsert(t: Track, i: nat, p: Point)
    requires i <= |t|
    ensures Defined(t[..i] + [Some(p)] + t[i..]) == Defined(t[..i]) + [p] + Defined(t[i..])
  {
    DefinedAppend(t[..i] + [Some(p)], t[i..]);
    DefinedAppend(t[..i], [Some(p)]);
    DefinedSingle(Some(p));
  }

  /**
   * `addPoint` keeps the defined points in their order and puts the new one among
   * them at the clamped index.
   */
  lemma {:induction false} AddPointDefined(t: Track, index: int, p: Point)
    ensures var c := if index < 0 then 0 else if index > |t| then |t| else index;
      Defined(AddPoint(t, index, p)) == Defined(t[..c]) + [p] + Defined(t[c..])
  {
    var i := if index < 0 then 0 else index;
    var c := if index < 0 then 0 else if index > |t| then |t| else index;
    var r := AddPoint(t, index, p);
    if i >= |t| {
      assert r == t + Holes(i - |t|) + [Some(p)];
      DefinedExtend(t, i, p);
      assert t[..c] == t && t[c..] == [];
    } else if t[i].None? {
      assert r == t[i := Some(p)];
      DefinedFill(t, i, p);
    } else {
      assert r == t[..i] + [Some(p)] + t[i..];
      DefinedInsert(t, i, p);
    }
  }

  /** Hence `addPoint` raises the number of defined points by exactly one, and removes none. */
  lemma {:induction false} AddPointCount(t: Track, index: int, p: Point)
    ensures |Defined(AddPoint(t, index, p))| == |Defined(t)| + 1
    ensures forall q :: q in Defined(t) ==> q in Defined(AddPoint(t, index, p))
  {
    var c := if index < 0 then 0 else if index > |t| then |t| else index;
    var lo, hi := Defined(t[..c]), Defined(t[c..]);
    AddPointDefined(t, index, p);
    assert t == t[..c] + t[c..];
    DefinedAppend(t[..c], t[c..]);
    assert Defined(t) == lo + hi;
  }

  /** A defined slot of the track holds the speech with id `id`. */
  predicate Holds(slot: Option<Point>, id: string) {
    slot.Some? && slot.value.speech.id == id
  }

  /** Some slot of the track holds the speech `id`. */
  predicate OnTrack(t: Track, id: string) {
    exists j :: 0 <= j < |t| && Holds(t[j], id)
  }

  /** Some track of the list holds the speech `id`. */
  predicate OnAny(ts: seq<Track>, id: string) {
    exists k :: 0 <= k < |ts| && OnTrack(ts[k], id)
  }

  /** The inner loop of the lookups: the first slot of one track that holds `id`, skipping holes. */
  function FirstSlot(t: Track, id: string): (r: Option<nat>)
    ensures r.None? <==> !OnTrack(t, id)
    ensures r.Some? ==> r.value < |t| && Holds(t[r.value], id) && forall j :: 0 <= j < r.value ==> !Holds(t[j], id)
  {
    if t == [] then None
    else if Holds(t[0], id) then Some(0)
    else
      match FirstSlot(t[1..], id)
      case None =>
        assert forall j :: 1 <= j < |t| ==> t[j] == t[1..][j - 1];
        None
      case Some(j) =>
        assert forall m :: 1 <= m < |t| ==> t[m] == t[1..][m - 1];
        Some(j + 1)
  }

  /**
   * `pointFromSpeech(speech)`: scans the tracks in order and each track's slots in
   * order, skipping holes, and returns the first point whose speech has the id.
   */
  function PointFromSpeech(ts: seq<Track>, id: string): (r: Option<Point>)
    ensures r.None? <==> !OnAny(ts, id)
    ensures r.Some? ==> r.value.speech.id == id
  {
    if ts == [] then None
    else
      match FirstSlot(ts[0], id)
      case Some(j) => ts[0][j]
      case None =>
        assert forall k :: 1 <= k < |ts| ==> ts[k] == ts[1..][k - 1];
        PointFromSpeech(ts[1..], id)
  }

  /**
   * `timelineOfPoint(p)`: the first track holding the point's speech. Tracks are
   * values here, so the result is the track's position in the list.
   */
  function TimelineOfPoint(ts: seq<Track>, id: string): (r: Option<nat>)
    ensures r.None? <==> !OnAny(ts, id)
    ensures r.Some? ==> r.value < |ts| && OnTrack(ts[r.value], id) && forall k :: 0 <= k < r.value ==> !OnTrack(ts[k], id)
  {
    if ts == [] then None
    else if FirstSlot(ts[0], id).Some? then Some(0)
    else
      match TimelineOfPoint(ts[1..], id)
      case None =>
        assert forall k :: 1 <= k < |ts| ==> ts[k] == ts[1..][k - 1];
        None
      case Some(k) =>
        assert forall m :: 1 <= m < |ts| ==> ts[m] == ts[1..][m - 1];
        Some(k + 1)
  }

  /** `indexOfPoint(p)`: the slot of the first point, over all tracks in order, whose speech is the point's. */
  function IndexOfPoint(ts: seq<Track>, id: string): (r: Option<nat>)
    ensures r.None? <==> !OnAny(ts, id)
  {
    if ts == [] then None
    else
      match FirstSlot(ts[0], id)
      case Some(j) => Some(j)
      case None =>
        assert forall k :: 1 <= k < |ts| ==> ts[k] == ts[1..][k - 1];
        IndexOfPoint(ts[1..], id)
  }

  /**
   * The three lookups agree: the track `timelineOfPoint` names holds, at the slot
   * `indexOfPoint` names, the first point with that id on it, and that point is
   * the one `pointFromSpeech` returns.
   */
  lemma {:induction false} LookupsAgree(ts: seq<Track>, id: string)
    ensures TimelineOfPoint(ts, id).Some? <==> IndexOfPoint(ts, id).Some?
    ensures TimelineOfPoint(ts, id).Some? ==>
      var k := TimelineOfPoint(ts, id).value;
      var j := IndexOfPoint(ts, id).value;
      j < |ts[k]| && Holds(ts[k][j], id) &&
      (forall m :: 0 <= m < j ==> !Holds(ts[k][m], id)) &&
      PointFromSpeech(ts, id) == ts[k][j]
  {
    if ts != [] && FirstSlot(ts[0], id).None? {
      LookupsAgree(ts[1..], id);
      if TimelineOfPoint(ts, id).Some? {
        var k := TimelineOfPoint(ts[1..], id).value;
        assert ts[k + 1] == ts[1..][k];
      }
    }
  }

  /** A lookup over `main + orphans` for a speech on a main track finds it on the main tracks. */
  lemma {:induction false} LookupsOnPrefix(main: seq<Track>, orphans: seq<Track>, id: string)
    requires OnAny(main, id)
    ensures TimelineOfPoint(main + orphans, id) == TimelineOfPoint(main, id)
    ensures IndexOfPoint(main + orphans, id) == IndexOfPoint(main, id)
  {
    assert main != [];
    assert (main + orphans)[0] == main[0];
    if FirstSlot(main[0], id).None? {
      assert (main + orphans)[1..] == main[1..] + orphans;
      var k :| 0 <= k < |main| && OnTrack(main[k], id);
      assert k != 0;
      assert main[1..][k - 1] == main[k];
      LookupsOnPrefix(main[1..], orphans, id);
    }
  }

  /** A lookup over `main + orphans` for a speech on no main track finds it on the orphan tracks. */
  lemma {:induction false} LookupsPastPrefix(main: seq<Track>, orphans: seq<Track>, id: string)
    requires !OnAny(main, id)
    ensures TimelineOfPoint(main + orphans, id) ==
      match TimelineOfPoint(orphans, id) case None => None case Some(k) => Some(|main| + k)
    ensures IndexOfPoint(main + orphans, id) == IndexOfPoint(orphans, id)
  {
    if main == [] {
      assert main + orphans == orphans;
    } else {
      assert (main + orphans)[0] == main[0];
      assert !OnTrack(main[0], id);
      assert (main + orphans)[1..] == main[1..] + orphans;
      assert forall k :: 1 <= k < |main| ==> main[k] == main[1..][k - 1];
      LookupsPastPrefix(main[1..], orphans, id);
    }
  }

  /** The speech ids of a list of points. */
  function PointIds(ps: seq<Point>): (r: seq<string>)
    ensures |r| == |ps| && forall i :: 0 <= i < |ps| ==> r[i] == ps[i].speech.id
  {
    seq(|ps|, i requires 0 <= i < |ps| => ps[i].speech.id)
  }

  /** The speech ids on one track, with multiplicity. */
  function TrackBag(t: Track): multiset<string>
  {
    multiset(PointIds(Defined(t)))
  }

  /** The speech ids on a list of tracks, with multiplicity. */
  function Bag(ts: seq<Track>): multiset<string>
  {
    if ts == [] then multiset{} else Bag(ts[..|ts| - 1]) + TrackBag(ts[|ts| - 1])
  }

  /** The defined points of a track are exactly the contents of its defined slots. */
  lemma {:induction false} DefinedMembers(t: Track, q: Point)
    ensures q in Defined(t) <==> exists j :: 0 <= j < |t| && t[j] == Some(q)
  {
    if t != [] {
      var init := t[..|t| - 1];
      DefinedMembers(init, q);
      assert forall j :: 0 <= j < |init| ==> init[j] == t[j];
      if exists j :: 0 <= j < |t| && t[j] == Some(q) {
        var j :| 0 <= j < |t| && t[j] == Some(q);
        if j < |init| {
          assert init[j] == Some(q);
        }
      }
    }
  }

  /** A track holds a speech exactly when its id is in the track's bag. */
  lemma OnTrackBag(t: Track, id: string)
    ensures OnTrack(t, id) <==> id in TrackBag(t)
  {
    var ps := Defined(t);
    var ids := PointIds(ps);
    if OnTrack(t, id) {
      var j :| 0 <= j < |t| && Holds(t[j], id);
      DefinedMembers(t, t[j].value);
      var i :| 0 <= i < |ps| && ps[i] == t[j].value;
      assert ids[i] == id;
    }
    if id in TrackBag(t) {
      assert id in ids;
      var i :| 0 <= i < |ids| && ids[i] == id;
      assert ps[i] in ps;
      DefinedMembers(t, ps[i]);
    }
  }

  /** Some track of the list holds a speech exactly when its id is in the list's bag. */
  lemma {:induction false} OnAnyBag(ts: seq<Track>, id: string)
    ensures OnAny(ts, id) <==> id in Bag(ts)
  {
    if ts != [] {
      var init, last := ts[..|ts| - 1], ts[|ts| - 1];
      OnAnyBag(init, id);
      OnTrackBag(last, id);
      assert Bag(ts) == Bag(init) + TrackBag(last);
      if OnAny(ts, id) {
        var k :| 0 <= k < |ts| && OnTrack(ts[k], id);
        if k < |init| {
          assert init[k] == ts[k];
        }
      }
      if OnAny(init, id) {
        var k :| 0 <= k < |init| && OnTrack(init[k], id);
        assert ts[k] == init[k];
      }
    }
  }

  lemma {:induction false} PointIdsAppend(a: seq<Point>, b: seq<Point>)
    ensures PointIds(a + b) == PointIds(a) + PointIds(b)
  {
  }

  /** `addPoint` adds the point's speech id to the track's bag and nothing else. */
  lemma {:induction false} TrackBagAddPoint(t: Track, index: int, p: Point)
    ensures TrackBag(AddPoint(t, index, p)) == TrackBag(t) + multiset{p.speech.id}
  {
    var c := if index < 0 then 0 else if index > |t| then |t| else index;
    var lo, hi := Defined(t[..c]), Defined(t[c..]);
    AddPointDefined(t, index, p);
    assert t == t[..c] + t[c..];
    DefinedAppend(t[..c], t[c..]);
    PointIdsAppend(lo + [p], hi);
    PointIdsAppend(lo, [p]);
    PointIdsAppend(lo, hi);
    assert PointIds([p]) == [p.speech.id];
  }

  lemma TrackBagEmpty()
    ensures TrackBag([]) == multiset{}
  {
  }

  /** Appending a track adds its bag. */
  lemma BagAppend(ts: seq<Track>, t: Track)
    ensures Bag(ts + [t]) == Bag(ts) + TrackBag(t)
  {
    assert (ts + [t])[..|ts|] == ts;
  }

  /** The bag of two lists of tracks joined is the sum of their bags. */
  lemma {:induction false} BagConcat(a: seq<Track>, c: seq<Track>)
    ensures Bag(a + c) == Bag(a) + Bag(c)
    decreases |c|
  {
    if c == [] {
      assert a + c == a;
    } else {
      var init, last := c[..|c| - 1], c[|c| - 1];
      assert c == init + [last];
      assert a + c == (a + init) + [last];
      calc {
        Bag(a + c);
      == { BagAppend(a + init, last); }
        Bag(a + init) + TrackBag(last);
      == { BagConcat(a, init); }
        Bag(a) + Bag(init) + TrackBag(last);
      == { BagAppend(init, last); }
        Bag(a) + Bag(c);
      }
    }
  }

  /** A track holding one point has that point's id as its bag. */
  lemma TrackBagSingle(p: Point)
    ensures TrackBag([Some(p)]) == multiset{p.speech.id}
  {
    DefinedSingle(Some(p));
    assert PointIds([p]) == [p.speech.id];
  }

  /** Replacing one track by a track with one more id adds that id to the bag. */
  lemma {:induction false} BagUpdate(ts: seq<Track>, k: nat, t: Track, id: string)
    requires k < |ts|
    requires TrackBag(t) == TrackBag(ts[k]) + multiset{id}
    ensures Bag(ts[k := t]) == Bag(ts) + multiset{id}
  {
    var n := |ts| - 1;
    var ts' := ts[k := t];
    if k == n {
      assert ts'[..n] == ts[..n];
    } else {
      assert ts'[..n] == ts[..n][k := t];
      BagUpdate(ts[..n], k, t, id);
    }
  }
}
