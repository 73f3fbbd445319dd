/**
 * Small layouts worked out on concrete speeches, one per placement case of
 * `processTimeline`, starting from the empty board a fresh `TimelineManager` has.
 */
module Scenarios {
  import opened Wrappers
  import opened Entities
  import opened Tracks
  import opened Layout

  /** A speech with no actors, known by its id. */
  function S(id: string): Speech
  {
    Speech(id, id, "", [], [])
  }

  /** The slot holding the speech `id`. */
  function At(id: string): Option<Point>
  {
    Some(Point(S(id)))
  }

  const Empty := Board([], [])

  /** Lookups for a speech at slot 0 of the first track find it there. */
  lemma FoundFirst(ts: seq<Track>, id: string)
    requires ts != [] && ts[0] != [] && Holds(ts[0][0], id)
    ensures PointFromSpeech(ts, id) == ts[0][0]
    ensures TimelineOfPoint(ts, id) == Some(0) && IndexOfPoint(ts, id) == Some(0)
  {
    assert FirstSlot(ts[0], id) == Some(0);
  }

  /** The first step on an empty board: `to` seeds the only track and is found at slot 0 of it. */
  lemma FirstStep(r: Relation)
    ensures var sd := Board([[Some(Point(r.to))]], []);
      Anchored(Empty, r) == sd && TimelineOfPoint(All(sd), r.to.id) == Some(0) && IndexOfPoint(All(sd), r.to.id) == Some(0) &&
      Step(Empty, r) == Place(sd, r)
  {
    var sd := Board([[Some(Point(r.to))]], []);
    assert Seed(Empty, r.to) == sd;
    FoundFirst(sd.main, r.to.id);
    FoundFirst(All(sd), r.to.id);
  }

  /** `from` immediately after `to`: `to` seeds the first track and `from` takes the next slot. */
  lemma ImmediatelyAfterScenario()
    ensures Process(Empty, [Relation("r1", S("s2"), S("s1"), ImmediatelyAfter, "")]) == Board([[At("s1"), At("s2")]], [])
  {
    var r := Relation("r1", S("s2"), S("s1"), ImmediatelyAfter, "");
    FirstStep(r);
    assert AddPoint([At("s1")], 1, Point(S("s2"))) == [At("s1"), At("s2")];
    assert [r][..0] == [];
  }

  /** A track holding the same speech twice breaks uniqueness on the main tracks. */
  lemma TwiceNotUnique(p: Point)
    ensures !UniqueOnMain(Board([[Some(p), Some(p)]], []))
  {
    var t := [Some(p), Some(p)];
    TrackBagSingle(p);
    TrackBagAddPoint([Some(p)], 1, p);
    assert AddPoint([Some(p)], 1, p) == t;
    BagAppend([], t);
    assert [] + [t] == [t];
  }

  /**
   * A relation from a speech to itself on an empty board: the speech seeds the track
   * and is then placed again next to itself, so it is on the main tracks twice.
   */
  lemma SelfRelationScenario()
    ensures Process(Empty, [Relation("r1", S("s1"), S("s1"), ImmediatelyAfter, "")]) == Board([[At("s1"), At("s1")]], [])
    ensures !UniqueOnMain(Board([[At("s1"), At("s1")]], []))
  {
    var r := Relation("r1", S("s1"), S("s1"), ImmediatelyAfter, "");
    FirstStep(r);
    assert AddPoint([At("s1")], 1, Point(S("s1"))) == [At("s1"), At("s1")];
    assert [r][..0] == [];
    TwiceNotUnique(Point(S("s1")));
  }

  /** `from` two slots after `to`: the slot between them is a hole. */
  lemma AfterScenario()
    ensures Process(Empty, [Relation("r1", S("s2"), S("s1"), After, "")]) == Board([[At("s1"), None, At("s2")]], [])
  {
    var r := Relation("r1", S("s2"), S("s1"), After, "");
    FirstStep(r);
    assert AddPoint([At("s1")], 2, Point(S("s2"))) == [At("s1"), None, At("s2")];
    assert [r][..0] == [];
  }

  /**
   * `from` two slots before a `to` at slot 0: the target is below zero, so `from`
   * is inserted at slot 0 and `to` moves up one slot, with no hole between them.
   */
  lemma BeforeScenario()
    ensures Process(Empty, [Relation("r1", S("s2"), S("s1"), Before, "")]) == Board([[At("s2"), At("s1")]], [])
  {
    var r := Relation("r1", S("s2"), S("s1"), Before, "");
    FirstStep(r);
    assert AddPoint([At("s1")], -2, Point(S("s2"))) == [At("s2"), At("s1")];
    assert [r][..0] == [];
  }

  /** A simultaneous `from` opens a second main track at `to`'s slot. */
  lemma SimultaneousScenario()
    ensures Process(Empty, [Relation("r1", S("s2"), S("s1"), Simultaneous, "")]) == Board([[At("s1")], [At("s2")]], [])
  {
    var r := Relation("r1", S("s2"), S("s1"), Simultaneous, "");
    FirstStep(r);
    assert AddPoint([], 0, Point(S("s2"))) == [At("s2")];
    assert [r][..0] == [];
  }

  /** Two speeches right after the same `to`: the second finds the slot taken and opens a new track. */
  lemma OccupiedScenario()
    ensures Process(Empty, [Relation("r1", S("s2"), S("s1"), ImmediatelyAfter, ""),
                            Relation("r2", S("s3"), S("s1"), ImmediatelyAfter, "")])
      == Board([[At("s1"), At("s2")], [None, At("s3")]], [])
  {
    var r1 := Relation("r1", S("s2"), S("s1"), ImmediatelyAfter, "");
    var r2 := Relation("r2", S("s3"), S("s1"), ImmediatelyAfter, "");
    var b1 := Board([[At("s1"), At("s2")]], []);
    ImmediatelyAfterScenario();
    assert [r1, r2][..1] == [r1];
    assert !OnAny(b1.main, "s3");
    FoundFirst(b1.main, "s1");
    FoundFirst(All(b1), "s1");
    assert Anchored(b1, r2) == b1;
    assert AddPoint([], 1, Point(S("s3"))) == [None, At("s3")];
  }

  /**
   * A `to` on no main track: two empty main tracks are appended and `to` gets an
   * orphan track of its own, on which `from` is then placed.
   */
  lemma OrphanScenario()
    ensures Process(Empty, [Relation("r1", S("s2"), S("s1"), ImmediatelyAfter, ""),
                            Relation("r2", S("s4"), S("s3"), ImmediatelyAfter, "")])
      == Board([[At("s1"), At("s2")], [], []], [[At("s3"), At("s4")]])
  {
    var r1 := Relation("r1", S("s2"), S("s1"), ImmediatelyAfter, "");
    var r2 := Relation("r2", S("s4"), S("s3"), ImmediatelyAfter, "");
    ImmediatelyAfterScenario();
    assert [r1, r2][..1] == [r1];
    OrphanSecond(Process(Empty, [r1]), r2);
  }

  /** The second step of the orphan scenario. */
  lemma OrphanSecond(b1: Board, r: Relation)
    requires b1 == Board([[At("s1"), At("s2")]], [])
    requires r.from == S("s4") && r.to == S("s3") && r.kind == ImmediatelyAfter
    ensures Step(b1, r) == Board([[At("s1"), At("s2")], [], []], [[At("s3"), At("s4")]])
  {
    OrphanAnchored(r);
    OrphanPlaced(r);
  }

  /** Anchoring `s3` after the first relation of the orphan scenario. */
  lemma OrphanAnchored(r: Relation)
    requires r.from == S("s4") && r.to == S("s3")
    ensures var b1 := Board([[At("s1"), At("s2")]], []);
      Anchored(b1, r) == Board([[At("s1"), At("s2")], [], []], [[At("s3")]]) && Step(b1, r) == Place(Anchored(b1, r), r)
  {
    var b1 := Board([[At("s1"), At("s2")]], []);
    assert !OnAny(b1.main, "s4");
    assert !OnAny(b1.main, "s3");
    assert Anchored(b1, r) == Board([[At("s1"), At("s2")], [], []], [[At("s3")]]);
  }

  /** Placing `s4` right after `s3`, which is found on the orphan track. */
  lemma OrphanPlaced(r: Relation)
    requires r.from == S("s4") && r.to == S("s3") && r.kind == ImmediatelyAfter
    ensures var a := Board([[At("s1"), At("s2")], [], []], [[At("s3")]]);
      OnAny(All(a), "s3") && Place(a, r) == Board([[At("s1"), At("s2")], [], []], [[At("s3"), At("s4")]])
  {
    var a := Board([[At("s1"), At("s2")], [], []], [[At("s3")]]);
    assert !OnAny(a.main, "s3");
    LookupsPastPrefix(a.main, a.orphans, "s3");
    FoundFirst(a.orphans, "s3");
    assert All(a)[3][0] == At("s3");
    assert TimelineOfPoint(All(a), "s3") == Some(3) && IndexOfPoint(All(a), "s3") == Some(0);
    assert AddPoint([At("s3")], 1, Point(S("s4"))) == [At("s3"), At("s4")];
  }

  /**
   * A relation whose `from` is already on a main track is skipped, so its `to` is
   * never placed: the relations are not reordered to satisfy dependencies.
   */
  lemma SkipScenario()
    ensures Process(Empty, [Relation("r1", S("s3"), S("s2"), ImmediatelyAfter, ""),
                            Relation("r2", S("s2"), S("s1"), ImmediatelyAfter, "")])
      == Board([[At("s2"), At("s3")]], [])
  {
    var r1 := Relation("r1", S("s3"), S("s2"), ImmediatelyAfter, "");
    var r2 := Relation("r2", S("s2"), S("s1"), ImmediatelyAfter, "");
    var b1 := Board([[At("s2"), At("s3")]], []);
    FirstStep(r1);
    assert AddPoint([At("s2")], 1, Point(S("s3"))) == [At("s2"), At("s3")];
    assert [r1][..0] == [];
    assert Process(Empty, [r1]) == b1;
    assert [r1, r2][..1] == [r1];
    FoundFirst(b1.main, "s2");
  }

  /** An unrecognized kind still seeds the board with `to` but places nothing. */
  lemma UnrecognizedScenario()
    ensures Process(Empty, [Relation("r1", S("s2"), S("s1"), KindOf("MEANWHILE"), "")]) == Board([[At("s1")]], [])
  {
    var r := Relation("r1", S("s2"), S("s1"), KindOf("MEANWHILE"), "");
    assert r.kind == Unrecognized("MEANWHILE");
    FirstStep(r);
    assert [r][..0] == [];
  }
}
