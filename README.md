# Temporal relation layout, multi-track variant

This project models the timeline layout of `js/script.js` in Dafny and proves
properties of the model. The layout lays out the speeches (`TS` elements) of an
annotated corpus on parallel tracks, from the temporal relations (`TREL`) between
them. The file is the multi-track variant of the engine.
`TimelineManager.processTimeline` walks the relations once, in document order. For
each relation whose `from` speech is not yet on a main track, it does three things:

- It seeds an empty board with a track holding `to`.
- When `to` is on no main track, it anchors `to`: two empty padding tracks go onto
  the main tracks, and a track holding only `to` goes onto the orphan tracks.
- It places `from` next to the first point of `to`. The four spaced kinds target the
  slot 1 or 2 before or after `to`, on `to`'s track, or on a new main track when that
  slot is taken. A simultaneous relation always opens a new main track at `to`'s slot.

`drawTimeline` then does the following:

- It retries the pass while orphans are reported, at most ten times. No pass ever
  reports one, so exactly one pass runs.
- It drops the main tracks that hold no point of a selected actor.
- When there are orphan tracks, it appends six empty tracks and then the orphan tracks.
- It turns each drawn track with a point showing all selected actors into a chart
  dataset, and numbers the labels from 1 to `maxX + 2`.

The modules follow the program's structure:

- `Wrappers`: the `Option` type.
- `Text`: `split`, `join` and `splitByWordCount`.
- `Entities`: `Actor` and `Speech`, the corpus lookups `actorFromId` and
  `actorFromName`, the constructor's actor resolution, and the membership predicates.
- `Tracks`: a JavaScript sparse array as `seq<Option<Point>>`, with `insert`, the
  indexed store, `addPoint`, `pointAt` and the three first-match lookups.
- `Layout`: the layout pass as a function on values (`Board`, `Step`, `Process`) and
  its lemmas.
- `Projection`: the dataset projection of `drawTimeline`.
- `Manager`: the classes `Timeline` and `TimelineManager`. Their methods mutate the
  track objects in place and are proved to leave exactly the board that `Layout`
  computes.
- `Scenarios`: small layouts computed on concrete speeches.

`TimelineSpacer` (js/script.js:142-144) is declared but never used: no code inserts
spacer slots, and the local `orphans` list of `processTimeline` is never appended to.
So the model has no spacer slots, and:

- A `BEFORE` relation against a `to` at slot 0 gives the track `[S2, S1]`
  (`Scenarios.BeforeScenario`).
- A missing `to` gets an orphan track of its own (`Scenarios.OrphanScenario`).
- The orphan list is always empty (`Manager.TimelineManager.ProcessTimeline`).
- A relation whose `from` is already placed is skipped, even when its `to` was never
  placed (`Scenarios.SkipScenario`).

## Model

| member | source | states |
|---|---|---|
| Text.Split | js/script.js:28 | `split(' ')` gives at least one piece, and no piece contains the separator |
| Text.JoinSplit | js/script.js:28-31 | joining the pieces of a split with the separator gives back the string |
| Text.Join | js/script.js:31 | `join(sep)`: the first piece starts the joined string |
| Text.SplitJoin | js/script.js:28-31 | splitting a join of one or more separator-free words gives back the words |
| Text.Chunks | js/script.js:30-32 | the lines of the `splice(0, count)` loop: none exactly when there are no words, and never more lines than words |
| Text.JoinChunks | js/script.js:30-32 | joining the lines with spaces gives back the joined words |
| Text.ChunkWordCounts | js/script.js:30-32 | each line but the last has exactly `count` words, and the last has 1 to `count` |
| Text.SplitByWordCount | js/script.js:27-34 | the splice loop yields the chunks of the words; they join back to the original string, there is at least one line, and the word counts are as above |
| Entities.ListHasActor | js/script.js:78-85 | `hasActor(id)` holds iff some actor of the speech has that id |
| Entities.ListHasAnyOf | js/script.js:87-94 | `hasAnyOfActors(ids)` holds iff some actor's id is among `ids` |
| Entities.Speech.HasActor | js/script.js:78-85 | `hasActor(id)` holds iff some actor of the speech has the id |
| Entities.Speech.HasAnyOfActors | js/script.js:87-94 | `hasAnyOfActors(ids)` holds iff some actor of the speech has an id among `ids` |
| Entities.Speech.HasActors | js/script.js:96-101 | `hasActors(ids)` holds iff `hasActor` holds for every id of `ids` |
| Entities.MembershipLaws | js/script.js:78-101 | `hasAnyOfActors([])` is false and `hasActors([])` true; `hasActors(ids)` iff every id satisfies `hasActor`; `hasAnyOfActors(ids)` iff some id does; for non-empty ids `hasActors` implies `hasAnyOfActors` |
| Entities.ActorFromId | js/script.js:221-230 | nothing exactly when no actor has the id; a result is a corpus actor with that id |
| Entities.ActorFromIdFirst | js/script.js:221-230 | the result is the first actor, in corpus order, with the id |
| Entities.ActorFromName | js/script.js:232-241 | nothing exactly when no actor has the name; a result is a corpus actor with that name |
| Entities.ActorFromNameFirst | js/script.js:232-241 | the result is the first actor, in corpus order, with the name |
| Entities.Resolve | js/script.js:66 | a token resolves iff some actor has it as id or name; an id match wins over a name match |
| Entities.ResolvedActors | js/script.js:64-70 | the actors the `ACTORS` loop keeps; never more than there are tokens |
| Entities.ResolvedActorsSingle | js/script.js:66-69 | one token keeps exactly its resolved actor, or nothing when it does not resolve |
| Entities.ResolvedActorsAppend | js/script.js:65-70 | the loop works token by token in order: the actors kept for `a + b` are those kept for `a` followed by those kept for `b` |
| Entities.ResolvedActorsPointwise | js/script.js:65-70 | when token `k` resolves to actor `k` for every `k`, the kept actors are exactly those actors, in token order |
| Entities.ResolvedActorsSound | js/script.js:64-70 | resolution keeps at most one actor per token, and only corpus actors |
| Entities.ResolvedActorsComplete | js/script.js:64-70 | one actor per token is kept iff every token resolves |
| Entities.NewSpeech | js/script.js:55-76 | the constructor keeps the resolved `ACTORS` tokens in order and one `actorFromId` result per `PER` token |
| Tracks.Insert | js/script.js:36-38 | `splice(index, 0, item)`: the item lands at the clamped splice start, entries before it stay, entries after it shift right by one |
| Tracks.InsertPermutes | js/script.js:36-38 | inserting adds exactly the item and loses nothing (multiset) |
| Tracks.SetAt | js/script.js:125 | the sparse store sets the slot, keeps every other slot, and fills new positions below it with holes |
| Tracks.PointAt | js/script.js:131-133 | `pointAt(i)` is defined iff `0 <= i < length` and the slot is not a hole; negative indices read nothing |
| Tracks.AddPoint | js/script.js:122-129 | a negative index acts as 0; a free slot (a hole or past the end) is filled and nothing else moves; an occupied slot gets the point inserted before it, the later entries shift right and the length grows by one |
| Tracks.AddPointDefined | js/script.js:122-129 | the defined points after `addPoint` are those before the clamped index, the new point, then those after it (relative order kept) |
| Tracks.AddPointCount | js/script.js:122-129 | `addPoint` raises the number of defined points by exactly one and removes none |
| Tracks.TrackBagAddPoint | js/script.js:122-129 | `addPoint` adds the point's speech id to the track's ids and nothing else |
| Tracks.FirstSlot | js/script.js:254-261 | the first non-hole slot of a track holding the speech id, or nothing iff no slot does |
| Tracks.PointFromSpeech | js/script.js:252-265 | `pointFromSpeech` finds nothing iff no track it scans holds the id, and otherwise a point with that id; it is applied to the main tracks only |
| Tracks.TimelineOfPoint | js/script.js:267-278 | the first track holding the id, or nothing iff none does |
| Tracks.IndexOfPoint | js/script.js:280-294 | a slot is found iff some track holds the id |
| Tracks.LookupsAgree | js/script.js:252-294 | the track `timelineOfPoint` returns holds the id at the slot `indexOfPoint` returns; that slot is the first on its track to hold the id and is the point `pointFromSpeech` returns |
| Tracks.LookupsOnPrefix | js/script.js:268 | a speech on a main track is found there, before any orphan track is scanned |
| Tracks.LookupsPastPrefix | js/script.js:268 | a speech on no main track is found on the orphan tracks, at the number of main tracks plus its orphan position |
| Tracks.OnAnyBag | js/script.js:252-265 | some track holds a speech iff its id is among the tracks' ids |
| Layout.KindOf | js/script.js:324-332 | `IMMEDIATELY_BEFORE`, `IMMEDIATELY_AFTER`, `BEFORE`, `AFTER` and `SIMULTANEOUS` map to the kind of the same name; any other string is unrecognized and keeps its text |
| Layout.NewX | js/script.js:324-331 | `newX` is `x - 1` for `IMMEDIATELY_BEFORE`, `x + 1` for `IMMEDIATELY_AFTER`, `x - 2` for `BEFORE` and `x + 2` for `AFTER`, and undefined for every other kind |
| Layout.Seed | js/script.js:303-308 | an empty board gets one main track holding `to`; a board with a main track is unchanged; the orphan tracks never change |
| Layout.Anchor | js/script.js:311-318 | the board is unchanged iff `to` is on a main track; otherwise two main tracks and one orphan track are appended and the existing tracks are kept |
| Layout.AnchorFinds | js/script.js:311-320 | after anchoring, `to` is on some track |
| Layout.SeedBag | js/script.js:303-308 | on an empty board, seeding gives one main track whose only id is `to`; otherwise the board is unchanged |
| Layout.AnchorBag | js/script.js:313-318 | a `to` on no main track adds two main tracks without ids, and one orphan track holding `to`; otherwise the board is unchanged |
| Layout.AnchoredBag | js/script.js:303-318 | seeding and anchoring add `to` to the main ids on an empty board, or to the orphan ids when it is on no main track, and add at most one orphan track |
| Layout.PlaceSimultaneous | js/script.js:332-336 | a simultaneous `from` opens one new main track at the slot where `to` was found, with holes below it; no other track changes |
| Layout.PlaceOccupied | js/script.js:338-343 | when the target slot on `to`'s track holds a point, `from` goes at that slot of a new main track; no other track changes |
| Layout.PlaceFree | js/script.js:338-344 | when the target slot is free, `from` is added by `addPoint` on `to`'s track, in place; for a target of zero or more, every other slot is kept and `to` keeps its slot |
| Layout.PlaceClamped | js/script.js:123-127 | a negative target (`to` at slot 0 or 1) acts as slot 0: `from` fills a free slot 0, and is otherwise prepended, shifting the track |
| Layout.PlaceBag | js/script.js:320-344 | an unrecognized kind leaves the board alone; otherwise `from`'s id is added to exactly one of the two track lists and nothing else changes; the orphan tracks keep their number |
| Layout.StepSkips | js/script.js:300-302 | a relation whose `from` is on a main track changes nothing |
| Layout.StepBag | js/script.js:299-345 | an unskipped relation adds `to` once if it is on no main track, and `from` once if the kind is recognized, and removes nothing |
| Layout.StepKeeps | js/script.js:299-345 | a step removes no id and no track; the main ids gain at most `from` (and `to`, on an empty board); the orphan list gains at most one track |
| Layout.StepPlaces | js/script.js:299-345 | after a step with a recognized kind, `from` is on some track |
| Layout.StepRepeatsTo | js/script.js:300-318 | a `to` on no main track but already on an orphan track gets a second orphan track, so the board holds it at least twice |
| Layout.StepRepeatsFrom | js/script.js:300-344 | a `from` on no main track but already on an orphan track is placed again, so the board holds it at least twice |
| Layout.SelfRelationRepeats | js/script.js:303-344 | on an empty board, a relation of a recognized kind from a speech to itself leaves that speech on the main tracks exactly twice |
| Layout.ProcessKeeps | js/script.js:296-348 | `processTimeline` never removes a track, and never removes a point from the main or the orphan tracks |
| Layout.ProcessPlaces | js/script.js:296-348 | after a pass, every relation of a recognized kind has its `from` on some track |
| Layout.StepUnique | js/script.js:300-344 | a step keeps every speech at most once on the main tracks, unless it relates a speech to itself on an empty board |
| Layout.ProcessUnique | js/script.js:296-348 | a pass keeps every speech at most once on the main tracks, unless its first relation relates a speech to itself on an empty board |
| Layout.BoardOfAll | js/script.js:268 | a board is determined by the joined track list and the number of main tracks |
| Layout.UpdateTrack | js/script.js:343 | replacing track `k` of the joined list replaces exactly that track, on whichever list it is |
| Layout.Place | js/script.js:320-344 | placing `from`: an unrecognized kind changes nothing; the orphan tracks keep their number; the main tracks grow by at most one, and a new main track leaves all others as they were |
| Layout.Step | js/script.js:299-345 | one loop iteration: a `from` on a main track leaves the board unchanged; no track is removed, at most one orphan track is added, and there is a main track afterwards |
| Layout.Process | js/script.js:296-348 | `processTimeline` over the relations in order: no track is removed, each relation adds at most one orphan track, and a non-empty pass leaves a main track |
| Projection.KeptTracks | js/script.js:364 | the kept main tracks are the ones with a defined point having one of the selected actors; holes are skipped; every kept track is a main track |
| Projection.KeptTracksSingle | js/script.js:364 | the filter keeps one track exactly when it is relevant |
| Projection.KeptTracksAppend | js/script.js:364 | the filter keeps the tracks in their order, each as often as it occurs: filtering `a + c` gives the filtered `a` followed by the filtered `c` |
| Projection.Visible | js/script.js:364-368 | the drawn tracks: the kept main tracks, then, when there are orphan tracks, six empty tracks and the orphan tracks |
| Projection.FirstOrphan | js/script.js:364-372 | the row where the orphan tracks begin among the drawn tracks, or the number of drawn tracks when there are none |
| Projection.LastShown | js/script.js:382-389 | the last slot showing all selected actors, or -1 when there is none |
| Projection.Marks | js/script.js:382-389 | the `data` array: no longer than the track, and every entry it has is the row number |
| Projection.Shown | js/script.js:382-389 | the `points` array: no longer than the track, and every entry it has is the track's point at that slot |
| Projection.DatasetOf | js/script.js:370-392 | the dataset of one drawn track: its row, its orphan flag, and `data` and `points` of the same length |
| Projection.DatasetsUpTo | js/script.js:370-394 | the datasets of the first `n` drawn tracks, at most one per track |
| Projection.MaxUpTo | js/script.js:383-387 | `maxX` after the first `n` drawn tracks is at least the last shown slot of each |
| Projection.DatasetOfMeaning | js/script.js:382-389 | a dataset has entry `j`, equal to its row, exactly where the slot holds a point showing all selected actors; its `points` hold those points; it has entries iff the track shows a point |
| Projection.DatasetsSound | js/script.js:370-394 | each dataset is the one its row's drawn track makes, and has data |
| Projection.DatasetsOrdered | js/script.js:370-394 | datasets come in increasing row order, one per track at most |
| Projection.DatasetsComplete | js/script.js:370-394 | every drawn track with a shown point makes a dataset |
| Projection.MaxUpToMeaning | js/script.js:352-387 | `maxX` bounds every shown slot and is 0 or itself a shown slot |
| Projection.DroppedTracksShowNothing | js/script.js:364-384 | with at least one selected actor, a dropped main track would have made no dataset |
| Projection.NoActorsSelected | js/script.js:364-368 | with no actor selected, every main track is dropped, only the six padding tracks and the orphan tracks are drawn, and every point counts as shown |
| Projection.ScanTrack | js/script.js:382-389 | the slot loop fills `data` with the row and `points` with the shown points, and raises `maxX` to the last shown slot |
| Projection.Project | js/script.js:370-396 | the dataset loop yields exactly the datasets and `maxX` above, and labels `1 .. maxX + 2` |
| Manager.Timeline.constructor | js/script.js:115-120 | a new timeline is empty, or holds the given point at slot 0 |
| Manager.Timeline.PointAt | js/script.js:131-133 | reads the slot as `Tracks.PointAt` does |
| Manager.Timeline.AddPoint | js/script.js:122-129 | updates the points in place to `Tracks.AddPoint` of the old points |
| Manager.TimelineManager.constructor | js/script.js:147-158 | a new manager has no tracks and no orphans |
| Manager.TimelineManager.SeedWith | js/script.js:303-308 | pushes the first main track holding `to` when there is none |
| Manager.TimelineManager.PushEmpty | js/script.js:314 | pushes one empty main track and changes nothing else |
| Manager.TimelineManager.PushOrphan | js/script.js:315-317 | pushes an orphan track holding `to` and changes nothing else |
| Manager.TimelineManager.AnchorTo | js/script.js:311-318 | pushes two padding tracks and an orphan track holding `to` when `to` is on no main track |
| Manager.TimelineManager.PushTimeline | js/script.js:333-335 | pushes a new main track holding the point at the index |
| Manager.NewTimelineWith | js/script.js:333-343 | `new Timeline()` then `addPoint(index, point)`: a fresh track holding `Tracks.AddPoint` of the empty track |
| Manager.TimelineManager.AddToTimeline | js/script.js:343 | `addPoint` on one track object changes that track only |
| Manager.TimelineManager.Prepare | js/script.js:303-318 | seeds and anchors `to`, after which `to` is on some track |
| Manager.TimelineManager.PlaceFrom | js/script.js:320-344 | the placement leaves the board `Layout.Place` computes |
| Manager.TimelineManager.ProcessRelation | js/script.js:299-345 | one loop iteration leaves the board `Layout.Step` computes |
| Manager.TimelineManager.ProcessTimeline | js/script.js:296-348 | one pass leaves the board `Layout.Process` computes over all relations, and returns the empty orphan list |
| Manager.TimelineManager.Layout | js/script.js:350-356 | the retry loop ends with no orphans, and the board is the one a single pass computes |
| Manager.TimelineManager.DrawTimeline | js/script.js:350-396 | the layout, then datasets, `maxX` and labels computed from the drawn tracks as in `Projection` |
| Scenarios.ImmediatelyAfterScenario | js/script.js:303-344 | `S2` immediately after `S1` gives the track `[S1, S2]` |
| Scenarios.AfterScenario | js/script.js:330-344 | `S2` after `S1` gives `[S1, hole, S2]` |
| Scenarios.BeforeScenario | js/script.js:328-344 | `S2` before an `S1` at slot 0 gives `[S2, S1]`, with no gap |
| Scenarios.SimultaneousScenario | js/script.js:332-336 | a simultaneous `S2` gives a second main track `[S2]` |
| Scenarios.OccupiedScenario | js/script.js:338-343 | a second speech right after `S1` gives a new track `[hole, S3]` |
| Scenarios.OrphanScenario | js/script.js:311-318 | an unplaced `to` gets two padding tracks and an orphan track, which `from` then joins |
| Scenarios.SkipScenario | js/script.js:300-302 | a relation whose `from` is already placed is skipped, so its `to` is never placed |
| Scenarios.SelfRelationScenario | js/script.js:303-344 | a relation from `S1` to itself on an empty board gives the track `[S1, S1]`, which holds `S1` twice |
| Scenarios.UnrecognizedScenario | js/script.js:303-345 | an unrecognized kind seeds `to` but places nothing |

## Left out

- Loading the corpus is not modelled: `load`, `XMLHttpRequest` and `DOMParser`, and
  the tag-attribute constructors of `Actor` and `Relation` (js/script.js:40-53,
  104-111, 160-195). They are I/O and DOM work. Actors, speeches and relations are
  plain records, and `Entities.NewSpeech` takes the attribute strings as parameters.
- `Location`, `locationFromId` and `Speech.location` are not modelled: they rebuild
  objects from the XML and can recurse without bound through cyclic parent ids.
- Chart drawing is not modelled: Chart.js, `window.timelineChart`, the tooltip
  callbacks and `console.error` (js/script.js:358-360, 397-452). They are UI work.
- `getColor` is not modelled (beyond ten tracks it uses `Math.random`), and neither
  is `transparentize` (float rounding). A dataset keeps only whether it is drawn in
  the orphan colour, as the flag `orphan`.
- The flag `orphan` is true when the row is at or after the first orphan row. That
  is equivalent to `orphanTimelines.includes(timeline)` because the padding tracks
  are new objects and no timeline object is held twice. The dataset's `label`,
  `borderWidth` and `spanGaps` constants are also left out.
- `getActors` and `getOrphans` are left out: they only build maps.
- `speechFromId` can return `undefined` on a miss, and the code would later crash
  on it. The model treats both ends of a relation as defined speeches.
- `TimelineSpacer` is left out: it is never used.
- Layout.ProcessUnique: proves that no speech is on the main tracks twice, and says
  nothing about the orphan tracks, because there the source does repeat speeches.
  `pointFromSpeech` scans only the main tracks (js/script.js:253, 300, 311). So a `to`
  that is only on an orphan track gets another orphan track (`Layout.StepRepeatsTo`),
  and a `from` that is only on an orphan track is placed again (`Layout.StepRepeatsFrom`).
- Layout.StepUnique: requires that the step does not relate a speech to itself on an
  empty board, and Layout.ProcessUnique requires this of the first relation of the
  pass. Such a relation seeds the speech and then places it again, so the main tracks
  hold it twice (`Layout.SelfRelationRepeats`). For `IMMEDIATELY_BEFORE`,
  `IMMEDIATELY_AFTER` and `BEFORE` the copies are side by side (`[S1, S1]`,
  `Scenarios.SelfRelationScenario`). `AFTER` leaves a hole between them, and
  `SIMULTANEOUS` puts the copy on a new main track. An unrecognized kind adds no copy.
- The lookups work on track values: `timelineOfPoint` returns the track's position in
  `[...timelines, ...orphanTimelines]`, and the methods fetch the object at that
  position.
- `Text.SplitByWordCount` requires `count >= 1`: with a smaller count,
  `splice(0, count)` never shortens the list and the source loops forever.
- Manager.TimelineManager.Layout keeps each pass's orphan list in a local and assigns
  `orphans` once after the loop. The outcome is the same, and the retry count is kept
  explicitly (`++retries <= 10`).
- A relation's `id` and `trigger` attributes are kept in `Layout.Relation` but
  never read, as in the source.
