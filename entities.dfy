/**
 * The entity records of js/script.js that the layout reads: `Actor` and `Speech`
 * (a speech is built once and never changed), the corpus lookups `actorFromId` and
 * `actorFromName`, the actor resolution done by the `Speech` constructor, and the
 * membership predicates `hasActor`, `hasAnyOfActors` and `hasActors`.
 */
module Entities {
  import opened Wrappers
  import Text

  /** An actor of the corpus (a `TA` element): its `ID` and `NAME` attributes. */
  datatype Actor = Actor(id: string, name: string)

  /**
   * A speech (a `TS` element). `actors` holds the resolved `ACTORS` tokens and
   * `persons` one lookup result per `PER` token, unresolved ones included.
   */
  datatype Speech = Speech(id: string, name: string, text: string, actors: seq<Actor>, persons: seq<Option<Actor>>)
  {
    /** `hasActor(actorId)`. */
    predicate HasActor(actorId: string)
      ensures HasActor(actorId) <==> exists a :: a in actors && a.id == actorId
    {
      ListHasActor(actors, actorId)
    }

    /** `hasAnyOfActors(actorIds)`. */
    predicate HasAnyOfActors(actorIds: seq<string>)
      ensures HasAnyOfActors(actorIds) <==> exists a :: a in actors && a.id in actorIds
    {
      ListHasAnyOf(actors, actorIds)
    }

    /** `hasActors(actorIds)`: every requested id is among the ids of the speech's actors. */
    predicate HasActors(actorIds: seq<string>)
      ensures HasActors(actorIds) <==> forall k :: 0 <= k < |actorIds| ==> HasActor(actorIds[k])
    {
      ActorIdsIn(actors, actorIds);
      forall k :: 0 <= k < |actorIds| ==> actorIds[k] in ActorIds(actors)
    }
  }

  /** `actors.map(actor => actor.id)`. */
  function ActorIds(actors: seq<Actor>): (r: seq<string>)
    ensures |r| == |actors| && forall k :: 0 <= k < |actors| ==> r[k] == actors[k].id
  {
    seq(|actors|, k requires 0 <= k < |actors| => actors[k].id)
  }

  /** An id is among the ids of the actors exactly when some actor has it. */
  lemma ActorIdIn(actors: seq<Actor>, id: string)
    ensures id in ActorIds(actors) <==> exists a :: a in actors && a.id == id
  {
    var ids := ActorIds(actors);
    if id in ids {
      var i :| 0 <= i < |ids| && ids[i] == id;
      assert actors[i] in actors;
    }
  }

  /** Each requested id is among the ids of the actors exactly when `hasActor` finds it. */
  lemma ActorIdsIn(actors: seq<Actor>, actorIds: seq<string>)
    ensures forall k :: 0 <= k < |actorIds| ==> (actorIds[k] in ActorIds(actors) <==> ListHasActor(actors, actorIds[k]))
  {
    forall k | 0 <= k < |actorIds| ensures actorIds[k] in ActorIds(actors) <==> ListHasActor(actors, actorIds[k]) {
      ActorIdIn(actors, actorIds[k]);
    }
  }

  /** The loop of `hasActor`: true as soon as an actor with that id is met. */
  function ListHasActor(actors: seq<Actor>, actorId: string): (r: bool)
    ensures r <==> exists a :: a in actors && a.id == actorId
  {
    if actors == [] then false
    else if actors[0].id == actorId then true
    else ListHasActor(actors[1..], actorId)
  }

  /** The loop of `hasAnyOfActors`: true as soon as an actor's id is one of `actorIds`. */
  function ListHasAnyOf(actors: seq<Actor>, actorIds: seq<string>): (r: bool)
    ensures r <==> exists a :: a in actors && a.id in actorIds
  {
    if actors == [] then false
    else if actors[0].id in actorIds then true
    else ListHasAnyOf(actors[1..], actorIds)
  }

  /** How the three membership predicates relate to each other. */
  lemma MembershipLaws(s: Speech, actorIds: seq<string>)
    ensures !s.HasAnyOfActors([])
    ensures s.HasActors([])
    ensures s.HasActors(actorIds) <==> forall k :: 0 <= k < |actorIds| ==> s.HasActor(actorIds[k])
    ensures s.HasAnyOfActors(actorIds) <==> exists k :: 0 <= k < |actorIds| && s.HasActor(actorIds[k])
    ensures |actorIds| > 0 && s.HasActors(actorIds) ==> s.HasAnyOfActors(actorIds)
  {
    var ids := ActorIds(s.actors);
    forall id ensures id in ids <==> s.HasActor(id) {
      if id in ids {
        var k :| 0 <= k < |ids| && ids[k] == id;
        assert s.actors[k] in s.actors;
      }
    }
    if s.HasAnyOfActors(actorIds) {
      var a :| a in s.actors && a.id in actorIds;
      var k :| 0 <= k < |actorIds| && actorIds[k] == a.id;
      assert s.HasActor(actorIds[k]);
    }
    if exists k :: 0 <= k < |actorIds| && s.HasActor(actorIds[k]) {
      var k :| 0 <= k < |actorIds| && s.HasActor(actorIds[k]);
      var a :| a in s.actors && a.id == actorIds[k];
      assert a.id in actorIds;
    }
    if |actorIds| > 0 && s.HasActors(actorIds) {
      assert s.HasActor(actorIds[0]);
    }
  }

  /**
   * `actorFromId(id)`: the first actor of the corpus, in document order, whose id
   * is `id`, or nothing.
   */
  function ActorFromId(corpus: seq<Actor>, id: string): (r: Option<Actor>)
    ensures r.None? <==> forall k :: 0 <= k < |corpus| ==> corpus[k].id != id
    ensures r.Some? ==> r.value in corpus && r.value.id == id
  {
    if corpus == [] then None
    else if corpus[0].id == id then Some(corpus[0])
    else
      var r := ActorFromId(corpus[1..], id);
      assert forall k :: 1 <= k < |corpus| ==> corpus[k] == corpus[1..][k - 1];
      r
  }

  /** `ActorFromId` returns the first actor of the corpus whose id matches. */
  lemma {:induction false} ActorFromIdFirst(corpus: seq<Actor>, id: string, k: nat)
    requires k < |corpus| && corpus[k].id == id
    requires forall m :: 0 <= m < k ==> corpus[m].id != id
    ensures ActorFromId(corpus, id) == Some(corpus[k])
  {
    if k > 0 {
      assert corpus[0].id != id;
      assert corpus[1..][k - 1] == corpus[k];
      assert forall m :: 0 <= m < k - 1 ==> corpus[1..][m] == corpus[m + 1];
      ActorFromIdFirst(corpus[1..], id, k - 1);
    }
  }

  /** `actorFromName(name)`: the first actor of the corpus whose name is `name`, or nothing. */
  function ActorFromName(corpus: seq<Actor>, name: string): (r: Option<Actor>)
    ensures r.None? <==> forall k :: 0 <= k < |corpus| ==> corpus[k].name != name
    ensures r.Some? ==> r.value in corpus && r.value.name == name
  {
    if corpus == [] then None
    else if corpus[0].name == name then Some(corpus[0])
    else
      var r := ActorFromName(corpus[1..], name);
      assert forall k :: 1 <= k < |corpus| ==> corpus[k] == corpus[1..][k - 1];
      r
  }

  /** `ActorFromName` returns the first actor of the corpus whose name matches. */
  lemma {:induction false} ActorFromNameFirst(corpus: seq<Actor>, name: string, k: nat)
    requires k < |corpus| && corpus[k].name == name
    requires forall m :: 0 <= m < k ==> corpus[m].name != name
    ensures ActorFromName(corpus, name) == Some(corpus[k])
  {
    if k > 0 {
      assert corpus[0].name != name;
      assert corpus[1..][k - 1] == corpus[k];
      assert forall m :: 0 <= m < k - 1 ==> corpus[1..][m] == corpus[m + 1];
      ActorFromNameFirst(corpus[1..], name, k - 1);
    }
  }

  /**
   * `actorFromId(token) || actorFromName(token)`: a token names an actor by id
   * first; only when no actor has that id is it read as a name.
   */
  function Resolve(corpus: seq<Actor>, token: string): (r: Option<Actor>)
    ensures r.None? <==> forall k :: 0 <= k < |corpus| ==> corpus[k].id != token && corpus[k].name != token
    ensures r.Some? ==> r.value in corpus
    ensures (exists k :: 0 <= k < |corpus| && corpus[k].id == token) ==> r.Some? && r.value.id == token
    ensures r.Some? && r.value.id != token ==> r.value.name == token
  {
    match ActorFromId(corpus, token)
    case Some(a) => Some(a)
    case None => ActorFromName(corpus, token)
  }

  /** The actors the `Speech` constructor keeps: resolved tokens in order, unresolved ones dropped. */
  function ResolvedActors(corpus: seq<Actor>, tokens: seq<string>): (r: seq<Actor>)
    ensures |r| <= |tokens|
  {
    if tokens == [] then []
    else
      var init := ResolvedActors(corpus, tokens[..|tokens| - 1]);
      match Resolve(corpus, tokens[|tokens| - 1])
      case Some(a) => init + [a]
      case None => init
  }

  /** A single token keeps its actor when it resolves, and nothing otherwise. */
  lemma ResolvedActorsSingle(corpus: seq<Actor>, token: string)
    ensures ResolvedActors(corpus, [token]) == if Resolve(corpus, token).Some? then [Resolve(corpus, token).value] else []
  {
    assert [token][..0] == [];
  }

  /** Resolution works token by token, in order: resolving a concatenation concatenates the results. */
  lemma {:induction false} ResolvedActorsAppend(corpus: seq<Actor>, a: seq<string>, b: seq<string>)
    ensures ResolvedActors(corpus, a + b) == ResolvedActors(corpus, a) + ResolvedActors(corpus, b)
    decreases |b|
  {
    if b == [] {
      assert a + b == a;
    } else {
      var init := b[..|b| - 1];
      assert (a + b)[..|a + b| - 1] == a + init;
      assert (a + b)[|a + b| - 1] == b[|b| - 1];
      ResolvedActorsAppend(corpus, a, init);
    }
  }

  /** When every token resolves, the kept actors are exactly the tokens' actors, in token order. */
  lemma {:induction false} ResolvedActorsPointwise(corpus: seq<Actor>, tokens: seq<string>, actors: seq<Actor>)
    requires |actors| == |tokens|
    requires forall k :: 0 <= k < |tokens| ==> Resolve(corpus, tokens[k]) == Some(actors[k])
    ensures ResolvedActors(corpus, tokens) == actors
    decreases |tokens|
  {
    if tokens != [] {
      var n := |tokens| - 1;
      var init, front := tokens[..n], actors[..n];
      forall k | 0 <= k < n ensures Resolve(corpus, init[k]) == Some(front[k]) {
        assert init[k] == tokens[k] && front[k] == actors[k];
      }
      ResolvedActorsPointwise(corpus, init, front);
      ResolvedActorsSnoc(corpus, tokens);
      assert Resolve(corpus, tokens[n]) == Some(actors[n]);
      assert front + [actors[n]] == actors;
    }
  }

  /** How one more token extends the resolved actors. */
  lemma ResolvedActorsSnoc(corpus: seq<Actor>, tokens: seq<string>)
    requires tokens != []
    ensures var prev := ResolvedActors(corpus, tokens[..|tokens| - 1]);
      var res := Resolve(corpus, tokens[|tokens| - 1]);
      ResolvedActors(corpus, tokens) == if res.Some? then prev + [res.value] else prev
  {
  }

  /** Actor resolution keeps at most one actor per token, and only actors of the corpus. */
  lemma {:induction false} ResolvedActorsSound(corpus: seq<Actor>, tokens: seq<string>)
    ensures |ResolvedActors(corpus, tokens)| <= |tokens|
    ensures forall a :: a in ResolvedActors(corpus, tokens) ==> a in corpus
  {
    if tokens != [] {
      ResolvedActorsSound(corpus, tokens[..|tokens| - 1]);
      ResolvedActorsSnoc(corpus, tokens);
    }
  }

  /** Actor resolution keeps exactly one actor per token when, and only when, every token resolves. */
  lemma {:induction false} ResolvedActorsComplete(corpus: seq<Actor>, tokens: seq<string>)
    ensures |ResolvedActors(corpus, tokens)| == |tokens| <==> forall k :: 0 <= k < |tokens| ==> Resolve(corpus, tokens[k]).Some?
  {
    if tokens != [] {
      var init := tokens[..|tokens| - 1];
      ResolvedActorsSound(corpus, init);
      ResolvedActorsComplete(corpus, init);
      ResolvedActorsSnoc(corpus, tokens);
      ResolvedAll(corpus, init, tokens[|tokens| - 1]);
      assert tokens == init + [tokens[|tokens| - 1]];
    }
  }

  /** Every token resolves exactly when every token but the last does and the last does too. */
  lemma ResolvedAll(corpus: seq<Actor>, init: seq<string>, last: string)
    ensures (forall k :: 0 <= k < |init + [last]| ==> Resolve(corpus, (init + [last])[k]).Some?) <==>
      (forall k :: 0 <= k < |init| ==> Resolve(corpus, init[k]).Some?) && Resolve(corpus, last).Some?
  {
    var s := init + [last];
    assert forall k :: 0 <= k < |init| ==> s[k] == init[k];
    assert s[|init|] == last;
    if forall k :: 0 <= k < |s| ==> Resolve(corpus, s[k]).Some? {
      assert Resolve(corpus, s[|init|]).Some?;
    }
  }

  /**
   * The `Speech` constructor, given its element's attributes: the `ACTORS` and `PER`
   * attributes are split on commas; each actor token is resolved (id first, then
   * name) and kept only if it resolves; each person token is looked up by id and
   * kept even when the lookup finds nothing.
   */
  method NewSpeech(corpus: seq<Actor>, id: string, name: string, text: string, actorsAttr: string, personsAttr: string)
    returns (s: Speech)
    ensures s.id == id && s.name == name && s.text == text
    ensures s.actors == ResolvedActors(corpus, Text.Split(actorsAttr, ','))
    ensures var tokens := Text.Split(personsAttr, ',');
      |s.persons| == |tokens| && forall k :: 0 <= k < |tokens| ==> s.persons[k] == ActorFromId(corpus, tokens[k])
  {
    var actors: seq<Actor> := [];
    var persons: seq<Option<Actor>> := [];
    var actorIds := Text.Split(actorsAttr, ',');
    for i := 0 to |actorIds|
      invariant actors == ResolvedActors(corpus, actorIds[..i])
    {
      var actor := Resolve(corpus, actorIds[i]);
      if actor.Some? {
        actors := actors + [actor.value];
      }
      assert actorIds[..i + 1][..i] == actorIds[..i];
    }
    assert actorIds[..|actorIds|] == actorIds;
    var personIds := Text.Split(personsAttr, ',');
    for i := 0 to |personIds|
      invariant |persons| == i
      invariant forall k :: 0 <= k < i ==> persons[k] == ActorFromId(corpus, personIds[k])
    {
      persons := persons + [ActorFromId(corpus, personIds[i])];
    }
    s := Speech(id, name, text, actors, persons);
  }
}
