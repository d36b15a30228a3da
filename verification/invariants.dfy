/** Properties every event keeps: the invariant Valid, the set of crowns in
    play, the highscore and the lives. */
module Invariants {
  import opened Seqs
  import opened Entities
  import opened Motion
  import opened Game
  import opened Rules

  /** Every entity of a lane is on its track. */
  predicate AllOnTrack(es: seq<Entity>) {
    forall i :: 0 <= i < |es| ==> OnTrack(es[i])
  }

  /** What holds of every state the game reaches: the confusion timer is within
      [0, 250], the frog's y is inside the border and its speed is not
      negative, lives never exceed the starting five, the highscore is not
      negative, and every lane is on its track. */
  predicate Valid(s: State) {
    && 0 <= s.isConfusedTimer <= ConfusedTimer
    && FrogMapBorderMin <= s.frog.y <= FrogMapBorderMax
    && 0.0 <= s.frog.speed
    && s.lives <= DefaultLives
    && 0 <= s.highscore
    && AllOnTrack(s.ufos) && AllOnTrack(s.ghosts) && AllOnTrack(s.snails)
    && AllOnTrack(s.logRow1) && AllOnTrack(s.logRow2) && AllOnTrack(s.logRow3) && AllOnTrack(s.logRow4)
  }

  /** The crowns in play, wherever they are. */
  function CrownSet(s: State): set<Entity> {
    (set c | c in s.crowns) + (set c | c in s.crownsTaken)
  }

  /** A lane member numbered at most last is on its track when member last
      starts within it. */
  lemma RowMemberOnTrack(kind: Entity, spacing: real, k: nat, last: nat, y: real)
    requires 1 <= k <= last
    requires 0.0 <= kind.width && 0.0 <= spacing + kind.width
    requires StartX(last, spacing + kind.width) <= if kind.speed < 0.0 then CanvasWidth else CanvasWidth + kind.speed
    ensures OnTrack(RowMember(kind, spacing, k, y))
  {
    StartXMonotone(k, last, spacing + kind.width);
  }

  /** A lane whose last entity starts within its track is on its track. */
  lemma {:induction false} RowOnTrack(kind: Entity, spacing: real, n: nat, y: real)
    requires 0.0 <= kind.width && 0.0 <= spacing + kind.width
    requires StartX(n, spacing + kind.width) <= if kind.speed < 0.0 then CanvasWidth else CanvasWidth + kind.speed
    ensures AllOnTrack(CreateEntityRow(kind, spacing, n, y))
  {
    var r := CreateEntityRow(kind, spacing, n, y);
    CreateEntityRowAuxMembers(kind, spacing, n, y, []);
    forall i | 0 <= i < |r|
      ensures OnTrack(r[i])
    {
      RowMemberOnTrack(kind, spacing, n - i, n, y);
    }
  }

  /** The initial board is valid. */
  lemma InitialStateValid()
    ensures Valid(InitialState())
  {
    StartXIsProduct(4, SpaceBetweenUfo + Ufo.width);
    StartXIsProduct(4, SpaceBetweenLogRow3 + LogRow3.width);
    RowOnTrack(Ufo, SpaceBetweenUfo, 4, 425.0);
    RowOnTrack(Ghost, SpaceBetweenGhost, 3, 485.0);
    RowOnTrack(Snail, SpaceBetweenSnail, 1, 365.0);
    RowOnTrack(LogRow1, SpaceBetweenLogRow1, 2, 65.0);
    RowOnTrack(LogRow2, SpaceBetweenLogRow2, 2, 125.0);
    RowOnTrack(LogRow3, SpaceBetweenLogRow3, 4, 185.0);
    RowOnTrack(LogRow4, SpaceBetweenLogRow4, 2, 245.0);
  }

  /** Raising the difficulty keeps every lane on its track. */
  lemma IncreaseDifficultyValid(s: State)
    requires Valid(s)
    ensures Valid(IncreaseDifficulty(s))
  {
  }

  /** Collision resolution keeps Valid. */
  lemma CheckCollisionsValid(s: State)
    requires Valid(s)
    ensures Valid(CheckCollisions(s))
  {
    if FrogDies(s) {
      DeathBranch(s);
    } else if AnyHit(s.frog, s.crowns) {
      var r := CheckCollisions(s);
      var before := r.(ufos := s.ufos, ghosts := s.ghosts, snails := s.snails,
        logRow1 := s.logRow1, logRow2 := s.logRow2, logRow3 := s.logRow3, logRow4 := s.logRow4);
      HitsNonEmptyIff(s.frog, s.crowns);
      assert r == IncreaseDifficulty(before);
      IncreaseDifficultyValid(before);
    } else {
      NormalBranch(s);
    }
  }

  /** Every event keeps Valid. */
  lemma ReduceStateValid(s: State, event: Event)
    requires Valid(s)
    ensures Valid(ReduceState(s, event))
  {
    match event
    case Tick(elapsed) =>
      CheckCollisionsValid(Advance(s, elapsed));
    case Movement(key) =>
  }

  /** Two pairs of lists holding the same elements equally often hold the
      same set of elements. */
  lemma SameMultisetSameSet(a: seq<Entity>, b: seq<Entity>, c: seq<Entity>, d: seq<Entity>)
    requires multiset(a) + multiset(b) == multiset(c) + multiset(d)
    ensures (set x | x in a) + (set x | x in b) == (set x | x in c) + (set x | x in d)
  {
    forall x
      ensures x in a || x in b <==> x in c || x in d
    {
      assert x in a <==> x in multiset(a);
      assert x in b <==> x in multiset(b);
      assert x in c <==> x in multiset(c);
      assert x in d <==> x in multiset(d);
      assert (multiset(a) + multiset(b))[x] == multiset(a)[x] + multiset(b)[x];
      assert (multiset(c) + multiset(d))[x] == multiset(c)[x] + multiset(d)[x];
    }
  }

  /** On death the touched crowns are already among the crowns, so putting
      them back adds no new crown. */
  lemma DeathKeepsCrownSet(s: State)
    requires FrogDies(s)
    ensures CrownSet(CheckCollisions(s)) == CrownSet(s)
  {
    DeathBranch(s);
    var r := CheckCollisions(s);
    var taken := Filter(Hits(s.frog), s.crowns);
    forall x
      ensures x in r.crowns <==> x in s.crowns || x in s.crownsTaken
    {
      assert x in taken ==> x in s.crowns;
    }
  }

  /** Collision resolution keeps the same crowns in play. */
  lemma CheckCollisionsKeepsCrownSet(s: State)
    ensures CrownSet(CheckCollisions(s)) == CrownSet(s)
  {
    var r := CheckCollisions(s);
    if FrogDies(s) {
      DeathKeepsCrownSet(s);
    } else if AnyHit(s.frog, s.crowns) {
      CaptureMovesCrowns(s);
      SameMultisetSameSet(r.crowns, r.crownsTaken, s.crowns, s.crownsTaken);
    } else {
      NormalBranch(s);
    }
  }

  /** Every event keeps the same crowns in play: a crown is never created or
      lost, only moved between crowns and crownsTaken. */
  lemma ReduceStateKeepsCrownSet(s: State, event: Event)
    ensures CrownSet(ReduceState(s, event)) == CrownSet(s)
  {
    match event
    case Tick(elapsed) =>
      CheckCollisionsKeepsCrownSet(Advance(s, elapsed));
    case Movement(key) =>
  }

  /** The highscore never decreases. */
  lemma ReduceStateHighscoreMonotone(s: State, event: Event)
    ensures s.highscore <= ReduceState(s, event).highscore
  {
    if event.Tick? {
      var a := Advance(s, event.elapsed);
      if FrogDies(a) {
        DeathBranch(a);
      } else if AnyHit(a.frog, a.crowns) {
        CaptureBranch(a);
      } else {
        NormalBranch(a);
      }
    }
  }

  /** Lives are lost one at a time, and only by a tick on which the frog dies. */
  lemma ReduceStateLives(s: State, event: Event)
    ensures ReduceState(s, event).lives ==
      if event.Tick? && FrogDies(Advance(s, event.elapsed)) then s.lives - 1 else s.lives
  {
    if event.Tick? {
      var a := Advance(s, event.elapsed);
      if FrogDies(a) {
        DeathBranch(a);
      } else if AnyHit(a.frog, a.crowns) {
        CaptureBranch(a);
      } else {
        NormalBranch(a);
      }
    }
  }
}
