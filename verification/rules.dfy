/** What the reducer does, stated rule by rule: the initial board, the three
    branches of collision resolution, the tick, and a movement key. */
module Rules {
  import opened Seqs
  import opened Entities
  import opened Collision
  import opened Motion
  import opened Control
  import opened Game

  /** Some entity of es overlaps the frog. */
  predicate AnyHit(frog: Entity, es: seq<Entity>) {
    exists i :: 0 <= i < |es| && IsColliding(frog, es[i].Area())
  }

  /** Lane b is lane a with every entity moved one step. */
  predicate Moved(a: seq<Entity>, b: seq<Entity>) {
    |b| == |a| && forall i :: 0 <= i < |a| ==> b[i] == MoveEntity(a[i])
  }

  /** Lane b is lane a with every speed multiplied by the difficulty multiplier
      and nothing else changed. */
  predicate SpedUp(a: seq<Entity>, b: seq<Entity>) {
    |b| == |a| && forall i :: 0 <= i < |a| ==> b[i] == a[i].(speed := a[i].speed * DifficultyMultiplier)
  }

  /** The coordinate a key moves the frog along. */
  function Coordinate(e: Entity, k: Key): real {
    if IsVertical(k) then e.y else e.x
  }

  /** Filtering a lane by Hits leaves something exactly when some entity of
      the lane overlaps the frog. */
  lemma HitsNonEmptyIff(frog: Entity, es: seq<Entity>)
    ensures (|Filter(Hits(frog), es)| > 0) == AnyHit(frog, es)
  {
    var r := Filter(Hits(frog), es);
    if |r| > 0 {
      assert r[0] in es && Hits(frog)(r[0]);
    }
    if AnyHit(frog, es) {
      var i :| 0 <= i < |es| && IsColliding(frog, es[i].Area());
      assert Hits(frog)(es[i]);
      assert es[i] in r;
    }
  }

  /** The logs the frog rides are the overlapping logs of all rows in row order. */
  lemma LogsCollidedInRowOrder(s: State)
    ensures LogsCollided(s) == Filter(Hits(s.frog), AllLogs(s))
  {
    var p := Hits(s.frog);
    FilterConcat(p, s.logRow1 + s.logRow2 + s.logRow3, s.logRow4);
    FilterConcat(p, s.logRow1 + s.logRow2, s.logRow3);
    FilterConcat(p, s.logRow1, s.logRow2);
  }

  /** The river zone counts as collided exactly when the frog overlaps it. */
  lemma RiverZoneCollidedIff(s: State)
    ensures (|RiverZoneCollided(s)| > 0) == IsColliding(s.frog, s.riverZone)
  {
    var p := (z: Zone) => IsColliding(s.frog, z);
    assert [s.riverZone][1..] == [];
    assert RiverZoneCollided(s) == (if p(s.riverZone) then [s.riverZone] else []) + Filter(p, []);
  }

  /** The death rule in plain terms: a ufo or a snail overlaps the frog, or
      the frog is over the river with no log under it, or its centre is off
      the canvas. Ghosts play no part. */
  lemma FrogDiesIff(s: State)
    ensures FrogDies(s) <==>
      || AnyHit(s.frog, s.ufos)
      || AnyHit(s.frog, s.snails)
      || (IsColliding(s.frog, s.riverZone) && !AnyHit(s.frog, AllLogs(s)))
      || CentreX(s.frog) < 0.0
      || CentreX(s.frog) > CanvasWidth
  {
    HitsNonEmptyIff(s.frog, s.ufos);
    HitsNonEmptyIff(s.frog, s.snails);
    LogsCollidedInRowOrder(s);
    HitsNonEmptyIff(s.frog, AllLogs(s));
    RiverZoneCollidedIff(s);
  }

  /** Ghosts are not lethal: replacing the ghost lane never changes whether
      the frog dies. */
  lemma GhostsAreNotLethal(s: State, ghosts: seq<Entity>)
    ensures FrogDies(s.(ghosts := ghosts)) == FrogDies(s)
  {
  }

  /** Death: the frog goes back to its spawn point, one life is lost, the death
      timer restarts, every held crown returns to the board together with the
      crowns being touched (which are then on the board twice), and nothing
      else changes; in particular gameOver, the confusion fields and the
      highscore are kept. */
  lemma DeathBranch(s: State)
    requires FrogDies(s)
    ensures var r := CheckCollisions(s);
      && r.frog.x == FrogInitialX && r.frog.y == FrogInitialY
      && r.frog.(x := s.frog.x, y := s.frog.y) == s.frog
      && r.lives == s.lives - 1
      && r.deathTimer == DeathTimer
      && r.crownsTaken == []
      && r.crowns == s.crowns + Filter(Hits(s.frog), s.crowns) + s.crownsTaken
      && multiset(s.crowns) + multiset(s.crownsTaken) <= multiset(r.crowns)
      && r.(frog := s.frog, lives := s.lives, deathTimer := s.deathTimer,
            crowns := s.crowns, crownsTaken := s.crownsTaken) == s
  {
  }

  /** A crown the frog touches as it dies is put back although it never left:
      afterwards it appears once more on the board than it appeared in crowns
      and crownsTaken together. */
  lemma DeathDuplicatesTouchedCrown(s: State, c: Entity)
    requires FrogDies(s)
    requires c in s.crowns && IsColliding(s.frog, c.Area())
    ensures multiset(CheckCollisions(s).crowns)[c] == 2 * multiset(s.crowns)[c] + multiset(s.crownsTaken)[c]
    ensures multiset(CheckCollisions(s).crowns)[c] > multiset(s.crowns)[c] + multiset(s.crownsTaken)[c]
  {
    var remaining := Filter(Misses(s.frog), s.crowns);
    FilterPartition(Hits(s.frog), Misses(s.frog), s.crowns);
    assert c !in remaining;
  }

  /** Crown capture (no death, some crown touched): the frog goes back to its
      spawn point, the touched crowns are appended to crownsTaken, and nothing
      else changes but the lanes: the frog's speed, lives, timers, highscore
      and gameOver are kept. */
  lemma CaptureBranch(s: State)
    requires !FrogDies(s)
    requires AnyHit(s.frog, s.crowns)
    ensures var r := CheckCollisions(s); var taken := Filter(Hits(s.frog), s.crowns);
      && r.frog.x == FrogInitialX && r.frog.y == FrogInitialY
      && r.frog.(x := s.frog.x, y := s.frog.y) == s.frog
      && |taken| > 0
      && r.crownsTaken == s.crownsTaken + taken
      && r.(frog := s.frog, crowns := s.crowns, crownsTaken := s.crownsTaken,
            ufos := s.ufos, ghosts := s.ghosts, snails := s.snails,
            logRow1 := s.logRow1, logRow2 := s.logRow2, logRow3 := s.logRow3, logRow4 := s.logRow4) == s
  {
    HitsNonEmptyIff(s.frog, s.crowns);
  }

  /** Crown capture moves crowns without losing or duplicating any: the crowns
      left on the board are the untouched ones, fewer than before, and
      together with crownsTaken they hold every crown exactly as often as
      before. */
  lemma CaptureMovesCrowns(s: State)
    requires !FrogDies(s)
    requires AnyHit(s.frog, s.crowns)
    ensures var r := CheckCollisions(s);
      && (forall i :: 0 <= i < |r.crowns| ==> r.crowns[i] in s.crowns && !IsColliding(s.frog, r.crowns[i].Area()))
      && multiset(r.crowns) + multiset(r.crownsTaken) == multiset(s.crowns) + multiset(s.crownsTaken)
      && |r.crowns| < |s.crowns|
  {
    var taken := Filter(Hits(s.frog), s.crowns);
    var remaining := Filter(Misses(s.frog), s.crowns);
    CaptureBranch(s);
    assert CheckCollisions(s).crowns == remaining;
    FilterPartition(Hits(s.frog), Misses(s.frog), s.crowns);
    assert |taken| + |remaining| == |s.crowns| by {
      assert |multiset(taken)| + |multiset(remaining)| == |multiset(s.crowns)|;
    }
  }

  /** Crown capture raises the difficulty: every lane entity gets 1.1 times
      its speed, so no speed magnitude decreases. */
  lemma CaptureSpeedsUp(s: State)
    requires !FrogDies(s)
    requires AnyHit(s.frog, s.crowns)
    ensures var r := CheckCollisions(s);
      && SpedUp(s.ufos, r.ufos) && SpedUp(s.ghosts, r.ghosts) && SpedUp(s.snails, r.snails)
      && SpedUp(s.logRow1, r.logRow1) && SpedUp(s.logRow2, r.logRow2)
      && SpedUp(s.logRow3, r.logRow3) && SpedUp(s.logRow4, r.logRow4)
  {
    HitsNonEmptyIff(s.frog, s.crowns);
  }

  /** Normal play (no death, no crown touched): the crowns stay as they are,
      isConfused records whether a ghost overlaps the frog now, the confusion
      timer restarts if the frog was confused before this tick and otherwise
      counts down to no lower than 0, the death timer counts down without a
      floor, the highscore becomes at least 50 points per crown held before
      this tick, gameOver records whether no lives were left before this tick,
      the frog's y is kept, and nothing else changes. */
  lemma NormalBranch(s: State)
    requires !FrogDies(s)
    requires !AnyHit(s.frog, s.crowns)
    ensures var r := CheckCollisions(s);
      && r.crowns == s.crowns && r.crownsTaken == s.crownsTaken
      && r.isConfused == AnyHit(s.frog, s.ghosts)
      && (s.isConfused ==> r.isConfusedTimer == ConfusedTimer)
      && (!s.isConfused ==> r.isConfusedTimer == if s.isConfusedTimer > 0 then s.isConfusedTimer - 1 else 0)
      && r.deathTimer == s.deathTimer - 1
      && s.highscore <= r.highscore && CrownPoints * |s.crownsTaken| <= r.highscore
      && (r.highscore == s.highscore || r.highscore == CrownPoints * |s.crownsTaken|)
      && r.gameOver == (s.lives == 0)
      && r.frog.(x := s.frog.x) == s.frog
      && r.(frog := s.frog, isConfused := s.isConfused, isConfusedTimer := s.isConfusedTimer,
            deathTimer := s.deathTimer, highscore := s.highscore, gameOver := s.gameOver) == s
  {
    HitsNonEmptyIff(s.frog, s.crowns);
    HitsNonEmptyIff(s.frog, s.ghosts);
    FilterDropsAll(Hits(s.frog), s.crowns);
    FilterKeepsAll(Misses(s.frog), s.crowns);
  }

  /** In normal play the frog is carried by the first overlapping log, if any. */
  lemma NormalFrog(s: State)
    requires !FrogDies(s)
    requires !AnyHit(s.frog, s.crowns)
    ensures var hit := Filter(Hits(s.frog), AllLogs(s));
      CheckCollisions(s).frog == if |hit| > 0 then MoveFrogOnLog(s.frog, hit[0]) else s.frog
  {
    HitsNonEmptyIff(s.frog, s.crowns);
    LogsCollidedInRowOrder(s);
  }

  /** A frog carried by the first of logs it overlaps, if any: with no such log
      it stays put, otherwise it moves by the speed of the first one. */
  lemma RidesFirstHit(frog: Entity, logs: seq<Entity>)
    ensures var hit := Filter(Hits(frog), logs);
            var f := if |hit| > 0 then MoveFrogOnLog(frog, hit[0]) else frog;
      && (!AnyHit(frog, logs) ==> f == frog)
      && forall i ::
           (0 <= i < |logs| && IsColliding(frog, logs[i].Area())
            && forall j :: 0 <= j < i ==> !IsColliding(frog, logs[j].Area()))
           ==> f == frog.(x := frog.x + logs[i].speed)
  {
    HitsNonEmptyIff(frog, logs);
    forall i | 0 <= i < |logs| && IsColliding(frog, logs[i].Area())
        && (forall j :: 0 <= j < i ==> !IsColliding(frog, logs[j].Area()))
      ensures Filter(Hits(frog), logs) != [] && Filter(Hits(frog), logs)[0] == logs[i]
    {
      FirstMatchHeadsFilter(Hits(frog), logs, i);
    }
  }

  /** Riding in normal play: with no log under it the frog stays where it is;
      otherwise it moves along x by the speed of the first overlapping log,
      taking the rows in order 1 to 4. */
  lemma RidingFirstLog(s: State)
    requires !FrogDies(s)
    requires !AnyHit(s.frog, s.crowns)
    ensures var r := CheckCollisions(s); var logs := AllLogs(s);
      && (!AnyHit(s.frog, logs) ==> r.frog == s.frog)
      && forall i ::
           (0 <= i < |logs| && IsColliding(s.frog, logs[i].Area())
            && forall j :: 0 <= j < i ==> !IsColliding(s.frog, logs[j].Area()))
           ==> r.frog == s.frog.(x := s.frog.x + logs[i].speed)
  {
    NormalFrog(s);
    RidesFirstHit(s.frog, AllLogs(s));
  }

  /** A tick sets the clock to the tick count, moves every lane one step,
      leaves the frog, the crowns and every counter alone, and then resolves
      collisions. */
  lemma TickSpec(s: State, elapsed: nat)
    ensures var a := Advance(s, elapsed);
      && a.time == elapsed
      && Moved(s.ufos, a.ufos) && Moved(s.ghosts, a.ghosts) && Moved(s.snails, a.snails)
      && Moved(s.logRow1, a.logRow1) && Moved(s.logRow2, a.logRow2)
      && Moved(s.logRow3, a.logRow3) && Moved(s.logRow4, a.logRow4)
      && a.(time := s.time, ufos := s.ufos, ghosts := s.ghosts, snails := s.snails,
            logRow1 := s.logRow1, logRow2 := s.logRow2, logRow3 := s.logRow3, logRow4 := s.logRow4) == s
      && ReduceState(s, Tick(elapsed)) == CheckCollisions(a)
  {
  }

  /** A fatal death does not end the game at once: with one life left the
      frog dies, lives drops to 0, and gameOver is still false. */
  lemma LastDeathLeavesGameRunning(s: State)
    requires FrogDies(s) && s.lives == 1 && !s.gameOver
    ensures CheckCollisions(s).lives == 0 && !CheckCollisions(s).gameOver
  {
  }

  /** A death while lives is already 0 (no normal tick came between the two
      deaths) takes lives to -1 and still leaves gameOver false. */
  lemma DeathWithNoLivesLeft(s: State)
    requires FrogDies(s) && s.lives == 0 && !s.gameOver
    ensures CheckCollisions(s).lives == -1 && !CheckCollisions(s).gameOver
  {
  }

  /** Once lives is negative the game can no longer end: gameOver is set only
      when lives is exactly 0, and lives never goes up, so every event leaves
      lives negative and gameOver false. */
  lemma NegativeLivesNeverEnd(s: State, e: Event)
    requires s.lives < 0 && !s.gameOver
    ensures ReduceState(s, e).lives < 0 && !ReduceState(s, e).gameOver
  {
    if e.Tick? {
      var a := Advance(s, e.elapsed);
      if FrogDies(a) {
        DeathBranch(a);
      } else if AnyHit(a.frog, a.crowns) {
        CaptureBranch(a);
      } else {
        NormalBranch(a);
      }
    }
  }

  /** A movement key changes only the frog. The key is reversed exactly while
      the confusion timer runs; the frog keeps every field but the coordinate
      of the key's axis, which moves by the frog's speed towards the key's
      direction, stopping at the border on that side. */
  lemma MovementSpec(s: State, key: Key)
    ensures var k := SwapKey(key, s.isConfusedTimer > 0);
            var r := ReduceState(s, Movement(key));
            var c := Coordinate(s.frog, k);
      && r.(frog := s.frog) == s
      && (s.isConfusedTimer > 0 ==> k != key && IsVertical(k) == IsVertical(key))
      && (s.isConfusedTimer <= 0 ==> k == key)
      && (IsVertical(k) ==> r.frog == s.frog.(y := r.frog.y))
      && (!IsVertical(k) ==> r.frog == s.frog.(x := r.frog.x))
      && (IsBackward(k) ==>
            Coordinate(r.frog, k) == if c - s.frog.speed < FrogMapBorderMin then FrogMapBorderMin else c - s.frog.speed)
      && (!IsBackward(k) ==>
            Coordinate(r.frog, k) == if c + s.frog.speed > FrogMapBorderMax then FrogMapBorderMax else c + s.frog.speed)
  {
  }

  /** A frog that is inside the border stays inside it after any key. */
  lemma MovementStaysInBorder(s: State, key: Key)
    requires 0.0 <= s.frog.speed
    requires FrogMapBorderMin <= s.frog.x <= FrogMapBorderMax
    requires FrogMapBorderMin <= s.frog.y <= FrogMapBorderMax
    ensures var f := ReduceState(s, Movement(key)).frog;
      FrogMapBorderMin <= f.x <= FrogMapBorderMax && FrogMapBorderMin <= f.y <= FrogMapBorderMax
  {
  }

  /** Whether an id is a log's id is decided by its first three characters. */
  lemma LogIdByPrefix(p: string, t: string)
    requires 3 <= |p|
    ensures IsLogId(p + t) == IsLogId(p)
  {
    assert (p + t)[..3] == p[..3];
  }

  /** An id that does not start with 'l' is not a log's id. */
  lemma NotLogId(id: string)
    requires 1 <= |id| && id[0] != 'l'
    ensures !IsLogId(id)
  {
  }

  /** Every entity of a lane is a log exactly when its prototype is. */
  lemma RowLogIds(kind: Entity, spacing: real, n: nat, y: real)
    requires 3 <= |kind.id|
    ensures forall i :: 0 <= i < |CreateEntityRow(kind, spacing, n, y)| ==>
      IsLogId(CreateEntityRow(kind, spacing, n, y)[i].id) == IsLogId(kind.id)
  {
    var r := CreateEntityRow(kind, spacing, n, y);
    CreateEntityRowSpec(kind, spacing, n, y);
    forall i | 0 <= i < |r|
      ensures IsLogId(r[i].id) == IsLogId(kind.id)
    {
      LogIdByPrefix(kind.id, NatToString(n - i));
    }
  }

  /** The initial board: five lives, five crowns on the board and none taken,
      the game running, the frog at its spawn point (305, 545), the lane sizes
      4 ufos, 3 ghosts, 1 snail and 2, 2, 4, 2 logs, all counters at 0, every
      crown at y = 5 and standing still, and the log rule applying to exactly
      the logs. */
  lemma InitialStateSpec()
    ensures var s := InitialState();
      && s.lives == 5 && |s.crowns| == 5 && s.crownsTaken == [] && !s.gameOver
      && s.frog.x == 305.0 && s.frog.y == 545.0
      && |s.ufos| == 4 && |s.ghosts| == 3 && |s.snails| == 1
      && |s.logRow1| == 2 && |s.logRow2| == 2 && |s.logRow3| == 4 && |s.logRow4| == 2
      && !s.isConfused && s.isConfusedTimer == 0 && s.highscore == 0 && s.deathTimer == 0 && s.time == 0
      && (forall i :: 0 <= i < |s.crowns| ==> s.crowns[i].y == 5.0 && s.crowns[i].speed == 0.0)
      && (forall i :: 0 <= i < |AllLogs(s)| ==> IsLogId(AllLogs(s)[i].id))
      && (forall i :: 0 <= i < |s.ufos| ==> !IsLogId(s.ufos[i].id))
      && (forall i :: 0 <= i < |s.ghosts| ==> !IsLogId(s.ghosts[i].id))
      && (forall i :: 0 <= i < |s.snails| ==> !IsLogId(s.snails[i].id))
      && (forall i :: 0 <= i < |s.crowns| ==> !IsLogId(s.crowns[i].id))
  {
    var s := InitialState();
    CreateEntityRowSpec(Ufo, SpaceBetweenUfo, 4, 425.0);
    CreateEntityRowSpec(Ghost, SpaceBetweenGhost, 3, 485.0);
    CreateEntityRowSpec(Snail, SpaceBetweenSnail, 1, 365.0);
    CreateEntityRowSpec(LogRow1, SpaceBetweenLogRow1, 2, 65.0);
    CreateEntityRowSpec(LogRow2, SpaceBetweenLogRow2, 2, 125.0);
    CreateEntityRowSpec(LogRow3, SpaceBetweenLogRow3, 4, 185.0);
    CreateEntityRowSpec(LogRow4, SpaceBetweenLogRow4, 2, 245.0);
    CreateEntityRowSpec(Crown, SpaceBetweenCrown, 5, 5.0);
    RowLogIds(Ufo, SpaceBetweenUfo, 4, 425.0);
    RowLogIds(Ghost, SpaceBetweenGhost, 3, 485.0);
    RowLogIds(Snail, SpaceBetweenSnail, 1, 365.0);
    RowLogIds(LogRow1, SpaceBetweenLogRow1, 2, 65.0);
    RowLogIds(LogRow2, SpaceBetweenLogRow2, 2, 125.0);
    RowLogIds(LogRow3, SpaceBetweenLogRow3, 4, 185.0);
    RowLogIds(LogRow4, SpaceBetweenLogRow4, 2, 245.0);
    RowLogIds(Crown, SpaceBetweenCrown, 5, 5.0);
    assert IsLogId(LogRow1.id) && IsLogId(LogRow2.id) && IsLogId(LogRow3.id) && IsLogId(LogRow4.id);
    NotLogId(Ufo.id);
    NotLogId(Ghost.id);
    NotLogId(Snail.id);
    NotLogId(Crown.id);
    var logs := AllLogs(s);
    forall i | 0 <= i < |logs|
      ensures IsLogId(logs[i].id)
    {
      if i < 2 {
        assert logs[i] == s.logRow1[i];
      } else if i < 4 {
        assert logs[i] == s.logRow2[i - 2];
      } else if i < 8 {
        assert logs[i] == s.logRow3[i - 4];
      } else {
        assert logs[i] == s.logRow4[i - 8];
      }
    }
  }
}
