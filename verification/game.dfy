/** The game state, the initial board, and the reducer: a tick advances every
    lane and then resolves collisions (death, else crown capture, else normal
    play); a movement event moves the frog. */
module Game {
  import opened Seqs
  import opened Entities
  import opened Collision
  import opened Motion
  import opened Control

  /** The whole game at one instant. */
  datatype State = State(
    time: nat,
    frog: Entity,
    ufos: seq<Entity>,
    ghosts: seq<Entity>,
    snails: seq<Entity>,
    logRow1: seq<Entity>,
    logRow2: seq<Entity>,
    logRow3: seq<Entity>,
    logRow4: seq<Entity>,
    isConfused: bool,
    isConfusedTimer: int,
    gameOver: bool,
    riverZone: Zone,
    crowns: seq<Entity>,
    crownsTaken: seq<Entity>,
    highscore: int,
    lives: int,
    deathTimer: int)

  /** The events the reducer consumes: a clock tick carrying the tick count,
      or a movement key. */
  datatype Event = Tick(elapsed: nat) | Movement(key: Key)

  /** The board at the start of every game. */
  function InitialState(): State {
    State(
      time := 0,
      frog := Frog,
      ufos := CreateEntityRow(Ufo, SpaceBetweenUfo, 4, 425.0),
      ghosts := CreateEntityRow(Ghost, SpaceBetweenGhost, 3, 485.0),
      snails := CreateEntityRow(Snail, SpaceBetweenSnail, 1, 365.0),
      logRow1 := CreateEntityRow(LogRow1, SpaceBetweenLogRow1, 2, 65.0),
      logRow2 := CreateEntityRow(LogRow2, SpaceBetweenLogRow2, 2, 125.0),
      logRow3 := CreateEntityRow(LogRow3, SpaceBetweenLogRow3, 4, 185.0),
      logRow4 := CreateEntityRow(LogRow4, SpaceBetweenLogRow4, 2, 245.0),
      isConfused := false,
      isConfusedTimer := DefaultConfusedTimer,
      gameOver := false,
      riverZone := RiverZone,
      crowns := CreateEntityRow(Crown, SpaceBetweenCrown, 5, 5.0),
      crownsTaken := [],
      highscore := 0,
      lives := DefaultLives,
      deathTimer := 0)
  }

  /** All four log rows, in row order. */
  function AllLogs(s: State): seq<Entity> {
    s.logRow1 + s.logRow2 + s.logRow3 + s.logRow4
  }

  /** Whether the frog overlaps an entity, as a predicate to filter lanes with. */
  function Hits(frog: Entity): Entity -> bool {
    (e: Entity) => IsColliding(frog, e.Area())
  }

  /** Whether the frog does not overlap an entity. */
  function Misses(frog: Entity): Entity -> bool {
    (e: Entity) => !IsColliding(frog, e.Area())
  }

  /** The lethal entities the frog overlaps: ufos, then snails (ghosts are
      not among them). */
  function EnemiesCollided(s: State): seq<Entity> {
    Filter(Hits(s.frog), s.ufos) + Filter(Hits(s.frog), s.snails)
  }

  /** The logs the frog rides, row by row. */
  function LogsCollided(s: State): seq<Entity> {
    Filter(Hits(s.frog), s.logRow1) + Filter(Hits(s.frog), s.logRow2)
      + Filter(Hits(s.frog), s.logRow3) + Filter(Hits(s.frog), s.logRow4)
  }

  /** The river zone, if the frog overlaps it. */
  function RiverZoneCollided(s: State): seq<Zone> {
    Filter((z: Zone) => IsColliding(s.frog, z), [s.riverZone])
  }

  /** The frog is in the water with no log under it. */
  predicate IsFrogInRiver(logsCollided: seq<Entity>, riverZoneCollided: seq<Zone>) {
    |riverZoneCollided| > 0 && |logsCollided| == 0
  }

  /** A log has carried the frog's centre off the canvas. */
  predicate IsFrogOutOfBounds(frog: Entity) {
    CentreX(frog) < 0.0 || CentreX(frog) > CanvasWidth
  }

  /** The death rule of a tick. */
  predicate FrogDies(s: State) {
    || |EnemiesCollided(s)| > 0
    || IsFrogInRiver(LogsCollided(s), RiverZoneCollided(s))
    || IsFrogOutOfBounds(s.frog)
  }

  /** Speeds up every lane (not the frog, not the crowns). */
  function IncreaseDifficulty(s: State): State {
    s.(ufos := Map(IncreaseSpeed, s.ufos),
       ghosts := Map(IncreaseSpeed, s.ghosts),
       snails := Map(IncreaseSpeed, s.snails),
       logRow1 := Map(IncreaseSpeed, s.logRow1),
       logRow2 := Map(IncreaseSpeed, s.logRow2),
       logRow3 := Map(IncreaseSpeed, s.logRow3),
       logRow4 := Map(IncreaseSpeed, s.logRow4))
  }

  /** The frog moved back to its spawn point. */
  function Respawned(frog: Entity): Entity {
    frog.(x := FrogInitialX, y := FrogInitialY)
  }

  /** Collision resolution after the lanes have moved. Death comes first, then
      crown capture, then normal play. */
  function CheckCollisions(s: State): State {
    var ghostsCollided := Filter(Hits(s.frog), s.ghosts);
    var logsCollided := LogsCollided(s);
    var crownsCollided := Filter(Hits(s.frog), s.crowns);
    var crownsRemaining := Filter(Misses(s.frog), s.crowns);
    if FrogDies(s) then
      s.(frog := Respawned(s.frog),
         lives := s.lives - 1,
         deathTimer := DeathTimer,
         crowns := s.crowns + crownsCollided + s.crownsTaken,
         crownsTaken := [])
    else if |crownsCollided| > 0 then
      IncreaseDifficulty(
        s.(frog := Respawned(s.frog),
           crowns := crownsRemaining,
           crownsTaken := s.crownsTaken + crownsCollided))
    else
      s.(frog := if |logsCollided| > 0 then MoveFrogOnLog(s.frog, logsCollided[0]) else s.frog,
         gameOver := s.lives == 0,
         isConfused := |ghostsCollided| > 0,
         isConfusedTimer := if s.isConfused then ConfusedTimer else MaxInt(0, s.isConfusedTimer - 1),
         crowns := crownsRemaining,
         crownsTaken := s.crownsTaken + crownsCollided,
         highscore := MaxInt(s.highscore, |s.crownsTaken| * CrownPoints),
         deathTimer := s.deathTimer - 1)
  }

  /** The state a tick hands to collision resolution: the clock set, every lane
      moved one step, the crowns left where they are. */
  function Advance(s: State, elapsed: nat): State {
    s.(time := elapsed,
       ufos := Map(MoveEntity, s.ufos),
       ghosts := Map(MoveEntity, s.ghosts),
       snails := Map(MoveEntity, s.snails),
       logRow1 := Map(MoveEntity, s.logRow1),
       logRow2 := Map(MoveEntity, s.logRow2),
       logRow3 := Map(MoveEntity, s.logRow3),
       logRow4 := Map(MoveEntity, s.logRow4))
  }

  /** A clock tick. */
  function TickState(s: State, elapsed: nat): State {
    CheckCollisions(Advance(s, elapsed))
  }

  /** The frog after a movement key: the key is reversed while the confusion
      timer runs, and the frog moves by its speed along one axis, clamped on
      the side it moves towards. */
  function UpdateFrogState(s: State, key: Key): Entity {
    var frog := s.frog;
    match SwapKey(key, s.isConfusedTimer > 0)
    case W => frog.(y := MaxReal(frog.y - frog.speed, FrogMapBorderMin))
    case A => frog.(x := MaxReal(frog.x - frog.speed, FrogMapBorderMin))
    case S => frog.(y := MinReal(frog.y + frog.speed, FrogMapBorderMax))
    case D => frog.(x := MinReal(frog.x + frog.speed, FrogMapBorderMax))
  }

  /** The reducer: one event, one new state. */
  function ReduceState(s: State, event: Event): State {
    match event
    case Tick(elapsed) => TickState(s, elapsed)
    case Movement(key) => s.(frog := UpdateFrogState(s, key))
  }
}
