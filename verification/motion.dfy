/** Motion of the autonomous entities: one step along the lane with wrap-around
    at the canvas edges, carrying the frog on a log, and difficulty scaling. */
module Motion {
  import opened Entities

  /** An entity is on its track when it is at most one body-width off the edge
      it enters from and at most one step past the edge it leaves by. Every
      lane of the initial board is on its track, and motion and speed scaling
      keep it there (MoveEntity, IncreaseSpeed). */
  predicate OnTrack(e: Entity) {
    && 0.0 <= e.width
    && if e.speed < 0.0 then -e.width + e.speed <= e.x <= CanvasWidth
       else -e.width <= e.x <= CanvasWidth + e.speed
  }

  /** One step of an autonomous entity. The sign of speed alone picks the wrap
      rule: a negative speed wraps from the left edge to the right one, any
      other speed (zero included) from the right edge to the left one. */
  function MoveEntity(e: Entity): (r: Entity)
    ensures r.(x := e.x) == e
    ensures OnTrack(e) ==> OnTrack(r)
  {
    var wrapLeft :=
      if e.x < 0.0 then e.x + e.speed
      else if e.x > CanvasWidth then -e.width
      else e.x + e.speed;
    var wrapRight :=
      if e.x > 0.0 then e.x + e.speed
      else if e.x < -e.width then CanvasWidth
      else e.x + e.speed;
    e.(x := if e.speed < 0.0 then wrapRight else wrapLeft)
  }

  /** The wrap rules case by case: only x changes; an entity moving right (or
      standing still) that is past the right edge reappears one body-width off
      the left edge; one moving left that is past the left edge by more than its
      width (and not right of x = 0) reappears at the right edge; every other
      entity advances by its speed. */
  lemma MoveEntityCases(e: Entity)
    ensures MoveEntity(e).(x := e.x) == e
    ensures 0.0 <= e.speed && e.x > CanvasWidth ==> MoveEntity(e).x == -e.width
    ensures e.speed < 0.0 && e.x <= 0.0 && e.x < -e.width ==> MoveEntity(e).x == CanvasWidth
    ensures !(0.0 <= e.speed && e.x > CanvasWidth) && !(e.speed < 0.0 && e.x <= 0.0 && e.x < -e.width) ==>
      MoveEntity(e).x == e.x + e.speed
  {
  }

  /** Standing still is not a fixed point: a zero-speed entity past the right
      edge is still wrapped to the left. */
  lemma ZeroSpeedStillWraps()
    ensures var e := Crown.(x := 601.0);
            MoveEntity(e).x == -50.0 && MoveEntity(e) != e
  {
  }

  /** The entity after n steps. */
  function MovedTimes(e: Entity, n: nat): Entity {
    if n == 0 then e else MoveEntity(MovedTimes(e, n - 1))
  }

  /** However long a lane runs, its entities stay on their track and keep
      everything but x. */
  lemma {:induction false} MovedTimesOnTrack(e: Entity, n: nat)
    requires OnTrack(e)
    ensures OnTrack(MovedTimes(e, n))
    ensures MovedTimes(e, n).(x := e.x) == e
  {
    if n > 0 {
      MovedTimesOnTrack(e, n - 1);
    }
  }

  /** A frog on a log is carried by the log's speed along x. */
  function MoveFrogOnLog(frog: Entity, log: Entity): (r: Entity)
    ensures r.(x := frog.x) == frog
    ensures r.x - frog.x == log.speed
  {
    frog.(x := frog.x + log.speed)
  }

  /** Speeds an entity up by the difficulty multiplier. */
  function IncreaseSpeed(e: Entity): (r: Entity)
    ensures r.(speed := e.speed) == e
    ensures (r.speed < 0.0) == (e.speed < 0.0)
    ensures e.speed <= 0.0 ==> r.speed <= e.speed
    ensures 0.0 <= e.speed ==> e.speed <= r.speed
    ensures OnTrack(e) ==> OnTrack(r)
  {
    e.(speed := e.speed * DifficultyMultiplier)
  }
}
