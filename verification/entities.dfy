/** The game's constants, its two kinds of rectangles (entities and zones), the
    entity prototypes of each lane, and the lane builder. */
module Entities {

  // Board and timing constants.
  const DefaultLives: int := 5
  const CanvasWidth: real := 600.0
  const DefaultEntityWidth: real := 50.0
  const DefaultEntityHeight: real := 50.0
  const ConfusedTimer: int := 250
  const DeathTimer: int := 200
  const DefaultConfusedTimer: int := 0
  const DifficultyMultiplier: real := 1.1
  const CrownPoints: int := 50

  // The frog's playing field and spawn point.
  const FrogMapBorderMin: real := 5.0
  const FrogMapBorderMax: real := 545.0
  const FrogInitialX: real := 305.0
  const FrogInitialY: real := 545.0
  const FrogSpeed: real := 60.0

  // Gaps between neighbouring entities of one lane.
  const SpaceBetweenUfo: real := 130.0
  const SpaceBetweenGhost: real := 150.0
  const SpaceBetweenSnail: real := 100.0
  const SpaceBetweenLogRow1: real := 90.0
  const SpaceBetweenLogRow2: real := 120.0
  const SpaceBetweenLogRow3: real := 80.0
  const SpaceBetweenLogRow4: real := 200.0
  const SpaceBetweenCrown: real := 70.0

  const RiverZoneY: real := 60.0
  const RiverZoneHeight: real := 240.0

  /** A static labelled rectangle (the river), or the outline of an entity. */
  datatype Zone = Zone(id: string, x: real, y: real, width: real, height: real)

  /** A positioned, sized actor; the sign of speed is its direction. */
  datatype Entity = Entity(id: string, x: real, y: real, width: real, height: real, speed: real, img: string)
  {
    /** The rectangle this entity occupies. */
    function Area(): Zone {
      Zone(id, x, y, width, height)
    }
  }

  // Prototypes of every kind of entity.
  const Frog := Entity("frog", FrogInitialX, FrogInitialY, DefaultEntityWidth, DefaultEntityHeight, FrogSpeed, "../src/assets/frog1.png")
  const Ufo := Entity("ufo", 0.0, 0.0, DefaultEntityWidth, DefaultEntityHeight, 0.8, "../src/assets/alien_ufo.png")
  const Ghost := Entity("ghost", 0.0, 0.0, DefaultEntityWidth, DefaultEntityHeight, -0.5, "../src/assets/ghost.svg")
  const Snail := Entity("snail", 0.0, 0.0, DefaultEntityWidth, DefaultEntityHeight, -3.0, "../src/assets/snail.png")
  const Log := Entity("log", 0.0, 0.0, DefaultEntityWidth, DefaultEntityHeight, 0.5, "../src/assets/log.png")
  const Crown := Entity("crown", 0.0, 0.0, DefaultEntityWidth, DefaultEntityHeight, 0.0, "../src/assets/crown.svg")
  const LogRow1 := Log.(id := "logRow1", width := 150.0, height := 50.0, speed := -0.5)
  const LogRow2 := Log.(id := "logRow2", width := 130.0, height := 50.0, speed := 1.0)
  const LogRow3 := Log.(id := "logRow3", width := 110.0, height := 50.0, speed := -0.3)
  const LogRow4 := Log.(id := "logRow4", width := 120.0, height := 50.0, speed := 0.5)

  const RiverZone := Zone("riverZone", 0.0, RiverZoneY, CanvasWidth, RiverZoneHeight)

  /** The larger of two reals. */
  function MaxReal(a: real, b: real): (r: real)
    ensures r >= a && r >= b && (r == a || r == b)
  {
    if a < b then b else a
  }

  /** The smaller of two reals. */
  function MinReal(a: real, b: real): (r: real)
    ensures r <= a && r <= b && (r == a || r == b)
  {
    if a < b then a else b
  }

  /** The larger of two integers. */
  function MaxInt(a: int, b: int): (r: int)
    ensures r >= a && r >= b && (r == a || r == b)
  {
    if a < b then b else a
  }

  /** The decimal digit d as a character. */
  function DigitChar(d: nat): (c: char)
    requires d < 10
    ensures '0' <= c <= '9'
    ensures c as int - '0' as int == d
  {
    (d + '0' as int) as char
  }

  /** The number a string of decimal digits denotes, most significant digit
      first (the empty string denotes 0). */
  function DigitsValue(s: string): nat
    requires forall i :: 0 <= i < |s| ==> '0' <= s[i] <= '9'
  {
    if s == [] then 0 else DigitsValue(s[..|s| - 1]) * 10 + (s[|s| - 1] as int - '0' as int)
  }

  /** The decimal rendering of n, as JavaScript renders a whole number below
      10^21 when it is appended to a string: the digits of n, most significant
      first, with no leading zero. */
  function NatToString(n: nat): (r: string)
    ensures 1 <= |r|
    ensures forall i :: 0 <= i < |r| ==> '0' <= r[i] <= '9'
    ensures DigitsValue(r) == n
    ensures r[0] == '0' ==> |r| == 1
    ensures 10 <= n ==> 2 <= |r|
  {
    if n < 10 then [DigitChar(n)]
    else
      var prefix := NatToString(n / 10);
      var r := prefix + [DigitChar(n % 10)];
      assert r[..|r| - 1] == prefix;
      r
  }

  /** Different numbers are rendered differently, so numbered ids do not clash:
      the rendering can be read back. */
  lemma NatToStringInjective(a: nat, b: nat)
    requires NatToString(a) == NatToString(b)
    ensures a == b
  {
    assert DigitsValue(NatToString(a)) == a;
  }

  /** The k-th entity of a lane built from prototype kind (k counts from 1). */
  function RowMember(kind: Entity, spacing: real, k: nat, y: real): Entity {
    kind.(id := kind.id + NatToString(k), x := StartX(k, spacing + kind.width), y := y)
  }

  /** Where member k of a lane starts: k - 1 strides right of x = 0. */
  function StartX(k: nat, stride: real): real {
    if k <= 1 then 0.0 else StartX(k - 1, stride) + stride
  }

  /** The stride count times the stride, as the lane builder computes it. */
  lemma {:induction false} StartXIsProduct(k: nat, stride: real)
    requires 1 <= k
    ensures StartX(k, stride) == (k - 1) as real * stride
  {
    if k > 1 {
      StartXIsProduct(k - 1, stride);
      assert (k - 2) as real * stride + stride == (k - 1) as real * stride;
    }
  }

  /** With a non-negative stride, members start left to right from x = 0. */
  lemma {:induction false} StartXMonotone(k: nat, last: nat, stride: real)
    requires 1 <= k <= last && 0.0 <= stride
    ensures 0.0 <= StartX(k, stride) <= StartX(last, stride)
    decreases last
  {
    if k < last {
      StartXMonotone(k, last - 1, stride);
    } else if k > 1 {
      StartXMonotone(k - 1, k - 1, stride);
    }
  }

  /** The lane builder's tail-recursive helper: appends the members numbered
      n, n-1, ..., 1 to entities. */
  function CreateEntityRowAux(kind: Entity, spacing: real, n: nat, y: real, entities: seq<Entity>): (r: seq<Entity>)
    ensures |r| == |entities| + n
    ensures r[..|entities|] == entities
    decreases n
  {
    if n == 0 then entities
    else CreateEntityRowAux(kind, spacing, n - 1, y, entities + [RowMember(kind, spacing, n, y)])
  }

  /** A lane of n entities built from prototype kind at height y. */
  function CreateEntityRow(kind: Entity, spacing: real, n: nat, y: real): seq<Entity> {
    CreateEntityRowAux(kind, spacing, n, y, [])
  }

  lemma {:induction false} CreateEntityRowAuxMembers(kind: Entity, spacing: real, n: nat, y: real, entities: seq<Entity>)
    ensures forall j :: |entities| <= j < |entities| + n ==>
      CreateEntityRowAux(kind, spacing, n, y, entities)[j] == RowMember(kind, spacing, |entities| + n - j, y)
    decreases n
  {
    if n > 0 {
      var next := entities + [RowMember(kind, spacing, n, y)];
      var r := CreateEntityRowAux(kind, spacing, n - 1, y, next);
      assert r == CreateEntityRowAux(kind, spacing, n, y, entities);
      CreateEntityRowAuxMembers(kind, spacing, n - 1, y, next);
      assert r[..|next|] == next;
      assert r[|entities|] == next[|entities|];
    }
  }

  /** A lane of n entities: the i-th is numbered n - i, carries the id of its
      kind followed by that number, sits at height y, is placed
      (n - i - 1) * (spacing + width) from the left edge, and otherwise keeps the
      prototype's size, speed and image. */
  lemma {:induction false} CreateEntityRowSpec(kind: Entity, spacing: real, n: nat, y: real)
    ensures |CreateEntityRow(kind, spacing, n, y)| == n
    ensures forall i :: 0 <= i < n ==>
      var e := CreateEntityRow(kind, spacing, n, y)[i];
      && e.id == kind.id + NatToString(n - i)
      && e.x == StartX(n - i, spacing + kind.width)
      && e.y == y
      && e.width == kind.width && e.height == kind.height
      && e.speed == kind.speed && e.img == kind.img
  {
    var r := CreateEntityRow(kind, spacing, n, y);
    CreateEntityRowAuxMembers(kind, spacing, n, y, []);
    forall i | 0 <= i < n
      ensures r[i].id == kind.id + NatToString(n - i)
      ensures r[i].x == StartX(n - i, spacing + kind.width)
      ensures r[i].y == y && r[i].width == kind.width && r[i].height == kind.height
      ensures r[i].speed == kind.speed && r[i].img == kind.img
    {
      assert r[i] == RowMember(kind, spacing, n - i, y);
      RowMemberFields(kind, spacing, n - i, y);
    }
  }

  /** The fields of lane member k. */
  lemma RowMemberFields(kind: Entity, spacing: real, k: nat, y: real)
    ensures var m := RowMember(kind, spacing, k, y);
      && m.id == kind.id + NatToString(k)
      && m.x == StartX(k, spacing + kind.width)
      && m.y == y && m.width == kind.width && m.height == kind.height
      && m.speed == kind.speed && m.img == kind.img
  {
  }

  /** A kind's id followed by two different numbers gives two different ids. */
  lemma NumberedIdsDiffer(prefix: string, a: nat, b: nat)
    requires a != b
    ensures prefix + NatToString(a) != prefix + NatToString(b)
  {
    assert (prefix + NatToString(a))[|prefix|..] == NatToString(a);
    assert (prefix + NatToString(b))[|prefix|..] == NatToString(b);
  }

  /** No two entities of one lane share an id. */
  lemma {:induction false} CreateEntityRowIdsDistinct(kind: Entity, spacing: real, n: nat, y: real)
    ensures forall i, j :: 0 <= i < j < n ==>
      CreateEntityRow(kind, spacing, n, y)[i].id != CreateEntityRow(kind, spacing, n, y)[j].id
  {
    var r := CreateEntityRow(kind, spacing, n, y);
    CreateEntityRowSpec(kind, spacing, n, y);
    forall i, j | 0 <= i < j < n
      ensures r[i].id != r[j].id
    {
      NumberedIdsDiffer(kind.id, n - i, n - j);
    }
  }
}
