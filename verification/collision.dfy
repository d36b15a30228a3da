/** The overlap test between the frog and any entity or zone. Targets whose id
    begins with "log" are platforms and use a stricter rule: the frog counts as
    on a log only when its horizontal centre lies over the log. */
module Collision {
  import opened Entities

  /** The first three characters of id (fewer when id is shorter) spell "log". */
  predicate IsLogId(id: string) {
    id[..if |id| < 3 then |id| else 3] == "log"
  }

  /** The overlap test of the game. Boxes that only touch overlap. */
  function IsColliding(frog: Entity, target: Zone): bool {
    var frogRight := frog.x + frog.width;
    var frogBottom := frog.y + frog.height;
    var targetRight := target.x + target.width;
    var targetBottom := target.y + target.height;
    if IsLogId(target.id) then
      !(frog.x + frog.width / 2.0 < target.x
        || frog.x + frog.width / 2.0 > targetRight
        || frogBottom < target.y
        || frog.y > targetBottom)
    else
      !(frogRight < target.x
        || frog.x > targetRight
        || frogBottom < target.y
        || frog.y > targetBottom)
  }

  /** The horizontal centre of an entity. */
  function CentreX(e: Entity): real {
    e.x + e.width / 2.0
  }

  /** The point (px, py) lies in the closed rectangle z. */
  predicate InZone(px: real, py: real, z: Zone) {
    z.x <= px <= z.x + z.width && z.y <= py <= z.y + z.height
  }

  /** For a target that is not a log, the frog collides with it exactly when
      the two closed rectangles share a point. */
  lemma BoxRuleIsSharedPoint(frog: Entity, target: Zone)
    requires !IsLogId(target.id)
    requires 0.0 <= frog.width && 0.0 <= frog.height && 0.0 <= target.width && 0.0 <= target.height
    ensures IsColliding(frog, target) <==> exists px, py :: InZone(px, py, frog.Area()) && InZone(px, py, target)
  {
    if IsColliding(frog, target) {
      var px, py := MaxReal(frog.x, target.x), MaxReal(frog.y, target.y);
      assert InZone(px, py, frog.Area()) && InZone(px, py, target);
    }
  }

  /** For a log, the frog collides with it exactly when the frog's vertical
      centre line meets the log's rectangle within the frog's own height. */
  lemma LogRuleIsCentreOverLog(frog: Entity, target: Zone)
    requires IsLogId(target.id)
    requires 0.0 <= frog.width && 0.0 <= frog.height && 0.0 <= target.height
    ensures IsColliding(frog, target) <==>
      exists py :: InZone(CentreX(frog), py, frog.Area()) && InZone(CentreX(frog), py, target)
  {
    if IsColliding(frog, target) {
      var py := MaxReal(frog.y, target.y);
      assert InZone(CentreX(frog), py, frog.Area()) && InZone(CentreX(frog), py, target);
    }
  }

  /** The box rule does not depend on which of two non-log entities is the frog. */
  lemma BoxRuleSymmetric(a: Entity, b: Entity)
    requires !IsLogId(a.id) && !IsLogId(b.id)
    ensures IsColliding(a, b.Area()) == IsColliding(b, a.Area())
  {
  }

  /** The log rule does depend on it: of two logs at the same place, the
      narrow one's centre lies over the wide one, but not the other way round. */
  lemma LogRuleAsymmetric()
    ensures var narrow := Log.(id := "log1");
            var wide := LogRow1.(id := "logRow11");
            IsColliding(narrow, wide.Area()) && !IsColliding(wide, narrow.Area())
  {
  }

  /** Touching edges count: a box flush against the frog's right edge collides. */
  lemma TouchingBoxesCollide(frog: Entity, target: Zone)
    requires !IsLogId(target.id)
    requires 0.0 <= frog.width && 0.0 <= frog.height && 0.0 <= target.width && 0.0 <= target.height
    requires target.x == frog.x + frog.width && target.y == frog.y
    ensures IsColliding(frog, target)
  {
  }
}
