/** Axis-aligned rectangle overlap between the car and the obstacles. */
module Collision {
  import opened Config
  import opened Obstacles

  /** A rectangle by its top-left corner, width and height. */
  datatype Rect = Rect(x: real, y: real, w: real, h: real)

  /** Open-interval overlap on both axes: rectangles that only share an edge do not overlap. */
  predicate Overlaps(a: Rect, b: Rect) {
    a.x < b.x + b.w && b.x < a.x + a.w && a.y < b.y + b.h && b.y < a.y + a.h
  }

  function CarRect(carX: int, carY: int): Rect {
    Rect(carX as real, carY as real, CAR_WIDTH_PX as real, CAR_HEIGHT_PX as real)
  }

  function ObstacleRect(o: Obstacle): Rect {
    Rect(o.x as real, o.y, OBSTACLE_WIDTH_PX as real, OBSTACLE_HEIGHT_PX as real)
  }

  /** The car at (carX, carY) hits some obstacle of `os`. */
  predicate Collides(carX: int, carY: int, os: seq<Obstacle>) {
    exists k :: 0 <= k < |os| && Overlaps(CarRect(carX, carY), ObstacleRect(os[k]))
  }

  lemma OverlapsSymmetric(a: Rect, b: Rect)
    ensures Overlaps(a, b) <==> Overlaps(b, a)
  {
  }

  /** Rectangles that touch along an edge, or lie further apart, do not overlap. */
  lemma TouchingDoNotOverlap(a: Rect, b: Rect)
    requires a.x + a.w <= b.x || b.x + b.w <= a.x || a.y + a.h <= b.y || b.y + b.h <= a.y
    ensures !Overlaps(a, b)
  {
  }

  /** An obstacle directly beside the car, sharing its left or right edge, is no hit. */
  lemma SideBySideIsNoHit(carX: int, carY: int, o: Obstacle)
    requires o.x + OBSTACLE_WIDTH_PX == carX || carX + CAR_WIDTH_PX == o.x
    ensures !Collides(carX, carY, [o])
  {
    TouchingDoNotOverlap(CarRect(carX, carY), ObstacleRect(o));
  }
}
