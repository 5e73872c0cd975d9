/** Value types shared by the gameplay modules: optional values, entity ids,
    2D vectors over the reals and rigid-body velocities. */
module Geometry {

  datatype Option<T> = None | Some(value: T)

  /** An entity of the component store, identified by its id (generations are not modelled). */
  type Entity = nat

  /** A 2D vector; the source's f32/f64 vectors are modelled over the reals. */
  datatype Vec2 = Vec2(x: real, y: real)

  const Zero: Vec2 := Vec2(0.0, 0.0)

  function Add(a: Vec2, b: Vec2): Vec2 { Vec2(a.x + b.x, a.y + b.y) }

  function Sub(a: Vec2, b: Vec2): Vec2 { Vec2(a.x - b.x, a.y - b.y) }

  function Scale(k: real, a: Vec2): Vec2 { Vec2(k * a.x, k * a.y) }

  function Neg(a: Vec2): Vec2 { Vec2(-a.x, -a.y) }

  function Dot(a: Vec2, b: Vec2): real { a.x * b.x + a.y * b.y }

  function Abs(r: real): real { if r < 0.0 then -r else r }

  /** A rigid-body velocity: a linear part and an angular part. */
  datatype Velocity = Velocity(linear: Vec2, angular: real)

  /** The four axis-aligned unit vectors. */
  predicate IsAxisUnit(n: Vec2)
  {
    n == Vec2(1.0, 0.0) || n == Vec2(-1.0, 0.0) || n == Vec2(0.0, 1.0) || n == Vec2(0.0, -1.0)
  }

  /** True when the sequence of ids is strictly increasing (the order of a bitset join). */
  predicate Increasing(s: seq<nat>)
  {
    forall i, j :: 0 <= i < j < |s| ==> s[i] < s[j]
  }

  /** One turn of a walk over a set: moving `x` from the part still to visit to
      the part visited. */
  lemma VisitOne<T>(all: set<T>, todo: set<T>, x: T)
    requires x in todo && x in all
    ensures all - (todo - {x}) == (all - todo) + {x}
  {
  }
}
