/** The per-hand position and visibility snapshot (`app/lib/handstate.ts`). */
module HandState {
  import opened ThreeMath

  datatype HandPoint = HandPoint(position: Vec3, visible: bool)

  datatype Hands = Hands(left: HandPoint, right: HandPoint)

  /** Both hands start at the origin and hidden. */
  const InitialHands: Hands :=
    Hands(HandPoint(Vec3(0.0, 0.0, 0.0), false), HandPoint(Vec3(0.0, 0.0, 0.0), false))
}
