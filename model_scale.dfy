/** The shared model-scale record (`app/lib/modelScale.ts`): the loaded cloud's bounding-box
    size, its largest dimension and the scale factor derived from it. The library's bounding
    box computation is abstracted to its outcome: the box size, or nothing when the geometry
    has no box. */
module ModelScale {
  import opened ThreeMath
  import opened Wrappers

  datatype ScaleState = ScaleState(size: Vec3, maxDimension: real, scaleFactor: real)

  /** A unit cube until a geometry is measured. */
  const Initial: ScaleState := ScaleState(Vec3(1.0, 1.0, 1.0), 1.0, 1.0)

  /** The record's invariant: the largest dimension is that of the stored size, and the
      scale factor equals it. */
  predicate Consistent(s: ScaleState) {
    s.maxDimension == Max3(s.size.x, s.size.y, s.size.z) && s.scaleFactor == s.maxDimension
  }

  /** `setFromGeometry`, given the size of the geometry's bounding box if it has one. */
  function Update(s: ScaleState, box: Option<Vec3>): (r: ScaleState)
    ensures box.None? ==> r == s
    ensures box.Some? ==> r.size == box.value && Consistent(r)
  {
    match box
    case None => s
    case Some(size) =>
      var maxDimension := Max3(size.x, size.y, size.z);
      ScaleState(size, maxDimension, maxDimension)
  }

  /** The largest dimension bounds every side of the box and is one of them. */
  lemma MaxDimensionIsLargestSide(s: ScaleState, size: Vec3)
    ensures var r := Update(s, Some(size));
      && size.x <= r.maxDimension && size.y <= r.maxDimension && size.z <= r.maxDimension
      && (r.maxDimension == size.x || r.maxDimension == size.y || r.maxDimension == size.z)
      && r.scaleFactor == r.maxDimension
  {
  }

  lemma InitialConsistent()
    ensures Consistent(Initial)
  {
  }

  /** Every update keeps the record consistent. */
  lemma UpdatePreservesConsistent(s: ScaleState, box: Option<Vec3>)
    requires Consistent(s)
    ensures Consistent(Update(s, box))
  {
  }

  /** Measuring the same box twice leaves the record as measuring it once. */
  lemma UpdateIdempotent(s: ScaleState, box: Option<Vec3>)
    ensures Update(Update(s, box), box) == Update(s, box)
  {
  }

  /** The outcome of an update with a box does not depend on the record before it. */
  lemma UpdateForgetsPast(s: ScaleState, s': ScaleState, size: Vec3)
    ensures Update(s, Some(size)) == Update(s', Some(size))
  {
  }

  class ModelScaleRecord {
    var size: Vec3
    var maxDimension: real
    var scaleFactor: real

    function State(): ScaleState
      reads this
    {
      ScaleState(size, maxDimension, scaleFactor)
    }

    predicate Valid()
      reads this
    {
      Consistent(State())
    }

    constructor ()
      ensures Valid() && State() == Initial
    {
      size := Vec3(1.0, 1.0, 1.0);
      maxDimension := 1.0;
      scaleFactor := 1.0;
    }

    /** `setFromGeometry(geometry)`, with the geometry reduced to its bounding-box size. */
    method SetFromGeometry(box: Option<Vec3>)
      requires Valid()
      modifies this
      ensures Valid()
      ensures box.None? ==> unchanged(this)
      ensures box.Some? ==> size == box.value && maxDimension == Max3(size.x, size.y, size.z)
      ensures scaleFactor == maxDimension
      ensures State() == Update(old(State()), box)
    {
      if box.Some? {
        size := box.value;
        maxDimension := Max3(size.x, size.y, size.z);
        scaleFactor := maxDimension;
      }
    }
  }
}
