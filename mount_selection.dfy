/** The mount choice of PadPlacement: which collider counts as a mount, and the
    nearest-mount search run when a pad is released. The physics query that yields the
    nearby colliders is replaced by a given list of candidates with their distances. */
module MountSelection {
  import opened Wrappers

  /** A scene object the pad can touch: its name and its tag. */
  datatype MountObject = MountObject(name: string, tag: string)

  /** A collider returned by the overlap query, with its distance from the pad. */
  datatype Candidate = Candidate(mount: MountObject, distance: real)

  /** Ordinal substring test (`string.Contains`). */
  predicate Contains(s: string, sub: string)
  {
    if |sub| > |s| then false else s[..|sub|] == sub || Contains(s[1..], sub)
  }

  /** An object is a mount when it is tagged "Mount" or its name contains "Mount_". */
  predicate IsMountLike(obj: MountObject)
  {
    obj.tag == "Mount" || Contains(obj.name, "Mount_")
  }

  /** A candidate the search can pick: a mount strictly closer than the snap distance. */
  predicate Eligible(c: Candidate, snapDistance: real)
  {
    IsMountLike(c.mount) && c.distance < snapDistance
  }

  /** Candidate `i` is the one the search keeps: eligible, strictly closer than every
      eligible candidate before it (a tie does not replace the current choice) and no
      farther than every eligible candidate after it. */
  predicate IsNearest(cands: seq<Candidate>, snapDistance: real, i: int)
  {
    0 <= i < |cands| && Eligible(cands[i], snapDistance) &&
    (forall j :: 0 <= j < i && Eligible(cands[j], snapDistance) ==> cands[j].distance > cands[i].distance) &&
    (forall j :: i < j < |cands| && Eligible(cands[j], snapDistance) ==> cands[j].distance >= cands[i].distance)
  }

  /** At most one candidate is the nearest, so the search's choice is determined. */
  lemma NearestIsUnique(cands: seq<Candidate>, snapDistance: real, i: int, j: int)
    requires IsNearest(cands, snapDistance, i) && IsNearest(cands, snapDistance, j)
    ensures i == j
  {
  }

  /** The loop of `TrySnapToNearestMount`: scans the candidates keeping the nearest
      distance seen (starting at the snap distance) and the object that achieved it. */
  method SelectNearest(cands: seq<Candidate>, snapDistance: real) returns (nearest: Option<nat>)
    ensures nearest.None? <==> forall i :: 0 <= i < |cands| ==> !Eligible(cands[i], snapDistance)
    ensures nearest.Some? ==> IsNearest(cands, snapDistance, nearest.value)
  {
    var nearestDistance := snapDistance;
    nearest := None;
    for i := 0 to |cands|
      invariant nearest.None? ==> nearestDistance == snapDistance
      invariant nearest.None? ==> forall j :: 0 <= j < i ==> !Eligible(cands[j], snapDistance)
      invariant nearest.Some? ==> nearest.value < i && nearestDistance == cands[nearest.value].distance
      invariant nearest.Some? ==> Eligible(cands[nearest.value], snapDistance)
      invariant nearest.Some? ==> forall j :: 0 <= j < nearest.value && Eligible(cands[j], snapDistance) ==>
                                    cands[j].distance > nearestDistance
      invariant nearest.Some? ==> forall j :: nearest.value < j < i && Eligible(cands[j], snapDistance) ==>
                                    cands[j].distance >= nearestDistance
    {
      var col := cands[i];
      if IsMountLike(col.mount) {
        var dist := col.distance;
        if dist < nearestDistance {
          nearestDistance := dist;
          nearest := Some(i);
        }
      }
    }
  }
}
