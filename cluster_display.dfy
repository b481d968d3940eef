/** The display radius of a cluster: the `r` attribute computed in `renderClusters`. */
module ClusterDisplay {
  import opened Base
  import opened ClusterSpec

  /** The radius of a one-member cluster, and the buffer added around the farthest member. */
  const PointRadius: real := 10.0

  /** A one-member cluster gets the fixed radius; any other gets the largest
      centroid-to-member distance (starting from 0) plus the buffer. Every member is
      re-projected, so every member must have a projection, as every member of a
      cluster `calculateClusters` returns does (ClusterSpec.ClustersCover). */
  method ClusterRadius(d: Cluster, proj: seq<Option<Coord>>, dist: Distance) returns (r: real)
    requires forall j :: j in d.members ==> j < |proj| && proj[j].Some?
    ensures |d.members| == 1 ==> r == PointRadius
    ensures r >= PointRadius
    ensures |d.members| != 1 ==> forall j :: j in d.members ==> r >= dist(d.centroid, proj[j].value) + PointRadius
    ensures |d.members| != 1 ==>
      r == PointRadius || exists j :: j in d.members && r == dist(d.centroid, proj[j].value) + PointRadius
  {
    if |d.members| == 1 {
      return PointRadius;
    }
    assert forall m :: 0 <= m < |d.members| ==> d.members[m] in d.members;
    var maxDistance := 0.0;
    for k := 0 to |d.members|
      invariant maxDistance >= 0.0
      invariant forall m :: 0 <= m < k ==> maxDistance >= dist(d.centroid, proj[d.members[m]].value)
      invariant maxDistance == 0.0 || exists m :: 0 <= m < k && maxDistance == dist(d.centroid, proj[d.members[m]].value)
    {
      assert d.members[k] in d.members;
      var projected := proj[d.members[k]].value;
      var distance := dist(d.centroid, projected);
      maxDistance := if maxDistance >= distance then maxDistance else distance;
    }
    r := maxDistance + PointRadius;
    forall j | j in d.members ensures r >= dist(d.centroid, proj[j].value) + PointRadius {
      var m :| 0 <= m < |d.members| && d.members[m] == j;
    }
  }
}
