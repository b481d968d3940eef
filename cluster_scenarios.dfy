/** Concrete and all-inputs consequences of the clustering rule that show how it
    behaves at its edges: the size term of the absorption radius, and the scans
    without early exit. */
module ClusterScenarios {
  import opened Base
  import opened ClusterSpec

  /** Whatever the zoom below the disabling scale and whatever the distance, two
      projectable points closer than 11 units end up in one cluster: the absorption
      radius of a one-member cluster is never below 10 + 1. */
  lemma {:induction false} CloseTwoPointsAlwaysCluster(p0: Coord, p1: Coord, scale: Scale, dist: Distance)
    requires scale < DisableScale
    requires dist(p0, p1) < MinRadius + 1.0
    ensures Clusters([Some(p0), Some(p1)], scale, dist) == [Cluster(Blend(p0, p1, 2), [0, 1])]
  {
    var proj := [Some(p0), Some(p1)];
    var c0 := Cluster(p0, [0]);
    assert AssignUpTo(proj, 0, scale, dist) == [];
    assert !AnyAbsorbs([], p0, scale, dist);
    assert AssignUpTo(proj, 1, scale, dist) == [c0];
    assert Absorbs([c0][0], p1, scale, dist);
    var c := Visit(c0, 1, p1, scale, dist);
    assert AssignPoint([c0], 1, p1, scale, dist) == [c];
    assert AssignUpTo(proj, 2, scale, dist) == [c];
    assert Provisional(proj, scale, dist) == [c];
    assert MergeUpTo([c], 0, scale, dist) == [];
    assert !AnyReaches([], c, scale, dist);
    assert MergeUpTo([c], 1, scale, dist) == [c];
    assert [0] + [1] == [0, 1];
    assert c == Cluster(Blend(p0, p1, 2), [0, 1]);
    assert Clusters(proj, scale, dist) == MergeUpTo([c], 1, scale, dist);
  }

  function AbsDiff(u: real, v: real): real {
    if u >= v then u - v else v - u
  }

  /** The scenarios below place every point on the x-axis, where every centroid stays
      too. There the Euclidean distance of D3Map.jsx:119 and 147 is |x1 - x2|, so a
      scenario proved for every distance with this property holds for the source's. */
  ghost predicate ExactOnXAxis(dist: Distance) {
    forall a: Coord, b: Coord :: a.y == 0.0 && b.y == 0.0 ==> dist(a, b) == AbsDiff(a.x, b.x)
  }

  /** The points at x = 0, 60, 30 on one line, used by PointJoinsEveryClusterInRange. */
  function JoinProbe(): seq<Option<Coord>> {
    [Some(Coord(0.0, 0.0)), Some(Coord(60.0, 0.0)), Some(Coord(30.0, 0.0))]
  }

  /** At zoom 1 point 1 is 60 from point 0, beyond 50, and point 2 is 30 from both,
      so it joins both provisional clusters. */
  lemma JoinProbeProvisional(dist: Distance)
    requires ExactOnXAxis(dist)
    ensures Provisional(JoinProbe(), 1.0, dist) == [Cluster(Coord(10.0, 0.0), [0, 2]), Cluster(Coord(50.0, 0.0), [1, 2])]
  {
    var proj := JoinProbe();
    var c0 := Cluster(Coord(0.0, 0.0), [0]);
    var c1 := Cluster(Coord(60.0, 0.0), [1]);
    assert dist(Coord(0.0, 0.0), Coord(60.0, 0.0)) == 60.0;
    assert dist(Coord(0.0, 0.0), Coord(30.0, 0.0)) == 30.0;
    assert dist(Coord(60.0, 0.0), Coord(30.0, 0.0)) == 30.0;
    assert AssignUpTo(proj, 1, 1.0, dist) == [c0];
    assert !Absorbs(c0, Coord(60.0, 0.0), 1.0, dist);
    assert !AnyAbsorbs([c0], Coord(60.0, 0.0), 1.0, dist);
    assert AssignUpTo(proj, 2, 1.0, dist) == [c0, c1];
    assert Absorbs([c0, c1][0], Coord(30.0, 0.0), 1.0, dist);
    assert Absorbs([c0, c1][1], Coord(30.0, 0.0), 1.0, dist);
    var d0 := Cluster(Coord(10.0, 0.0), [0, 2]);
    var d1 := Cluster(Coord(50.0, 0.0), [1, 2]);
    assert Visit(c0, 2, Coord(30.0, 0.0), 1.0, dist) == d0;
    assert Visit(c1, 2, Coord(30.0, 0.0), 1.0, dist) == d1;
    assert AssignPoint([c0, c1], 2, Coord(30.0, 0.0), 1.0, dist) == [d0, d1];
  }

  /** No early exit: with points at x = 0, 60, 30 on one line at zoom 1, the third point
      joins BOTH provisional clusters, and the merge pass then concatenates them, so
      the single returned cluster lists that point twice. */
  lemma PointJoinsEveryClusterInRange(dist: Distance)
    requires ExactOnXAxis(dist)
    ensures Provisional(JoinProbe(), 1.0, dist) == [Cluster(Coord(10.0, 0.0), [0, 2]), Cluster(Coord(50.0, 0.0), [1, 2])]
    ensures Clusters(JoinProbe(), 1.0, dist) == [Cluster(Coord(18.0, 0.0), [0, 2, 1, 2])]
  {
    var d0 := Cluster(Coord(10.0, 0.0), [0, 2]);
    var d1 := Cluster(Coord(50.0, 0.0), [1, 2]);
    JoinProbeProvisional(dist);
    var ps := Provisional(JoinProbe(), 1.0, dist);
    assert dist(Coord(10.0, 0.0), Coord(50.0, 0.0)) == 40.0;
    assert MergeUpTo(ps, 1, 1.0, dist) == [d0];
    assert Reaches([d0][0], d1, 1.0, dist);
    assert MergeOne([d0], d1, 1.0, dist) == [Receive(d0, d1, 1.0, dist)];
    assert Receive(d0, d1, 1.0, dist) == Cluster(Coord(18.0, 0.0), [0, 2, 1, 2]);
  }

  /** The floor of 11 holds between a point and a one-member cluster only: once a
      cluster has absorbed a point its centroid has moved. With points at x = 0, 10.5
      and 20 on one line at zoom 5, point 1 joins point 0 and pulls the centroid to
      3.5, so point 2, only 9.5 from point 1, is out of the size-2 radius of 12 and
      ends in a cluster of its own. */
  lemma CloseNeighboursCanEndApart(dist: Distance)
    requires ExactOnXAxis(dist)
    ensures var proj := [Some(Coord(0.0, 0.0)), Some(Coord(10.5, 0.0)), Some(Coord(20.0, 0.0))];
      && dist(Coord(10.5, 0.0), Coord(20.0, 0.0)) < MinRadius + 1.0
      && Clusters(proj, 5.0, dist) == [Cluster(Coord(3.5, 0.0), [0, 1]), Cluster(Coord(20.0, 0.0), [2])]
  {
    var proj := [Some(Coord(0.0, 0.0)), Some(Coord(10.5, 0.0)), Some(Coord(20.0, 0.0))];
    var c0 := Cluster(Coord(0.0, 0.0), [0]);
    assert dist(Coord(0.0, 0.0), Coord(10.5, 0.0)) == 10.5;
    assert dist(Coord(3.5, 0.0), Coord(20.0, 0.0)) == 16.5;
    assert AssignUpTo(proj, 1, 5.0, dist) == [c0];
    assert Absorbs([c0][0], Coord(10.5, 0.0), 5.0, dist);
    var d0 := Cluster(Coord(3.5, 0.0), [0, 1]);
    assert Visit(c0, 1, Coord(10.5, 0.0), 5.0, dist) == d0;
    assert AssignPoint([c0], 1, Coord(10.5, 0.0), 5.0, dist) == [d0];
    assert AssignUpTo(proj, 2, 5.0, dist) == [d0];
    assert !Absorbs(d0, Coord(20.0, 0.0), 5.0, dist);
    assert !AnyAbsorbs([d0], Coord(20.0, 0.0), 5.0, dist);
    var d1 := Cluster(Coord(20.0, 0.0), [2]);
    var ps := AssignUpTo(proj, 3, 5.0, dist);
    assert ps == [d0, d1];
    assert MergeUpTo(ps, 1, 5.0, dist) == [d0];
    assert !Reaches(d0, d1, 5.0, dist);
    assert !AnyReaches([d0], d1, 5.0, dist);
    assert MergeUpTo(ps, 2, 5.0, dist) == [d0, d1];
  }

  /** The points at x = 0, 17, 31, 6 on one line, used by FewerClustersAtHigherZoom. */
  function ZoomProbe(): seq<Option<Coord>> {
    [Some(Coord(0.0, 0.0)), Some(Coord(17.0, 0.0)), Some(Coord(31.0, 0.0)), Some(Coord(6.0, 0.0))]
  }

  /** At zoom 2, point 1 joins point 0 and pulls the centroid to 17/3, which leaves
      point 2 just outside the radius of 25; point 3 then joins the first cluster, whose
      centroid 5.75 is 25.25 from point 2, so the merge pass keeps both. */
  lemma ZoomProbeAtTwo(dist: Distance)
    requires ExactOnXAxis(dist)
    ensures Clusters(ZoomProbe(), 2.0, dist) == [Cluster(Coord(5.75, 0.0), [0, 1, 3]), Cluster(Coord(31.0, 0.0), [2])]
  {
    var proj := ZoomProbe();
    var c0 := Cluster(Coord(0.0, 0.0), [0]);
    assert dist(Coord(0.0, 0.0), Coord(17.0, 0.0)) == 17.0;
    assert dist(Coord(17.0 / 3.0, 0.0), Coord(31.0, 0.0)) == 76.0 / 3.0;
    assert dist(Coord(17.0 / 3.0, 0.0), Coord(6.0, 0.0)) == 1.0 / 3.0;
    assert dist(Coord(31.0, 0.0), Coord(6.0, 0.0)) == 25.0;
    assert dist(Coord(5.75, 0.0), Coord(31.0, 0.0)) == 25.25;
    assert AssignUpTo(proj, 1, 2.0, dist) == [c0];
    assert Absorbs([c0][0], Coord(17.0, 0.0), 2.0, dist);
    var a := Cluster(Coord(17.0 / 3.0, 0.0), [0, 1]);
    assert Visit(c0, 1, Coord(17.0, 0.0), 2.0, dist) == a;
    assert AssignPoint([c0], 1, Coord(17.0, 0.0), 2.0, dist) == [a];
    assert AssignUpTo(proj, 2, 2.0, dist) == [a];
    assert !Absorbs(a, Coord(31.0, 0.0), 2.0, dist);
    assert !AnyAbsorbs([a], Coord(31.0, 0.0), 2.0, dist);
    var b := Cluster(Coord(31.0, 0.0), [2]);
    assert AssignUpTo(proj, 3, 2.0, dist) == [a, b];
    assert Absorbs([a, b][0], Coord(6.0, 0.0), 2.0, dist);
    assert !Absorbs(b, Coord(6.0, 0.0), 2.0, dist);
    var a' := Cluster(Coord(5.75, 0.0), [0, 1, 3]);
    assert Visit(a, 3, Coord(6.0, 0.0), 2.0, dist) == a';
    assert Visit(b, 3, Coord(6.0, 0.0), 2.0, dist) == b;
    assert AssignPoint([a, b], 3, Coord(6.0, 0.0), 2.0, dist) == [a', b];
    var ps := AssignUpTo(proj, 4, 2.0, dist);
    assert ps == [a', b];
    assert MergeUpTo(ps, 1, 2.0, dist) == [a'];
    assert !Reaches(a', b, 2.0, dist);
    assert !AnyReaches([a'], b, 2.0, dist);
    assert MergeUpTo(ps, 2, 2.0, dist) == [a', b];
  }

  /** At zoom 3 the first three points give [0] at 0 and [1, 2] at 65/3: point 1 is 17
      from point 0, beyond 50/3, and point 2 is 14 from point 1. */
  lemma ZoomProbeAtThreeFirstPoints(dist: Distance)
    requires ExactOnXAxis(dist)
    ensures AssignUpTo(ZoomProbe(), 3, 3.0, dist) == [Cluster(Coord(0.0, 0.0), [0]), Cluster(Coord(65.0 / 3.0, 0.0), [1, 2])]
  {
    var proj := ZoomProbe();
    var c0 := Cluster(Coord(0.0, 0.0), [0]);
    var c1 := Cluster(Coord(17.0, 0.0), [1]);
    assert dist(Coord(0.0, 0.0), Coord(17.0, 0.0)) == 17.0;
    assert dist(Coord(0.0, 0.0), Coord(31.0, 0.0)) == 31.0;
    assert dist(Coord(17.0, 0.0), Coord(31.0, 0.0)) == 14.0;
    assert AssignUpTo(proj, 1, 3.0, dist) == [c0];
    assert !Absorbs(c0, Coord(17.0, 0.0), 3.0, dist);
    assert !AnyAbsorbs([c0], Coord(17.0, 0.0), 3.0, dist);
    assert AssignUpTo(proj, 2, 3.0, dist) == [c0, c1];
    assert Absorbs([c0, c1][1], Coord(31.0, 0.0), 3.0, dist);
    assert !Absorbs(c0, Coord(31.0, 0.0), 3.0, dist);
    var b := Cluster(Coord(65.0 / 3.0, 0.0), [1, 2]);
    assert Visit(c0, 2, Coord(31.0, 0.0), 3.0, dist) == c0;
    assert Visit(c1, 2, Coord(31.0, 0.0), 3.0, dist) == b;
    assert AssignPoint([c0, c1], 2, Coord(31.0, 0.0), 3.0, dist) == [c0, b];
  }

  /** At zoom 3, point 1 stays apart from point 0 and takes point 2; point 3 then joins
      BOTH provisional clusters, whose centroids 2 and 17.75 are close enough to merge. */
  lemma ZoomProbeAtThree(dist: Distance)
    requires ExactOnXAxis(dist)
    ensures Clusters(ZoomProbe(), 3.0, dist) == [Cluster(Coord(4.625, 0.0), [0, 3, 1, 2, 3])]
  {
    var proj := ZoomProbe();
    var c0 := Cluster(Coord(0.0, 0.0), [0]);
    var b := Cluster(Coord(65.0 / 3.0, 0.0), [1, 2]);
    ZoomProbeAtThreeFirstPoints(dist);
    assert dist(Coord(0.0, 0.0), Coord(6.0, 0.0)) == 6.0;
    assert dist(Coord(65.0 / 3.0, 0.0), Coord(6.0, 0.0)) == 47.0 / 3.0;
    assert Absorbs([c0, b][0], Coord(6.0, 0.0), 3.0, dist);
    assert Absorbs(b, Coord(6.0, 0.0), 3.0, dist);
    var d0 := Cluster(Coord(2.0, 0.0), [0, 3]);
    var d1 := Cluster(Coord(17.75, 0.0), [1, 2, 3]);
    assert Visit(c0, 3, Coord(6.0, 0.0), 3.0, dist) == d0;
    assert Visit(b, 3, Coord(6.0, 0.0), 3.0, dist) == d1;
    assert AssignPoint([c0, b], 3, Coord(6.0, 0.0), 3.0, dist) == [d0, d1];
    var ps := AssignUpTo(proj, 4, 3.0, dist);
    assert ps == [d0, d1];
    assert MergeUpTo(ps, 1, 3.0, dist) == [d0];
    assert dist(Coord(2.0, 0.0), Coord(17.75, 0.0)) == 15.75;
    assert Reaches([d0][0], d1, 3.0, dist);
    assert MergeOne([d0], d1, 3.0, dist) == [Receive(d0, d1, 3.0, dist)];
    assert Receive(d0, d1, 3.0, dist) == Cluster(Coord(4.625, 0.0), [0, 3, 1, 2, 3]);
  }

  /** The shrinking threshold `baseRadius / scale` does not make the cluster count grow
      with the zoom: for the points at x = 0, 17, 31, 6, zooming in from 2 to 3 turns two
      clusters into one. */
  lemma FewerClustersAtHigherZoom(dist: Distance)
    requires ExactOnXAxis(dist)
    ensures |Clusters(ZoomProbe(), 2.0, dist)| == 2
    ensures |Clusters(ZoomProbe(), 3.0, dist)| == 1
  {
    ZoomProbeAtTwo(dist);
    ZoomProbeAtThree(dist);
  }
}
