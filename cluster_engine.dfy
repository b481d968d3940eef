/** `calculateClusters` as the source runs it: resetting the `clustered` flag of
    every point, the nested scans of the assignment and merge passes, and the
    in-place marking of flags. The flags are an array indexed by point; the
    cluster lists are local sequences the loops reassign. The pass bodies and the
    whole computation are proved equal to the functions of ClusterSpec. */
module ClusterEngine {
  import opened Base
  import opened ClusterSpec

  /** Sets the flag of every listed point (`points.forEach(p => p.clustered = true)`). */
  method MarkAll(points: seq<nat>, clustered: array<bool>)
    requires forall j :: j in points ==> j < clustered.Length
    modifies clustered
    ensures forall j :: 0 <= j < clustered.Length ==> clustered[j] == (old(clustered[j]) || j in points)
  {
    for k := 0 to |points|
      invariant forall j :: 0 <= j < clustered.Length ==> clustered[j] == (old(clustered[j]) || j in points[..k])
    {
      assert points[..k + 1] == points[..k] + [points[k]];
      assert points[k] in points;
      clustered[points[k]] := true;
    }
    assert points[..|points|] == points;
  }

  /** Cluster k takes point i: its lone member, if it had one, and the point are
      flagged, the point is pushed, and the centroid moves with the post-push count. */
  method TakePoint(cs: seq<Cluster>, k: nat, i: nat, projected: Coord, clustered: array<bool>)
    returns (next: seq<Cluster>)
    requires k < |cs| && i < clustered.Length && WellFormed(cs, clustered.Length)
    requires forall j :: 0 <= j < clustered.Length ==> (clustered[j] <==> InMulti(cs, j))
    modifies clustered
    ensures next == cs[k := Cluster(Blend(cs[k].centroid, projected, |cs[k].members| + 1), cs[k].members + [i])]
    ensures WellFormed(next, clustered.Length)
    ensures forall j :: 0 <= j < clustered.Length ==> (clustered[j] <==> InMulti(next, j))
    ensures forall j :: 0 <= j < clustered.Length && old(clustered[j]) ==> clustered[j]
  {
    var cluster := cs[k];
    if |cluster.members| == 1 {
      assert cluster.members[0] in cluster.members;
      assert cluster.members == [cluster.members[0]];
      clustered[cluster.members[0]] := true;
    } else {
      forall j | j in cluster.members ensures InMulti(cs, j) {
        assert |cs[k].members| > 1 && j in cs[k].members;
      }
    }
    var members := cluster.members + [i];
    var grown := Cluster(Blend(cluster.centroid, projected, |members|), members);
    forall j | 0 <= j < clustered.Length
      ensures InMulti(cs[k := grown], j) <==> InMulti(cs, j) || j in members
    {
      InMultiReplace(cs, k, grown, j);
    }
    next := cs[k := grown];
    clustered[i] := true;
    forall j | 0 <= j < clustered.Length ensures clustered[j] <==> InMulti(next, j) {
      assert clustered[j] <==> old(clustered[j]) || j == i || (|cluster.members| == 1 && j == cluster.members[0]);
      assert j in members <==> j in cluster.members || j == i;
    }
  }

  /** The assignment-pass body for point `i` projected at `projected`: scan every
      provisional cluster; each one in range takes the point (marking its lone member
      if it had one) and moves its centroid; with no taker the point starts a cluster.
      The flags keep matching "member of a multi-member cluster". */
  method AddPoint(clusters: seq<Cluster>, i: nat, projected: Coord, scale: Scale, dist: Distance, clustered: array<bool>)
    returns (next: seq<Cluster>)
    requires i < clustered.Length && WellFormed(clusters, clustered.Length)
    requires forall j :: 0 <= j < clustered.Length ==> (clustered[j] <==> InMulti(clusters, j))
    modifies clustered
    ensures next == AssignPoint(clusters, i, projected, scale, dist)
    ensures |next| == if AnyAbsorbs(clusters, projected, scale, dist) then |clusters| else |clusters| + 1
    ensures forall k :: 0 <= k < |clusters| && Absorbs(clusters[k], projected, scale, dist) ==>
      next[k].members == clusters[k].members + [i]
      && next[k].centroid == Blend(clusters[k].centroid, projected, |clusters[k].members| + 1)
    ensures forall k :: 0 <= k < |clusters| && !Absorbs(clusters[k], projected, scale, dist) ==> next[k] == clusters[k]
    ensures !AnyAbsorbs(clusters, projected, scale, dist) ==> next[|clusters|] == Cluster(projected, [i])
    ensures WellFormed(next, clustered.Length)
    ensures forall j :: 0 <= j < clustered.Length ==> (clustered[j] <==> InMulti(next, j))
    ensures forall j :: 0 <= j < clustered.Length && old(clustered[j]) ==> clustered[j]
  {
    next := clusters;
    var added := false;
    for k := 0 to |clusters|
      invariant |next| == |clusters|
      invariant forall m :: 0 <= m < k ==> next[m] == Visit(clusters[m], i, projected, scale, dist)
      invariant forall m :: k <= m < |clusters| ==> next[m] == clusters[m]
      invariant added <==> exists m :: 0 <= m < k && Absorbs(clusters[m], projected, scale, dist)
      invariant WellFormed(next, clustered.Length)
      invariant forall j :: 0 <= j < clustered.Length ==> (clustered[j] <==> InMulti(next, j))
      invariant forall j :: 0 <= j < clustered.Length && old(clustered[j]) ==> clustered[j]
    {
      var cluster := next[k];
      if dist(cluster.centroid, projected) < RequiredRadius(scale, |cluster.members|) {
        next := TakePoint(next, k, i, projected, clustered);
        added := true;
      }
    }
    if !added {
      forall j | 0 <= j < clustered.Length ensures InMulti(next + [Cluster(projected, [i])], j) <==> InMulti(next, j) {
        InMultiAppend(next, Cluster(projected, [i]), j);
      }
      next := next + [Cluster(projected, [i])];
    }
  }

  /** The merge-pass body for provisional cluster `cluster`: scan every merged
      cluster; each one in range appends the cluster's members after its own, moves
      its centroid and marks all its members; with no taker the cluster is kept as it
      is. `rest` (the provisional clusters still to come) only states the flags. */
  method MergeProvisional(merged: seq<Cluster>, cluster: Cluster, ghost rest: seq<Cluster>,
                          scale: Scale, dist: Distance, clustered: array<bool>)
    returns (next: seq<Cluster>)
    requires WellFormed(merged, clustered.Length) && WellFormed([cluster], clustered.Length)
    requires forall j :: 0 <= j < clustered.Length ==>
      (clustered[j] <==> InMulti(merged, j) || InMulti([cluster] + rest, j))
    modifies clustered
    ensures next == MergeOne(merged, cluster, scale, dist)
    ensures |next| == if AnyReaches(merged, cluster, scale, dist) then |merged| else |merged| + 1
    ensures forall q :: 0 <= q < |merged| && Reaches(merged[q], cluster, scale, dist) ==>
      next[q].members == merged[q].members + cluster.members
      && next[q].centroid == Blend(merged[q].centroid, cluster.centroid, |merged[q].members| + |cluster.members|)
    ensures forall q :: 0 <= q < |merged| && !Reaches(merged[q], cluster, scale, dist) ==> next[q] == merged[q]
    ensures !AnyReaches(merged, cluster, scale, dist) ==> next[|merged|] == cluster
    ensures forall j :: 0 <= j < clustered.Length ==> (clustered[j] <==> InMulti(next, j) || InMulti(rest, j))
    ensures forall j :: 0 <= j < clustered.Length && old(clustered[j]) ==> clustered[j]
  {
    assert [cluster][0] == cluster;
    next := merged;
    var isMerged := false;
    for q := 0 to |merged|
      invariant |next| == |merged|
      invariant forall m :: 0 <= m < q ==> next[m] == Receive(merged[m], cluster, scale, dist)
      invariant forall m :: q <= m < |merged| ==> next[m] == merged[m]
      invariant isMerged <==> exists m :: 0 <= m < q && Reaches(merged[m], cluster, scale, dist)
      invariant WellFormed(next, clustered.Length)
      invariant forall j :: 0 <= j < clustered.Length ==>
        (clustered[j] <==> InMulti(next, j) || InMulti([cluster] + rest, j))
      invariant isMerged ==> forall j :: j in cluster.members ==> InMulti(next, j)
      invariant forall j :: 0 <= j < clustered.Length && old(clustered[j]) ==> clustered[j]
    {
      var mergeCluster := next[q];
      if dist(mergeCluster.centroid, cluster.centroid) < BaseRadius / scale {
        var members := mergeCluster.members + cluster.members;
        var grown := Cluster(Blend(mergeCluster.centroid, cluster.centroid, |members|), members);
        forall j | 0 <= j < clustered.Length || j in cluster.members
          ensures InMulti(next[q := grown], j) <==> InMulti(next, j) || j in members
        {
          InMultiReplace(next, q, grown, j);
        }
        next := next[q := grown];
        MarkAll(members, clustered);
        isMerged := true;
      }
    }
    forall j | 0 <= j < clustered.Length
      ensures InMulti([cluster] + rest, j) <==> InMulti(rest, j) || (|cluster.members| > 1 && j in cluster.members)
    {
      InMultiCons(cluster, rest, j);
    }
    if !isMerged {
      forall j | 0 <= j < clustered.Length
        ensures InMulti(next + [cluster], j) <==> InMulti(next, j) || (|cluster.members| > 1 && j in cluster.members)
      {
        InMultiAppend(next, cluster, j);
      }
      next := next + [cluster];
    }
  }

  /** The assignment pass (`data.forEach`): every projectable point, in order, is
      offered to the provisional clusters. Starting from all flags clear, the flags end
      matching the provisional clusters. */
  method AssignPass(proj: seq<Option<Coord>>, scale: Scale, dist: Distance, clustered: array<bool>)
    returns (clusters: seq<Cluster>)
    requires clustered.Length == |proj|
    requires forall j :: 0 <= j < clustered.Length ==> !clustered[j]
    modifies clustered
    ensures clusters == Provisional(proj, scale, dist)
    ensures WellFormed(clusters, clustered.Length)
    ensures forall j :: 0 <= j < clustered.Length ==> (clustered[j] <==> InMulti(clusters, j))
  {
    clusters := [];
    for i := 0 to |proj|
      invariant clusters == AssignUpTo(proj, i, scale, dist)
      invariant WellFormed(clusters, clustered.Length)
      invariant forall j :: 0 <= j < clustered.Length ==> (clustered[j] <==> InMulti(clusters, j))
    {
      match proj[i] {
        case Some(projected) =>
          clusters := AddPoint(clusters, i, projected, scale, dist, clustered);
        case None =>
      }
    }
  }

  /** The merge pass (`clusters.forEach`): every provisional cluster, in order, is
      offered to the merged list. The flags end matching the merged clusters. */
  method MergePass(ps: seq<Cluster>, scale: Scale, dist: Distance, clustered: array<bool>)
    returns (merged: seq<Cluster>)
    requires WellFormed(ps, clustered.Length)
    requires forall j :: 0 <= j < clustered.Length ==> (clustered[j] <==> InMulti(ps, j))
    modifies clustered
    ensures merged == MergeUpTo(ps, |ps|, scale, dist)
    ensures forall j :: 0 <= j < clustered.Length ==> (clustered[j] <==> InMulti(merged, j))
  {
    merged := [];
    assert ps[0..] == ps;
    for k := 0 to |ps|
      invariant merged == MergeUpTo(ps, k, scale, dist)
      invariant WellFormed(merged, clustered.Length)
      invariant forall j :: 0 <= j < clustered.Length ==>
        (clustered[j] <==> InMulti(merged, j) || InMulti(ps[k..], j))
    {
      assert ps[k..] == [ps[k]] + ps[k + 1..];
      assert [ps[k]][0] == ps[k];
      merged := MergeProvisional(merged, ps[k], ps[k + 1..], scale, dist, clustered);
    }
  }

  /** `calculateClusters(data, scale)`: reset every flag, then, below the disabling
      scale, run the assignment pass over the points in order and the merge pass over
      the provisional clusters. The result is the one ClusterSpec defines, and a point's
      flag ends set exactly when it belongs to a returned cluster of more than one
      member, whatever the flags were on entry. */
  method CalculateClusters(proj: seq<Option<Coord>>, scale: Scale, dist: Distance, clustered: array<bool>)
    returns (clusters: seq<Cluster>)
    requires clustered.Length == |proj|
    modifies clustered
    ensures clusters == Clusters(proj, scale, dist)
    ensures forall j :: 0 <= j < clustered.Length ==> (clustered[j] <==> InMulti(clusters, j))
    ensures scale >= DisableScale ==> clusters == [] && forall j :: 0 <= j < clustered.Length ==> !clustered[j]
  {
    clusters := [];
    for j := 0 to clustered.Length
      invariant forall x :: 0 <= x < j ==> !clustered[x]
    {
      clustered[j] := false;
    }
    if scale < DisableScale {
      var provisional := AssignPass(proj, scale, dist, clustered);
      clusters := MergePass(provisional, scale, dist, clustered);
    }
  }
}
