/** The clustering rule of `calculateClusters` (D3Map.jsx) as functions of the
    projected points: the greedy assignment pass, the merge pass, and the
    properties the result has. Points are identified by their index in the
    plotted sequence; `proj[j]` is the projection of point j, `None` where the
    projection has no image. */
module ClusterSpec {
  import opened Base

  const BaseRadius: real := 50.0
  /** The per-member growth of the absorption radius starts from this value. */
  const MinRadius: real := 10.0
  /** At this scale and above clustering is switched off. */
  const DisableScale: real := 6.0

  /** A cluster: its running centroid and its members, in the order they joined. */
  datatype Cluster = Cluster(centroid: Coord, members: seq<nat>)

  /** The planar distance. The source uses the Euclidean distance, which needs a
      square root; the model leaves it a parameter and relies on nothing about it. */
  type Distance = (Coord, Coord) -> real

  /** `Math.max(baseRadius / scale, 10 + size)`. */
  function RequiredRadius(scale: Scale, size: nat): real {
    var zoomRadius := BaseRadius / scale;
    var sizeRadius := MinRadius + size as real;
    if zoomRadius >= sizeRadius then zoomRadius else sizeRadius
  }

  /** The centroid update, with `n` the member count AFTER the new members were
      added: `(c * n + p) / (n + 1)`. This is not the mean of the members. */
  function Blend(c: Coord, p: Coord, n: nat): Coord {
    Coord(Weighted(c.x, p.x, n as real), Weighted(c.y, p.y, n as real))
  }

  /** One coordinate of `Blend`: a weighted by w against b, `(a * w + b) / (w + 1)`. */
  function Weighted(a: real, b: real, w: real): real
    requires w >= 0.0
  {
    (a * w + b) / (w + 1.0)
  }

  // ---------------------------------------------------------------- assignment pass

  predicate Absorbs(c: Cluster, projected: Coord, scale: Scale, dist: Distance) {
    dist(c.centroid, projected) < RequiredRadius(scale, |c.members|)
  }

  /** What one existing cluster becomes when point `i` at `projected` is scanned past it. */
  function Visit(c: Cluster, i: nat, projected: Coord, scale: Scale, dist: Distance): Cluster {
    if Absorbs(c, projected, scale, dist) then
      var members := c.members + [i];
      Cluster(Blend(c.centroid, projected, |members|), members)
    else c
  }

  predicate AnyAbsorbs(cs: seq<Cluster>, projected: Coord, scale: Scale, dist: Distance) {
    exists k :: 0 <= k < |cs| && Absorbs(cs[k], projected, scale, dist)
  }

  /** One point against all provisional clusters: every cluster in range takes it
      (the scan has no early exit); if none does, it starts a cluster of its own. */
  function AssignPoint(cs: seq<Cluster>, i: nat, projected: Coord, scale: Scale, dist: Distance): seq<Cluster> {
    if AnyAbsorbs(cs, projected, scale, dist) then
      seq(|cs|, k requires 0 <= k < |cs| => Visit(cs[k], i, projected, scale, dist))
    else cs + [Cluster(projected, [i])]
  }

  /** The provisional clusters after the first `n` points; unprojectable points are skipped. */
  function AssignUpTo(proj: seq<Option<Coord>>, n: nat, scale: Scale, dist: Distance): seq<Cluster>
    requires n <= |proj|
  {
    if n == 0 then []
    else
      var cs := AssignUpTo(proj, n - 1, scale, dist);
      match proj[n - 1]
      case None => cs
      case Some(projected) => AssignPoint(cs, n - 1, projected, scale, dist)
  }

  function Provisional(proj: seq<Option<Coord>>, scale: Scale, dist: Distance): seq<Cluster> {
    AssignUpTo(proj, |proj|, scale, dist)
  }

  // ---------------------------------------------------------------- merge pass

  predicate Reaches(m: Cluster, c: Cluster, scale: Scale, dist: Distance) {
    dist(m.centroid, c.centroid) < BaseRadius / scale
  }

  /** What a merged cluster becomes when provisional cluster `c` is scanned past it. */
  function Receive(m: Cluster, c: Cluster, scale: Scale, dist: Distance): Cluster {
    if Reaches(m, c, scale, dist) then
      var members := m.members + c.members;
      Cluster(Blend(m.centroid, c.centroid, |members|), members)
    else m
  }

  predicate AnyReaches(ms: seq<Cluster>, c: Cluster, scale: Scale, dist: Distance) {
    exists q :: 0 <= q < |ms| && Reaches(ms[q], c, scale, dist)
  }

  /** One provisional cluster against the merged list: every merged cluster in range
      takes its members; if none does, it is kept as it is. */
  function MergeOne(ms: seq<Cluster>, c: Cluster, scale: Scale, dist: Distance): seq<Cluster> {
    if AnyReaches(ms, c, scale, dist) then
      seq(|ms|, q requires 0 <= q < |ms| => Receive(ms[q], c, scale, dist))
    else ms + [c]
  }

  /** The merged list after the first `n` provisional clusters. */
  function MergeUpTo(ps: seq<Cluster>, n: nat, scale: Scale, dist: Distance): seq<Cluster>
    requires n <= |ps|
  {
    if n == 0 then [] else MergeOne(MergeUpTo(ps, n - 1, scale, dist), ps[n - 1], scale, dist)
  }

  /** The clusters `calculateClusters` returns: none at all from the disabling scale on. */
  function Clusters(proj: seq<Option<Coord>>, scale: Scale, dist: Distance): seq<Cluster> {
    if scale < DisableScale then
      var ps := Provisional(proj, scale, dist);
      MergeUpTo(ps, |ps|, scale, dist)
    else []
  }

  // ---------------------------------------------------------------- vocabulary of the properties

  /** Point j is a member of some cluster of `cs`. */
  predicate InSome(cs: seq<Cluster>, j: nat) {
    exists a :: 0 <= a < |cs| && j in cs[a].members
  }

  /** Point j is a member of some cluster of `cs` that has more than one member:
      the condition under which the source leaves its `clustered` flag set. */
  predicate InMulti(cs: seq<Cluster>, j: nat) {
    exists a :: 0 <= a < |cs| && |cs[a].members| > 1 && j in cs[a].members
  }

  /** Every cluster is non-empty and names only points below `n`. */
  predicate WellFormed(cs: seq<Cluster>, n: nat) {
    forall a :: 0 <= a < |cs| ==> cs[a].members != [] && forall j :: j in cs[a].members ==> j < n
  }

  /** The first member of each cluster belongs to no other cluster. */
  predicate FirstOwned(cs: seq<Cluster>) {
    forall a, b :: 0 <= a < |cs| && 0 <= b < |cs| && a != b && cs[a].members != [] ==> cs[a].members[0] !in cs[b].members
  }

  /** Every member of every cluster has a projection. */
  predicate Projectable(cs: seq<Cluster>, proj: seq<Option<Coord>>) {
    forall a, j :: 0 <= a < |cs| && j in cs[a].members ==> j < |proj| && proj[j].Some?
  }

  // ---------------------------------------------------------------- lemmas: assignment pass

  /** Growing one cluster to more than one member, keeping its old members, makes
      exactly its members "in a multi-member cluster" in addition to the old ones. */
  lemma InMultiReplace(cs: seq<Cluster>, k: nat, c: Cluster, j: nat)
    requires k < |cs| && |c.members| > 1
    requires forall x :: x in cs[k].members ==> x in c.members
    ensures InMulti(cs[k := c], j) <==> InMulti(cs, j) || j in c.members
  {
    var cs' := cs[k := c];
    if InMulti(cs, j) {
      var a :| 0 <= a < |cs| && |cs[a].members| > 1 && j in cs[a].members;
      if a == k { assert j in cs'[k].members; } else { assert cs'[a] == cs[a]; }
    }
    if InMulti(cs', j) {
      var a :| 0 <= a < |cs'| && |cs'[a].members| > 1 && j in cs'[a].members;
      if a != k { assert cs'[a] == cs[a]; }
    }
    if j in c.members { assert cs'[k] == c; }
  }

  /** Appending a cluster adds its members to the multi-member ones exactly when it
      has more than one member. */
  lemma InMultiAppend(cs: seq<Cluster>, c: Cluster, j: nat)
    ensures InMulti(cs + [c], j) <==> InMulti(cs, j) || (|c.members| > 1 && j in c.members)
  {
    var cs' := cs + [c];
    if InMulti(cs, j) {
      var a :| 0 <= a < |cs| && |cs[a].members| > 1 && j in cs[a].members;
      assert cs'[a] == cs[a];
    }
    if InMulti(cs', j) {
      var a :| 0 <= a < |cs'| && |cs'[a].members| > 1 && j in cs'[a].members;
      if a < |cs| { assert cs'[a] == cs[a]; }
    }
    assert cs'[|cs|] == c;
  }

  /** Prepending a cluster adds its members to the multi-member ones exactly when it
      has more than one member. */
  lemma InMultiCons(c: Cluster, cs: seq<Cluster>, j: nat)
    ensures InMulti([c] + cs, j) <==> InMulti(cs, j) || (|c.members| > 1 && j in c.members)
  {
    var cs' := [c] + cs;
    if InMulti(cs, j) {
      var a :| 0 <= a < |cs| && |cs[a].members| > 1 && j in cs[a].members;
      assert cs'[a + 1] == cs[a];
    }
    if InMulti(cs', j) {
      var a :| 0 <= a < |cs'| && |cs'[a].members| > 1 && j in cs'[a].members;
      if a > 0 { assert cs'[a] == cs[a - 1]; }
    }
    assert cs'[0] == c;
  }

  /** After one point is assigned, the clusters hold exactly the old members and the
      new point; the list grows by one cluster exactly when no cluster absorbed it. */
  lemma AssignPointMembers(cs: seq<Cluster>, i: nat, projected: Coord, scale: Scale, dist: Distance, j: nat)
    ensures var r := AssignPoint(cs, i, projected, scale, dist);
      && |r| == (if AnyAbsorbs(cs, projected, scale, dist) then |cs| else |cs| + 1)
      && (InSome(r, j) <==> InSome(cs, j) || j == i)
  {
    var r := AssignPoint(cs, i, projected, scale, dist);
    if AnyAbsorbs(cs, projected, scale, dist) {
      var k :| 0 <= k < |cs| && Absorbs(cs[k], projected, scale, dist);
      assert i in r[k].members;
      if InSome(cs, j) {
        var a :| 0 <= a < |cs| && j in cs[a].members;
        assert j in r[a].members;
      }
      if InSome(r, j) {
        var a :| 0 <= a < |r| && j in r[a].members;
        assert j in cs[a].members || j == i;
      }
    } else {
      assert r[|cs|].members == [i];
      if InSome(cs, j) {
        var a :| 0 <= a < |cs| && j in cs[a].members;
        assert r[a] == cs[a];
      }
      if InSome(r, j) {
        var a :| 0 <= a < |r| && j in r[a].members;
        if a < |cs| { assert r[a] == cs[a]; }
      }
    }
  }

  /** Assigning a point below `n` keeps the clusters non-empty and below `n`, keeps the
      first member of each cluster out of every other cluster, and keeps members projectable. */
  lemma AssignPointWellFormed(cs: seq<Cluster>, i: nat, projected: Coord, scale: Scale, dist: Distance, proj: seq<Option<Coord>>)
    requires WellFormed(cs, i) && FirstOwned(cs) && Projectable(cs, proj)
    requires i < |proj| && proj[i].Some?
    ensures var r := AssignPoint(cs, i, projected, scale, dist);
      WellFormed(r, i + 1) && FirstOwned(r) && Projectable(r, proj)
  {
    var r := AssignPoint(cs, i, projected, scale, dist);
    if AnyAbsorbs(cs, projected, scale, dist) {
      assert |r| == |cs|;
      forall a | 0 <= a < |r|
        ensures r[a].members != [] && r[a].members[0] == cs[a].members[0]
        ensures forall x :: x in r[a].members ==> x in cs[a].members || x == i
      {
        assert r[a] == Visit(cs[a], i, projected, scale, dist);
      }
      assert WellFormed(r, i + 1);
      assert Projectable(r, proj);
      forall a, b | 0 <= a < |r| && 0 <= b < |r| && a != b
        ensures r[a].members[0] !in r[b].members
      {
        assert cs[a].members[0] !in cs[b].members;
        assert cs[a].members[0] in cs[a].members;
      }
    } else {
      assert r == cs + [Cluster(projected, [i])];
      forall a | 0 <= a < |cs| ensures r[a] == cs[a] { }
      assert r[|cs|].members == [i];
      assert WellFormed(r, i + 1);
      assert Projectable(r, proj);
      forall a, b | 0 <= a < |r| && 0 <= b < |r| && a != b
        ensures r[a].members[0] !in r[b].members
      {
        if a == |cs| {
          assert i !in cs[b].members;
        } else if b == |cs| {
          assert cs[a].members[0] in cs[a].members;
        }
      }
    }
  }

  /** The provisional clusters: every cluster is non-empty, names only projectable
      points below `n`, and its first member belongs to no other cluster. */
  lemma {:induction false} AssignUpToWellFormed(proj: seq<Option<Coord>>, n: nat, scale: Scale, dist: Distance)
    requires n <= |proj|
    ensures var cs := AssignUpTo(proj, n, scale, dist);
      WellFormed(cs, n) && FirstOwned(cs) && Projectable(cs, proj)
  {
    if n > 0 {
      AssignUpToWellFormed(proj, n - 1, scale, dist);
      var cs := AssignUpTo(proj, n - 1, scale, dist);
      match proj[n - 1]
      case None =>
        assert AssignUpTo(proj, n, scale, dist) == cs;
      case Some(projected) =>
        AssignPointWellFormed(cs, n - 1, projected, scale, dist, proj);
    }
  }

  /** Coverage of the assignment pass: a point is in some provisional cluster exactly
      when it is among the first `n` points and has a projection. */
  lemma {:induction false} AssignUpToCovers(proj: seq<Option<Coord>>, n: nat, scale: Scale, dist: Distance, j: nat)
    requires n <= |proj|
    ensures InSome(AssignUpTo(proj, n, scale, dist), j) <==> j < n && proj[j].Some?
  {
    if n > 0 {
      AssignUpToCovers(proj, n - 1, scale, dist, j);
      var cs := AssignUpTo(proj, n - 1, scale, dist);
      match proj[n - 1]
      case None =>
      case Some(projected) =>
        AssignPointMembers(cs, n - 1, projected, scale, dist, j);
    }
  }

  // ---------------------------------------------------------------- lemmas: merge pass

  /** After one provisional cluster is merged, the merged list holds exactly its old
      members and the provisional cluster's, and grows by at most one cluster. */
  lemma MergeOneMembers(ms: seq<Cluster>, c: Cluster, scale: Scale, dist: Distance, j: nat)
    ensures var r := MergeOne(ms, c, scale, dist);
      && |r| == (if AnyReaches(ms, c, scale, dist) then |ms| else |ms| + 1)
      && (InSome(r, j) <==> InSome(ms, j) || j in c.members)
  {
    var r := MergeOne(ms, c, scale, dist);
    if AnyReaches(ms, c, scale, dist) {
      var q :| 0 <= q < |ms| && Reaches(ms[q], c, scale, dist);
      assert r[q].members == ms[q].members + c.members;
      if InSome(ms, j) {
        var a :| 0 <= a < |ms| && j in ms[a].members;
        assert j in r[a].members;
      }
      if InSome(r, j) {
        var a :| 0 <= a < |r| && j in r[a].members;
        assert j in ms[a].members || j in c.members;
      }
    } else {
      assert r[|ms|] == c;
      if InSome(ms, j) {
        var a :| 0 <= a < |ms| && j in ms[a].members;
        assert r[a] == ms[a];
      }
      if InSome(r, j) {
        var a :| 0 <= a < |r| && j in r[a].members;
        if a < |ms| { assert r[a] == ms[a]; }
      }
    }
  }

  /** The merge pass neither loses nor invents members, and never returns more
      clusters than it was given. */
  lemma {:induction false} MergeUpToMembers(ps: seq<Cluster>, n: nat, scale: Scale, dist: Distance, j: nat)
    requires n <= |ps|
    ensures |MergeUpTo(ps, n, scale, dist)| <= n
    ensures InSome(MergeUpTo(ps, n, scale, dist), j) <==> InSome(ps[..n], j)
  {
    if n > 0 {
      MergeUpToMembers(ps, n - 1, scale, dist, j);
      MergeOneMembers(MergeUpTo(ps, n - 1, scale, dist), ps[n - 1], scale, dist, j);
      var pre := ps[..n - 1];
      assert ps[..n] == pre + [ps[n - 1]];
      if InSome(ps[..n], j) {
        var a :| 0 <= a < n && j in ps[..n][a].members;
        if a < n - 1 { assert ps[..n][a] == pre[a]; }
      }
      if InSome(pre, j) {
        var a :| 0 <= a < n - 1 && j in pre[a].members;
        assert ps[..n][a] == pre[a];
      }
    }
  }

  /** Merging one non-empty cluster below `n` keeps the list well formed. */
  lemma MergeOneWellFormed(ms: seq<Cluster>, c: Cluster, scale: Scale, dist: Distance, n: nat)
    requires WellFormed(ms, n) && WellFormed([c], n)
    ensures WellFormed(MergeOne(ms, c, scale, dist), n)
  {
    assert c == [c][0];
    var r := MergeOne(ms, c, scale, dist);
    if !AnyReaches(ms, c, scale, dist) {
      assert forall a :: 0 <= a < |ms| ==> r[a] == ms[a];
      assert r[|ms|] == c;
    }
  }

  lemma {:induction false} MergeUpToWellFormed(ps: seq<Cluster>, k: nat, scale: Scale, dist: Distance, n: nat)
    requires k <= |ps| && WellFormed(ps, n)
    ensures WellFormed(MergeUpTo(ps, k, scale, dist), n)
  {
    if k > 0 {
      MergeUpToWellFormed(ps, k - 1, scale, dist, n);
      assert [ps[k - 1]][0] == ps[k - 1];
      MergeOneWellFormed(MergeUpTo(ps, k - 1, scale, dist), ps[k - 1], scale, dist, n);
    }
  }

  /** The ownership the singleton filter relies on: the only member of a one-member
      merged cluster is in no other merged cluster and in no provisional cluster not
      yet merged. */
  ghost predicate SingletonsOwned(ms: seq<Cluster>, ps: seq<Cluster>, n: nat)
    requires n <= |ps|
  {
    forall a :: 0 <= a < |ms| && |ms[a].members| == 1 ==>
      (forall b :: 0 <= b < |ms| && b != a ==> ms[a].members[0] !in ms[b].members)
      && (forall b :: n <= b < |ps| ==> ms[a].members[0] !in ps[b].members)
  }

  lemma {:induction false} MergeUpToSingletons(ps: seq<Cluster>, n: nat, scale: Scale, dist: Distance, size: nat)
    requires n <= |ps| && WellFormed(ps, size) && FirstOwned(ps)
    ensures SingletonsOwned(MergeUpTo(ps, n, scale, dist), ps, n)
  {
    if n > 0 {
      MergeUpToSingletons(ps, n - 1, scale, dist, size);
      var ms := MergeUpTo(ps, n - 1, scale, dist);
      var c := ps[n - 1];
      var r := MergeOne(ms, c, scale, dist);
      assert r == MergeUpTo(ps, n, scale, dist);
      MergeUpToWellFormed(ps, n - 1, scale, dist, size);
      assert c.members != [];
      if AnyReaches(ms, c, scale, dist) {
        forall a | 0 <= a < |r| && |r[a].members| == 1
          ensures (forall b :: 0 <= b < |r| && b != a ==> r[a].members[0] !in r[b].members)
          ensures (forall b :: n <= b < |ps| ==> r[a].members[0] !in ps[b].members)
        {
          assert r[a] == ms[a];
          forall b | 0 <= b < |r| && b != a ensures r[a].members[0] !in r[b].members {
            assert r[b].members == ms[b].members || r[b].members == ms[b].members + c.members;
          }
        }
      } else {
        forall a | 0 <= a < |r| && |r[a].members| == 1
          ensures (forall b :: 0 <= b < |r| && b != a ==> r[a].members[0] !in r[b].members)
          ensures (forall b :: n <= b < |ps| ==> r[a].members[0] !in ps[b].members)
        {
          if a == |ms| {
            var x := c.members[0];
            MergeUpToMembers(ps, n - 1, scale, dist, x);
            assert !InSome(ps[..n - 1], x);
          } else {
            assert r[a] == ms[a];
          }
        }
      }
    }
  }

  // ---------------------------------------------------------------- lemmas: the whole computation

  /** Coverage of the result: a point is in some returned cluster exactly when
      clustering is enabled and the point has a projection. Unprojectable points
      are never clustered. */
  lemma ClustersCover(proj: seq<Option<Coord>>, scale: Scale, dist: Distance, j: nat)
    ensures InSome(Clusters(proj, scale, dist), j) <==> scale < DisableScale && j < |proj| && proj[j].Some?
  {
    if scale < DisableScale {
      var ps := Provisional(proj, scale, dist);
      MergeUpToMembers(ps, |ps|, scale, dist, j);
      assert ps[..|ps|] == ps;
      AssignUpToCovers(proj, |proj|, scale, dist, j);
    }
  }

  /** The merge pass returns no more clusters than the assignment pass produced. */
  lemma ClustersNoMoreThanProvisional(proj: seq<Option<Coord>>, scale: Scale, dist: Distance)
    ensures |Clusters(proj, scale, dist)| <= |Provisional(proj, scale, dist)|
  {
    if scale < DisableScale {
      var ps := Provisional(proj, scale, dist);
      MergeUpToMembers(ps, |ps|, scale, dist, 0);
    }
  }

  /** The singleton filter is sound: every returned cluster is non-empty, and its first
      member is in a multi-member cluster (so ends with `clustered` set) exactly when
      the cluster itself has more than one member. */
  lemma SingletonFilterSound(proj: seq<Option<Coord>>, scale: Scale, dist: Distance)
    ensures var cs := Clusters(proj, scale, dist);
      forall a :: 0 <= a < |cs| ==>
        cs[a].members != [] && (InMulti(cs, cs[a].members[0]) <==> |cs[a].members| > 1)
  {
    if scale < DisableScale {
      var ps := Provisional(proj, scale, dist);
      AssignUpToWellFormed(proj, |proj|, scale, dist);
      MergeUpToWellFormed(ps, |ps|, scale, dist, |proj|);
      MergeUpToSingletons(ps, |ps|, scale, dist, |proj|);
      var cs := Clusters(proj, scale, dist);
      forall a | 0 <= a < |cs|
        ensures InMulti(cs, cs[a].members[0]) <==> |cs[a].members| > 1
      {
      }
    }
  }

  /** The equation that defines the weighted value. */
  lemma WeightedEquation(a: real, b: real, w: real)
    requires w >= 0.0
    ensures Weighted(a, b, w) * (w + 1.0) == a * w + b
  {
    var num := a * w + b;
    assert Weighted(a, b, w) == num / (w + 1.0);
  }

  /** Weighting a value against itself gives that value. */
  lemma WeightedOfEqual(a: real, w: real)
    requires w >= 0.0
    ensures Weighted(a, a, w) == a
  {
    assert a * w + a == a * (w + 1.0);
  }

  /** A value v with v * (w + 2) == a * (w + 1) + b and v * (w + 1) == a * w + b is
      both weighted updates at once; subtracting them gives v == a, and then b == a. */
  lemma SharedWeightedValue(a: real, b: real, w: real, v: real)
    requires v * (w + 2.0) == a * (w + 1.0) + b && v * (w + 1.0) == a * w + b
    ensures a == b
  {
    assert a * (w + 1.0) == a * w + a;
    assert v * (w + 2.0) == v * (w + 1.0) + v;
    assert v == a;
    assert a * w + b == a * w + a;
  }

  /** One coordinate of the update: weighting the old mean a by the w members it
      averages gives the running mean once b joins; weighting it by w + 1 gives that
      mean only when b equals a. */
  lemma PostPushWeightIsMeanOnlyWhenEqual(a: real, b: real, w: real)
    requires w >= 0.0
    ensures Weighted(a, b, w + 1.0) == Weighted(a, b, w) <==> a == b
  {
    var post := Weighted(a, b, w + 1.0);
    var pre := Weighted(a, b, w);
    WeightedEquation(a, b, w + 1.0);
    WeightedEquation(a, b, w);
    assert post * (w + 2.0) == a * (w + 1.0) + b;
    if post == pre {
      SharedWeightedValue(a, b, w, post);
    }
    if a == b {
      WeightedOfEqual(a, w);
      WeightedOfEqual(a, w + 1.0);
    }
  }

  /** `Blend(c, p, n)` with n the number of members BEFORE p joins is the mean of the
      n + 1 members when c is the mean of the first n. The source passes the count
      AFTER the push (D3Map.jsx:126-127), and that result is the running mean only
      when the new point sits exactly on the centroid. For instance a one-member
      cluster at x = 0 taking a point at x = 3 moves to x = 1, not to the mean 1.5. */
  lemma BlendIsNotMean(c: Coord, p: Coord, n: nat)
    ensures Blend(c, p, n + 1) == Blend(c, p, n) <==> c == p
    ensures Blend(Coord(0.0, 0.0), Coord(3.0, 0.0), 2) == Coord(1.0, 0.0) != Blend(Coord(0.0, 0.0), Coord(3.0, 0.0), 1)
  {
    assert (n + 1) as real == n as real + 1.0;
    PostPushWeightIsMeanOnlyWhenEqual(c.x, p.x, n as real);
    PostPushWeightIsMeanOnlyWhenEqual(c.y, p.y, n as real);
  }
}
