/** Turning the six input groups into the single sequence of plotted points
    (`prepareDataPoints`, `flattenDataPoints` and `plotData` in D3Map.jsx). */
module DataPoints {
  import opened Base

  /** One input row: the same observation located once by ZIP code and once by IP address. */
  datatype Record = Record(
    zipCode: string, zipT: string, zipLat: real, zipLong: real,
    ipZipcode: string, ipT: string, ipLat: real, ipLong: real)

  /** The pair of points `prepareDataPoints` makes of one record. */
  datatype Prepared = Prepared(zip: Point, ip: Point)

  /** The six input groups, by severity and by source. */
  datatype Dataset = Dataset(
    low: seq<Record>, medium: seq<Record>, high: seq<Record>,
    ipLow: seq<Record>, ipMedium: seq<Record>, ipHigh: seq<Record>)

  function ZipPoint(rec: Record, rType: string): Point {
    Point(ZipKind, rec.zipCode, rec.zipT, rec.zipLat, rec.zipLong, rType)
  }

  function IpPoint(rec: Record, rType: string): Point {
    Point(IpKind, rec.ipZipcode, rec.ipT, rec.ipLat, rec.ipLong, rType)
  }

  /** Maps every record to its ZIP point and its IP point, both tagged `rType`. */
  function PrepareDataPoints(dataSet: seq<Record>, rType: string): (r: seq<Prepared>)
    ensures |r| == |dataSet|
  {
    seq(|dataSet|, k requires 0 <= k < |dataSet| => Prepared(ZipPoint(dataSet[k], rType), IpPoint(dataSet[k], rType)))
  }

  /** The reduce that appends each pair's ZIP point, then its IP point, to the accumulator. */
  function FlattenDataPoints(dataSet: seq<Prepared>): (r: seq<Point>)
    ensures |r| == 2 * |dataSet|
    ensures forall k :: 0 <= k < |dataSet| ==> r[2 * k] == dataSet[k].zip && r[2 * k + 1] == dataSet[k].ip
  {
    if dataSet == [] then []
    else
      var last := dataSet[|dataSet| - 1];
      FlattenDataPoints(dataSet[..|dataSet| - 1]) + [last.zip, last.ip]
  }

  /** The plotted sequence: the six flattened groups in their fixed order. */
  function PlotData(data: Dataset): seq<Point> {
    FlattenDataPoints(PrepareDataPoints(data.low, Low))
    + FlattenDataPoints(PrepareDataPoints(data.medium, Medium))
    + FlattenDataPoints(PrepareDataPoints(data.high, High))
    + FlattenDataPoints(PrepareDataPoints(data.ipLow, Low))
    + FlattenDataPoints(PrepareDataPoints(data.ipMedium, Medium))
    + FlattenDataPoints(PrepareDataPoints(data.ipHigh, High))
  }

  /** Points alternate ZIP, IP, ZIP, IP, ... from the first one on. */
  ghost predicate Alternates(s: seq<Point>) {
    forall k :: 0 <= k < |s| ==> s[k].kind == (if k % 2 == 0 then ZipKind else IpKind)
  }

  /** Every point carries the tag `rType`. */
  ghost predicate AllTagged(s: seq<Point>, rType: string) {
    forall k :: 0 <= k < |s| ==> s[k].r == rType
  }

  /** One group after preparing and flattening: two points per record, in input order,
      the ZIP point first, both carrying the record's fields and the group's tag. */
  lemma {:induction false} FlattenPrepared(dataSet: seq<Record>, rType: string)
    ensures var r := FlattenDataPoints(PrepareDataPoints(dataSet, rType));
      && |r| == 2 * |dataSet|
      && Alternates(r)
      && AllTagged(r, rType)
      && (forall k :: 0 <= k < |dataSet| ==> r[2 * k] == ZipPoint(dataSet[k], rType) && r[2 * k + 1] == IpPoint(dataSet[k], rType))
  {
    var ps := PrepareDataPoints(dataSet, rType);
    var r := FlattenDataPoints(ps);
    forall k | 0 <= k < |r|
      ensures r[k].kind == (if k % 2 == 0 then ZipKind else IpKind) && r[k].r == rType
    {
      var h := k / 2;
      assert k == 2 * h + k % 2;
      assert r[2 * h] == ps[h].zip && r[2 * h + 1] == ps[h].ip;
    }
  }

  lemma AlternatesAppend(a: seq<Point>, b: seq<Point>, pairs: nat)
    requires Alternates(a) && Alternates(b) && |a| == 2 * pairs
    ensures Alternates(a + b)
  {
    forall k | |a| <= k < |a| + |b|
      ensures (a + b)[k].kind == (if k % 2 == 0 then ZipKind else IpKind)
    {
      assert (a + b)[k] == b[k - |a|];
      assert k == (k - |a|) + 2 * pairs;
    }
  }

  /** Every point carries one of the recognised severity tags. */
  ghost predicate RecognisedTags(s: seq<Point>) {
    forall k :: 0 <= k < |s| ==> s[k].r in Severities
  }

  lemma RecognisedAppend(a: seq<Point>, b: seq<Point>)
    requires RecognisedTags(a) && RecognisedTags(b)
    ensures RecognisedTags(a + b)
  {
    forall k | |a| <= k < |a| + |b| ensures (a + b)[k].r in Severities {
      assert (a + b)[k] == b[k - |a|];
    }
  }

  /** One flattened group: an even number of alternating points, all recognised. */
  lemma GroupLayout(dataSet: seq<Record>, rType: string)
    requires rType in Severities
    ensures var g := FlattenDataPoints(PrepareDataPoints(dataSet, rType));
      |g| == 2 * |dataSet| && Alternates(g) && RecognisedTags(g)
  {
    FlattenPrepared(dataSet, rType);
  }

  /** The plotted sequence holds two points per record of every group, alternates
      ZIP and IP throughout (every group contributes an even number of points), and
      every point is tagged with a recognised severity. */
  lemma PlotDataLayout(data: Dataset)
    ensures var r := PlotData(data);
      && |r| == 2 * (|data.low| + |data.medium| + |data.high| + |data.ipLow| + |data.ipMedium| + |data.ipHigh|)
      && Alternates(r)
      && RecognisedTags(r)
  {
    var g1 := FlattenDataPoints(PrepareDataPoints(data.low, Low));
    var g2 := FlattenDataPoints(PrepareDataPoints(data.medium, Medium));
    var g3 := FlattenDataPoints(PrepareDataPoints(data.high, High));
    var g4 := FlattenDataPoints(PrepareDataPoints(data.ipLow, Low));
    var g5 := FlattenDataPoints(PrepareDataPoints(data.ipMedium, Medium));
    var g6 := FlattenDataPoints(PrepareDataPoints(data.ipHigh, High));
    GroupLayout(data.low, Low);
    GroupLayout(data.medium, Medium);
    GroupLayout(data.high, High);
    GroupLayout(data.ipLow, Low);
    GroupLayout(data.ipMedium, Medium);
    GroupLayout(data.ipHigh, High);
    var n1 := |data.low|;
    var n2 := n1 + |data.medium|;
    var n3 := n2 + |data.high|;
    var n4 := n3 + |data.ipLow|;
    var n5 := n4 + |data.ipMedium|;
    AlternatesAppend(g1, g2, n1);
    AlternatesAppend(g1 + g2, g3, n2);
    AlternatesAppend(g1 + g2 + g3, g4, n3);
    AlternatesAppend(g1 + g2 + g3 + g4, g5, n4);
    AlternatesAppend(g1 + g2 + g3 + g4 + g5, g6, n5);
    RecognisedAppend(g1, g2);
    RecognisedAppend(g1 + g2, g3);
    RecognisedAppend(g1 + g2 + g3, g4);
    RecognisedAppend(g1 + g2 + g3 + g4, g5);
    RecognisedAppend(g1 + g2 + g3 + g4 + g5, g6);
  }
}
