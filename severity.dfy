/** The display attributes derived from severity tags: a cluster's colour
    (`determineClusterColor`) and the number of glyph lines of a single point
    (the `numLines` switch of `plotPoints`). */
module SeverityColor {
  import opened Base

  /** Some point of `points` carries the tag `tag`. */
  predicate HasTag(points: seq<Point>, tag: string) {
    exists k :: 0 <= k < |points| && points[k].r == tag
  }

  /** How many points carry the tag `tag`; for a recognised tag this is the tally
      `rCount[tag]`, since recognised tags are non-empty own keys of the tally. */
  function CountTag(points: seq<Point>, tag: string): (n: nat)
    ensures n <= |points|
    ensures n > 0 <==> HasTag(points, tag)
  {
    if points == [] then 0
    else
      var init := points[..|points| - 1];
      assert forall k :: 0 <= k < |init| ==> init[k] == points[k];
      CountTag(init, tag) + (if points[|points| - 1].r == tag then 1 else 0)
  }

  /** The severity-priority rule: High beats Medium beats Low, whatever the counts. */
  function PriorityColor(points: seq<Point>): string {
    if HasTag(points, High) then HighColor
    else if HasTag(points, Medium) then MediumColor
    else LowColor
  }

  /** The tally the `rCount` loop builds over `points`: one entry per recognised tag. */
  function Tally(points: seq<Point>): map<string, nat> {
    TallyOf(CountTag(points, Low), CountTag(points, Medium), CountTag(points, High))
  }

  /** Tallies the recognised tags of `points`: the `rCount` loop. A point counts
      when its tag is non-empty and is a key of the tally. */
  method TallySeverities(points: seq<Point>) returns (rCount: map<string, nat>)
    ensures rCount.Keys == {Low, Medium, High}
    ensures forall tag :: tag in rCount ==> rCount[tag] == CountTag(points, tag)
  {
    rCount := map[Low := 0, Medium := 0, High := 0];
    for k := 0 to |points|
      invariant rCount == Tally(points[..k])
    {
      TallyStep(points, k);
      var r := points[k].r;
      if r != "" && r in rCount {
        rCount := rCount[r := rCount[r] + 1];
      }
    }
    assert points[..|points|] == points;
  }

  /** The tally with counts a, b, c for Low, Medium, High. */
  function TallyOf(a: nat, b: nat, c: nat): map<string, nat> {
    map[Low := a, Medium := b, High := c]
  }

  /** Bumping the entry of tag r, when r is a non-empty key, adds one to that count only. */
  lemma TallyBump(a: nat, b: nat, c: nat, r: string)
    ensures var t := TallyOf(a, b, c);
      (if r != "" && r in t then t[r := t[r] + 1] else t)
      == TallyOf(a + (if r == Low then 1 else 0), b + (if r == Medium then 1 else 0), c + (if r == High then 1 else 0))
  {
    var t := TallyOf(a, b, c);
    assert |Low| == 3 && |Medium| == 6 && |High| == 4;
    if r == Low {
      assert t[r := t[r] + 1] == TallyOf(a + 1, b, c);
    } else if r == Medium {
      assert t[r := t[r] + 1] == TallyOf(a, b + 1, c);
    } else if r == High {
      assert t[r := t[r] + 1] == TallyOf(a, b, c + 1);
    } else {
      assert r !in t;
    }
  }

  /** One more point bumps the entry of its tag when that tag is a key, and nothing else. */
  lemma TallyStep(points: seq<Point>, k: nat)
    requires k < |points|
    ensures var t, r := Tally(points[..k]), points[k].r;
      Tally(points[..k + 1]) == if r != "" && r in t then t[r := t[r] + 1] else t
  {
    CountTagStep(points, k, Low);
    CountTagStep(points, k, Medium);
    CountTagStep(points, k, High);
    TallyBump(CountTag(points[..k], Low), CountTag(points[..k], Medium), CountTag(points[..k], High), points[k].r);
  }

  /** Extending the counted prefix by one point adds one exactly when it carries the tag. */
  lemma CountTagStep(points: seq<Point>, k: nat, tag: string)
    requires k < |points|
    ensures CountTag(points[..k + 1], tag) == CountTag(points[..k], tag) + (if points[k].r == tag then 1 else 0)
  {
    var seen := points[..k + 1];
    assert seen[..k] == points[..k];
  }

  /** The colour of a cluster with members `points`: the tallies decide by priority
      only, so one High member makes the cluster High, and a cluster with neither a
      High nor a Medium member (an empty one, or one with unrecognised tags) is Low. */
  method DetermineClusterColor(points: seq<Point>) returns (color: string)
    ensures HasTag(points, High) ==> color == HighColor
    ensures !HasTag(points, High) && HasTag(points, Medium) ==> color == MediumColor
    ensures !HasTag(points, High) && !HasTag(points, Medium) ==> color == LowColor
    ensures color == PriorityColor(points)
  {
    var rCount := TallySeverities(points);
    var maxR := Low;
    if rCount[High] > 0 {
      maxR := High;
    } else if rCount[High] == 0 && rCount[Medium] > 0 {
      maxR := Medium;
    } else if rCount[High] == 0 && rCount[Medium] == 0 {
      maxR := Low;
    }
    color := SeverityColors[maxR];
  }

  /** What the colour function does as written: its branches assign, and its return
      reads, the undeclared name `maxR` (the declared variable is `max`). Module code
      runs in strict mode, where that is a ReferenceError on every path. */
  datatype JsError = ReferenceError(name: string)

  function DetermineClusterColorAsWritten(points: seq<Point>): (r: Result<string, JsError>)
    ensures r.Err?
  {
    // The three conditions cover every tally, so one branch always runs, and its
    // assignment to `maxR` (D3Map.jsx:88, 91 or 94) fails before the read at line 103.
    Err(ReferenceError("maxR"))
  }

  /** The as-written colour function fails on every cluster, in particular on the
      two-member cluster [Low, High] that the intended rule colours High. */
  lemma AsWrittenThrowsWhereIntendedColours()
    ensures var pts := [Point(ZipKind, "", "", 0.0, 0.0, Low), Point(IpKind, "", "", 0.0, 0.0, High)];
      DetermineClusterColorAsWritten(pts) == Err(ReferenceError("maxR"))
      && PriorityColor(pts) == HighColor
  {
    var pts := [Point(ZipKind, "", "", 0.0, 0.0, Low), Point(IpKind, "", "", 0.0, 0.0, High)];
    assert pts[1].r == High;
  }

  /** Lines drawn inside a single point's glyph: one per priority rank, none for an
      unrecognised tag. */
  function NumLines(rType: string): (n: nat)
    ensures n <= |Severities|
    ensures n == 0 <==> rType !in Severities
    ensures forall k :: 0 <= k < |Severities| && Severities[k] == rType ==> n == k + 1
  {
    match rType
    case "Low" => 1
    case "Medium" => 2
    case "High" => 3
    case _ => 0
  }

  /** The highest glyph line count among the members: an independent reading of
      "the most severe tag present". */
  function MaxLines(points: seq<Point>): (n: nat)
    ensures n <= |Severities|
  {
    if points == [] then 0
    else
      var rest := MaxLines(points[1..]);
      var here := NumLines(points[0].r);
      if here > rest then here else rest
  }

  lemma {:induction false} MaxLinesWitness(points: seq<Point>)
    ensures forall k :: 0 <= k < |points| ==> NumLines(points[k].r) <= MaxLines(points)
    ensures MaxLines(points) > 0 ==> exists k :: 0 <= k < |points| && NumLines(points[k].r) == MaxLines(points)
  {
    if points != [] {
      MaxLinesWitness(points[1..]);
      forall k | 0 < k < |points| ensures NumLines(points[k].r) <= MaxLines(points) {
        assert points[k] == points[1..][k - 1];
      }
      if MaxLines(points) > 0 && MaxLines(points) != NumLines(points[0].r) {
        var j :| 0 <= j < |points[1..]| && NumLines(points[1..][j].r) == MaxLines(points[1..]);
        assert points[j + 1] == points[1..][j];
      }
    }
  }

  /** The colour agrees with the glyph of the most severe member: it is the colour of
      the tag with the most lines among the members, and Low when no member has a
      recognised tag. */
  lemma ColorMatchesMostSevereGlyph(points: seq<Point>)
    ensures MaxLines(points) > 0 ==> PriorityColor(points) == SeverityColors[Severities[MaxLines(points) - 1]]
    ensures MaxLines(points) == 0 ==> PriorityColor(points) == LowColor
  {
    MaxLinesWitness(points);
    var m := MaxLines(points);
    if HasTag(points, High) {
      var k :| 0 <= k < |points| && points[k].r == High;
      assert NumLines(points[k].r) == 3;
    } else if HasTag(points, Medium) {
      var k :| 0 <= k < |points| && points[k].r == Medium;
      assert NumLines(points[k].r) == 2;
    }
  }
}
