/** Shared vocabulary of the risk map: optional values, planar coordinates,
    the point record the map plots, and the severity tags with their colours. */
module Base {

  datatype Option<+T> = None | Some(value: T)

  datatype Result<+T, +E> = Ok(value: T) | Err(error: E)

  /** A planar coordinate as produced by the map projection. */
  datatype Coord = Coord(x: real, y: real)

  /** The zoom factor. The zoom controller keeps it in [1, 8]; the model only
      needs it positive, because the clustering thresholds divide by it. */
  type Scale = s: real | 0.0 < s witness 1.0

  /** One plotted risk observation. `kind` is the source tag ("ZIP" or "I"),
      `r` the severity tag; `code` and `t` are carried through unread.
      The mutable `clustered` flag lives outside the record, in an array
      indexed by the point's position in the plotted sequence. */
  datatype Point = Point(kind: string, code: string, t: string, lat: real, lon: real, r: string)

  const ZipKind: string := "ZIP"
  const IpKind: string := "I"

  const Low: string := "Low"
  const Medium: string := "Medium"
  const High: string := "High"

  /** The recognised severity tags, in increasing priority. */
  const Severities: seq<string> := [Low, Medium, High]

  const LowColor: string := "#000066"
  const MediumColor: string := "#bc770b"
  const HighColor: string := "#800000"

  /** The colour table keyed by severity tag. */
  const SeverityColors: map<string, string> := map[Low := LowColor, Medium := MediumColor, High := HighColor]
}
