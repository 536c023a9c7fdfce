/**
 * The well-known-text line string `checkRouteIntersectionWithWMS` sends as
 * its spatial filter (ISO 19125 / OGC Simple Features): longitude first,
 * points joined by ", ", in polyline order, and a parser that reads it back.
 */
module Wkt {
  import opened Wrappers

  /** A Leaflet `LatLng` of the polyline. */
  datatype LatLng = LatLng(lat: real, lng: real)

  /** JavaScript's `${x}` of a number; its exact digits are not part of this model. */
  type NumberText = real -> string

  const Prefix: string := "LINESTRING("

  function Join(parts: seq<string>, sep: string): string {
    if |parts| == 0 then ""
    else if |parts| == 1 then parts[0]
    else parts[0] + sep + Join(parts[1..], sep)
  }

  /** `${lng} ${lat}`. */
  function PointText(p: LatLng, num: NumberText): string {
    num(p.lng) + " " + num(p.lat)
  }

  function PointTexts(ps: seq<LatLng>, num: NumberText): (ts: seq<string>)
    ensures |ts| == |ps| && forall i :: 0 <= i < |ps| ==> ts[i] == PointText(ps[i], num)
  {
    seq(|ps|, i requires 0 <= i < |ps| => PointText(ps[i], num))
  }

  /** `LINESTRING(${latLngs.map(...).join(", ")})`. */
  function LineString(ps: seq<LatLng>, num: NumberText): string {
    Prefix + Join(PointTexts(ps, num), ", ") + ")"
  }

  /**
   * A line string is the keyword and an opening parenthesis, the first point
   * right after it, and a closing parenthesis; no points give `LINESTRING()`.
   */
  lemma LineStringShape(ps: seq<LatLng>, num: NumberText)
    ensures var s := LineString(ps, num);
      |s| >= |Prefix| + 1 && s[..|Prefix|] == Prefix && s[|s| - 1] == ')'
    ensures ps == [] ==> LineString(ps, num) == "LINESTRING()"
    ensures ps != [] ==> var s := LineString(ps, num); var t := PointText(ps[0], num);
      |s| >= |Prefix| + |t| + 1 && s[|Prefix|..|Prefix| + |t|] == t
  {
    var ts := PointTexts(ps, num);
    var body := Join(ts, ", ");
    assert LineString(ps, num) == Prefix + body + ")";
    if ps != [] {
      JoinStartsWithFirst(ts, ", ");
    }
  }

  /** The pieces of s between occurrences of c (one piece when c does not occur). */
  function Split(s: string, c: char): (r: seq<string>)
    ensures |r| >= 1
  {
    if s == [] then [[]]
    else
      var rest := Split(s[1..], c);
      if s[0] == c then [[]] + rest else [[s[0]] + rest[0]] + rest[1..]
  }

  /** A point written as two space-separated fields. */
  function ParsePoint(piece: string): Option<(string, string)> {
    var fields := Split(piece, ' ');
    if |fields| == 2 then Some((fields[0], fields[1])) else None
  }

  /** The pieces after a comma, each of which must begin with the separator's space. */
  function ParseTail(pieces: seq<string>): Option<seq<(string, string)>> {
    if pieces == [] then Some([])
    else if pieces[0] == [] || pieces[0][0] != ' ' then None
    else
      match ParsePoint(pieces[0][1..])
      case None => None
      case Some(p) =>
        match ParseTail(pieces[1..])
        case None => None
        case Some(ps) => Some([p] + ps)
  }

  /** Reads the text between the parentheses as comma-separated points. */
  function ParseBody(body: string): Option<seq<(string, string)>> {
    if body == [] then Some([])
    else
      var pieces := Split(body, ',');
      match ParsePoint(pieces[0])
      case None => None
      case Some(p) =>
        match ParseTail(pieces[1..])
        case None => None
        case Some(ps) => Some([p] + ps)
  }

  /** Reads a line string back as its (longitude text, latitude text) pairs. */
  function ParseLineString(s: string): Option<seq<(string, string)>> {
    if |s| < |Prefix| + 1 || s[..|Prefix|] != Prefix || s[|s| - 1] != ')' then None
    else ParseBody(s[|Prefix|..|s| - 1])
  }

  /** A number rendered without commas or spaces, as JavaScript renders every number. */
  predicate Plain(t: string) {
    ',' !in t && ' ' !in t
  }

  /** The fields each point was written with: longitude first. */
  function Fields(ps: seq<LatLng>, num: NumberText): (fs: seq<(string, string)>)
    ensures |fs| == |ps| && forall i :: 0 <= i < |ps| ==> fs[i] == (num(ps[i].lng), num(ps[i].lat))
  {
    seq(|ps|, i requires 0 <= i < |ps| => (num(ps[i].lng), num(ps[i].lat)))
  }

  lemma {:induction false} SplitPrefix(t: string, rest: string, c: char)
    requires c !in t
    ensures Split(t + rest, c) == [t + Split(rest, c)[0]] + Split(rest, c)[1..]
  {
    if t != [] {
      assert (t + rest)[1..] == t[1..] + rest;
      SplitPrefix(t[1..], rest, c);
      var r := Split(t[1..] + rest, c);
      var sr := Split(rest, c);
      assert (t + rest)[0] == t[0] && t[0] != c;
      assert Split(t + rest, c) == [[t[0]] + r[0]] + r[1..];
      assert r[0] == t[1..] + sr[0] && r[1..] == sr[1..];
      assert [t[0]] + (t[1..] + sr[0]) == t + sr[0];
    } else {
      var r := Split(rest, c);
      assert t + rest == rest && t + r[0] == r[0];
      assert [r[0]] + r[1..] == r;
    }
  }

  lemma SplitAtSeparator(t: string, rest: string, c: char)
    requires c !in t
    ensures Split(t + [c] + rest, c) == [t] + Split(rest, c)
  {
    SplitPrefix(t, [c] + rest, c);
    assert t + [c] + rest == t + ([c] + rest);
    assert ([c] + rest)[1..] == rest;
    assert t + [] == t;
  }

  lemma SplitWithoutSeparator(t: string, c: char)
    requires c !in t
    ensures Split(t, c) == [t]
  {
    SplitPrefix(t, [], c);
    assert t + [] == t;
  }

  /** Splitting the ", "-joined texts on ',' gives each text, all but the first behind a space. */
  lemma {:induction false} SplitJoin(ts: seq<string>)
    requires |ts| >= 1
    requires forall i :: 0 <= i < |ts| ==> ',' !in ts[i]
    ensures var pieces := Split(Join(ts, ", "), ',');
      |pieces| == |ts| && pieces[0] == ts[0] &&
      forall i :: 1 <= i < |ts| ==> pieces[i] == " " + ts[i]
  {
    if |ts| == 1 {
      SplitWithoutSeparator(ts[0], ',');
    } else {
      var rest := ts[1..];
      SplitJoin(rest);
      var j := Join(rest, ", ");
      assert Join(ts, ", ") == ts[0] + [','] + (" " + j);
      SplitAtSeparator(ts[0], " " + j, ',');
      SplitPrefix(" ", j, ',');
      var pieces := Split(Join(ts, ", "), ',');
      forall i | 1 <= i < |ts| ensures pieces[i] == " " + ts[i] {
        assert ts[i] == rest[i - 1];
      }
    }
  }

  /** A point's text reads back as its two numbers' texts, longitude first. */
  lemma ParsePointText(p: LatLng, num: NumberText)
    requires Plain(num(p.lng)) && Plain(num(p.lat))
    ensures ParsePoint(PointText(p, num)) == Some((num(p.lng), num(p.lat)))
  {
    SplitAtSeparator(num(p.lng), num(p.lat), ' ');
    SplitWithoutSeparator(num(p.lat), ' ');
    assert PointText(p, num) == num(p.lng) + [' '] + num(p.lat);
  }

  lemma {:induction false} ParseTailTexts(pieces: seq<string>, ps: seq<LatLng>, num: NumberText)
    requires |pieces| == |ps|
    requires forall i :: 0 <= i < |ps| ==> Plain(num(ps[i].lng)) && Plain(num(ps[i].lat))
    requires forall i :: 0 <= i < |ps| ==> pieces[i] == " " + PointText(ps[i], num)
    ensures ParseTail(pieces) == Some(Fields(ps, num))
  {
    if ps != [] {
      ParseTailTexts(pieces[1..], ps[1..], num);
      assert pieces[0][1..] == PointText(ps[0], num);
      ParsePointText(ps[0], num);
      assert Fields(ps, num) == [(num(ps[0].lng), num(ps[0].lat))] + Fields(ps[1..], num);
    }
  }

  /**
   * Round trip: the line string reads back as the polyline's points, in
   * order, each longitude first.
   */
  lemma LineStringRoundTrip(ps: seq<LatLng>, num: NumberText)
    requires forall i :: 0 <= i < |ps| ==> Plain(num(ps[i].lng)) && Plain(num(ps[i].lat))
    ensures ParseLineString(LineString(ps, num)) == Some(Fields(ps, num))
  {
    var s := LineString(ps, num);
    var body := Join(PointTexts(ps, num), ", ");
    assert s == Prefix + body + ")";
    assert s[..|Prefix|] == Prefix;
    assert s[|Prefix|..|s| - 1] == body;
    ParseBodyRoundTrip(ps, num);
  }

  /** The ", "-joined point texts read back as the points' fields. */
  lemma ParseBodyRoundTrip(ps: seq<LatLng>, num: NumberText)
    requires forall i :: 0 <= i < |ps| ==> Plain(num(ps[i].lng)) && Plain(num(ps[i].lat))
    ensures ParseBody(Join(PointTexts(ps, num), ", ")) == Some(Fields(ps, num))
  {
    var ts := PointTexts(ps, num);
    var body := Join(ts, ", ");
    if ps == [] {
      assert Fields(ps, num) == [];
    } else {
      forall i | 0 <= i < |ts| ensures ',' !in ts[i] {
        assert ts[i] == num(ps[i].lng) + " " + num(ps[i].lat);
      }
      SplitJoin(ts);
      assert body != [] by {
        assert |ts[0]| >= 1;
        JoinStartsWithFirst(ts, ", ");
      }
      var pieces := Split(body, ',');
      ParsePointText(ps[0], num);
      ParseTailTexts(pieces[1..], ps[1..], num);
      assert Fields(ps, num) == [(num(ps[0].lng), num(ps[0].lat))] + Fields(ps[1..], num);
    }
  }

  lemma JoinStartsWithFirst(parts: seq<string>, sep: string)
    requires |parts| >= 1
    ensures |Join(parts, sep)| >= |parts[0]| && Join(parts, sep)[..|parts[0]|] == parts[0]
  {
    if |parts| > 1 {
      assert Join(parts, sep) == parts[0] + (sep + Join(parts[1..], sep));
    }
  }
}
