/** The GPX writer of getgpx: the header, one `<wpt>` element per bonus whose coordinates parse,
    and the closing tag, appended to one output file.

    What the program reads from outside is a parameter here: the rally title and the command-line
    settings (`Config`), the bonus rows (a sequence, or `None` when their query fails), the
    coordinate parser (`parse`), the text form of a coordinate (`fmt`), and the order in which
    each `xmlsafe` call happens to visit its map (`Escapes`). */
module Gpx {
  import opened Wrappers
  import opened XmlEscape
  import opened GoStrings
  import opened Coords

  /** A coordinate as the parser returns it (a float64 in the source); it is only ever formatted. */
  type Coord(!new)

  const AppTitle: string := "getgpx v0.1"

  /** The fixed XML prolog and `<gpx>` start tag, line breaks and trailing spaces included. */
  const Header: string :=
    "<?xml version=\"1.0\" encoding=\"utf-8\"?>\n"
    + "<gpx creator=\"Bob Stammers (" + AppTitle + ")\" version=\"1.1\"\n"
    + "xsi:schemaLocation=\"http://www.topografix.com/GPX/1/1 \n"
    + "http://www.topografix.com/GPX/1/1/gpx.xsd\" \n"
    + "xmlns=\"http://www.topografix.com/GPX/1/1\" \n"
    + "xmlns:xsi=\"http://www.w3.org/2001/XMLSchema-instance\">\n"

  const Footer: string := "</gpx>\n"

  /** The four values `writeWaypoint` reads besides its arguments: the rally title and the
      `-map`, `-nolink` and `-symbol` settings. */
  datatype Config = Config(rallyTitle: string, mapLink: string, noMapLink: bool, symbol: string)

  /** One row of the bonus query: identifier, brief description, coordinate text. */
  datatype BonusRow = BonusRow(id: string, desc: string, coords: string)

  /** The map orders of the three `xmlsafe` calls one waypoint makes: on the identifier, on the
      description and on the rally title. */
  datatype Escapes = Escapes(id: seq<char>, desc: seq<char>, title: seq<char>)

  predicate ValidEscapes(e: Escapes) {
    IsIterationOrder(e.id) && IsIterationOrder(e.desc) && IsIterationOrder(e.title)
  }

  /** The arguments of one `writeWaypoint` call, with the map orders its `xmlsafe` calls use. */
  datatype Waypoint = Waypoint(lat: Coord, lon: Coord, id: string, desc: string, esc: Escapes)

  /** The counters printed at the end of the generation pass. */
  datatype Summary = Summary(bonusCount: nat, badCoordCount: nat)

  // ---------------------------------------------------------------------------------------------
  // The text of one waypoint

  predicate HasComment(cfg: Config) { cfg.rallyTitle != "" }

  predicate HasLink(cfg: Config) { cfg.mapLink != "" && !cfg.noMapLink }

  predicate HasSymbol(cfg: Config) { cfg.symbol != "" }

  /** The content of `<name>`: identifier and description, each escaped on its own, joined by `-`. */
  function NameText(w: Waypoint): string
    requires ValidEscapes(w.esc)
  {
    ReplaceInOrder(w.id, w.esc.id) + "-" + ReplaceInOrder(w.desc, w.esc.desc)
  }

  function CommentText(cfg: Config, w: Waypoint): string
    requires ValidEscapes(w.esc)
  {
    ReplaceInOrder(cfg.rallyTitle, w.esc.title)
  }

  /** The link target: map URL and both coordinates, concatenated without any escaping. */
  function Href(cfg: Config, fmt: Coord -> string, w: Waypoint): string {
    cfg.mapLink + fmt(w.lat) + "," + fmt(w.lon)
  }

  function CommentElement(cfg: Config, w: Waypoint): string
    requires ValidEscapes(w.esc)
  {
    if HasComment(cfg) then "<cmt>" + CommentText(cfg, w) + "</cmt>" else ""
  }

  function LinkElement(cfg: Config, fmt: Coord -> string, w: Waypoint): string {
    if HasLink(cfg) then "<link href=\"" + Href(cfg, fmt, w) + "\" />" else ""
  }

  function SymbolElement(cfg: Config): string {
    if HasSymbol(cfg) then "<sym>" + cfg.symbol + "</sym>" else ""
  }

  /** The start tag of `<wpt>`, with both coordinates as attributes, and the start tag of `<name>`. */
  function OpenTags(fmt: Coord -> string, w: Waypoint): string {
    "<wpt lat=\"" + fmt(w.lat) + "\" lon=\"" + fmt(w.lon) + "\"><name>"
  }

  /** Everything one `writeWaypoint` call appends. */
  function WaypointText(cfg: Config, fmt: Coord -> string, w: Waypoint): string
    requires ValidEscapes(w.esc)
  {
    OpenTags(fmt, w) + NameText(w) + "</name>"
    + CommentElement(cfg, w) + LinkElement(cfg, fmt, w) + SymbolElement(cfg) + "</wpt>\n"
  }

  predicate AllValid(ws: seq<Waypoint>) {
    forall k :: 0 <= k < |ws| ==> ValidEscapes(ws[k].esc)
  }

  /** The waypoint texts of `ws`, one after another. */
  function WaypointsText(cfg: Config, fmt: Coord -> string, ws: seq<Waypoint>): string
    requires AllValid(ws)
    decreases |ws|
  {
    if ws == [] then [] else WaypointText(cfg, fmt, ws[0]) + WaypointsText(cfg, fmt, ws[1..])
  }

  // ---------------------------------------------------------------------------------------------
  // The generation pass, as values

  /** The `writeWaypoint` calls the loop over `rows` makes: one per row whose cleaned coordinate
      text parses, in row order, with the first parsed value as latitude. */
  function Emitted(rows: seq<BonusRow>, orders: seq<Escapes>, parse: string -> Option<(Coord, Coord)>)
    : (ws: seq<Waypoint>)
    requires |orders| == |rows|
    ensures |ws| <= |rows|
    ensures forall k :: 0 <= k < |ws| ==> ws[k].esc in orders
    decreases |rows|
  {
    if rows == [] then []
    else
      var n := |rows| - 1;
      var before := Emitted(rows[..n], orders[..n], parse);
      match parse(CleanCoords(rows[n].coords))
      case None => before
      case Some((lat, lon)) => before + [Waypoint(lat, lon, rows[n].id, rows[n].desc, orders[n])]
  }

  /** The rows whose cleaned coordinate text the parser rejects. */
  function CountBad(rows: seq<BonusRow>, parse: string -> Option<(Coord, Coord)>): nat
    decreases |rows|
  {
    if rows == [] then 0
    else
      var n := |rows| - 1;
      CountBad(rows[..n], parse) + (if parse(CleanCoords(rows[n].coords)).None? then 1 else 0)
  }

  predicate OrdersFit(query: Option<seq<BonusRow>>, orders: seq<Escapes>) {
    && (query.Some? ==> |orders| == |query.value|)
    && (forall i :: 0 <= i < |orders| ==> ValidEscapes(orders[i]))
  }

  lemma EmittedValid(rows: seq<BonusRow>, orders: seq<Escapes>, parse: string -> Option<(Coord, Coord)>)
    requires |orders| == |rows| && forall i :: 0 <= i < |orders| ==> ValidEscapes(orders[i])
    ensures AllValid(Emitted(rows, orders, parse))
  {
  }

  /** What the generation pass writes: nothing when the bonus query fails, otherwise the waypoints. */
  function Body(cfg: Config, fmt: Coord -> string, parse: string -> Option<(Coord, Coord)>,
                query: Option<seq<BonusRow>>, orders: seq<Escapes>): string
    requires OrdersFit(query, orders)
  {
    if query.None? then []
    else
      EmittedValid(query.value, orders, parse);
      WaypointsText(cfg, fmt, Emitted(query.value, orders, parse))
  }

  /** The whole output file: header once, the waypoints, the closing tag once. When the bonus
      query fails there are no waypoints, but the closing tag is still written. */
  function Document(cfg: Config, fmt: Coord -> string, parse: string -> Option<(Coord, Coord)>,
                    query: Option<seq<BonusRow>>, orders: seq<Escapes>): string
    requires OrdersFit(query, orders)
  {
    Header + Body(cfg, fmt, parse, query, orders) + Footer
  }

  // ---------------------------------------------------------------------------------------------
  // Lemmas about the pass

  /** Every row is either emitted once or counted as bad once. */
  lemma {:induction false} EmittedCount(rows: seq<BonusRow>, orders: seq<Escapes>,
                                        parse: string -> Option<(Coord, Coord)>)
    requires |orders| == |rows|
    ensures |Emitted(rows, orders, parse)| + CountBad(rows, parse) == |rows|
    decreases |rows|
  {
    if rows != [] {
      var n := |rows| - 1;
      EmittedCount(rows[..n], orders[..n], parse);
    }
  }

  /** The indices of the rows whose cleaned coordinate text parses, in increasing order: exactly
      the rows that reach `writeWaypoint`. */
  function ParsedRows(rows: seq<BonusRow>, parse: string -> Option<(Coord, Coord)>): (idx: seq<nat>)
    ensures forall k :: 0 <= k < |idx| ==> idx[k] < |rows| && parse(CleanCoords(rows[idx[k]].coords)).Some?
    ensures forall k, l :: 0 <= k < l < |idx| ==> idx[k] < idx[l]
    ensures forall j :: 0 <= j < |rows| && parse(CleanCoords(rows[j].coords)).Some? ==> j in idx
    decreases |rows|
  {
    if rows == [] then []
    else
      var n := |rows| - 1;
      var before := ParsedRows(rows[..n], parse);
      if parse(CleanCoords(rows[n].coords)).Some? then before + [n] else before
  }

  /** The `k`-th waypoint is written for the `k`-th parsed row: its coordinates are that row's
      parse result, its identifier and description are the row's, and its escape orders are the
      ones that row's `xmlsafe` calls use. */
  lemma {:induction false} EmittedFromRows(rows: seq<BonusRow>, orders: seq<Escapes>,
                                           parse: string -> Option<(Coord, Coord)>)
    requires |orders| == |rows|
    ensures var ws, idx := Emitted(rows, orders, parse), ParsedRows(rows, parse);
      && |ws| == |idx|
      && forall k :: 0 <= k < |ws| ==>
           && idx[k] < |rows|
           && parse(CleanCoords(rows[idx[k]].coords)) == Some((ws[k].lat, ws[k].lon))
           && ws[k].id == rows[idx[k]].id && ws[k].desc == rows[idx[k]].desc
           && ws[k].esc == orders[idx[k]]
    decreases |rows|
  {
    if rows != [] {
      var n := |rows| - 1;
      EmittedFromRows(rows[..n], orders[..n], parse);
    }
  }

  lemma {:induction false} WaypointsTextSnoc(cfg: Config, fmt: Coord -> string, ws: seq<Waypoint>, w: Waypoint)
    requires AllValid(ws) && ValidEscapes(w.esc)
    ensures AllValid(ws + [w])
    ensures WaypointsText(cfg, fmt, ws + [w]) == WaypointsText(cfg, fmt, ws) + WaypointText(cfg, fmt, w)
    decreases |ws|
  {
    if ws == [] {
      assert [w][1..] == [];
    } else {
      assert (ws + [w])[1..] == ws[1..] + [w];
      WaypointsTextSnoc(cfg, fmt, ws[1..], w);
      AppendAssoc(WaypointText(cfg, fmt, ws[0]), WaypointsText(cfg, fmt, ws[1..]), WaypointText(cfg, fmt, w));
    }
  }

  /** One more row: it is counted as bad, or its waypoint is emitted after the earlier ones. */
  lemma PassStep(rows: seq<BonusRow>, orders: seq<Escapes>, parse: string -> Option<(Coord, Coord)>, i: nat)
    requires |orders| == |rows| && i < |rows|
    ensures CountBad(rows[..i + 1], parse)
         == CountBad(rows[..i], parse) + if parse(CleanCoords(rows[i].coords)).None? then 1 else 0
    ensures Emitted(rows[..i + 1], orders[..i + 1], parse)
         == match parse(CleanCoords(rows[i].coords))
            case None => Emitted(rows[..i], orders[..i], parse)
            case Some((lat, lon)) =>
              Emitted(rows[..i], orders[..i], parse) + [Waypoint(lat, lon, rows[i].id, rows[i].desc, orders[i])]
  {
    assert rows[..i + 1][..i] == rows[..i] && orders[..i + 1][..i] == orders[..i];
    assert rows[..i + 1][i] == rows[i] && orders[..i + 1][i] == orders[i];
  }

  /** Writing one more waypoint after the earlier ones gives the text of the longer list. */
  lemma FileStep(start: string, cfg: Config, fmt: Coord -> string, ws: seq<Waypoint>, w: Waypoint)
    requires AllValid(ws) && ValidEscapes(w.esc)
    ensures AllValid(ws + [w])
    ensures start + WaypointsText(cfg, fmt, ws) + WaypointText(cfg, fmt, w)
         == start + WaypointsText(cfg, fmt, ws + [w])
  {
    WaypointsTextSnoc(cfg, fmt, ws, w);
    AppendAssoc(start, WaypointsText(cfg, fmt, ws), WaypointText(cfg, fmt, w));
  }

  // ---------------------------------------------------------------------------------------------
  // The output file and the imperative writer

  /** The output file: what has been written to it so far. Writes only ever append. */
  class GpxFile {
    var contents: string

    /** `os.Create`: a new, empty file. */
    constructor Create()
      ensures contents == []
    {
      contents := [];
    }

    method WriteString(s: string)
      modifies this
      ensures contents == old(contents) + s
    {
      contents := contents + s;
    }
  }

  /** `writeWaypoint`: appends one `<wpt>` element and changes nothing else. */
  method WriteWaypoint(f: GpxFile, cfg: Config, fmt: Coord -> string,
                       lat: Coord, lon: Coord, bonusId: string, briefDesc: string, esc: Escapes)
    requires ValidEscapes(esc)
    modifies f
    ensures f.contents == old(f.contents) + WaypointText(cfg, fmt, Waypoint(lat, lon, bonusId, briefDesc, esc))
  {
    ghost var w := Waypoint(lat, lon, bonusId, briefDesc, esc);
    var id := XmlSafe(bonusId, esc.id);
    var start := "<wpt lat=\"" + fmt(lat) + "\" lon=\"" + fmt(lon) + "\"><name>";
    var wpt := start + id;
    var desc := XmlSafe(briefDesc, esc.desc);
    wpt := wpt + "-" + desc;
    wpt := wpt + "</name>";
    AppendAssoc(start, id, "-");
    AppendAssoc(start, id + "-", desc);
    f.WriteString(wpt);
    assert wpt == OpenTags(fmt, w) + NameText(w) + "</name>";
    ghost var c0 := f.contents;
    if cfg.rallyTitle != "" {
      var title := XmlSafe(cfg.rallyTitle, esc.title);
      f.WriteString("<cmt>" + title + "</cmt>");
    } else {
      assert CommentElement(cfg, w) == [];
      AppendNothing(c0);
    }
    ghost var c1 := f.contents;
    assert c1 == c0 + CommentElement(cfg, w);
    if cfg.mapLink != "" && !cfg.noMapLink {
      var href := cfg.mapLink + fmt(lat) + "," + fmt(lon);
      f.WriteString("<link href=\"" + href + "\" />");
    } else {
      assert LinkElement(cfg, fmt, w) == [];
      AppendNothing(c1);
    }
    ghost var c2 := f.contents;
    assert c2 == c1 + LinkElement(cfg, fmt, w);
    if cfg.symbol != "" {
      f.WriteString("<sym>" + cfg.symbol + "</sym>");
    } else {
      assert SymbolElement(cfg) == [];
      AppendNothing(c2);
    }
    assert f.contents == c2 + SymbolElement(cfg);
    f.WriteString("</wpt>\n");
    RegroupAppends(old(f.contents), wpt, CommentElement(cfg, w), LinkElement(cfg, fmt, w),
                   SymbolElement(cfg), "</wpt>\n");
  }

  lemma AppendNothing(a: string)
    ensures a + [] == a
  {
  }

  /** Appending five pieces one at a time is appending their concatenation. */
  lemma RegroupAppends(a: string, p0: string, p1: string, p2: string, p3: string, p4: string)
    ensures a + p0 + p1 + p2 + p3 + p4 == a + (p0 + p1 + p2 + p3 + p4)
  {
    AppendAssoc(a, p0, p1);
    AppendAssoc(a, p0 + p1, p2);
    AppendAssoc(a, p0 + p1 + p2, p3);
    AppendAssoc(a, p0 + p1 + p2 + p3, p4);
  }

  /** `completeGPX`: appends the closing tag. */
  method CompleteGpx(f: GpxFile)
    modifies f
    ensures f.contents == old(f.contents) + Footer
  {
    f.WriteString(Footer);
  }

  /** `generateWaypoints`: when the bonus query fails, nothing is written and no summary is
      produced; otherwise every row is counted, a row whose coordinates do not parse is counted as
      bad and skipped, and every other row gets its waypoint. */
  method GenerateWaypoints(f: GpxFile, cfg: Config, fmt: Coord -> string,
                           parse: string -> Option<(Coord, Coord)>,
                           query: Option<seq<BonusRow>>, orders: seq<Escapes>)
    returns (summary: Option<Summary>)
    requires OrdersFit(query, orders)
    modifies f
    ensures query.None? ==> summary.None? && f.contents == old(f.contents)
    ensures query.Some? ==>
      && AllValid(Emitted(query.value, orders, parse))
      && summary == Some(Summary(|query.value|, CountBad(query.value, parse)))
      && f.contents == old(f.contents) + WaypointsText(cfg, fmt, Emitted(query.value, orders, parse))
  {
    if query.None? {
      return None;
    }
    var rows := query.value;
    var bonusCount, badCoordCount := 0, 0;
    for i := 0 to |rows|
      invariant bonusCount == i
      invariant badCoordCount == CountBad(rows[..i], parse)
      invariant AllValid(Emitted(rows[..i], orders[..i], parse))
      invariant f.contents == old(f.contents) + WaypointsText(cfg, fmt, Emitted(rows[..i], orders[..i], parse))
    {
      PassStep(rows, orders, parse, i);
      var bonus, title, coords := rows[i].id, rows[i].desc, rows[i].coords;
      bonusCount := bonusCount + 1;
      var parsed := parse(CleanCoords(coords));
      if parsed.None? {
        badCoordCount := badCoordCount + 1;
        continue;
      }
      var (lat, lon) := parsed.value;
      FileStep(old(f.contents), cfg, fmt, Emitted(rows[..i], orders[..i], parse),
               Waypoint(lat, lon, bonus, title, orders[i]));
      WriteWaypoint(f, cfg, fmt, lat, lon, bonus, title, orders[i]);
    }
    assert rows[..|rows|] == rows && orders[..|rows|] == orders;
    summary := Some(Summary(bonusCount, badCoordCount));
  }

  /** `main` from the moment the output file is created: header, waypoints, closing tag. */
  method GenerateGpx(cfg: Config, fmt: Coord -> string, parse: string -> Option<(Coord, Coord)>,
                     query: Option<seq<BonusRow>>, orders: seq<Escapes>)
    returns (f: GpxFile, summary: Option<Summary>)
    requires OrdersFit(query, orders)
    ensures fresh(f)
    ensures f.contents == Document(cfg, fmt, parse, query, orders)
    ensures summary.Some? <==> query.Some?
    ensures query.Some? ==> summary == Some(Summary(|query.value|, CountBad(query.value, parse)))
  {
    f := new GpxFile.Create();
    f.WriteString(Header);
    assert f.contents == Header;
    summary := GenerateWaypoints(f, cfg, fmt, parse, query, orders);
    assert f.contents == Header + Body(cfg, fmt, parse, query, orders) by {
      assert query.None? ==> Header + [] == Header;
    }
    CompleteGpx(f);
  }

  // ---------------------------------------------------------------------------------------------
  // A worked run

  /** Three bonuses: decimal coordinates, text no parser accepts, and degrees-minutes. */
  const SpringRallyRows: seq<BonusRow> := [
    BonusRow("B01", "Church", "51.5,-0.1"),
    BonusRow("B02", "Pub", "bogus"),
    BonusRow("B03", "Bridge", "51" + [Degree] + "30'N 0" + [Degree] + "10'W")
  ]

  /** Three rows of which only the middle one fails to parse: the outer two are emitted, in order,
      and one row is counted as bad. */
  lemma {:induction false} EmittedOuterTwo(rows: seq<BonusRow>, orders: seq<Escapes>,
                                           parse: string -> Option<(Coord, Coord)>)
    requires |rows| == 3 && |orders| == 3
    requires parse(CleanCoords(rows[0].coords)).Some?
    requires parse(CleanCoords(rows[1].coords)).None?
    requires parse(CleanCoords(rows[2].coords)).Some?
    ensures
      var ws := Emitted(rows, orders, parse);
      && |ws| == 2 && ws[0].id == rows[0].id && ws[1].id == rows[2].id
      && ws[0].esc == orders[0] && ws[1].esc == orders[2]
      && CountBad(rows, parse) == 1
  {
    assert rows[..2][..1] == rows[..1] && rows[..1][..0] == [] && rows[..3] == rows;
    assert orders[..2][..1] == orders[..1] && orders[..1][..0] == [] && orders[..3] == orders;
    assert rows[..2][1] == rows[1] && rows[..1][0] == rows[0];
    assert orders[..1][0] == orders[0];
    assert CountBad(rows[..1], parse) == 0;
    assert CountBad(rows[..2], parse) == 1;
    assert Emitted(rows[..2], orders[..2], parse) == Emitted(rows[..1], orders[..1], parse);
  }

  /** With a parser that accepts the first and third coordinate texts and rejects the second, the
      pass emits the waypoints of B01 and B03 only, both with the rally title as comment, and
      counts three bonuses of which one has bad coordinates. */
  lemma SpringRallyScenario(cfg: Config, parse: string -> Option<(Coord, Coord)>, orders: seq<Escapes>)
    requires cfg.rallyTitle == "Spring Rally"
    requires |orders| == 3 && forall i :: 0 <= i < |orders| ==> ValidEscapes(orders[i])
    requires parse(CleanCoords(SpringRallyRows[0].coords)).Some?
    requires parse(CleanCoords(SpringRallyRows[1].coords)).None?
    requires parse(CleanCoords(SpringRallyRows[2].coords)).Some?
    ensures
      var ws := Emitted(SpringRallyRows, orders, parse);
      && |ws| == 2 && ws[0].id == "B01" && ws[1].id == "B03"
      && CountBad(SpringRallyRows, parse) == 1
      && CommentElement(cfg, ws[0]) == "<cmt>" + cfg.rallyTitle + "</cmt>"
      && CommentElement(cfg, ws[1]) == "<cmt>" + cfg.rallyTitle + "</cmt>"
  {
    EmittedOuterTwo(SpringRallyRows, orders, parse);
    var ws := Emitted(SpringRallyRows, orders, parse);
    SpringRallyTitlePlain();
    PlainTitleComment(cfg, ws[0]);
    PlainTitleComment(cfg, ws[1]);
  }

  lemma SpringRallyTitlePlain()
    ensures forall i :: 0 <= i < |"Spring Rally"| ==> "Spring Rally"[i] !in Entities
  {
    forall i | 0 <= i < |"Spring Rally"|
      ensures "Spring Rally"[i] !in Entities
    {
      assert "Spring Rally"[i] in "Spring Rally";
    }
  }

  /** A title without markup characters is the comment as it is. */
  lemma PlainTitleComment(cfg: Config, w: Waypoint)
    requires ValidEscapes(w.esc) && forall i :: 0 <= i < |cfg.rallyTitle| ==> cfg.rallyTitle[i] !in Entities
    ensures CommentElement(cfg, w) == if cfg.rallyTitle == "" then "" else "<cmt>" + cfg.rallyTitle + "</cmt>"
  {
    XmlSafePlain(cfg.rallyTitle, w.esc.title);
  }
}
