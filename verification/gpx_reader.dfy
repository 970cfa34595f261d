/** A reader for the files getgpx writes: it takes the text back apart into the header, one view
    per `<wpt>` element and the closing tag. Reading what the writer produced gives back exactly
    what it was given, as long as the values it writes without escaping (the map URL, the symbol
    and the formatted coordinates) do not contain the character that ends their field. */
module GpxReader {
  import opened Wrappers
  import opened XmlEscape
  import opened GoStrings
  import opened Gpx

  /** One `<wpt>` element as read: its two coordinate attributes, the text of `<name>`, and the
      contents of the optional `<cmt>`, `<link href>` and `<sym>`. */
  datatype WptView = WptView(lat: string, lon: string, name: string,
                             comment: Option<string>, link: Option<string>, symbol: Option<string>)

  /** `t` with the literal `lit` removed from its front, if it starts with it. */
  function Expect(lit: string, t: string): (r: Option<string>)
    ensures r.Some? <==> lit <= t
    ensures r.Some? ==> t == lit + r.value
  {
    if lit <= t then Some(t[|lit|..]) else None
  }

  /** `t` split before its first `stop` character (or at its end). */
  function SplitAt(t: string, stop: char): (r: (string, string))
    ensures t == r.0 + r.1 && stop !in r.0
    ensures r.1 == [] || r.1[0] == stop
    decreases |t|
  {
    if t == [] || t[0] == stop then ([], t)
    else
      var rest := SplitAt(t[1..], stop);
      assert t == [t[0]] + rest.0 + rest.1;
      ([t[0]] + rest.0, rest.1)
  }

  /** An optional element: `open`, text up to `stop`, `close`; absent when `t` does not start
      with `open`. */
  function ReadOptional(open: string, stop: char, close: string, t: string): (r: Option<(Option<string>, string)>)
    ensures r.Some? ==> |r.value.1| <= |t|
  {
    if open <= t then
      var (v, rest) := SplitAt(t[|open|..], stop);
      var after :- Expect(close, rest);
      Some((Some(v), after))
    else Some((None, t))
  }

  /** The start of a `<wpt>` element: both coordinate attributes and the `<name>` child, then
      what follows `</name>`. */
  function ReadStart(t: string): (r: Option<(string, string, string, string)>)
    ensures r.Some? ==> "<wpt" <= t && |r.value.3| < |t|
  {
    PrefixOfPrefix("<wpt", "<wpt lat=\"", t);
    var a :- Expect("<wpt lat=\"", t);
    var (lat, b) := SplitAt(a, '"');
    var c :- Expect("\" lon=\"", b);
    var (lon, d) := SplitAt(c, '"');
    var e :- Expect("\"><name>", d);
    var (name, g) := SplitAt(e, '<');
    var h :- Expect("</name>", g);
    Some((lat, lon, name, h))
  }

  /** The rest of a `<wpt>` element: the optional `<cmt>`, `<link>` and `<sym>` children, in that
      order, then the end tag and its newline, then what follows. */
  function ReadEnd(t: string): (r: Option<(Option<string>, Option<string>, Option<string>, string)>)
    ensures r.Some? ==> |r.value.3| <= |t|
  {
    var cmt :- ReadOptional("<cmt>", '<', "</cmt>", t);
    var link :- ReadOptional("<link href=\"", '"', "\" />", cmt.1);
    var sym :- ReadOptional("<sym>", '<', "</sym>", link.1);
    var rest :- Expect("</wpt>\n", sym.1);
    Some((cmt.0, link.0, sym.0, rest))
  }

  /** One `<wpt>` element at the front of `t`, and what follows it. */
  function ReadWaypoint(t: string): (r: Option<(WptView, string)>)
    ensures r.Some? ==> "<wpt" <= t && |r.value.1| < |t|
  {
    var start :- ReadStart(t);
    var end :- ReadEnd(start.3);
    Some((WptView(start.0, start.1, start.2, end.0, end.1, end.2), end.3))
  }

  /** The waypoints up to the closing tag, which must end the text. */
  function ReadWaypoints(t: string): Option<seq<WptView>>
    decreases |t|
  {
    if "<wpt" <= t then
      var first :- ReadWaypoint(t);
      var others :- ReadWaypoints(first.1);
      Some([first.0] + others)
    else if t == Footer then Some([])
    else None
  }

  /** A whole file: the header, the waypoints, the closing tag. */
  function ReadGpx(t: string): Option<seq<WptView>> {
    var body :- Expect(Header, t);
    ReadWaypoints(body)
  }

  // ---------------------------------------------------------------------------------------------
  // What the writer's output reads back as

  /** The values written without escaping hold no character that would end their field early. */
  ghost predicate Readable(cfg: Config, fmt: Coord -> string) {
    && '"' !in cfg.mapLink
    && '<' !in cfg.symbol
    && forall c: Coord :: '"' !in fmt(c)
  }

  /** The view of the element `writeWaypoint` writes for `w`. */
  function ViewOf(cfg: Config, fmt: Coord -> string, w: Waypoint): WptView
    requires ValidEscapes(w.esc)
  {
    WptView(fmt(w.lat), fmt(w.lon), NameText(w),
            if HasComment(cfg) then Some(CommentText(cfg, w)) else None,
            if HasLink(cfg) then Some(Href(cfg, fmt, w)) else None,
            if HasSymbol(cfg) then Some(cfg.symbol) else None)
  }

  function ViewsOf(cfg: Config, fmt: Coord -> string, ws: seq<Waypoint>): (vs: seq<WptView>)
    requires AllValid(ws)
    ensures |vs| == |ws|
    decreases |ws|
  {
    if ws == [] then [] else [ViewOf(cfg, fmt, ws[0])] + ViewsOf(cfg, fmt, ws[1..])
  }

  /** Splitting at the first `stop` finds the one that starts `b` when `a` holds none. */
  lemma {:induction false} SplitAtFront(a: string, b: string, stop: char)
    requires stop !in a && |b| > 0 && b[0] == stop
    ensures SplitAt(a + b, stop) == (a, b)
    decreases |a|
  {
    if a == [] {
      assert a + b == b;
    } else {
      assert (a + b)[0] == a[0] && (a + b)[1..] == a[1..] + b;
      SplitAtFront(a[1..], b, stop);
      assert [a[0]] + a[1..] == a;
    }
  }

  lemma PrefixOfPrefix(p: string, q: string, t: string)
    requires p <= q
    ensures q <= t ==> p <= t
  {
    if q <= t {
      assert t[..|p|] == q[..|p|];
    }
  }

  lemma ExpectFront(lit: string, rest: string)
    ensures Expect(lit, lit + rest) == Some(rest)
  {
    assert lit <= lit + rest;
    assert (lit + rest)[|lit|..] == rest;
  }

  /** A literal is not at the front of a text whose second character differs from its own. */
  lemma NotAtFront(lit: string, t: string)
    requires |lit| >= 2 && |t| >= 2 && lit[1] != t[1]
    ensures !(lit <= t)
  {
  }

  /** Concatenation regrouped to the right, for the five pieces of the opening tags. */
  lemma Nest5(p0: string, p1: string, p2: string, p3: string, p4: string, rest: string)
    ensures p0 + p1 + p2 + p3 + p4 + rest == p0 + (p1 + (p2 + (p3 + (p4 + rest))))
  {
    AppendAssoc(p0 + p1 + p2 + p3, p4, rest);
    AppendAssoc(p0 + p1 + p2, p3, p4 + rest);
    AppendAssoc(p0 + p1, p2, p3 + (p4 + rest));
    AppendAssoc(p0, p1, p2 + (p3 + (p4 + rest)));
  }

  /** Concatenation regrouped to the right, for the seven pieces of a waypoint element. */
  lemma Nest7(p0: string, p1: string, p2: string, p3: string, p4: string, p5: string, p6: string,
              rest: string)
    ensures p0 + p1 + p2 + p3 + p4 + p5 + p6 + rest
         == p0 + (p1 + (p2 + (p3 + (p4 + (p5 + (p6 + rest))))))
  {
    AppendAssoc(p0 + p1 + p2 + p3 + p4 + p5, p6, rest);
    AppendAssoc(p0 + p1 + p2 + p3 + p4, p5, p6 + rest);
    AppendAssoc(p0 + p1 + p2 + p3, p4, p5 + (p6 + rest));
    AppendAssoc(p0 + p1 + p2, p3, p4 + (p5 + (p6 + rest)));
    AppendAssoc(p0 + p1, p2, p3 + (p4 + (p5 + (p6 + rest))));
    AppendAssoc(p0, p1, p2 + (p3 + (p4 + (p5 + (p6 + rest)))));
  }

  /** An optional element that is there reads back as its text. */
  lemma ReadPresent(open: string, v: string, stop: char, close: string, rest: string)
    requires stop !in v && |close| > 0 && close[0] == stop
    ensures ReadOptional(open, stop, close, open + v + close + rest) == Some((Some(v), rest))
  {
    assert open + v + close + rest == open + (v + (close + rest)) by {
      AppendAssoc(open + v, close, rest);
      AppendAssoc(open, v, close + rest);
    }
    ExpectFront(open, v + (close + rest));
    SplitAtFront(v, close + rest, stop);
    ExpectFront(close, rest);
  }

  /** An optional element that is not there reads as nothing, when the text that follows starts
      differently. */
  lemma ReadAbsent(open: string, stop: char, close: string, t: string)
    requires |open| >= 2 && |t| >= 2 && open[1] != t[1]
    ensures ReadOptional(open, stop, close, t) == Some((None, t))
  {
    NotAtFront(open, t);
  }

  /** The name is character data: no markup character, and every `&` begins a reference. */
  lemma NameHasNoMarkup(w: Waypoint)
    requires ValidEscapes(w.esc)
    ensures NoMarkup(NameText(w)) && AmpersandsEscaped(NameText(w))
  {
    var id, desc := ReplaceInOrder(w.id, w.esc.id), ReplaceInOrder(w.desc, w.esc.desc);
    XmlSafeIsCharData(w.id, w.esc.id);
    XmlSafeIsCharData(w.desc, w.esc.desc);
    assert AmpersandsEscaped("-");
    AmpersandsEscapedAppend(id, "-");
    AmpersandsEscapedAppend(id + "-", desc);
  }

  lemma ReadComment(cfg: Config, w: Waypoint, next: string)
    requires ValidEscapes(w.esc) && |next| >= 2 && next[1] != 'c'
    ensures ReadOptional("<cmt>", '<', "</cmt>", CommentElement(cfg, w) + next)
         == Some((if HasComment(cfg) then Some(CommentText(cfg, w)) else None, next))
  {
    if HasComment(cfg) {
      XmlSafeIsCharData(cfg.rallyTitle, w.esc.title);
      ReadPresent("<cmt>", CommentText(cfg, w), '<', "</cmt>", next);
    } else {
      assert CommentElement(cfg, w) + next == next;
      ReadAbsent("<cmt>", '<', "</cmt>", next);
    }
  }

  lemma ReadLink(cfg: Config, fmt: Coord -> string, w: Waypoint, next: string)
    requires Readable(cfg, fmt) && |next| >= 2 && next[1] != 'l'
    ensures ReadOptional("<link href=\"", '"', "\" />", LinkElement(cfg, fmt, w) + next)
         == Some((if HasLink(cfg) then Some(Href(cfg, fmt, w)) else None, next))
  {
    if HasLink(cfg) {
      assert '"' !in fmt(w.lat) && '"' !in fmt(w.lon);
      ReadPresent("<link href=\"", Href(cfg, fmt, w), '"', "\" />", next);
    } else {
      assert LinkElement(cfg, fmt, w) + next == next;
      ReadAbsent("<link href=\"", '"', "\" />", next);
    }
  }

  lemma ReadSymbol(cfg: Config, next: string)
    requires '<' !in cfg.symbol && |next| >= 2 && next[1] != 's'
    ensures ReadOptional("<sym>", '<', "</sym>", SymbolElement(cfg) + next)
         == Some((if HasSymbol(cfg) then Some(cfg.symbol) else None, next))
  {
    if HasSymbol(cfg) {
      ReadPresent("<sym>", cfg.symbol, '<', "</sym>", next);
    } else {
      assert SymbolElement(cfg) + next == next;
      ReadAbsent("<sym>", '<', "</sym>", next);
    }
  }

  /** The text that follows an optional element starts with a tag whose second character is that
      of the element after it, or of `</wpt>`. */
  lemma SecondCharacter(open: string, mid: string, close: string, next: string)
    requires |open| >= 2
    ensures |open + mid + close + next| >= 2 && (open + mid + close + next)[1] == open[1]
  {
  }

  /** The start tag and name `writeWaypoint` writes read back as the formatted coordinates and
      the escaped name. */
  lemma ReadStartText(fmt: Coord -> string, w: Waypoint, h: string)
    requires ValidEscapes(w.esc) && '"' !in fmt(w.lat) && '"' !in fmt(w.lon)
    ensures ReadStart(OpenTags(fmt, w) + NameText(w) + "</name>" + h)
         == Some((fmt(w.lat), fmt(w.lon), NameText(w), h))
  {
    var name := NameText(w);
    var g := "</name>" + h;
    var e := name + g;
    var d := "\"><name>" + e;
    var c := fmt(w.lon) + d;
    var b := "\" lon=\"" + c;
    var a := fmt(w.lat) + b;
    AppendAssoc(OpenTags(fmt, w) + name, "</name>", h);
    AppendAssoc(OpenTags(fmt, w), name, g);
    Nest5("<wpt lat=\"", fmt(w.lat), "\" lon=\"", fmt(w.lon), "\"><name>", e);
    ExpectFront("<wpt lat=\"", a);
    SplitAtFront(fmt(w.lat), b, '"');
    ExpectFront("\" lon=\"", c);
    SplitAtFront(fmt(w.lon), d, '"');
    ExpectFront("\"><name>", e);
    NameHasNoMarkup(w);
    SplitAtFront(name, g, '<');
    ExpectFront("</name>", h);
  }

  /** The optional children and the end tag read back as exactly the children the configuration
      selects. */
  lemma ReadEndText(cfg: Config, fmt: Coord -> string, w: Waypoint, rest: string)
    requires ValidEscapes(w.esc) && Readable(cfg, fmt)
    ensures ReadEnd(CommentElement(cfg, w) + (LinkElement(cfg, fmt, w) + (SymbolElement(cfg) + ("</wpt>\n" + rest))))
         == Some((ViewOf(cfg, fmt, w).comment, ViewOf(cfg, fmt, w).link, ViewOf(cfg, fmt, w).symbol, rest))
  {
    var t3 := "</wpt>\n" + rest;
    var t2 := SymbolElement(cfg) + t3;
    var t1 := LinkElement(cfg, fmt, w) + t2;
    ReadSymbol(cfg, t3);
    if HasSymbol(cfg) {
      SecondCharacter("<sym>", cfg.symbol, "</sym>", t3);
    }
    ReadLink(cfg, fmt, w, t2);
    if HasLink(cfg) {
      SecondCharacter("<link href=\"", Href(cfg, fmt, w), "\" />", t2);
    }
    ReadComment(cfg, w, t1);
    ExpectFront("</wpt>\n", rest);
  }

  /** Reading back one element `writeWaypoint` wrote gives its coordinates as formatted, its
      escaped name, and exactly the optional children the configuration asked for. */
  lemma ReadWaypointText(cfg: Config, fmt: Coord -> string, w: Waypoint, rest: string)
    requires ValidEscapes(w.esc) && Readable(cfg, fmt)
    ensures ReadWaypoint(WaypointText(cfg, fmt, w) + rest) == Some((ViewOf(cfg, fmt, w), rest))
  {
    var start := OpenTags(fmt, w) + NameText(w) + "</name>";
    var end := CommentElement(cfg, w) + (LinkElement(cfg, fmt, w) + (SymbolElement(cfg) + ("</wpt>\n" + rest)));
    Nest7(OpenTags(fmt, w), NameText(w), "</name>", CommentElement(cfg, w), LinkElement(cfg, fmt, w),
          SymbolElement(cfg), "</wpt>\n", rest);
    AppendAssoc(OpenTags(fmt, w) + NameText(w), "</name>", end);
    AppendAssoc(OpenTags(fmt, w), NameText(w), "</name>" + end);
    assert WaypointText(cfg, fmt, w) + rest == start + end;
    ReadStartText(fmt, w, end);
    ReadEndText(cfg, fmt, w, rest);
  }

  /** Reading back the waypoint texts followed by the closing tag gives one view per waypoint,
      in order. */
  lemma {:induction false} ReadWaypointsText(cfg: Config, fmt: Coord -> string, ws: seq<Waypoint>)
    requires AllValid(ws) && Readable(cfg, fmt)
    ensures ReadWaypoints(WaypointsText(cfg, fmt, ws) + Footer) == Some(ViewsOf(cfg, fmt, ws))
    decreases |ws|
  {
    if ws == [] {
      assert WaypointsText(cfg, fmt, ws) + Footer == Footer;
      NotAtFront("<wpt", Footer);
    } else {
      var others := WaypointsText(cfg, fmt, ws[1..]) + Footer;
      AppendAssoc(WaypointText(cfg, fmt, ws[0]), WaypointsText(cfg, fmt, ws[1..]), Footer);
      ReadWaypointText(cfg, fmt, ws[0], others);
      ReadWaypointsText(cfg, fmt, ws[1..]);
    }
  }

  /** Reading back the whole file getgpx writes gives the header and then exactly the waypoints
      the generation pass emitted, one view each and in row order; none when the bonus query
      fails. */
  lemma ReadGpxDocument(cfg: Config, fmt: Coord -> string, parse: string -> Option<(Coord, Coord)>,
                        query: Option<seq<BonusRow>>, orders: seq<Escapes>)
    requires OrdersFit(query, orders) && Readable(cfg, fmt)
    ensures query.None? ==> ReadGpx(Document(cfg, fmt, parse, query, orders)) == Some([])
    ensures query.Some? ==>
      var ws := Emitted(query.value, orders, parse);
      AllValid(ws) && ReadGpx(Document(cfg, fmt, parse, query, orders)) == Some(ViewsOf(cfg, fmt, ws))
  {
    var body := Body(cfg, fmt, parse, query, orders);
    AppendAssoc(Header, body, Footer);
    ExpectFront(Header, body + Footer);
    if query.None? {
      ReadWaypointsText(cfg, fmt, []);
    } else {
      EmittedValid(query.value, orders, parse);
      ReadWaypointsText(cfg, fmt, Emitted(query.value, orders, parse));
    }
  }
}
