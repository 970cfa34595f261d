# getgpx, modelled in Dafny

getgpx reads rally bonuses from a ScoreMaster database and writes them as waypoints in a
GPX 1.1 file. This project models the part of `getgpx.go` that builds the file text:

- `xmlsafe`, the XML escape: `strings.ReplaceAll` runs once per entry of a five-entry Go map.
  Go visits a map in an unspecified order, and each `range` may use a different one. The model
  takes that order as a parameter: a sequence listing each key once. Facts that hold for every
  order are proved for every order (`XmlEscape`).
- The pre-clean of coordinate text before it goes to the coordinate parser (`Coords`). First the
  doubly encoded degree sign `Â°` (U+00C2 U+00B0) becomes a space, then every apostrophe does.
- `writeWaypoint`, `completeGPX`, the counting loop of `generateWaypoints`, and the order in
  which `main` writes the header, the waypoints and the closing tag (`Gpx`). The output file is a
  class whose one field, the text written so far, is only ever appended to. The rally title, map
  URL, no-link flag and symbol are a `Config` value. The database rows are given as a sequence,
  or as `None` when the bonus query fails.
- A reader for the files the writer produces (`GpxReader`), used as the writer's partner. Reading
  back a written file gives one view per emitted waypoint, with exactly the optional children the
  configuration selects.

The coordinate parser (`coordsparser.Parse`) is a parameter `parse: string -> Option<(Coord, Coord)>`.
The `%v` rendering of a `float64` is a parameter `fmt: Coord -> string`. `Coord` is an opaque type.

`GoStrings` holds `strings.ReplaceAll` for a non-empty pattern; `Wrappers` holds `Option`.

Text is modelled as `seq<char>`. All the patterns and replacements are ASCII except `Â°`.
For valid UTF-8, a byte-level match of the source's patterns is the same as a match on
characters.

The pre-clean replaces only the two-character sequence `Â°`. A correctly encoded lone `°` is not
replaced and reaches the coordinate parser as it is, as `Coords.CleanCoordsExample` shows.

## Model

| member | source | states |
|---|---|---|
| GoStrings.ReplaceAll | getgpx.go:47 | `strings.ReplaceAll` with a non-empty pattern: occurrences are found left to right and do not overlap. The result is no longer than the input when the replacement is no longer than the pattern, and the same length when both have the same length. |
| GoStrings.ReplaceCharAbsent | getgpx.go:47 | Replacing a one-character key that the text does not contain leaves the text unchanged. |
| GoStrings.ReplaceCharAppend | getgpx.go:47 | Replacing a one-character key distributes over concatenation, so it acts character by character. |
| XmlEscape.XmlSafe | getgpx.go:42-50 | The loop's result is the fold of `ReplaceAll` over the iteration order. It has no `<`, `>`, `"` or `'`, and every `&` in it begins one of the five references. |
| XmlEscape.ReplaceInOrderAppend | getgpx.go:46-48 | For any order, escaping a concatenation is the concatenation of the escapes. |
| XmlEscape.EscapedCharStep | getgpx.go:47 | One more replacement turns a character's image under the earlier keys into its image under the longer order. |
| XmlEscape.ReplaceInOrderChar | getgpx.go:46-48 | For any partial order, a single character becomes `EscapedChar`: itself if it is not a visited key, its entity, or, when `&` came later, its entity with the `&` escaped again. |
| XmlEscape.ReplaceInOrderCharwise | getgpx.go:44-49 | For every order, `xmlsafe` is the character-by-character escape. Every character outside `& " < > '` is kept, in place and in order. |
| XmlEscape.EntityTails | getgpx.go:44 | Each entity in the map is `&` followed by characters that are neither `&` nor another key. |
| XmlEscape.XmlSafeIsCharData | getgpx.go:44-49 | For every order, the result has no `<`, `>`, `"` or `'`, and every `&` in it begins `&amp;`, `&quot;`, `&lt;`, `&gt;` or `&#39;`. |
| XmlEscape.XmlSafePlain | getgpx.go:44-49 | Text holding none of the five keys comes back unchanged, for every order. |
| XmlEscape.XmlSafeReescapes | getgpx.go:44-49 | For every order, an existing reference is escaped again: `&amp;` becomes `&amp;amp;`. |
| XmlEscape.XmlSafeAmpFirst | getgpx.go:44-49 | When `&` is visited first, the result is the ordinary escape that maps each key to its entity. |
| XmlEscape.DecodeStandardEscape | getgpx.go:44 | Decoding the five references undoes the ordinary escape, so that escape loses nothing. |
| XmlEscape.DecodeEntity | getgpx.go:44 | Each reference in the map, followed by anything, decodes to its own character followed by the decoded rest. |
| XmlEscape.XmlSafeOrderMatters | getgpx.go:46-48 | The result depends on the order. `<` becomes `&lt;` when `&` comes first and `&amp;lt;` when `<` comes first; the latter decodes to `&lt;`, not `<`. |
| XmlEscape.LessThanAmpFirst | getgpx.go:46-48 | With `&` visited first, `<` becomes `&lt;`. |
| XmlEscape.LessThanAmpLate | getgpx.go:46-48 | With `<` visited before `&`, `<` becomes `&amp;lt;`. |
| Coords.CleanCoords | getgpx.go:142 | The text handed to the parser has no apostrophe, no `Â°` pair, and is no longer than the input. |
| Coords.CleanScan | getgpx.go:142 | The one-pass reference keeps length bounds and the first character, and leaves no apostrophe and no `Â°` pair. |
| Coords.CleanCoordsInOnePass | getgpx.go:142 | The two `ReplaceAll` passes equal the one-pass scan. Each `Â°` pair or apostrophe becomes one space; every other character, a lone `°` included, is kept in order. |
| Coords.CleanCoordsKeeps | getgpx.go:142 | Text with no apostrophe and no `Â°` pair reaches the parser unchanged. |
| Coords.CleanCoordsExample | getgpx.go:142 | `51°30'N` becomes `51°30 N`: a correctly encoded degree sign stays. |
| Coords.CleanCoordsMisencodedExample | getgpx.go:142 | `51Â°30'N` becomes `51 30 N`. |
| Gpx.Header | getgpx.go:20-29 | The text of `gpxheader` with `apptitle` spliced in, line breaks and trailing spaces included. |
| Gpx.GpxFile.Create | getgpx.go:115 | A newly created output file is empty. |
| Gpx.GpxFile.WriteString | getgpx.go:57 | A write appends its argument and changes nothing else. |
| Gpx.WriteWaypoint | getgpx.go:52-69 | Appends exactly one `<wpt>` element and nothing else: start tag and coordinates, escaped id, `-`, escaped description, `</name>`, then `<cmt>`, `<link>` and `<sym>` each only when its condition holds, then `</wpt>` and a newline. |
| Gpx.CompleteGpx | getgpx.go:71-75 | Appends `</gpx>` and a newline. |
| Gpx.Emitted | getgpx.go:139-147 | There are at most as many waypoints as rows, and each carries the escape orders of one of the rows. |
| Gpx.ParsedRows | getgpx.go:142-146 | The indices of exactly the rows whose cleaned coordinate text parses, in strictly increasing order. |
| Gpx.EmittedFromRows | getgpx.go:139-147 | There is one waypoint per parsed row, in row order. The `k`-th waypoint is written for the `k`-th parsed row: its latitude and longitude are that row's parse result, its identifier and description are the row's own, and so are its escape orders. |
| Gpx.EmittedCount | getgpx.go:138-148 | Every row is either emitted once or counted as bad once: waypoints plus bad rows equal rows read. |
| Gpx.PassStep | getgpx.go:139-147 | One more row either adds one to the bad count and emits nothing, or emits that row's waypoint after the earlier ones, with the parser's first value as latitude. |
| Gpx.WaypointsTextSnoc | getgpx.go:139-148 | Emitting one more waypoint appends exactly its text to what earlier waypoints wrote. |
| Gpx.GenerateWaypoints | getgpx.go:125-151 | When the query fails, nothing is written and there is no summary. Otherwise `bonusCount` is the number of rows and `badCoordCount` is the number of rows whose cleaned text does not parse. The file grows by one waypoint per parsed row, in row order. |
| Gpx.GenerateGpx | getgpx.go:115-121 | The file holds the header, then the waypoints, then the closing tag, each exactly once. The closing tag is also written when the bonus query fails. |
| Gpx.PlainTitleComment | getgpx.go:58-60 | A title without markup characters is written into `<cmt>` as it is, and an empty title writes no `<cmt>`. |
| Gpx.EmittedOuterTwo | getgpx.go:139-147 | For three rows where only the middle one fails to parse, the first and last are emitted in order and one row is counted as bad. |
| Gpx.SpringRallyScenario | getgpx.go:138-148 | For rows B01, B02 and B03, where only B02's coordinates fail to parse, exactly B01 and B03 are emitted. One row is counted as bad, and each waypoint's comment is `<cmt>` around the rally title. |
| GpxReader.NameHasNoMarkup | getgpx.go:54-55 | The written name is character data: it has no `<`, `>`, `"` or `'`, so it cannot end the `<name>` element early, and every `&` in it begins one of the five references. |
| GpxReader.ReadComment | getgpx.go:58-60 | The comment child reads back as the escaped title when the title is non-empty, and as absent otherwise. |
| GpxReader.ReadLink | getgpx.go:61-63 | The link child reads back as URL, latitude, `,`, longitude when a URL is set and links are not suppressed, and as absent otherwise. This needs a URL and formatted coordinates without `"` and a symbol without `<`. |
| GpxReader.ReadSymbol | getgpx.go:64-66 | The symbol child reads back as the unescaped symbol when it is non-empty, and as absent otherwise. This needs a symbol without `<`. |
| GpxReader.ReadStartText | getgpx.go:54-56 | The start tag and `<name>` read back as the two formatted coordinates and the escaped `id-desc` name. This needs formatted coordinates without `"`. |
| GpxReader.ReadEndText | getgpx.go:58-67 | The optional children and the end tag read back as exactly the children the configuration selects, in the order comment, link, symbol. This needs a URL and formatted coordinates without `"` and a symbol without `<`. |
| GpxReader.ReadWaypointText | getgpx.go:52-69 | Reading back one written element gives both coordinates as formatted, the escaped `id-desc` name, and exactly the optional children the configuration selects, leaving the text after it untouched. This needs a URL and formatted coordinates without `"` and a symbol without `<`. |
| GpxReader.ReadWaypointsText | getgpx.go:139-148 | The written waypoints followed by the closing tag read back as one view per waypoint, in order. This needs a URL and formatted coordinates without `"` and a symbol without `<`. |
| GpxReader.ReadGpxDocument | getgpx.go:115-121 | The whole file reads back as the header followed by exactly the emitted waypoints in row order. There are none when the bonus query fails. This needs a URL and formatted coordinates without `"` and a symbol without `<`. |

## Left out

- Command-line flags and their defaults: the four values `writeWaypoint` reads are a `Config` value, and the database and output paths are not modelled.
- `fileExists`/`os.Stat`, `sql.Open`, the `panic` when the database cannot be opened, and `defer Close`: operating-system and driver I/O.
- The early returns of `main` before the output file is created: missing `-db` or `-gpx`, a missing database, and a failing title query. In those runs no file is written.
- An ignored error from `os.Create`: the model assumes the file was created.
- The SQL queries and the `rows.Next`/`Scan` machinery. The title is given in `Config`, and an empty title covers the absent row. The bonus rows are a given sequence, already filtered and ordered by the database. A failing `Scan`, which would reuse the previous row's values, is not modelled.
- `coordsparser.Parse` and coordinate formats: the parser is a parameter, and its first value is taken as latitude, as in the code.
- `%v` formatting of `float64` and all floating-point behaviour: the formatter is a parameter on an opaque `Coord`.
- Console output (banner, error messages, the summary line): the summary is returned as a value instead of printed.
- Text is characters, not bytes: input that is not valid UTF-8 is not modelled.
- GpxReader.ReadGpxDocument, GpxReader.ReadWaypointsText, GpxReader.ReadWaypointText, GpxReader.ReadEndText, GpxReader.ReadStartText, GpxReader.ReadLink and GpxReader.ReadSymbol: each holds only when the map URL and the formatted coordinates contain no `"` and the symbol contains no `<`, because the code writes those three without escaping.

## Findings

| source | as written | input that shows it | evidently intended | confidence | as-written member | corrected member |
|---|---|---|---|---|---|---|
| getgpx.go:44-48 | `xmlsafe` applies the five replacements in Go's map iteration order, which is unspecified. When `&` is not visited first, the `&` of an entity written earlier is escaped again. | The text `<` with the order `<`, `&`, `"`, `>`, `'` becomes `&amp;lt;`, which a GPX reader shows as the literal text `&lt;`. | `&` is replaced before the other four keys, so each key becomes its own entity and decoding the references gives the text back. | not executed | XmlEscape.XmlSafeOrderMatters | XmlEscape.DecodeStandardEscape |

The writer keeps the escape as written, with the order as a parameter, because it models what
getgpx writes. `XmlEscape.StandardEscape` is the intended escape: `XmlEscape.XmlSafeAmpFirst`
proves that `xmlsafe` produces it whenever `&` is visited first, and
`XmlEscape.DecodeStandardEscape` proves that decoding undoes it.
