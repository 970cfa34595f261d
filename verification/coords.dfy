/** The pre-cleaning of a bonus's coordinate text before it goes to the coordinate parser: the
    mis-encoded degree sign `Â°` (U+00C2 U+00B0, what a UTF-8 `°` becomes when it is encoded a
    second time) and then every apostrophe become spaces. */
module Coords {
  import opened GoStrings

  const Circumflex: char := 'Â'
  const Degree: char := '°'
  /** `Â°`: the degree sign encoded twice. */
  const MisencodedDegree: string := [Circumflex, Degree]

  /** `t` holds the pair `Â°` somewhere. */
  predicate HasMisencodedDegree(t: string) {
    exists i :: 0 <= i < |t| - 1 && t[i] == Circumflex && t[i + 1] == Degree
  }

  /** The argument getgpx hands to the coordinate parser: two `strings.ReplaceAll` calls. */
  function CleanCoords(coords: string): (r: string)
    ensures '\'' !in r && !HasMisencodedDegree(r)
    ensures |r| <= |coords|
  {
    CleanCoordsInOnePass(coords);
    ReplaceAll(ReplaceAll(coords, MisencodedDegree, " "), "'", " ")
  }

  /** The same cleaning as one left-to-right scan: a `Â°` pair or an apostrophe becomes a space,
      every other character (a lone `°` among them) is kept, in order. */
  function CleanScan(s: string): (r: string)
    ensures |r| <= |s| && (|r| == 0 <==> |s| == 0)
    ensures |s| > 0 ==> r[0] == ' ' || r[0] == s[0]
    ensures '\'' !in r && !HasMisencodedDegree(r)
    decreases |s|
  {
    if s == [] then []
    else if |s| >= 2 && s[0] == Circumflex && s[1] == Degree then " " + CleanScan(s[2..])
    else if s[0] == '\'' then " " + CleanScan(s[1..])
    else
      var rest := CleanScan(s[1..]);
      var r := [s[0]] + rest;
      assert forall i :: 1 <= i < |r| ==> r[i] == rest[i - 1];
      r
  }

  /** Replacing a single character by a space commutes with prefixing. */
  lemma ReplaceApostropheCons(x: char, t: string)
    ensures ReplaceAll([x] + t, "'", " ") == (if x == '\'' then " " else [x]) + ReplaceAll(t, "'", " ")
  {
    ReplaceCharAppend([x], t, '\'', " ");
    assert "'" == ['\''];
    if x == '\'' {
      assert ['\''] <= [x];
      assert [x][1..] == [];
    } else {
      ReplaceCharAbsent([x], '\'', " ");
    }
  }

  /** The two replacement passes are the one-pass scan. */
  lemma {:induction false} CleanCoordsInOnePass(s: string)
    ensures ReplaceAll(ReplaceAll(s, MisencodedDegree, " "), "'", " ") == CleanScan(s)
    decreases |s|
  {
    var first := ReplaceAll(s, MisencodedDegree, " ");
    if s == [] {
    } else if |s| >= 2 && s[0] == Circumflex && s[1] == Degree {
      assert MisencodedDegree <= s;
      assert first == " " + ReplaceAll(s[2..], MisencodedDegree, " ");
      ReplaceApostropheCons(' ', ReplaceAll(s[2..], MisencodedDegree, " "));
      CleanCoordsInOnePass(s[2..]);
    } else {
      if |s| >= 2 {
        assert s[..2] != MisencodedDegree by {
          assert s[..2][0] == s[0] && s[..2][1] == s[1];
        }
        assert first == [s[0]] + ReplaceAll(s[1..], MisencodedDegree, " ");
      } else {
        assert first == s == [s[0]] + s[1..];
        assert ReplaceAll(s[1..], MisencodedDegree, " ") == [];
      }
      ReplaceApostropheCons(s[0], ReplaceAll(s[1..], MisencodedDegree, " "));
      CleanCoordsInOnePass(s[1..]);
    }
  }

  /** Text with no apostrophe and no `Â°` pair goes to the parser as it is. */
  lemma {:induction false} CleanCoordsKeeps(s: string)
    requires '\'' !in s && !HasMisencodedDegree(s)
    ensures CleanCoords(s) == s
  {
    CleanCoordsInOnePass(s);
    CleanScanKeeps(s);
  }

  lemma {:induction false} CleanScanKeeps(s: string)
    requires '\'' !in s && !HasMisencodedDegree(s)
    ensures CleanScan(s) == s
    decreases |s|
  {
    if s != [] {
      assert !(|s| >= 2 && s[0] == Circumflex && s[1] == Degree);
      forall i | 0 <= i < |s[1..]| - 1
        ensures !(s[1..][i] == Circumflex && s[1..][i + 1] == Degree)
      {
        assert s[1..][i] == s[i + 1] && s[1..][i + 1] == s[i + 2];
      }
      CleanScanKeeps(s[1..]);
      assert s == [s[0]] + s[1..];
    }
  }

  /** Degrees-minutes text with a correctly encoded `°`: the degree sign stays, the minutes
      marks become spaces. */
  lemma CleanCoordsExample()
    ensures CleanCoords("51" + [Degree] + "30'N") == "51" + [Degree] + "30 N"
  {
    var s := "51" + [Degree] + "30'N";
    CleanCoordsInOnePass(s);
    assert s[3..] == "30'N";
    CleanScanMinutes();
    assert CleanScan(s[2..]) == [Degree] + "30 N";
    assert CleanScan(s[1..]) == "1" + [Degree] + "30 N";
  }

  /** Degrees-minutes text with a doubly encoded `°`: the pair and the minutes mark each become
      one space. */
  lemma CleanCoordsMisencodedExample()
    ensures CleanCoords("51" + MisencodedDegree + "30'N") == "51 30 N"
  {
    var s := "51" + MisencodedDegree + "30'N";
    CleanCoordsInOnePass(s);
    assert s[4..] == "30'N";
    CleanScanMinutes();
    assert CleanScan(s[2..]) == " 30 N";
    assert CleanScan(s[1..]) == "1 30 N";
  }

  lemma CleanScanMinutes()
    ensures CleanScan("30'N") == "30 N"
  {
    var m := "30'N";
    assert m[1..] == "0'N" && m[2..] == "'N" && m[3..] == "N" && m[4..] == [];
    assert CleanScan("N") == "N";
    assert CleanScan("'N") == " N";
    assert CleanScan("0'N") == "0 N";
  }
}
