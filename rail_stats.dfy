/** stats.py: split the lines into the hand-drawn ones (named "line
    added") and the others, and sum the great-circle distances between
    consecutive coordinates of each group. */
module RailStats {
  import opened Common
  import opened GeoJson

  // ---------------------------------------------------------------------
  // Names

  /** The characters Python's `str.strip()` removes: those for which
      `str.isspace` holds. */
  predicate IsSpace(c: char) {
    var n := c as int;
    || 9 <= n <= 13 || 28 <= n <= 32 || n == 0x85 || n == 0xA0 || n == 0x1680
    || 0x2000 <= n <= 0x200A || n == 0x2028 || n == 0x2029 || n == 0x202F
    || n == 0x205F || n == 0x3000
  }

  /** `s.lstrip()`. */
  function StripLeft(s: string): string {
    if |s| > 0 && IsSpace(s[0]) then StripLeft(s[1..]) else s
  }

  /** `s.rstrip()`. */
  function StripRight(s: string): string {
    if |s| > 0 && IsSpace(s[|s| - 1]) then StripRight(s[..|s| - 1]) else s
  }

  /** `s.strip()`. */
  function Strip(s: string): string {
    StripRight(StripLeft(s))
  }

  /** `lstrip` drops exactly the leading whitespace. */
  lemma {:induction false} StripLeftSpec(s: string)
    ensures |StripLeft(s)| <= |s| && StripLeft(s) == s[|s| - |StripLeft(s)|..]
    ensures |StripLeft(s)| > 0 ==> !IsSpace(StripLeft(s)[0])
    ensures forall i :: 0 <= i < |s| - |StripLeft(s)| ==> IsSpace(s[i])
  {
    if |s| > 0 && IsSpace(s[0]) {
      StripLeftSpec(s[1..]);
      forall i | 1 <= i < |s| - |StripLeft(s)| ensures IsSpace(s[i]) {
        assert s[i] == s[1..][i - 1];
      }
    }
  }

  /** `rstrip` drops exactly the trailing whitespace. */
  lemma {:induction false} StripRightSpec(s: string)
    ensures |StripRight(s)| <= |s| && StripRight(s) == s[..|StripRight(s)|]
    ensures |StripRight(s)| > 0 ==> !IsSpace(StripRight(s)[|StripRight(s)| - 1])
    ensures forall i :: |StripRight(s)| <= i < |s| ==> IsSpace(s[i])
  {
    if |s| > 0 && IsSpace(s[|s| - 1]) {
      StripRightSpec(s[..|s| - 1]);
    }
  }

  /** `strip` gives the run of `s` between its leading and its trailing
      whitespace, which itself neither starts nor ends with whitespace. */
  lemma StripSpec(s: string)
    ensures |StripLeft(s)| <= |s|
    ensures var r, i := Strip(s), |s| - |StripLeft(s)|;
      && (|r| > 0 ==> !IsSpace(r[0]) && !IsSpace(r[|r| - 1]))
      && i + |r| <= |s| && r == s[i..i + |r|]
      && (forall j :: 0 <= j < i ==> IsSpace(s[j]))
      && (forall j :: i + |r| <= j < |s| ==> IsSpace(s[j]))
  {
    var l := StripLeft(s);
    StripLeftSpec(s);
    StripRightSpec(l);
    var r := Strip(s);
    var i := |s| - |l|;
    assert r == s[i..i + |r|];
    forall j | i + |r| <= j < |s| ensures IsSpace(s[j]) {
      assert s[j] == l[j - i];
    }
  }

  /** `str.lower()` on the letters that can lower-case to a letter of
      "line added": the ASCII upper-case letters. */
  function LowerChar(c: char): char {
    if 'A' <= c <= 'Z' then (c as int - 'A' as int + 'a' as int) as char else c
  }

  function Lower(s: string): (r: string)
    ensures |r| == |s| && forall i :: 0 <= i < |s| ==> r[i] == LowerChar(s[i])
  {
    seq(|s|, i requires 0 <= i < |s| => LowerChar(s[i]))
  }

  const LineAdded: string := "line added"

  /** `feature["properties"].get("name", "").strip().lower() == "line added"`. */
  predicate IsAdded(f: Feature) {
    Lower(Strip(if f.name.Some? then f.name.value else "")) == LineAdded
  }

  /** Leading whitespace before text that does not start with whitespace
      is exactly what `lstrip` removes. */
  lemma {:induction false} StripLeftPadding(pre: string, t: string)
    requires forall i :: 0 <= i < |pre| ==> IsSpace(pre[i])
    requires |t| > 0 ==> !IsSpace(t[0])
    ensures StripLeft(pre + t) == t
  {
    if |pre| > 0 {
      assert (pre + t)[1..] == pre[1..] + t;
      StripLeftPadding(pre[1..], t);
    } else {
      assert pre + t == t;
    }
  }

  /** Trailing whitespace after text that does not end with whitespace is
      exactly what `rstrip` removes. */
  lemma {:induction false} StripRightPadding(t: string, post: string)
    requires forall i :: 0 <= i < |post| ==> IsSpace(post[i])
    requires |t| > 0 ==> !IsSpace(t[|t| - 1])
    ensures StripRight(t + post) == t
  {
    if |post| > 0 {
      var last := |post| - 1;
      assert (t + post)[..|t + post| - 1] == t + post[..last];
      assert (t + post)[|t + post| - 1] == post[last];
      StripRightPadding(t, post[..last]);
    } else {
      assert t + post == t;
    }
  }

  /** Surrounding whitespace and letter case do not matter: any name made
      of whitespace, a text that lower-cases to "line added", and more
      whitespace passes the name test. */
  lemma NameTestIgnoresPadding(pre: string, core: string, post: string, id: Option<int>, coords: seq<Position>)
    requires forall i :: 0 <= i < |pre| ==> IsSpace(pre[i])
    requires forall i :: 0 <= i < |post| ==> IsSpace(post[i])
    requires Lower(core) == LineAdded
    ensures IsAdded(Feature(Some(pre + core + post), id, coords))
  {
    assert |core| == 10;
    assert LowerChar(core[0]) == 'l' && LowerChar(core[9]) == 'd';
    StripRightPadding(core, post);
    assert pre + core + post == pre + (core + post);
    StripLeftPadding(pre, core + post);
  }

  /** One instance of NameTestIgnoresPadding, spelled out. */
  lemma AddedExample()
    ensures IsAdded(Feature(Some(" Line Added\n"), None, []))
  {
    assert " Line Added\n" == " " + "Line Added" + "\n";
    NameTestIgnoresPadding(" ", "Line Added", "\n", None, []);
  }

  /** An unnamed feature counts as "" and is not hand-drawn. */
  lemma UnnamedNotAdded(f: Feature)
    requires f.name.None?
    ensures !IsAdded(f)
  {
    assert |Lower(Strip(""))| == 0;
  }

  // ---------------------------------------------------------------------
  // Partition (stats.py:21-28)

  /** The coordinate lists of the features in group `added`, in feature
      order. */
  function Group(fs: seq<Feature>, added: bool): seq<seq<Position>> {
    if |fs| == 0 then []
    else
      var last := fs[|fs| - 1];
      Group(fs[..|fs| - 1], added) + (if IsAdded(last) == added then [last.coords] else [])
  }

  /** The indices of the features in group `added`. */
  function GroupIndices(fs: seq<Feature>, added: bool): seq<nat> {
    if |fs| == 0 then []
    else
      GroupIndices(fs[..|fs| - 1], added) + (if IsAdded(fs[|fs| - 1]) == added then [|fs| - 1] else [])
  }

  /** A group's indices increase: feature order is kept. */
  lemma {:induction false} GroupIndicesIncreasing(fs: seq<Feature>, added: bool)
    ensures forall i :: 0 <= i < |GroupIndices(fs, added)| ==> GroupIndices(fs, added)[i] < |fs|
    ensures forall i, j :: 0 <= i < j < |GroupIndices(fs, added)| ==>
      GroupIndices(fs, added)[i] < GroupIndices(fs, added)[j]
  {
    if |fs| > 0 {
      var init := fs[..|fs| - 1];
      GroupIndicesIncreasing(init, added);
      var ix0 := GroupIndices(init, added);
      var ix := GroupIndices(fs, added);
      assert ix == ix0 + (if IsAdded(fs[|fs| - 1]) == added then [|fs| - 1] else []);
      forall i | 0 <= i < |ix| ensures ix[i] < |fs| {
        if i < |ix0| { assert ix[i] == ix0[i]; }
      }
      forall i, j | 0 <= i < j < |ix| ensures ix[i] < ix[j] {
        if j < |ix0| { assert ix[i] == ix0[i] && ix[j] == ix0[j]; }
        else { assert ix[i] == ix0[i] < |init| && ix[j] == |fs| - 1; }
      }
    }
  }

  /** A group holds the indices of the features whose name test gives its
      flag, and exactly those. */
  lemma {:induction false} GroupIndicesMembers(fs: seq<Feature>, added: bool)
    ensures forall k :: k in GroupIndices(fs, added) <==> 0 <= k < |fs| && IsAdded(fs[k]) == added
  {
    if |fs| > 0 {
      var init := fs[..|fs| - 1];
      GroupIndicesMembers(init, added);
      var ix0 := GroupIndices(init, added);
      var last := if IsAdded(fs[|fs| - 1]) == added then [|fs| - 1] else [];
      assert GroupIndices(fs, added) == ix0 + last;
      forall k ensures k in ix0 + last <==> 0 <= k < |fs| && IsAdded(fs[k]) == added {
        if 0 <= k < |init| {
          assert init[k] == fs[k];
        }
      }
    }
  }

  /** The group's entries are the coordinate lists of those features. */
  lemma {:induction false} GroupByIndices(fs: seq<Feature>, added: bool)
    ensures var ix := GroupIndices(fs, added);
      && |Group(fs, added)| == |ix|
      && (forall i :: 0 <= i < |ix| ==> ix[i] < |fs| && Group(fs, added)[i] == fs[ix[i]].coords)
  {
    if |fs| > 0 {
      var init := fs[..|fs| - 1];
      GroupByIndices(init, added);
      assert forall k :: 0 <= k < |init| ==> init[k] == fs[k];
    }
  }

  /** Every feature lands in exactly one of the two groups. */
  lemma {:induction false} GroupsPartition(fs: seq<Feature>)
    ensures |Group(fs, true)| + |Group(fs, false)| == |fs|
    ensures forall k :: 0 <= k < |fs| ==>
      (k in GroupIndices(fs, true) <==> k !in GroupIndices(fs, false))
  {
    if |fs| > 0 {
      GroupsPartition(fs[..|fs| - 1]);
    }
    GroupIndicesMembers(fs, true);
    GroupIndicesMembers(fs, false);
  }

  /** The partition loop. */
  method PartitionByName(fs: seq<Feature>) returns (added: seq<seq<Position>>, others: seq<seq<Position>>)
    ensures added == Group(fs, true) && others == Group(fs, false)
  {
    added, others := [], [];
    var k := 0;
    while k < |fs|
      invariant k <= |fs|
      invariant added == Group(fs[..k], true) && others == Group(fs[..k], false)
    {
      assert fs[..k + 1][..k] == fs[..k];
      if IsAdded(fs[k]) {
        added := added + [fs[k].coords];
      } else {
        others := others + [fs[k].coords];
      }
      k := k + 1;
    }
    assert fs[..k] == fs;
  }

  // ---------------------------------------------------------------------
  // Distances (stats.py:30-37)

  /** The great-circle distance `haversine(lat1, lon1, lat2, lon2)`. */
  type Haversine = (real, real, real, real) -> real

  /** The distance of one line: one term per consecutive pair, each
      position read as `[lon, lat]` and passed as `(lat, lon)`. */
  function LineDistance(hav: Haversine, cs: seq<Position>): real {
    if |cs| < 2 then 0.0
    else
      var a, b := cs[|cs| - 2], cs[|cs| - 1];
      LineDistance(hav, cs[..|cs| - 1]) + hav(a.lat, a.lon, b.lat, b.lon)
  }

  /** `total_distance`: the distances of all lines, line after line. */
  function TotalDistance(hav: Haversine, lines: seq<seq<Position>>): real {
    if |lines| == 0 then 0.0
    else TotalDistance(hav, lines[..|lines| - 1]) + LineDistance(hav, lines[|lines| - 1])
  }

  /** The nested summation loops. */
  method TotalDistanceLoop(hav: Haversine, lines: seq<seq<Position>>) returns (total: real)
    ensures total == TotalDistance(hav, lines)
  {
    total := 0.0;
    var g := 0;
    while g < |lines|
      invariant g <= |lines|
      invariant total == TotalDistance(hav, lines[..g])
    {
      var cs := lines[g];
      assert lines[..g + 1][..g] == lines[..g];
      if |cs| > 0 {
        var i := 0;
        while i + 1 < |cs|
          invariant i < |cs|
          invariant total == TotalDistance(hav, lines[..g]) + LineDistance(hav, cs[..i + 1])
        {
          assert cs[..i + 2][..i + 1] == cs[..i + 1];
          total := total + hav(cs[i].lat, cs[i].lon, cs[i + 1].lat, cs[i + 1].lon);
          i := i + 1;
        }
        assert cs[..i + 1] == cs;
      }
      g := g + 1;
    }
    assert lines[..g] == lines;
  }

  /** Two points: exactly one call, latitude first. */
  lemma LinePair(hav: Haversine, a: Position, b: Position)
    ensures LineDistance(hav, [a, b]) == hav(a.lat, a.lon, b.lat, b.lon)
  {
    assert [a, b][..1] == [a];
  }

  /** Summing is additive over concatenated line lists. */
  lemma {:induction false} TotalDistanceAppend(hav: Haversine, xs: seq<seq<Position>>, ys: seq<seq<Position>>)
    ensures TotalDistance(hav, xs + ys) == TotalDistance(hav, xs) + TotalDistance(hav, ys)
    decreases |ys|
  {
    if |ys| == 0 {
      assert xs + ys == xs;
    } else {
      assert (xs + ys)[..|xs + ys| - 1] == xs + ys[..|ys| - 1];
      TotalDistanceAppend(hav, xs, ys[..|ys| - 1]);
    }
  }

  /** The coordinate lists of all features, in feature order. */
  function AllLines(fs: seq<Feature>): (ls: seq<seq<Position>>)
    ensures |ls| == |fs| && forall i :: 0 <= i < |fs| ==> ls[i] == fs[i].coords
  {
    seq(|fs|, i requires 0 <= i < |fs| => fs[i].coords)
  }

  /** One more line adds its own distance. */
  lemma TotalDistanceSnoc(hav: Haversine, lines: seq<seq<Position>>, cs: seq<Position>)
    ensures TotalDistance(hav, lines + [cs]) == TotalDistance(hav, lines) + LineDistance(hav, cs)
  {
    assert (lines + [cs])[..|lines|] == lines;
  }

  /** The two group totals add up to the total of all the features' lines:
      the partition loses no line and counts none twice. */
  lemma {:induction false} GroupsTotal(hav: Haversine, fs: seq<Feature>)
    ensures TotalDistance(hav, Group(fs, true) + Group(fs, false))
         == TotalDistance(hav, Group(fs, true)) + TotalDistance(hav, Group(fs, false))
    ensures TotalDistance(hav, Group(fs, true)) + TotalDistance(hav, Group(fs, false))
         == TotalDistance(hav, AllLines(fs))
  {
    TotalDistanceAppend(hav, Group(fs, true), Group(fs, false));
    if |fs| > 0 {
      var init := fs[..|fs| - 1];
      var last := fs[|fs| - 1];
      GroupsTotal(hav, init);
      assert AllLines(fs) == AllLines(init) + [last.coords];
      TotalDistanceSnoc(hav, AllLines(init), last.coords);
      var added := IsAdded(last);
      assert Group(fs, added) == Group(init, added) + [last.coords];
      assert Group(fs, !added) == Group(init, !added);
      TotalDistanceSnoc(hav, Group(init, added), last.coords);
    }
  }

  ghost predicate NonNegative(hav: Haversine) {
    forall a, b, c, d :: hav(a, b, c, d) >= 0.0
  }

  /** A non-negative distance gives a non-negative total. */
  lemma {:induction false} TotalDistanceNonNegative(hav: Haversine, lines: seq<seq<Position>>)
    requires NonNegative(hav)
    ensures TotalDistance(hav, lines) >= 0.0
    decreases |lines|
  {
    if |lines| > 0 {
      TotalDistanceNonNegative(hav, lines[..|lines| - 1]);
      LineDistanceNonNegative(hav, lines[|lines| - 1]);
    }
  }

  lemma {:induction false} LineDistanceNonNegative(hav: Haversine, cs: seq<Position>)
    requires NonNegative(hav)
    ensures LineDistance(hav, cs) >= 0.0
    decreases |cs|
  {
    if |cs| >= 2 {
      LineDistanceNonNegative(hav, cs[..|cs| - 1]);
    }
  }

  /** No lines, or only lines of fewer than two coordinates: distance 0. */
  lemma {:induction false} ShortLinesZero(hav: Haversine, lines: seq<seq<Position>>)
    requires forall k :: 0 <= k < |lines| ==> |lines[k]| < 2
    ensures TotalDistance(hav, lines) == 0.0
    decreases |lines|
  {
    if |lines| > 0 {
      ShortLinesZero(hav, lines[..|lines| - 1]);
    }
  }
}
