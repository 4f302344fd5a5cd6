/** The text scanner both curve scripts run over the `Coordinates` column:
    `re.findall(r'POINT\(([-\d\.]+) ([-\d\.]+)\)', s)` followed by `float()`
    on every captured token (curve-update.py `parse_qgspointxy_list`,
    elevation_heatmap_and_curvature.py `parse_qgis_coords`). */
module PointText {
  import opened Common

  /** A character of the class `[-\d\.]`. */
  predicate IsTokenChar(c: char) {
    c == '-' || c == '.' || IsDigit(c)
  }

  predicate IsDigit(c: char) {
    '0' <= c <= '9'
  }

  /** What one capture group of the pattern can hold. */
  predicate IsToken(t: string) {
    |t| > 0 && forall i :: 0 <= i < |t| ==> IsTokenChar(t[i])
  }

  /** Length of the longest run of class characters at the start of `s`:
      the greedy `[-\d\.]+`. */
  function RunLength(s: string): (k: nat)
    ensures k <= |s|
  {
    if |s| > 0 && IsTokenChar(s[0]) then 1 + RunLength(s[1..]) else 0
  }

  /** The greedy run is maximal: class characters up to it, and none
      right after it. */
  lemma {:induction false} RunLengthSpec(s: string)
    ensures forall i :: 0 <= i < RunLength(s) ==> IsTokenChar(s[i])
    ensures RunLength(s) == |s| || !IsTokenChar(s[RunLength(s)])
  {
    if |s| > 0 && IsTokenChar(s[0]) {
      RunLengthSpec(s[1..]);
      assert forall i :: 1 <= i < RunLength(s) ==> s[i] == s[1..][i - 1];
    }
  }

  const Keyword: string := "POINT("

  /** A successful match: the two groups and the length matched. */
  datatype Match = Match(x: string, y: string, len: nat)

  /** One attempt of the pattern at the start of `s`. Neither the space nor
      `)` is a class character, so each group is the longest run there and
      backtracking can never find another match. */
  function MatchPrefix(s: string): (m: Option<Match>)
    ensures m.Some? ==> 8 <= m.value.len <= |s| && IsToken(m.value.x) && IsToken(m.value.y)
    ensures m.Some? ==> |s| >= 6 && s[..6] == Keyword && s[0] == 'P' && s[1] == 'O'
  {
    if |s| >= 6 && s[..6] == Keyword then
      var rest := s[6..];
      var a := RunLength(rest);
      RunLengthSpec(rest);
      if 0 < a < |rest| && rest[a] == ' ' then
        var rest2 := rest[a + 1..];
        var b := RunLength(rest2);
        RunLengthSpec(rest2);
        if 0 < b < |rest2| && rest2[b] == ')' then
          Some(Match(rest[..a], rest2[..b], 6 + a + 1 + b + 1))
        else None
      else None
    else None
  }

  /** A match covers exactly the text `POINT(x y)` with its two groups. */
  lemma MatchedText(s: string)
    requires MatchPrefix(s).Some?
    ensures var m := MatchPrefix(s).value;
      s[..m.len] == Keyword + m.x + " " + m.y + ")"
  {
    var rest := s[6..];
    var a := RunLength(rest);
    var rest2 := rest[a + 1..];
    var b := RunLength(rest2);
    assert s[..6 + a + 1 + b + 1] == Keyword + rest[..a] + " " + rest2[..b] + ")";
  }

  /** `re.findall`: try the pattern at each position from the left; after a
      match, resume right after it, otherwise one character further on. */
  function FindAll(s: string): (pairs: seq<(string, string)>)
    ensures forall k :: 0 <= k < |pairs| ==> IsToken(pairs[k].0) && IsToken(pairs[k].1)
    decreases |s|
  {
    if |s| == 0 then []
    else
      match MatchPrefix(s)
      case Some(m) => [(m.x, m.y)] + FindAll(s[m.len..])
      case None => FindAll(s[1..])
  }

  /** Number of positions of `s` where the text `POINT(` starts. */
  function KeywordCount(s: string): nat
    decreases |s|
  {
    if |s| == 0 then 0
    else (if |s| >= 6 && s[..6] == Keyword then 1 else 0) + KeywordCount(s[1..])
  }

  lemma {:induction false} KeywordCountSuffix(s: string, k: nat)
    requires k <= |s|
    ensures KeywordCount(s[k..]) <= KeywordCount(s)
  {
    if k > 0 {
      KeywordCountSuffix(s[1..], k - 1);
      assert s[1..][k - 1..] == s[k..];
    }
  }

  /** One step of the scan where the pattern matches. */
  lemma FindAllMatched(s: string)
    requires MatchPrefix(s).Some?
    ensures |FindAll(s)| == 1 + |FindAll(s[MatchPrefix(s).value.len..])|
    ensures KeywordCount(s) == 1 + KeywordCount(s[1..])
  {
  }

  /** One step of the scan where it does not. */
  lemma FindAllUnmatched(s: string)
    requires |s| > 0 && MatchPrefix(s).None?
    ensures FindAll(s) == FindAll(s[1..])
    ensures KeywordCount(s[1..]) <= KeywordCount(s)
  {
  }

  /** Every extracted pair consumes its own `POINT(` occurrence: there are
      never more pairs than occurrences. */
  lemma {:induction false} PairsAtMostKeywords(s: string)
    ensures |FindAll(s)| <= KeywordCount(s)
    decreases |s|
  {
    if |s| > 0 {
      var m := MatchPrefix(s);
      if m.Some? {
        var n := m.value.len;
        PairsAtMostKeywords(s[n..]);
        assert KeywordCount(s[n..]) <= KeywordCount(s[1..]) by {
          KeywordCountSuffix(s[1..], n - 1);
          assert s[1..][n - 1..] == s[n..];
        }
        FindAllMatched(s);
      } else {
        FindAllUnmatched(s);
        PairsAtMostKeywords(s[1..]);
      }
    }
  }

  /** Text without any `POINT(` yields no pair. */
  lemma NoKeywordNoPairs(s: string)
    requires KeywordCount(s) == 0
    ensures FindAll(s) == []
  {
    PairsAtMostKeywords(s);
  }

  /** No match can start at position `i`: the text there does not begin
      with `PO`. */
  predicate NoMatchStart(s: string, i: nat)
    requires i < |s|
  {
    s[i] != 'P' || i + 1 == |s| || s[i + 1] != 'O'
  }

  /** The scan passes over a stretch where no match can start. */
  lemma {:induction false} SkipUnmatched(s: string, n: nat)
    requires n <= |s|
    requires forall i :: 0 <= i < n ==> NoMatchStart(s, i)
    ensures FindAll(s) == FindAll(s[n..])
  {
    if n > 0 {
      assert NoMatchStart(s, 0);
      forall i | 0 <= i < n - 1
        ensures NoMatchStart(s[1..], i)
      {
        assert NoMatchStart(s, i + 1);
      }
      SkipUnmatched(s[1..], n - 1);
      assert s[1..][n - 1..] == s[n..];
    }
  }

  /** The greedy run stops exactly at the end of a token followed by a
      character outside the class. */
  lemma RunLengthOf(u: string, v: string)
    requires forall i :: 0 <= i < |u| ==> IsTokenChar(u[i])
    requires |v| == 0 || !IsTokenChar(v[0])
    ensures RunLength(u + v) == |u|
  {
    RunLengthSpec(u + v);
    assert forall i :: 0 <= i < |u| ==> (u + v)[i] == u[i];
    assert |v| > 0 ==> (u + v)[|u|] == v[0];
  }

  /** `POINT(x y)` followed by `t`, grouped from the right. */
  lemma PointTextNested(x: string, y: string, t: string)
    ensures Keyword + x + " " + y + ")" + t == Keyword + (x + (" " + (y + (")" + t))))
  {
    AppendAssoc(Keyword + x + " " + y, ")", t);
    AppendAssoc(Keyword + x + " ", y, ")" + t);
    AppendAssoc(Keyword + x, " ", y + (")" + t));
    AppendAssoc(Keyword, x, " " + (y + (")" + t)));
  }

  /** After `POINT(`, the text `x y)t` splits into the two groups. */
  lemma MatchGroups(x: string, y: string, t: string)
    requires IsToken(x) && IsToken(y)
    ensures var z := x + (" " + (y + (")" + t)));
      && RunLength(z) == |x| && |x| < |z| && z[|x|] == ' ' && z[..|x|] == x
      && z[|x| + 1..] == y + (")" + t)
  {
    var v := y + (")" + t);
    var w := " " + v;
    var z := x + w;
    RunLengthOf(x, w);
    AppendSplit(x, w);
    assert z[|x|..][1..] == z[|x| + 1..];
    AppendSplit(" ", v);
  }

  /** The second group ends at the closing parenthesis. */
  lemma MatchSecond(y: string, t: string)
    requires IsToken(y)
    ensures var v := y + (")" + t);
      RunLength(v) == |y| && |y| < |v| && v[|y|] == ')' && v[..|y|] == y
  {
    RunLengthOf(y, ")" + t);
    AppendSplit(y, ")" + t);
  }

  /** `POINT(x y)` with two tokens matches, capturing exactly `x` and `y`. */
  lemma MatchPoint(x: string, y: string, t: string)
    requires IsToken(x) && IsToken(y)
    ensures MatchPrefix(Keyword + x + " " + y + ")" + t) == Some(Match(x, y, |x| + |y| + 8))
  {
    var z := x + (" " + (y + (")" + t)));
    var s := Keyword + x + " " + y + ")" + t;
    PointTextNested(x, y, t);
    AppendSplit(Keyword, z);
    MatchGroups(x, y, t);
    MatchSecond(y, t);
    assert s[6..] == z;
  }

  lemma FindAllPoint(x: string, y: string, t: string)
    requires IsToken(x) && IsToken(y)
    ensures FindAll(Keyword + x + " " + y + ")" + t) == [(x, y)] + FindAll(t)
  {
    MatchPoint(x, y, t);
    var s := Keyword + x + " " + y + ")" + t;
    AppendSplit(Keyword + x + " " + y + ")", t);
  }

  const ReprHead: string := "<QgsPointXY: "

  /** Python's `repr` of one QgsPointXY, as `str()` of a list shows it. */
  function PointRepr(p: (string, string)): string {
    ReprHead + Keyword + p.0 + " " + p.1 + ")>"
  }

  function ItemsRepr(ps: seq<(string, string)>): string {
    if |ps| == 0 then ""
    else if |ps| == 1 then PointRepr(ps[0])
    else PointRepr(ps[0]) + ", " + ItemsRepr(ps[1..])
  }

  /** The `Coordinates` cell the interactive tool writes: `str()` of the
      list of QgsPointXY vertices, e.g. `[<QgsPointXY: POINT(1 2)>]`. */
  function ListRepr(ps: seq<(string, string)>): string {
    "[" + ItemsRepr(ps) + "]"
  }

  predicate AllTokens(ps: seq<(string, string)>) {
    forall k :: 0 <= k < |ps| ==> IsToken(ps[k].0) && IsToken(ps[k].1)
  }

  /** The `<QgsPointXY: ` text before each point holds no match start. */
  lemma SkipReprHead(body: string)
    ensures FindAll(ReprHead + body) == FindAll(body)
  {
    var s := ReprHead + body;
    forall i | 0 <= i < |ReprHead|
      ensures NoMatchStart(s, i)
    {
      assert s[i] == ReprHead[i];
      if i + 1 < |ReprHead| {
        assert s[i + 1] == ReprHead[i + 1];
      }
    }
    SkipUnmatched(s, |ReprHead|);
    assert s[|ReprHead|..] == body;
  }

  /** Skipping text whose first character is not `P`. */
  lemma SkipOther(c: char, t: string)
    requires c != 'P'
    ensures FindAll([c] + t) == FindAll(t)
  {
    SkipUnmatched([c] + t, 1);
    assert ([c] + t)[1..] == t;
  }

  /** The `, ` between two list items. */
  lemma SkipSeparator(rest: string)
    ensures FindAll(", " + rest) == FindAll(rest)
  {
    assert ", " + rest == [','] + ([' '] + rest);
    SkipOther(',', [' '] + rest);
    SkipOther(' ', rest);
  }

  lemma FindAllPointRepr(p: (string, string), after: string)
    requires IsToken(p.0) && IsToken(p.1)
    ensures FindAll(PointRepr(p) + after) == [p] + FindAll(after)
  {
    var body := Keyword + p.0 + " " + p.1 + ")" + (">" + after);
    assert PointRepr(p) + after == ReprHead + body;
    SkipReprHead(body);
    FindAllPoint(p.0, p.1, ">" + after);
    assert ">" + after == ['>'] + after;
    SkipOther('>', after);
  }

  /** The first item, its separator, then the others. */
  lemma ItemsReprCons(ps: seq<(string, string)>, t: string)
    requires |ps| > 1
    ensures ItemsRepr(ps) + t == PointRepr(ps[0]) + (", " + (ItemsRepr(ps[1..]) + t))
  {
    var head := PointRepr(ps[0]);
    var items := ItemsRepr(ps[1..]);
    AppendAssoc(head + ", ", items, t);
    AppendAssoc(head, ", ", items + t);
  }

  lemma AllTokensTail(ps: seq<(string, string)>)
    requires |ps| > 0 && AllTokens(ps)
    ensures AllTokens(ps[1..])
  {
    forall k | 0 <= k < |ps| - 1 ensures IsToken(ps[1..][k].0) && IsToken(ps[1..][k].1) {
      assert ps[1..][k] == ps[k + 1];
    }
  }

  lemma {:induction false} FindAllItems(ps: seq<(string, string)>, t: string)
    requires AllTokens(ps)
    ensures FindAll(ItemsRepr(ps) + t) == ps + FindAll(t)
  {
    if |ps| == 1 {
      FindAllPointRepr(ps[0], t);
      assert ps == [ps[0]];
    } else if |ps| > 1 {
      var rest := ItemsRepr(ps[1..]) + t;
      ItemsReprCons(ps, t);
      FindAllPointRepr(ps[0], ", " + rest);
      SkipSeparator(rest);
      AllTokensTail(ps);
      FindAllItems(ps[1..], t);
      AppendAssoc([ps[0]], ps[1..], FindAll(t));
      assert [ps[0]] + ps[1..] == ps;
    } else {
      assert ItemsRepr(ps) + t == t;
    }
  }

  /** Scanning the tool's `Coordinates` cell gives back exactly its
      coordinate tokens, one pair per point, in order. */
  lemma FindAllListRepr(ps: seq<(string, string)>)
    requires AllTokens(ps)
    ensures FindAll(ListRepr(ps)) == ps
  {
    assert ListRepr(ps) == ['['] + (ItemsRepr(ps) + "]");
    SkipOther('[', ItemsRepr(ps) + "]");
    FindAllItems(ps, "]");
    SkipOther(']', "");
    assert FindAll("") == [];
  }

  // ---------------------------------------------------------------------
  // float() on a captured token

  predicate AllDigits(s: string) {
    forall i :: 0 <= i < |s| ==> IsDigit(s[i])
  }

  /** The tokens `float()` accepts among those the pattern can capture: a
      `-` only in front, at most one `.`, and at least one digit. */
  predicate IsDecimalToken(t: string) {
    && IsToken(t)
    && (forall i :: 0 < i < |t| ==> t[i] != '-')
    && (forall i, j :: 0 <= i < j < |t| && t[i] == '.' ==> t[j] != '.')
    && (exists i :: 0 <= i < |t| && IsDigit(t[i]))
  }

  /** Value of a digit string, most significant digit first. */
  function DigitsValue(s: string): nat
    requires AllDigits(s)
  {
    if |s| == 0 then 0
    else 10 * DigitsValue(s[..|s| - 1]) + (s[|s| - 1] - '0') as nat
  }

  function Pow10(k: nat): (p: nat)
    ensures p >= 1
  {
    if k == 0 then 1 else 10 * Pow10(k - 1)
  }

  /** Position of the first `.`, or `|u|` when there is none. */
  function DotIndex(u: string): (d: nat)
    ensures d <= |u|
    ensures forall i :: 0 <= i < d ==> u[i] != '.'
    ensures d < |u| ==> u[d] == '.'
  {
    if |u| == 0 || u[0] == '.' then 0 else 1 + DotIndex(u[1..])
  }

  /** The digits after the first `.`, if there is one. */
  function Fraction(u: string): string {
    var d := DotIndex(u);
    if d < |u| then u[d + 1..] else ""
  }

  /** An unsigned decimal: digits, optionally a `.` and more digits, with at
      least one digit in all. */
  function ParseUnsigned(u: string): Option<real> {
    var ip := u[..DotIndex(u)];
    var fp := Fraction(u);
    if AllDigits(ip) && AllDigits(fp) && |ip| + |fp| > 0 then Some(DecimalValue(ip, fp))
    else None
  }

  /** The value of the decimal `ip.fp`. */
  function DecimalValue(ip: string, fp: string): real
    requires AllDigits(ip) && AllDigits(fp)
  {
    DigitsValue(ip) as real + DigitsValue(fp) as real / Pow10(|fp|) as real
  }

  /** Python's `float()` on a captured token; `None` stands for the
      ValueError it raises. The value is the exact decimal value. */
  function ParseFloat(t: string): Option<real> {
    if |t| > 0 && t[0] == '-' then
      match ParseUnsigned(t[1..])
      case Some(v) => Some(-v)
      case None => None
    else ParseUnsigned(t)
  }

  /** Where a sign may sit: `t` read from `off` on, `off` being 1 after a
      leading `-` and 0 otherwise. */
  predicate SignSplit(t: string, off: nat) {
    && off <= 1 && off <= |t|
    && (off == 1 ==> t[0] == '-')
    && (off == 0 ==> |t| == 0 || t[0] != '-')
  }

  lemma {:induction false} UnsignedSound(t: string, off: nat)
    requires SignSplit(t, off)
    requires ParseUnsigned(t[off..]).Some?
    ensures IsDecimalToken(t)
  {
    var u := t[off..];
    var d := DotIndex(u);
    var ip := u[..d];
    var fp := Fraction(u);
    // Every character is a digit, except the sign and the first `.`.
    forall k | off <= k < |t| && k != off + d
      ensures IsDigit(t[k])
    {
      assert t[k] == u[k - off];
      if k - off < d {
        assert u[k - off] == ip[k - off];
      } else {
        assert u[k - off] == fp[k - off - d - 1];
      }
    }
    assert off + d < |t| ==> t[off + d] == u[d];
    assert IsToken(t);
    if |ip| > 0 {
      assert IsDigit(t[off]);
    } else {
      assert IsDigit(t[off + d + 1]);
    }
  }

  /** After the sign, every character of a decimal token but its first
      `.` is a digit. */
  lemma UnsignedDigits(t: string, off: nat)
    requires SignSplit(t, off)
    requires IsDecimalToken(t)
    ensures forall i :: 0 <= i < |t| - off && i != DotIndex(t[off..]) ==> IsDigit(t[off..][i])
  {
    var u := t[off..];
    var d := DotIndex(u);
    forall i | 0 <= i < |u| && i != d
      ensures IsDigit(u[i])
    {
      assert u[i] == t[off + i];
      assert IsTokenChar(t[off + i]);
      if d < i {
        assert u[d] == t[off + d];
      }
    }
  }

  lemma {:induction false} UnsignedComplete(t: string, off: nat)
    requires SignSplit(t, off)
    requires IsDecimalToken(t)
    ensures ParseUnsigned(t[off..]).Some?
  {
    var u := t[off..];
    var d := DotIndex(u);
    var ip := u[..d];
    var fp := Fraction(u);
    UnsignedDigits(t, off);
    assert AllDigits(ip) by {
      forall i | 0 <= i < |ip| ensures IsDigit(ip[i]) { assert ip[i] == u[i]; }
    }
    assert AllDigits(fp) by {
      forall i | 0 <= i < |fp| ensures IsDigit(fp[i]) { assert fp[i] == u[d + 1 + i]; }
    }
    var k :| 0 <= k < |t| && IsDigit(t[k]);
    assert k - off != d;
    assert |ip| + |fp| > 0;
  }

  /** `float()` succeeds exactly on the decimal tokens. */
  lemma ParseFloatAccepts(t: string)
    ensures ParseFloat(t).Some? <==> IsDecimalToken(t)
  {
    if |t| > 0 && t[0] == '-' {
      if ParseUnsigned(t[1..]).Some? { UnsignedSound(t, 1); }
      if IsDecimalToken(t) { UnsignedComplete(t, 1); }
    } else {
      assert t[0..] == t;
      if ParseUnsigned(t).Some? { UnsignedSound(t, 0); }
      if IsDecimalToken(t) { UnsignedComplete(t, 0); }
    }
  }

  /** A plain digit string is read as the whole number it spells. */
  lemma ParseDigits(u: string)
    requires |u| > 0 && AllDigits(u)
    ensures ParseFloat(u) == Some(DigitsValue(u) as real)
  {
    var d := DotIndex(u);
    assert forall i :: 0 <= i < |u| ==> u[i] != '.';
    assert d == |u|;
    assert u[..d] == u;
    assert Fraction(u) == "";
    assert DigitsValue("") == 0 && Pow10(0) == 1;
    assert DecimalValue(u, "") == DigitsValue(u) as real;
    assert ParseUnsigned(u) == Some(DecimalValue(u, ""));
  }

  /** A leading `-` negates the value and accepts exactly what the unsigned
      text accepts. */
  lemma ParseNegated(u: string)
    requires |u| == 0 || u[0] != '-'
    ensures ParseFloat("-" + u).Some? <==> ParseFloat(u).Some?
    ensures ParseFloat(u).Some? ==> ParseFloat("-" + u).value == -ParseFloat(u).value
  {
    assert ("-" + u)[1..] == u;
  }

  /** `a.b` is read as `a` plus `b` tenths, hundredths and so on. */
  lemma ParseDecimal(a: string, b: string)
    requires AllDigits(a) && AllDigits(b) && |a| + |b| > 0
    ensures ParseFloat(a + "." + b) == Some(DecimalValue(a, b))
  {
    var u := a + "." + b;
    assert u == a + ("." + b);
    DotIndexAfter(a, "." + b);
    assert u[0] != '-' by {
      if |a| > 0 { assert u[0] == a[0]; } else { assert u[0] == '.'; }
    }
    assert u[..DotIndex(u)] == a;
    assert Fraction(u) == b by {
      assert u[|a| + 1..] == b;
    }
  }

  lemma {:induction false} DotIndexAfter(a: string, rest: string)
    requires AllDigits(a)
    requires |rest| > 0 && rest[0] == '.'
    ensures DotIndex(a + rest) == |a|
  {
    if |a| > 0 {
      assert (a + rest)[1..] == a[1..] + rest;
      DotIndexAfter(a[1..], rest);
    }
  }

  // ---------------------------------------------------------------------
  // The whole column

  /** `[(float(x), float(y)) for x, y in pairs]`: the first token `float()`
      refuses, in reading order, raises ValueError. */
  function ConvertPairs(ps: seq<(string, string)>): (r: Result<seq<Point>>)
    ensures r.Ok? ==> |r.value| == |ps|
    ensures r.Err? ==> r.error.ValueError?
  {
    if |ps| == 0 then Ok([])
    else
      match ParseFloat(ps[0].0)
      case None => Err(ValueError(ps[0].0))
      case Some(x) =>
        match ParseFloat(ps[0].1)
        case None => Err(ValueError(ps[0].1))
        case Some(y) =>
          match ConvertPairs(ps[1..])
          case Err(e) => Err(e)
          case Ok(rest) => Ok([Point(x, y)] + rest)
  }

  predicate AllDecimal(ps: seq<(string, string)>) {
    forall k :: 0 <= k < |ps| ==> IsDecimalToken(ps[k].0) && IsDecimalToken(ps[k].1)
  }

  /** Conversion succeeds exactly when every token is a decimal. */
  lemma AllDecimalCons(ps: seq<(string, string)>)
    requires |ps| > 0
    ensures AllDecimal(ps) <==> IsDecimalToken(ps[0].0) && IsDecimalToken(ps[0].1) && AllDecimal(ps[1..])
  {
    assert forall k :: 0 <= k < |ps| - 1 ==> ps[1..][k] == ps[k + 1];
  }

  lemma {:induction false} ConvertPairsAccepts(ps: seq<(string, string)>)
    ensures ConvertPairs(ps).Ok? <==> AllDecimal(ps)
  {
    if |ps| > 0 {
      ParseFloatAccepts(ps[0].0);
      ParseFloatAccepts(ps[0].1);
      ConvertPairsAccepts(ps[1..]);
      AllDecimalCons(ps);
    }
  }

  /** On success point `k` holds the values of pair `k`. */
  lemma {:induction false} ConvertPairsValues(ps: seq<(string, string)>)
    requires ConvertPairs(ps).Ok?
    ensures forall k :: 0 <= k < |ps| ==>
      && ParseFloat(ps[k].0) == Some(ConvertPairs(ps).value[k].x)
      && ParseFloat(ps[k].1) == Some(ConvertPairs(ps).value[k].y)
  {
    if |ps| > 0 {
      var rest := ConvertPairs(ps[1..]);
      assert rest.Ok?;
      ConvertPairsValues(ps[1..]);
      var p := Point(ParseFloat(ps[0].0).value, ParseFloat(ps[0].1).value);
      assert ConvertPairs(ps).value == [p] + rest.value;
      forall k | 0 <= k < |ps|
        ensures && ParseFloat(ps[k].0) == Some(ConvertPairs(ps).value[k].x)
                && ParseFloat(ps[k].1) == Some(ConvertPairs(ps).value[k].y)
      {
        if k > 0 { assert ps[k] == ps[1..][k - 1]; }
      }
    }
  }

  /** curve-update.py `parse_qgspointxy_list`: scan the cell, then convert. */
  function ParseQgsPointList(s: string): (r: Result<seq<Point>>)
    ensures r.Ok? ==> |r.value| <= KeywordCount(s)
  {
    PairsAtMostKeywords(s);
    ConvertPairs(FindAll(s))
  }

  /** Reading back a cell the interactive tool wrote gives its points, in
      order, whenever every coordinate is written as a plain decimal. */
  lemma ParseToolCell(ps: seq<(string, string)>)
    requires AllDecimal(ps)
    ensures ParseQgsPointList(ListRepr(ps)).Ok?
    ensures |ParseQgsPointList(ListRepr(ps)).value| == |ps|
    ensures forall k :: 0 <= k < |ps| ==>
      && ParseFloat(ps[k].0) == Some(ParseQgsPointList(ListRepr(ps)).value[k].x)
      && ParseFloat(ps[k].1) == Some(ParseQgsPointList(ListRepr(ps)).value[k].y)
  {
    assert AllTokens(ps);
    FindAllListRepr(ps);
    assert ParseQgsPointList(ListRepr(ps)) == ConvertPairs(ps);
    ConvertPairsAccepts(ps);
    ConvertPairsValues(ps);
  }

  /** A token the pattern captures but `float()` refuses: the whole cell is
      rejected with ValueError rather than skipping that point. */
  lemma TwoDotsRejected()
    ensures ParseQgsPointList(ListRepr([("1.2.3", "4")])) == Err(ValueError("1.2.3"))
  {
    var ps := [("1.2.3", "4")];
    assert AllTokens(ps);
    FindAllListRepr(ps);
    ParseFloatAccepts("1.2.3");
    var t := "1.2.3";
    assert t[1] == '.' && t[3] == '.';
    assert !IsDecimalToken(t);
  }
}
