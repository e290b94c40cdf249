/**
 * The browser page's reading of the coordinate file: the text is trimmed and
 * split at newlines, every line is searched for the pattern
 * `x1:(\d+)\s*y1:(\d+)\s*x2:(\d+)\s*y2:(\d+)\s*(\w+)?`, and each line with a
 * match becomes one box; lines without a match are skipped.
 */
module Coordinates {
  import opened Text

  /** A box of the page: its corners, its type (`type` in the page) and whether an image was placed in it. */
  datatype Box = Box(x1: nat, y1: nat, x2: nat, y2: nat, kind: string, hasImage: bool)

  /** What the pattern captures: the four digit runs and the optional trailing word. */
  datatype Captures = Captures(x1: string, y1: string, x2: string, y2: string, kind: Option<string>)

  /** `\d+` taken greedily: the longest run of digits at the start of `t`. */
  function SpanDigits(t: string): (d: string)
    ensures |d| <= |t| && d == t[..|d|]
    ensures AllDigits(d)
    ensures |d| == |t| || !IsDigit(t[|d|])
  {
    if t != [] && IsDigit(t[0]) then [t[0]] + SpanDigits(t[1..]) else []
  }

  /** A digit run followed by a non-digit is taken whole. */
  lemma {:induction false} SpanDigitsOf(ds: string, w: string)
    requires AllDigits(ds)
    requires w == [] || !IsDigit(w[0])
    ensures SpanDigits(ds + w) == ds
  {
    if ds != [] {
      SpanDigitsOf(ds[1..], w);
      assert (ds + w)[1..] == ds[1..] + w;
    }
  }

  /** `\s*` taken greedily: the number of white-space characters at the start of `t`. */
  function SpanSpaces(t: string): (n: nat)
    ensures n <= |t|
    ensures forall i :: 0 <= i < n ==> IsSpace(t[i])
    ensures n == |t| || !IsSpace(t[n])
  {
    if t != [] && IsSpace(t[0]) then 1 + SpanSpaces(t[1..]) else 0
  }

  /** `(\w+)?` taken greedily: the longest run of word characters at the start of `t`. */
  function SpanWord(t: string): (w: string)
    ensures |w| <= |t| && w == t[..|w|]
    ensures forall i :: 0 <= i < |w| ==> IsWordChar(w[i])
    ensures |w| == |t| || !IsWordChar(t[|w|])
  {
    if t != [] && IsWordChar(t[0]) then [t[0]] + SpanWord(t[1..]) else []
  }

  /**
   * One `tag(\d+)\s*` stretch of the pattern at the start of `t`: the digits,
   * and the text after the white space that follows them.
   */
  function Field(t: string, tag: string): (r: Option<(string, string)>)
    ensures r.Some? ==> r.value.0 != [] && AllDigits(r.value.0)
  {
    if StartsWith(t, tag) then
      var u := t[|tag|..];
      var d := SpanDigits(u);
      if d == [] then None
      else
        var v := u[|d|..];
        Some((d, v[SpanSpaces(v)..]))
    else
      None
  }

  /**
   * The pattern `x1:(\d+)\s*y1:(\d+)\s*x2:(\d+)\s*y2:(\d+)\s*(\w+)?` matched
   * at the very start of `t`. Each repetition is taken greedily, without
   * backtracking; for this pattern that loses no match, because every `\d+`
   * is followed by white space or a letter and every `\s*` by a letter or
   * the optional word, so no shorter choice could let the rest match, and the
   * optional word at the end always succeeds.
   */
  function MatchPrefix(t: string): Option<Captures> {
    match Field(t, "x1:")
    case None => None
    case Some(f1) =>
      match Field(f1.1, "y1:")
      case None => None
      case Some(f2) =>
        match Field(f2.1, "x2:")
        case None => None
        case Some(f3) =>
          match Field(f3.1, "y2:")
          case None => None
          case Some(f4) =>
            var w := SpanWord(f4.1);
            Some(Captures(f1.0, f2.0, f3.0, f4.0, if w == [] then None else Some(w)))
  }

  /** The four coordinates are digit runs and the word, when present, is a word. */
  predicate WellFormed(c: Captures) {
    && c.x1 != [] && AllDigits(c.x1) && c.y1 != [] && AllDigits(c.y1)
    && c.x2 != [] && AllDigits(c.x2) && c.y2 != [] && AllDigits(c.y2)
    && (c.kind.Some? ==> IsWord(c.kind.value))
  }

  lemma MatchPrefixWellFormed(t: string)
    requires MatchPrefix(t).Some?
    ensures WellFormed(MatchPrefix(t).value)
  {
  }

  /** The pattern matches `s` at position `q`. */
  predicate MatchesAt(s: string, q: nat)
    requires q <= |s|
  {
    MatchPrefix(s[q..]).Some?
  }

  /** The position of the leftmost match in `s`, searching from `from` on. */
  function FirstMatchFrom(s: string, from: nat): (p: Option<nat>)
    requires from <= |s|
    ensures p.Some? ==> from <= p.value <= |s|
    decreases |s| - from
  {
    if MatchesAt(s, from) then Some(from)
    else if from == |s| then None
    else FirstMatchFrom(s, from + 1)
  }

  /**
   * The search finds a position where the pattern matches and no earlier one,
   * or reports that it matches at no position at all.
   */
  lemma {:induction false} FirstMatchFromIsLeftmost(s: string, from: nat)
    requires from <= |s|
    ensures var p := FirstMatchFrom(s, from);
      && (p.Some? ==> MatchesAt(s, p.value))
      && forall q :: from <= q <= |s| && (p.None? || q < p.value) ==> !MatchesAt(s, q)
    decreases |s| - from
  {
    if !MatchesAt(s, from) && from < |s| {
      var p := FirstMatchFrom(s, from + 1);
      FirstMatchFromIsLeftmost(s, from + 1);
      assert FirstMatchFrom(s, from) == p;
      forall q | from <= q <= |s| && (p.None? || q < p.value)
        ensures !MatchesAt(s, q)
      {
        if q > from {
          assert from + 1 <= q;
        }
      }
    }
  }

  /**
   * `line.match(pattern)` without the `g` flag: the captures at the leftmost
   * position at which the pattern matches, or None when it matches nowhere.
   */
  function LineMatch(line: string): Option<Captures> {
    match FirstMatchFrom(line, 0)
    case None => None
    case Some(p) => MatchPrefix(line[p..])
  }

  /** `if (match)` fails exactly when the pattern matches at no position of the line. */
  lemma LineMatchNone(line: string)
    ensures LineMatch(line).None? <==> forall q :: 0 <= q <= |line| ==> !MatchesAt(line, q)
  {
    FirstMatchFromIsLeftmost(line, 0);
  }

  lemma LineMatchWellFormed(line: string)
    requires LineMatch(line).Some?
    ensures WellFormed(LineMatch(line).value)
  {
    FirstMatchFromIsLeftmost(line, 0);
    MatchPrefixWellFormed(line[FirstMatchFrom(line, 0).value..]);
  }

  /**
   * The box a match becomes: `Number` of each digit run, the word or
   * `'unknown'` when none was captured, and no image yet.
   */
  function ToBox(c: Captures): Box
    requires WellFormed(c)
  {
    Box(DigitsValue(c.x1), DigitsValue(c.y1), DigitsValue(c.x2), DigitsValue(c.y2),
        if c.kind.Some? then c.kind.value else "unknown", false)
  }

  /** The box a line contributes, if any. */
  function ParseLine(line: string): Option<Box> {
    match LineMatch(line)
    case None => None
    case Some(c) =>
      LineMatchWellFormed(line);
      Some(ToBox(c))
  }

  /** The values of the entries of `opts` that are present, in order. */
  function Present<T>(opts: seq<Option<T>>): seq<T> {
    if opts == [] then []
    else Present(opts[..|opts| - 1]) + (if opts[|opts| - 1].Some? then [opts[|opts| - 1].value] else [])
  }

  lemma {:induction false} PresentAppend<T>(a: seq<Option<T>>, b: seq<Option<T>>)
    ensures Present(a + b) == Present(a) + Present(b)
  {
    if b == [] {
      assert a + b == a;
    } else {
      var init := b[..|b| - 1];
      PresentAppend(a, init);
      assert (a + b)[..|a + b| - 1] == a + init;
      var last := b[|b| - 1];
      AppendAssoc(Present(a), Present(init), if last.Some? then [last.value] else []);
    }
  }

  lemma {:induction false} PresentAllSome<T>(opts: seq<Option<T>>)
    requires forall k :: 0 <= k < |opts| ==> opts[k].Some?
    ensures |Present(opts)| == |opts|
    ensures forall k :: 0 <= k < |opts| ==> Present(opts)[k] == opts[k].value
  {
    if opts != [] {
      var init := opts[..|opts| - 1];
      PresentAllSome(init);
    }
  }

  lemma {:induction false} PresentBounds<T>(opts: seq<Option<T>>)
    ensures |Present(opts)| <= |opts|
    ensures (forall k :: 0 <= k < |opts| ==> opts[k].None?) ==> Present(opts) == []
  {
    if opts != [] {
      PresentBounds(opts[..|opts| - 1]);
    }
  }

  lemma {:induction false} PresentValues<T>(opts: seq<Option<T>>, x: T)
    requires x in Present(opts)
    ensures Some(x) in opts
  {
    var init := opts[..|opts| - 1];
    var last := opts[|opts| - 1];
    if x in Present(init) {
      PresentValues(init, x);
    } else {
      assert x == last.value;
    }
  }

  /** What each line gives, one entry per line. */
  function LineResults(lines: seq<string>): (r: seq<Option<Box>>)
    ensures |r| == |lines|
    ensures forall k :: 0 <= k < |lines| ==> r[k] == ParseLine(lines[k])
  {
    seq(|lines|, k requires 0 <= k < |lines| => ParseLine(lines[k]))
  }

  /** The boxes of `lines`, one per line that matches, in line order. */
  function ParseLines(lines: seq<string>): seq<Box> {
    Present(LineResults(lines))
  }

  /** The boxes the page reads from the text of the coordinate file. */
  function ParsedBoxes(text: string): seq<Box> {
    ParseLines(Split(Trim(text)))
  }

  /** One more line adds its box, if it has one. */
  lemma ParseLinesSnoc(lines: seq<string>, i: nat)
    requires i < |lines|
    ensures var r := ParseLine(lines[i]);
      ParseLines(lines[..i + 1]) == ParseLines(lines[..i]) + (if r.Some? then [r.value] else [])
  {
    var rs := LineResults(lines[..i + 1]);
    assert rs[..i] == LineResults(lines[..i]);
  }

  /** The loop of `loadCoordinates` over the lines of the trimmed text. */
  method LoadCoordinates(text: string) returns (boxes: seq<Box>)
    ensures boxes == ParsedBoxes(text)
  {
    var lines := Split(Trim(text));
    boxes := [];
    for i := 0 to |lines|
      invariant boxes == ParseLines(lines[..i])
    {
      var line := lines[i];
      var m := LineMatch(line);
      if m.Some? {
        LineMatchWellFormed(line);
        var c := m.value;
        boxes := boxes + [Box(DigitsValue(c.x1), DigitsValue(c.y1), DigitsValue(c.x2), DigitsValue(c.y2),
                              if c.kind.Some? then c.kind.value else "unknown", false)];
      }
      ParseLinesSnoc(lines, i);
    }
    TakeAll(lines);
  }

  /** Parsing two runs of lines one after the other gives their boxes one after the other. */
  lemma ParseLinesAppend(a: seq<string>, b: seq<string>)
    ensures ParseLines(a + b) == ParseLines(a) + ParseLines(b)
  {
    var ra, rb := LineResults(a), LineResults(b);
    forall k | 0 <= k < |a + b|
      ensures LineResults(a + b)[k] == (ra + rb)[k]
    {
      if k < |a| {
        assert (a + b)[k] == a[k];
      } else {
        assert (a + b)[k] == b[k - |a|];
      }
    }
    assert LineResults(a + b) == ra + rb;
    PresentAppend(LineResults(a), LineResults(b));
  }

  /** There are never more boxes than lines, and none when no line matches. */
  lemma ParseLinesCount(lines: seq<string>)
    ensures |ParseLines(lines)| <= |lines|
    ensures (forall k :: 0 <= k < |lines| ==> ParseLine(lines[k]).None?) ==> ParseLines(lines) == []
  {
    PresentBounds(LineResults(lines));
  }

  /** When every line matches, the k-th box comes from the k-th line. */
  lemma ParseLinesEach(lines: seq<string>)
    requires forall k :: 0 <= k < |lines| ==> ParseLine(lines[k]).Some?
    ensures |ParseLines(lines)| == |lines|
    ensures forall k :: 0 <= k < |lines| ==> ParseLines(lines)[k] == ParseLine(lines[k]).value
  {
    PresentAllSome(LineResults(lines));
  }

  /** Every parsed box is the box of one of the lines, and has no image yet. */
  lemma ParseLinesFrom(lines: seq<string>, b: Box)
    requires b in ParseLines(lines)
    ensures exists k :: 0 <= k < |lines| && ParseLine(lines[k]) == Some(b)
    ensures !b.hasImage
  {
    PresentValues(LineResults(lines), b);
    var k :| 0 <= k < |lines| && LineResults(lines)[k] == Some(b);
    ParseLineNoImage(lines[k]);
  }

  lemma ParseLineNoImage(line: string)
    requires ParseLine(line).Some?
    ensures !ParseLine(line).value.hasImage
  {
  }

  /** A line without any match gives nothing; in particular the empty line. */
  lemma EmptyLine()
    ensures ParseLine("") == None
  {
    assert !MatchesAt("", 0);
  }

  /** Empty or white-space-only text gives no boxes. */
  lemma BlankText(text: string)
    requires forall i :: 0 <= i < |text| ==> IsSpace(text[i])
    ensures ParsedBoxes(text) == []
  {
    TrimAllSpaces(text);
    assert Split("") == [""];
    EmptyLine();
    assert LineResults([""]) == [None];
  }
}
