/**
 * The two halves together: what the browser page reads back from the
 * coordinate file the desktop tool writes.
 */
module RoundTrip {
  import opened Text
  import opened Detect
  import opened Coordinates

  lemma {:induction false} SpanSpacesOf(sp: string, w: string)
    requires forall i :: 0 <= i < |sp| ==> IsSpace(sp[i])
    requires w == [] || !IsSpace(w[0])
    ensures SpanSpaces(sp + w) == |sp|
  {
    if sp != [] {
      SpanSpacesOf(sp[1..], w);
      assert (sp + w)[1..] == sp[1..] + w;
    }
  }

  lemma {:induction false} SpanWordOf(wd: string, w: string)
    requires forall i :: 0 <= i < |wd| ==> IsWordChar(wd[i])
    requires w == [] || !IsWordChar(w[0])
    ensures SpanWord(wd + w) == wd
  {
    if wd != [] {
      SpanWordOf(wd[1..], w);
      assert (wd + w)[1..] == wd[1..] + w;
    }
  }

  /** A word, or nothing, is taken whole by the optional word of the pattern. */
  lemma WholeWord(name: string)
    requires name == [] || IsWord(name)
    ensures SpanWord(name) == name
  {
    SpanWordOf(name, []);
    assert name + [] == name;
  }

  /**
   * A tag, a non-empty digit run and white space are one `tag(\d+)\s*`
   * stretch, when what follows is neither a digit nor white space.
   */
  lemma FieldOf(tag: string, ds: string, sp: string, rest: string)
    requires ds != [] && AllDigits(ds)
    requires forall i :: 0 <= i < |sp| ==> IsSpace(sp[i])
    requires sp + rest == [] || !IsDigit((sp + rest)[0])
    requires rest == [] || !IsSpace(rest[0])
    ensures Field(tag + ds + sp + rest, tag) == Some((ds, rest))
  {
    var t := tag + ds + sp + rest;
    AppendAssoc(tag, ds, sp);
    AppendAssoc(tag, ds + sp, rest);
    AppendAssoc(ds, sp, rest);
    assert t[..|tag|] == tag;
    var u := t[|tag|..];
    assert u == ds + (sp + rest);
    SpanDigitsOf(ds, sp + rest);
    assert u[|ds|..] == sp + rest;
    SpanSpacesOf(sp, rest);
    assert (sp + rest)[|sp|..] == rest;
  }

  /** A line of the writer's shape: the four numerals, then `tail`. */
  function WriterLine(n1: string, n2: string, n3: string, n4: string, tail: string): string {
    "x1:" + n1 + (" y1:" + n2 + (" x2:" + n3 + (" y2:" + n4 + tail)))
  }

  /** The tail of a writer-shaped line: a space and the name, or nothing when there is no name. */
  function Tail(name: string): string {
    if name == [] then [] else " " + name
  }

  /** A stretch followed by a space and the next tag ends right before the tag. */
  lemma MidField(tag: string, n: nat, sep: string, next: string, m: string, r: string)
    requires sep == " " + next
    requires next != [] && (next[0] == 'x' || next[0] == 'y')
    ensures Field(tag + NatToString(n) + (sep + m + r), tag) == Some((NatToString(n), next + m + r))
  {
    AppendAssoc(" ", next, m);
    AppendAssoc(" ", next + m, r);
    AppendAssoc(tag + NatToString(n), " ", next + m + r);
    assert (next + m + r)[0] == next[0];
    FieldOf(tag, NatToString(n), " ", next + m + r);
  }

  /** The last stretch takes the space before the name, if any, and leaves the name. */
  lemma LastField(n: nat, name: string)
    requires name == [] || IsWord(name)
    ensures Field("y2:" + NatToString(n) + Tail(name), "y2:") == Some((NatToString(n), name))
  {
    var head := "y2:" + NatToString(n);
    if name == [] {
      assert head + [] + [] == head;
      assert head + Tail(name) == head;
      FieldOf("y2:", NatToString(n), [], []);
    } else {
      AppendAssoc(head, " ", name);
      assert IsWordChar(name[0]);
      assert (" " + name)[0] == ' ';
      FieldOf("y2:", NatToString(n), " ", name);
    }
  }

  /** The pattern matches when its four stretches follow one another. */
  lemma MatchOfFields(t: string, d1: string, t1: string, d2: string, t2: string,
                      d3: string, t3: string, d4: string, t4: string)
    requires Field(t, "x1:") == Some((d1, t1)) && Field(t1, "y1:") == Some((d2, t2))
    requires Field(t2, "x2:") == Some((d3, t3)) && Field(t3, "y2:") == Some((d4, t4))
    ensures MatchPrefix(t) == Some(Captures(d1, d2, d3, d4, if SpanWord(t4) == [] then None else Some(SpanWord(t4))))
  {
  }

  /** The separators of a writer-shaped line: a space, then a tag starting with `x` or `y`. */
  lemma Separators()
    ensures " y1:" == " " + "y1:" && "y1:" != [] && "y1:"[0] == 'y'
    ensures " x2:" == " " + "x2:" && "x2:" != [] && "x2:"[0] == 'x'
    ensures " y2:" == " " + "y2:" && "y2:" != [] && "y2:"[0] == 'y'
  {
  }

  /**
   * The pattern matched at the start of a writer-shaped line with numerals
   * for the four coordinates captures the numerals and the name.
   */
  lemma MatchWriterLine(a: nat, b: nat, c: nat, d: nat, name: string)
    requires name == [] || IsWord(name)
    ensures MatchPrefix(WriterLine(NatToString(a), NatToString(b), NatToString(c), NatToString(d), Tail(name)))
         == Some(Captures(NatToString(a), NatToString(b), NatToString(c), NatToString(d),
                          if name == [] then None else Some(name)))
  {
    var n1, n2, n3, n4 := NatToString(a), NatToString(b), NatToString(c), NatToString(d);
    var tail := Tail(name);
    var t3 := "y2:" + n4 + tail;
    var t2 := "x2:" + n3 + (" y2:" + n4 + tail);
    var t1 := "y1:" + n2 + (" x2:" + n3 + (" y2:" + n4 + tail));
    LastField(d, name);
    Separators();
    MidField("x2:", c, " y2:", "y2:", n4, tail);
    MidField("y1:", b, " x2:", "x2:", n3, " y2:" + n4 + tail);
    MidField("x1:", a, " y1:", "y1:", n2, " x2:" + n3 + (" y2:" + n4 + tail));
    MatchOfFields(WriterLine(n1, n2, n3, n4, tail), n1, t1, n2, t2, n3, t3, n4, name);
    WholeWord(name);
  }

  /** The page reads a writer-shaped line with numerals back as the box of those numbers and that name. */
  lemma ParseWriterLine(a: nat, b: nat, c: nat, d: nat, name: string)
    requires name == [] || IsWord(name)
    ensures ParseLine(WriterLine(NatToString(a), NatToString(b), NatToString(c), NatToString(d), Tail(name)))
         == Some(Box(a, b, c, d, if name == [] then "unknown" else name, false))
  {
    var s := WriterLine(NatToString(a), NatToString(b), NatToString(c), NatToString(d), Tail(name));
    var kind := if name == [] then None else Some(name);
    MatchWriterLine(a, b, c, d, name);
    ParseOfNumerals(s, a, b, c, d, kind);
  }

  /** A line matched at its start by numerals and a kind is read as the box of those. */
  lemma ParseOfNumerals(s: string, a: nat, b: nat, c: nat, d: nat, kind: Option<string>)
    requires kind.Some? ==> IsWord(kind.value)
    requires MatchPrefix(s) == Some(Captures(NatToString(a), NatToString(b), NatToString(c), NatToString(d), kind))
    ensures ParseLine(s) == Some(Box(a, b, c, d, if kind.Some? then kind.value else "unknown", false))
  {
    MatchAtStart(s);
    BoxOfNumerals(a, b, c, d, kind);
  }

  /** The box of captured numerals holds the numbers they were written from. */
  lemma BoxOfNumerals(a: nat, b: nat, c: nat, d: nat, kind: Option<string>)
    requires kind.Some? ==> IsWord(kind.value)
    ensures WellFormed(Captures(NatToString(a), NatToString(b), NatToString(c), NatToString(d), kind))
    ensures ToBox(Captures(NatToString(a), NatToString(b), NatToString(c), NatToString(d), kind))
         == Box(a, b, c, d, if kind.Some? then kind.value else "unknown", false)
  {
    DigitsValueOfNatToString(a);
    DigitsValueOfNatToString(b);
    DigitsValueOfNatToString(c);
    DigitsValueOfNatToString(d);
  }

  /** A line the pattern matches at its very start yields that match. */
  lemma MatchAtStart(s: string)
    requires MatchPrefix(s).Some?
    ensures LineMatch(s) == MatchPrefix(s)
    ensures ParseLine(s) == Some(ToBox(MatchPrefix(s).value))
  {
    MatchPrefixWellFormed(s);
    assert s[0..] == s;
    assert MatchesAt(s, 0);
  }

  /** A stretch whose number is negative fails: `\d+` cannot start at the minus sign. */
  lemma NegativeField(tag: string, i: int, r: string)
    requires i < 0
    ensures Field(tag + IntToString(i) + r, tag) == None
  {
    var t := tag + IntToString(i) + r;
    assert t[..|tag|] == tag;
    assert t[|tag|..][0] == '-';
  }

  /** The pattern fails at the start of `t` as soon as one of its stretches fails. */
  lemma MatchStops(t: string)
    ensures Field(t, "x1:").None? ==> MatchPrefix(t).None?
    ensures Field(t, "x1:").Some? && Field(Field(t, "x1:").value.1, "y1:").None? ==> MatchPrefix(t).None?
  {
  }

  lemma MatchStopsLater(t: string, d1: string, t1: string, d2: string, t2: string)
    requires Field(t, "x1:") == Some((d1, t1)) && Field(t1, "y1:") == Some((d2, t2))
    ensures Field(t2, "x2:").None? ==> MatchPrefix(t).None?
    ensures Field(t2, "x2:").Some? && Field(Field(t2, "x2:").value.1, "y2:").None? ==> MatchPrefix(t).None?
  {
  }

  /** A record with a negative coordinate: the pattern does not match at the start of its line. */
  lemma NegativeAtStart(i1: int, i2: int, i3: int, i4: int, tail: string)
    requires i1 < 0 || i2 < 0 || i3 < 0 || i4 < 0
    ensures MatchPrefix(WriterLine(IntToString(i1), IntToString(i2), IntToString(i3), IntToString(i4), tail)).None?
  {
    var n1, n2, n3, n4 := IntToString(i1), IntToString(i2), IntToString(i3), IntToString(i4);
    var t3 := "y2:" + n4 + tail;
    var t2 := "x2:" + n3 + (" y2:" + n4 + tail);
    var t1 := "y1:" + n2 + (" x2:" + n3 + (" y2:" + n4 + tail));
    Separators();
    var s := WriterLine(n1, n2, n3, n4, tail);
    MatchStops(s);
    if i1 < 0 {
      NegativeField("x1:", i1, " y1:" + n2 + (" x2:" + n3 + (" y2:" + n4 + tail)));
    } else {
      MidField("x1:", i1, " y1:", "y1:", n2, " x2:" + n3 + (" y2:" + n4 + tail));
      if i2 < 0 {
        NegativeField("y1:", i2, " x2:" + n3 + (" y2:" + n4 + tail));
      } else {
        MidField("y1:", i2, " x2:", "x2:", n3, " y2:" + n4 + tail);
        MatchStopsLater(s, n1, t1, n2, t2);
        if i3 < 0 {
          NegativeField("x2:", i3, " y2:" + n4 + tail);
        } else {
          MidField("x2:", i3, " y2:", "y2:", n4, tail);
          NegativeField("y2:", i4, tail);
        }
      }
    }
  }

  /**
   * Every colon of `s` closes a two-character tag other than `x1`, so the
   * text `x1:` occurs nowhere in `s`, nor straddles its start.
   */
  predicate ColonsTagged(s: string) {
    forall j :: 0 <= j < |s| && s[j] == ':' ==> j >= 2 && !(s[j - 2] == 'x' && s[j - 1] == '1')
  }

  lemma ColonsTaggedAppend(a: string, b: string)
    requires ColonsTagged(a) && ColonsTagged(b)
    ensures ColonsTagged(a + b)
  {
    forall j | 0 <= j < |a + b| && (a + b)[j] == ':'
      ensures j >= 2 && !((a + b)[j - 2] == 'x' && (a + b)[j - 1] == '1')
    {
      if j >= |a| {
        var k := j - |a|;
        assert b[k] == ':';
        assert (a + b)[j - 2] == b[k - 2] && (a + b)[j - 1] == b[k - 1];
      } else {
        assert a[j] == ':';
      }
    }
  }

  lemma NumeralColonsTagged(i: int)
    ensures ColonsTagged(IntToString(i))
  {
    IntToStringShape(i);
  }

  lemma WordColonsTagged(name: string)
    requires IsWord(name)
    ensures ColonsTagged(name)
  {
    assert forall j :: 0 <= j < |name| ==> IsWordChar(name[j]);
  }

  /**
   * A line of the coordinate file, after its leading `x1:`, contains no
   * further `x1:`.
   */
  lemma BodyRest(d: Detection)
    requires IsWord(d.clsName)
    ensures CoordinateBody(d) == "x1:" + (IntToString(d.x1) + (" y1:" + IntToString(d.y1) + (" x2:" + IntToString(d.x2)
      + (" y2:" + IntToString(d.y2) + (" " + d.clsName)))))
    ensures ColonsTagged(IntToString(d.x1) + (" y1:" + IntToString(d.y1) + (" x2:" + IntToString(d.x2)
      + (" y2:" + IntToString(d.y2) + (" " + d.clsName)))))
  {
    var n1, n2, n3, n4 := IntToString(d.x1), IntToString(d.y1), IntToString(d.x2), IntToString(d.y2);
    var r4 := " y2:" + n4 + (" " + d.clsName);
    var r3 := " x2:" + n3 + r4;
    var r2 := " y1:" + n2 + r3;
    AppendAssoc("x1:", n1, r2);
    NumeralColonsTagged(d.x1);
    NumeralColonsTagged(d.y1);
    NumeralColonsTagged(d.x2);
    NumeralColonsTagged(d.y2);
    WordColonsTagged(d.clsName);
    assert ColonsTagged(" y1:") && ColonsTagged(" x2:") && ColonsTagged(" y2:") && ColonsTagged(" ");
    ColonsTaggedAppend(" ", d.clsName);
    ColonsTaggedAppend(" y2:", n4);
    ColonsTaggedAppend(" y2:" + n4, " " + d.clsName);
    ColonsTaggedAppend(" x2:", n3);
    ColonsTaggedAppend(" x2:" + n3, r4);
    ColonsTaggedAppend(" y1:", n2);
    ColonsTaggedAppend(" y1:" + n2, r3);
    ColonsTaggedAppend(n1, r2);
  }

  /** The pattern can only match where the text starts with `x1:`. */
  lemma MatchNeedsTag(t: string)
    ensures !StartsWith(t, "x1:") ==> MatchPrefix(t).None?
  {
  }

  /** Past its first character, `"x1:" + r` does not match when `r` has no `x1:` tag. */
  lemma NoLaterMatch(r: string, q: nat)
    requires ColonsTagged(r)
    requires 0 < q <= |"x1:" + r|
    ensures !MatchesAt("x1:" + r, q)
  {
    var s := "x1:" + r;
    var t := s[q..];
    if 3 <= |t| {
      assert t[2] == r[q - 1];
      if r[q - 1] == ':' {
        assert t[0] == r[q - 3] && t[1] == r[q - 2];
      }
      assert t[..3] != "x1:" by {
        assert t[..3][0] == t[0] && t[..3][1] == t[1] && t[..3][2] == t[2];
      }
    }
    MatchNeedsTag(t);
  }

  /** A record lies on the canvas when none of its coordinates is negative. */
  predicate OnCanvas(d: Detection) {
    d.x1 >= 0 && d.y1 >= 0 && d.x2 >= 0 && d.y2 >= 0
  }

  /** The box the page should read back for a record on the canvas. */
  function ReadBack(d: Detection): Box
    requires OnCanvas(d)
  {
    Box(d.x1, d.y1, d.x2, d.y2, d.clsName, false)
  }

  /** The boxes the page should read back from the file of `ds`: the records on the canvas, in order. */
  function Expected(ds: seq<Detection>): seq<Box> {
    if ds == [] then [] else (if OnCanvas(ds[0]) then [ReadBack(ds[0])] else []) + Expected(ds[1..])
  }

  /** A record is on the canvas exactly when every corner the detector reported lies above -1. */
  lemma OnCanvasOfRaw(b: RawBox)
    ensures OnCanvas(ToDetection(b)) <==> b.x1 > -1.0 && b.y1 > -1.0 && b.x2 > -1.0 && b.y2 > -1.0
  {
    TruncateNonNegative(b.x1);
    TruncateNonNegative(b.y1);
    TruncateNonNegative(b.x2);
    TruncateNonNegative(b.y2);
  }

  /** The line of a record on the canvas is read back as its box. */
  lemma ParseBodyOnCanvas(d: Detection)
    requires IsWord(d.clsName) && OnCanvas(d)
    ensures ParseLine(CoordinateBody(d)) == Some(ReadBack(d))
  {
    assert CoordinateBody(d) == WriterLine(NatToString(d.x1), NatToString(d.y1), NatToString(d.x2), NatToString(d.y2),
                                           Tail(d.clsName));
    ParseWriterLine(d.x1, d.y1, d.x2, d.y2, d.clsName);
  }

  /** The line of a record with a negative coordinate matches nowhere, so the page skips it. */
  lemma ParseBodyOffCanvas(d: Detection)
    requires IsWord(d.clsName) && !OnCanvas(d)
    ensures ParseLine(CoordinateBody(d)) == None
  {
    var s := CoordinateBody(d);
    var r := IntToString(d.x1) + (" y1:" + IntToString(d.y1) + (" x2:" + IntToString(d.x2)
      + (" y2:" + IntToString(d.y2) + (" " + d.clsName))));
    BodyRest(d);
    assert s == WriterLine(IntToString(d.x1), IntToString(d.y1), IntToString(d.x2), IntToString(d.y2), " " + d.clsName);
    NegativeAtStart(d.x1, d.y1, d.x2, d.y2, " " + d.clsName);
    assert s[0..] == s;
    forall q | 0 < q <= |s|
      ensures !MatchesAt(s, q)
    {
      NoLaterMatch(r, q);
    }
    FirstMatchFromIsLeftmost(s, 0);
  }

  /** A single line gives its box, if it has one. */
  lemma ParseLinesSingle(line: string)
    ensures var r := ParseLine(line);
      ParseLines([line]) == if r.Some? then [r.value] else []
  {
    var rs := LineResults([line]);
    assert rs == [ParseLine(line)];
    assert rs[..0] == [];
    assert Present(rs[..0]) == [];
  }

  /** The bodies of the lines of the file are read back as the boxes of the records on the canvas. */
  lemma {:induction false} ParseBodies(ds: seq<Detection>)
    requires forall k :: 0 <= k < |ds| ==> IsWord(ds[k].clsName)
    ensures ParseLines(Bodies(ds)) == Expected(ds)
  {
    if ds != [] {
      var b := CoordinateBody(ds[0]);
      ParseBodies(ds[1..]);
      ParseLinesAppend([b], Bodies(ds[1..]));
      ParseLinesSingle(b);
      if OnCanvas(ds[0]) {
        ParseBodyOnCanvas(ds[0]);
      } else {
        ParseBodyOffCanvas(ds[0]);
      }
    }
  }

  /** A line of the file starts with `x` and ends with the last character of the class name. */
  lemma BodyEnds(d: Detection)
    requires IsWord(d.clsName)
    ensures var b := CoordinateBody(d);
      |b| > 0 && b[0] == 'x' && b[|b| - 1] == d.clsName[|d.clsName| - 1]
  {
    var n := d.clsName;
    var r4 := " y2:" + IntToString(d.y2) + (" " + n);
    var r3 := " x2:" + IntToString(d.x2) + r4;
    var r2 := " y1:" + IntToString(d.y1) + r3;
    assert r4[|r4| - 1] == n[|n| - 1];
    assert r3[|r3| - 1] == n[|n| - 1];
    assert r2[|r2| - 1] == n[|n| - 1];
  }

  /** The file of at least one record is its lines without the final newline, then that newline; trimming removes just the newline. */
  lemma TrimmedText(ds: seq<Detection>)
    requires ds != []
    requires forall k :: 0 <= k < |ds| ==> IsWord(ds[k].clsName)
    ensures CoordinateText(ds) == Trim(CoordinateText(ds)) + "\n"
  {
    var last := ds[|ds| - 1];
    var v := CoordinateText(ds[..|ds| - 1]) + CoordinateBody(last);
    TextShape(ds);
    var c := last.clsName[|last.clsName| - 1];
    assert IsWordChar(c);
    assert IsWordChar(v[|v| - 1]) && IsWordChar(v[0]);
    TrimLine(v);
  }

  /** The file of at least one record: text starting with `x`, ending with the last class name, then a newline. */
  lemma TextShape(ds: seq<Detection>)
    requires ds != []
    requires IsWord(ds[0].clsName) && IsWord(ds[|ds| - 1].clsName)
    ensures var last := ds[|ds| - 1];
      var v := CoordinateText(ds[..|ds| - 1]) + CoordinateBody(last);
      && CoordinateText(ds) == v + "\n"
      && |v| > 0 && v[0] == 'x' && v[|v| - 1] == last.clsName[|last.clsName| - 1]
  {
    var last := ds[|ds| - 1];
    var v := CoordinateText(ds[..|ds| - 1]) + CoordinateBody(last);
    BodyEnds(ds[0]);
    BodyEnds(last);
    CoordinateTextCons(ds);
    AppendAssoc(CoordinateText(ds[..|ds| - 1]), CoordinateBody(last), "\n");
    assert (v + "\n")[0] == CoordinateLine(ds[0])[0];
  }

  lemma SnocCancel<T>(a: seq<T>, b: seq<T>, x: T)
    requires a + [x] == b + [x]
    ensures a == b
  {
    assert a == (a + [x])[..|a|];
    assert b == (b + [x])[..|b|];
  }

  /**
   * What the page reads from the coordinate file the tool saved: the box of
   * every record on the canvas, in record order, with its coordinates and
   * class name and no image; records with a negative coordinate are skipped.
   */
  lemma {:induction false} SavedFileReadBack(ds: seq<Detection>)
    requires forall k :: 0 <= k < |ds| ==> IsWord(ds[k].clsName)
    ensures ParsedBoxes(CoordinateText(ds)) == Expected(ds)
  {
    if ds == [] {
      BlankText("");
    } else {
      var t := CoordinateText(ds);
      TrimmedText(ds);
      SplitNewlineEnd(Trim(t));
      CoordinateLines(ds);
      SnocCancel(Split(Trim(t)), Bodies(ds), "");
      ParseBodies(ds);
    }
  }

  /** When every record is on the canvas, the page reads back exactly one box per record, in order. */
  lemma {:induction false} ExpectedOnCanvas(ds: seq<Detection>)
    requires forall k :: 0 <= k < |ds| ==> OnCanvas(ds[k])
    ensures |Expected(ds)| == |ds|
    ensures forall k :: 0 <= k < |ds| ==> Expected(ds)[k] == ReadBack(ds[k])
  {
    if ds != [] {
      ExpectedOnCanvas(ds[1..]);
      assert Expected(ds) == [ReadBack(ds[0])] + Expected(ds[1..]);
    }
  }

  /** Class names as the tool gives them, `door` or `window`, are words. */
  lemma NamedAreWords(ds: seq<Detection>)
    requires Named(ds)
    ensures forall k :: 0 <= k < |ds| ==> IsWord(ds[k].clsName)
  {
    assert IsWord("door") && IsWord("window");
  }

  /**
   * The file a save writes from the session's boxes, which carry the names the
   * tool gave them, is read back as the boxes of the records on the canvas.
   */
  lemma {:induction false} SessionReadBack(ds: seq<Detection>)
    requires Named(ds)
    ensures ParsedBoxes(CoordinateText(ds)) == Expected(ds)
  {
    NamedAreWords(ds);
    SavedFileReadBack(ds);
  }

  /** In particular for the boxes of a sweep over the thresholds. */
  lemma {:induction false} SweepReadBack(model: Predictor, path: string)
    ensures ParsedBoxes(CoordinateText(Sweep(model, path, Thresholds))) == Expected(Sweep(model, path, Thresholds))
  {
    SweepNamed(model, path, Thresholds);
    SessionReadBack(Sweep(model, path, Thresholds));
  }
}
