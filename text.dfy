/**
 * Characters, decimal numerals and newline splitting: the vocabulary shared by
 * the Python tool that writes the coordinate file and the browser page that
 * reads it back.
 */
module Text {

  datatype Option<T> = None | Some(value: T)

  predicate IsDigit(c: char) {
    '0' <= c <= '9'
  }

  /** `\w` of a JavaScript regular expression without the `u` flag. */
  predicate IsWordChar(c: char) {
    ('a' <= c <= 'z') || ('A' <= c <= 'Z') || IsDigit(c) || c == '_'
  }

  /**
   * ECMAScript's WhiteSpace and LineTerminator characters: what `\s` matches
   * and what `String.prototype.trim` removes.
   */
  predicate IsSpace(c: char) {
    || c == '\t' || c == '\n' || c == '\U{000B}' || c == '\U{000C}' || c == '\r' || c == ' '
    || c == '\U{00A0}' || c == '\U{1680}' || ('\U{2000}' <= c <= '\U{200A}')
    || c == '\U{2028}' || c == '\U{2029}' || c == '\U{202F}' || c == '\U{205F}'
    || c == '\U{3000}' || c == '\U{FEFF}'
  }

  lemma WordCharNotSpace(c: char)
    requires IsWordChar(c)
    ensures !IsSpace(c)
  {
  }

  predicate AllDigits(s: string) {
    forall i :: 0 <= i < |s| ==> IsDigit(s[i])
  }

  /** A non-empty run of `\w` characters, as `(\w+)` captures it. */
  predicate IsWord(s: string) {
    |s| > 0 && forall i :: 0 <= i < |s| ==> IsWordChar(s[i])
  }

  function DigitChar(d: nat): char
    requires d < 10
  {
    ('0' as int + d) as char
  }

  /**
   * The decimal numeral of `n`, without sign or leading zeros: Python's `str`
   * of a non-negative int, and JavaScript's `String` of a non-negative integer
   * below 10^21.
   */
  function NatToString(n: nat): (s: string)
    ensures |s| > 0 && AllDigits(s)
    ensures n >= 10 <==> |s| > 1
  {
    if n < 10 then [DigitChar(n)] else NatToString(n / 10) + [DigitChar(n % 10)]
  }

  /** JavaScript's `Number` applied to a string of decimal digits. */
  function DigitsValue(s: string): nat
    requires AllDigits(s)
  {
    if s == [] then 0 else DigitsValue(s[..|s| - 1]) * 10 + (s[|s| - 1] as int - '0' as int)
  }

  /** Reading back a numeral gives the number it was written from. */
  lemma {:induction false} DigitsValueOfNatToString(n: nat)
    ensures DigitsValue(NatToString(n)) == n
  {
    if n >= 10 {
      var s := NatToString(n);
      assert s[..|s| - 1] == NatToString(n / 10);
      DigitsValueOfNatToString(n / 10);
    }
  }

  /** Python's `str` of an int. */
  function IntToString(i: int): string {
    if i < 0 then "-" + NatToString(-i) else NatToString(i)
  }

  /**
   * Python's `str` of an int is a minus sign exactly when the int is negative,
   * followed by digits; read back, the digits of a non-negative int give the int.
   */
  lemma IntToStringShape(i: int)
    ensures var s := IntToString(i);
      && |s| > 0
      && (s[0] == '-' <==> i < 0)
      && (forall k :: 1 <= k < |s| ==> IsDigit(s[k]))
      && (AllDigits(s) <==> i >= 0)
      && (i >= 0 ==> DigitsValue(s) == i)
  {
    if i >= 0 {
      DigitsValueOfNatToString(i);
    }
  }

  /** A numeral holds no newline. */
  lemma IntToStringNoNewline(i: int)
    ensures '\n' !in IntToString(i)
  {
    IntToStringShape(i);
  }

  /** `s` begins with `prefix`. */
  predicate StartsWith(s: string, prefix: string) {
    |prefix| <= |s| && s[..|prefix|] == prefix
  }

  /** JavaScript's `s.trimStart()`: `s` without its leading white space. */
  function TrimStart(s: string): (t: string)
    ensures |t| <= |s| && t == s[|s| - |t|..]
    ensures t == [] || !IsSpace(t[0])
    ensures forall i :: 0 <= i < |s| - |t| ==> IsSpace(s[i])
  {
    if s != [] && IsSpace(s[0]) then TrimStart(s[1..]) else s
  }

  /** JavaScript's `s.trimEnd()`: `s` without its trailing white space. */
  function TrimEnd(s: string): (t: string)
    ensures |t| <= |s| && t == s[..|t|]
    ensures t == [] || !IsSpace(t[|t| - 1])
    ensures forall i :: |t| <= i < |s| ==> IsSpace(s[i])
  {
    if s != [] && IsSpace(s[|s| - 1]) then TrimEnd(s[..|s| - 1]) else s
  }

  /** JavaScript's `s.trim()`. */
  function Trim(s: string): string {
    TrimEnd(TrimStart(s))
  }

  /** Trimming text made only of white space leaves nothing. */
  lemma {:induction false} TrimAllSpaces(s: string)
    requires forall i :: 0 <= i < |s| ==> IsSpace(s[i])
    ensures Trim(s) == ""
  {
    if s != [] {
      TrimAllSpaces(s[1..]);
      assert TrimStart(s) == TrimStart(s[1..]);
    }
  }

  /** Trimming a line that starts and ends with word characters, plus a newline, leaves the line. */
  lemma TrimLine(v: string)
    requires v != [] && IsWordChar(v[0]) && IsWordChar(v[|v| - 1])
    ensures Trim(v + "\n") == v
  {
    var t := v + "\n";
    WordCharNotSpace(v[0]);
    WordCharNotSpace(v[|v| - 1]);
    assert TrimStart(t) == t;
    assert t[..|t| - 1] == v;
    assert TrimEnd(t) == TrimEnd(v);
  }

  /** The index of the first newline of `s`, or `|s|` when there is none. */
  function FirstNewline(s: string): (k: nat)
    ensures k <= |s|
    ensures forall i :: 0 <= i < k ==> s[i] != '\n'
    ensures k < |s| ==> s[k] == '\n'
  {
    if s == [] || s[0] == '\n' then 0 else 1 + FirstNewline(s[1..])
  }

  /** JavaScript's `s.split('\n')`: the pieces between newlines, at least one. */
  function Split(s: string): (lines: seq<string>)
    ensures |lines| > 0
    ensures forall i :: 0 <= i < |lines| ==> '\n' !in lines[i]
    decreases |s|
  {
    var k := FirstNewline(s);
    if k == |s| then [s] else [s[..k]] + Split(s[k + 1..])
  }

  /** The pieces glued back together with a newline between neighbours. */
  function Join(lines: seq<string>): string
    requires |lines| > 0
  {
    if |lines| == 1 then lines[0] else lines[0] + "\n" + Join(lines[1..])
  }

  /** A leading newline-free piece ended by a newline splits off as the first piece. */
  lemma SplitLine(b: string, rest: string)
    requires '\n' !in b
    ensures Split(b + "\n" + rest) == [b] + Split(rest)
  {
    var s := b + "\n" + rest;
    assert forall i :: 0 <= i < |b| ==> s[i] != '\n';
    assert s[|b|] == '\n';
    assert FirstNewline(s) == |b|;
    assert s[..|b|] == b;
    assert s[|b| + 1..] == rest;
  }

  /** Splitting newline-free pieces joined by newlines gives the pieces back. */
  lemma {:induction false} SplitJoin(lines: seq<string>)
    requires |lines| > 0
    requires forall i :: 0 <= i < |lines| ==> '\n' !in lines[i]
    ensures Split(Join(lines)) == lines
  {
    var l := lines[0];
    if |lines| == 1 {
      assert forall i :: 0 <= i < |l| ==> l[i] != '\n';
      assert FirstNewline(l) == |l|;
    } else {
      SplitJoin(lines[1..]);
      SplitLine(l, Join(lines[1..]));
    }
  }

  /** Joining the pieces of a split gives the original text. */
  lemma {:induction false} JoinSplit(s: string)
    ensures Join(Split(s)) == s
    decreases |s|
  {
    var k := FirstNewline(s);
    if k < |s| {
      var rest := Split(s[k + 1..]);
      JoinSplit(s[k + 1..]);
      ConsParts(s[..k], rest);
      AroundIndex(s, k);
    }
  }

  /** A final newline adds an empty last piece. */
  lemma {:induction false} SplitNewlineEnd(s: string)
    ensures Split(s + "\n") == Split(s) + [""]
    decreases |s|
  {
    var k := FirstNewline(s);
    if k == |s| {
      assert '\n' !in s by {
        assert forall i :: 0 <= i < |s| ==> s[i] != '\n';
      }
      SplitLine(s, "");
      assert s + "\n" == s + "\n" + "";
      assert FirstNewline("") == 0;
    } else {
      var b, rest := s[..k], s[k + 1..];
      assert '\n' !in b by {
        assert forall i :: 0 <= i < |b| ==> b[i] != '\n';
      }
      AroundIndex(s, k);
      SplitNewlineEnd(rest);
      SplitLine(b, rest);
      AppendAssoc(b + "\n", rest, "\n");
      SplitLine(b, rest + "\n");
      AppendAssoc([b], Split(rest), [""]);
    }
  }

  /** Dropping the last and then the first element, or the other way round, gives the same middle. */
  lemma InitTail<T>(s: seq<T>)
    requires |s| > 1
    ensures s[..|s| - 1][1..] == s[1..][..|s| - 2]
    ensures s[1..][|s| - 2] == s[|s| - 1]
  {
  }

  /** A suffix of a non-empty sequence is the same suffix of its prefix, plus the last element. */
  lemma SuffixSnoc<T>(s: seq<T>, k: nat)
    requires k < |s|
    ensures s[k..] == s[..|s| - 1][k..] + [s[|s| - 1]]
  {
  }

  lemma ConsParts<T>(x: T, r: seq<T>)
    ensures ([x] + r)[0] == x && ([x] + r)[1..] == r
  {
  }

  /** A sequence is what comes before index `k`, the element at `k`, and what comes after. */
  lemma AroundIndex<T>(s: seq<T>, k: nat)
    requires k < |s|
    ensures s == s[..k] + [s[k]] + s[k + 1..]
  {
  }

  lemma TakeAll<T>(s: seq<T>)
    ensures s[..|s|] == s
  {
  }

  lemma AppendAssoc<T>(a: seq<T>, b: seq<T>, c: seq<T>)
    ensures (a + b) + c == a + (b + c)
  {
  }
}
