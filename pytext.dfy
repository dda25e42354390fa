/**
 * The Python string builtins the proxy finder relies on: `str.isspace`,
 * `str.strip`, `str.split(sep)`, `str.splitlines` and `int(str)`. Whitespace
 * and line breaks are Python's full sets; digits are the ASCII digits only.
 */
module PyText {
  import opened Wrappers

  /** `str.isspace()` for one character. */
  predicate IsSpace(c: char) {
    || c == ' ' || c == '\t' || c == '\n' || c == '\r'
    || c == '\U{000B}' || c == '\U{000C}' || ('\U{001C}' <= c <= '\U{001F}')
    || c == '\U{0085}' || c == '\U{00A0}' || c == '\U{1680}' || ('\U{2000}' <= c <= '\U{200A}')
    || c == '\U{2028}' || c == '\U{2029}' || c == '\U{202F}' || c == '\U{205F}' || c == '\U{3000}'
  }

  /** The characters `str.splitlines()` breaks on (`\r\n` is two of them here). */
  predicate IsLineBreak(c: char) {
    || c == '\n' || c == '\r' || c == '\U{000B}' || c == '\U{000C}' || ('\U{001C}' <= c <= '\U{001E}')
    || c == '\U{0085}' || c == '\U{2028}' || c == '\U{2029}'
  }

  predicate IsDigit(c: char) {
    '0' <= c <= '9'
  }

  predicate AllDigits(s: string) {
    forall k :: 0 <= k < |s| ==> IsDigit(s[k])
  }

  /** Python's `str.lstrip()`: drops the leading whitespace and nothing else. */
  function StripLeft(s: string): (r: string)
    ensures |r| <= |s| && r == s[|s| - |r|..]
    ensures r == [] || !IsSpace(r[0])
    ensures forall k :: 0 <= k < |s| - |r| ==> IsSpace(s[k])
  {
    if s != [] && IsSpace(s[0]) then StripLeft(s[1..]) else s
  }

  /** Python's `str.rstrip()`: drops the trailing whitespace and nothing else. */
  function StripRight(s: string): (r: string)
    ensures |r| <= |s| && r == s[..|r|]
    ensures r == [] || !IsSpace(r[|r| - 1])
    ensures forall k :: |r| <= k < |s| ==> IsSpace(s[k])
  {
    if s != [] && IsSpace(s[|s| - 1]) then StripRight(s[..|s| - 1]) else s
  }

  /** Python's `str.strip()`. */
  function Strip(s: string): string {
    StripRight(StripLeft(s))
  }

  /** A stripped string starts and ends with a non-space, and stripping it again changes nothing. */
  lemma StripIsStripped(s: string)
    ensures var t := Strip(s); t == [] || (!IsSpace(t[0]) && !IsSpace(t[|t| - 1]))
    ensures Strip(Strip(s)) == Strip(s)
  {
    var l := StripLeft(s);
    var t := StripRight(l);
    assert t == l[..|t|];
    if t != [] {
      assert t[0] == l[0];
    }
  }

  /** `s.strip()` is the slice of `s` that starts after its leading whitespace. */
  lemma StripIsSlice(s: string)
    ensures var i := |s| - |StripLeft(s)|;
            i + |Strip(s)| <= |s| && Strip(s) == s[i..i + |Strip(s)|]
  {
    var l := StripLeft(s);
    var t := StripRight(l);
    var i := |s| - |l|;
    calc {
      Strip(s);
      t;
      l[..|t|];
      s[i..][..|t|];
      s[i..i + |t|];
    }
  }

  /** A string with no whitespace at either end is its own strip. */
  lemma StripFixed(s: string)
    requires s != [] ==> !IsSpace(s[0]) && !IsSpace(s[|s| - 1])
    ensures Strip(s) == s
  {
    if s != [] {
      assert StripLeft(s) == s;
    }
  }

  /** The inverse of `Split`: the parts glued back with `sep` between them. */
  function Join(parts: seq<string>, sep: char): string
    requires |parts| >= 1
  {
    if |parts| == 1 then parts[0] else parts[0] + [sep] + Join(parts[1..], sep)
  }

  /** Python's `s.split(sep)` for a one-character separator (never an empty list). */
  function Split(s: string, sep: char): (parts: seq<string>)
    ensures |parts| >= 1
    ensures forall k :: 0 <= k < |parts| ==> sep !in parts[k]
    ensures Join(parts, sep) == s
  {
    if s == [] then [""]
    else if s[0] == sep then [""] + Split(s[1..], sep)
    else
      var rest := Split(s[1..], sep);
      assert s == [s[0]] + s[1..];
      [[s[0]] + rest[0]] + rest[1..]
  }

  /** Splitting a joined list gives the list back, when no part holds the separator. */
  lemma {:induction false} SplitJoin(parts: seq<string>, sep: char)
    requires |parts| >= 1
    requires forall k :: 0 <= k < |parts| ==> sep !in parts[k]
    ensures Split(Join(parts, sep), sep) == parts
  {
    if |parts| == 1 {
      SplitNoSeparator(parts[0], sep);
    } else {
      SplitJoin(parts[1..], sep);
      SplitAfterPart(parts[0], Join(parts[1..], sep), sep);
    }
  }

  lemma {:induction false} SplitNoSeparator(s: string, sep: char)
    requires sep !in s
    ensures Split(s, sep) == [s]
  {
    if s != [] {
      assert sep !in s[1..] by {
        assert forall k :: 0 <= k < |s[1..]| ==> s[1..][k] == s[k + 1];
      }
      SplitNoSeparator(s[1..], sep);
    }
  }

  lemma {:induction false} SplitAfterPart(part: string, rest: string, sep: char)
    requires sep !in part
    ensures Split(part + [sep] + rest, sep) == [part] + Split(rest, sep)
  {
    var s := part + [sep] + rest;
    if part == [] {
      assert s == [sep] + rest;
      assert s[0] == sep && s[1..] == rest;
    } else {
      assert sep !in part[1..] by {
        assert forall k :: 0 <= k < |part[1..]| ==> part[1..][k] == part[k + 1];
      }
      var tail := part[1..] + [sep] + rest;
      assert s[1..] == tail;
      assert s[0] == part[0] && s[0] != sep;
      SplitAfterPart(part[1..], rest, sep);
      var r := Split(tail, sep);
      assert r == [part[1..]] + Split(rest, sep);
      assert Split(s, sep) == [[s[0]] + r[0]] + r[1..];
      assert [part[0]] + part[1..] == part;
    }
  }

  predicate NoLineBreak(s: string) {
    forall j :: 0 <= j < |s| ==> !IsLineBreak(s[j])
  }

  /** The characters of `s` that are not line breaks, in order. */
  function DropLineBreaks(s: string): string {
    if s == [] then []
    else (if IsLineBreak(s[0]) then [] else [s[0]]) + DropLineBreaks(s[1..])
  }

  function Flatten(parts: seq<string>): string {
    if parts == [] then [] else parts[0] + Flatten(parts[1..])
  }

  /** The line-break characters of `s`, in order. */
  function Breaks(s: string): string {
    if s == [] then [] else (if IsLineBreak(s[0]) then [s[0]] else []) + Breaks(s[1..])
  }

  /** The pieces glued back together, with `breaks[k]` between piece `k` and piece `k + 1`. */
  function Weave(pieces: seq<string>, breaks: string): string
    requires |pieces| == |breaks| + 1
  {
    if breaks == [] then pieces[0] else pieces[0] + [breaks[0]] + Weave(pieces[1..], breaks[1..])
  }

  /**
   * `str.splitlines()` up to empty pieces: every break character ends a
   * piece. Python treats `\r\n` as one break and drops a final empty piece;
   * both differences are empty pieces only. The pieces are cut exactly at
   * the breaks: there is one more piece than there are breaks, no piece
   * holds a break, and weaving the breaks back between the pieces gives `s`.
   */
  function Lines(s: string): (lines: seq<string>)
    ensures |lines| == |Breaks(s)| + 1
    ensures forall k :: 0 <= k < |lines| ==> NoLineBreak(lines[k])
    ensures Weave(lines, Breaks(s)) == s
    ensures Flatten(lines) == DropLineBreaks(s)
  {
    if s == [] then [""]
    else if IsLineBreak(s[0]) then
      var rest := Lines(s[1..]);
      assert ([""] + rest)[1..] == rest;
      assert s == [s[0]] + s[1..];
      [""] + rest
    else
      var rest := Lines(s[1..]);
      assert Flatten(rest) == rest[0] + Flatten(rest[1..]);
      assert Breaks(s) == Breaks(s[1..]);
      WeavePrepend(s[0], rest, Breaks(s[1..]));
      assert s == [s[0]] + s[1..];
      [[s[0]] + rest[0]] + rest[1..]
  }

  /** A character put in front of the first piece comes out in front of the woven string. */
  lemma WeavePrepend(c: char, pieces: seq<string>, breaks: string)
    requires |pieces| == |breaks| + 1
    ensures Weave([[c] + pieces[0]] + pieces[1..], breaks) == [c] + Weave(pieces, breaks)
  {
    var p := [[c] + pieces[0]] + pieces[1..];
    if breaks != [] {
      assert p[1..] == pieces[1..];
      var w := Weave(pieces[1..], breaks[1..]);
      assert ([c] + pieces[0]) + [breaks[0]] + w == [c] + (pieces[0] + [breaks[0]] + w);
    }
  }

  /**
   * The cut is unique: pieces free of breaks that weave back into `s` with
   * its breaks are exactly `Lines(s)`.
   */
  lemma {:induction false} LinesUnique(pieces: seq<string>, s: string)
    requires |pieces| == |Breaks(s)| + 1
    requires forall k :: 0 <= k < |pieces| ==> NoLineBreak(pieces[k])
    requires Weave(pieces, Breaks(s)) == s
    ensures pieces == Lines(s)
    decreases |s|
  {
    if s == [] {
      assert Weave(pieces, []) == pieces[0];
    } else if pieces[0] == [] {
      // the first character is a break
      assert Breaks(s) != [];
      var b := Breaks(s);
      assert s == [b[0]] + Weave(pieces[1..], b[1..]);
      assert s[0] == b[0];
      FirstBreak(s);
      LinesUnique(pieces[1..], s[1..]);
      assert pieces == [""] + pieces[1..];
    } else {
      var c := pieces[0][0];
      assert !IsLineBreak(c);
      var tail := [pieces[0][1..]] + pieces[1..];
      assert [c] + tail[0] == pieces[0] && tail[1..] == pieces[1..];
      assert [[c] + tail[0]] + tail[1..] == pieces;
      WeavePrepend(c, tail, Breaks(s));
      assert s[0] == c && s[1..] == Weave(tail, Breaks(s));
      assert Breaks(s) == Breaks(s[1..]);
      forall k | 0 <= k < |tail|
        ensures NoLineBreak(tail[k])
      {
        if k == 0 {
          assert forall j :: 0 <= j < |tail[0]| ==> tail[0][j] == pieces[0][j + 1];
        } else {
          assert tail[k] == pieces[k];
        }
      }
      LinesUnique(tail, s[1..]);
    }
  }

  lemma FirstBreak(s: string)
    requires s != [] && Breaks(s) != [] && s[0] == Breaks(s)[0]
    ensures IsLineBreak(s[0]) && Breaks(s)[1..] == Breaks(s[1..])
  {
    BreaksAreBreaks(s);
  }

  lemma {:induction false} BreaksAreBreaks(s: string)
    ensures forall k :: 0 <= k < |Breaks(s)| ==> IsLineBreak(Breaks(s)[k])
  {
    if s != [] {
      BreaksAreBreaks(s[1..]);
    }
  }

  /** The value of one decimal digit. */
  function DigitOf(c: char): (d: nat)
    requires IsDigit(c)
    ensures d <= 9
  {
    (c as int) - ('0' as int)
  }

  /** The value of a decimal digit string (leading zeros allowed). */
  function DigitsValue(s: string): nat
    requires AllDigits(s)
  {
    if s == [] then 0
    else 10 * DigitsValue(s[..|s| - 1]) + DigitOf(s[|s| - 1])
  }

  /** The decimal text of a natural number, without leading zeros (Python's `str(n)`). */
  function NatToDecimal(n: nat): (s: string)
    ensures |s| >= 1 && AllDigits(s)
    ensures |s| > 1 ==> s[0] != '0'
    decreases n
  {
    var digit := [(('0' as int) + n % 10) as char];
    if n < 10 then digit else NatToDecimal(n / 10) + digit
  }

  lemma {:induction false} DecimalValue(n: nat)
    ensures DigitsValue(NatToDecimal(n)) == n
    decreases n
  {
    var s := NatToDecimal(n);
    if n >= 10 {
      DecimalValue(n / 10);
      assert s[..|s| - 1] == NatToDecimal(n / 10);
    }
  }

  /** Python's `int()` body: digits with single underscores between digits. */
  predicate IsDigitGroups(s: string) {
    && |s| >= 1
    && IsDigit(s[0])
    && IsDigit(s[|s| - 1])
    && (forall k :: 0 <= k < |s| ==> IsDigit(s[k]) || s[k] == '_')
    && (forall k :: 0 <= k < |s| - 1 ==> !(s[k] == '_' && s[k + 1] == '_'))
  }

  function DropUnderscores(s: string): (r: string)
    requires forall k :: 0 <= k < |s| ==> IsDigit(s[k]) || s[k] == '_'
    ensures AllDigits(r)
  {
    if s == [] then []
    else (if s[0] == '_' then [] else [s[0]]) + DropUnderscores(s[1..])
  }

  /**
   * Python's `int(s)` in base 10: surrounding whitespace, an optional sign,
   * then digit groups. `None` stands for the `ValueError` it raises.
   */
  function ParseInt(s: string): Option<int> {
    var t := Strip(s);
    if t == [] then None
    else
      var negative := t[0] == '-';
      var body := if t[0] == '-' || t[0] == '+' then t[1..] else t;
      if !IsDigitGroups(body) then None
      else
        var v: int := DigitsValue(DropUnderscores(body));
        Some(if negative then -v else v)
  }

  /** `int(str(n)) == n`: the parser reads back the decimal text of every natural number. */
  lemma ParseDecimal(n: nat)
    ensures ParseInt(NatToDecimal(n)) == Some(n)
  {
    ParseDigits(NatToDecimal(n));
    DecimalValue(n);
  }

  /** A non-empty run of digits parses to its decimal value. */
  lemma ParseDigits(s: string)
    requires |s| >= 1 && AllDigits(s)
    ensures ParseInt(s) == Some(DigitsValue(s))
  {
    NoSpaceStripsToItself(s);
    DropNoUnderscores(s);
    assert IsDigit(s[0]) && IsDigit(s[|s| - 1]);
    assert IsDigitGroups(s);
  }

  lemma NoSpaceStripsToItself(s: string)
    requires AllDigits(s)
    ensures Strip(s) == s
  {
    if s != [] {
      assert IsDigit(s[0]) && IsDigit(s[|s| - 1]);
    }
    StripFixed(s);
  }

  lemma {:induction false} DropNoUnderscores(s: string)
    requires AllDigits(s)
    ensures DropUnderscores(s) == s
  {
    if s != [] {
      DropNoUnderscores(s[1..]);
    }
  }

  /** A non-empty sequence is its prefix with its last element put back. */
  lemma SnocLast<T>(xs: seq<T>)
    requires xs != []
    ensures xs[..|xs| - 1] + [xs[|xs| - 1]] == xs
  {
  }
}
