/**
 * The three regular expressions of the scraper, as hand-written scanners.
 *
 *   IP:port  a word boundary, four octets separated by dots, a colon, one
 *            or more digits, a word boundary;
 *   IP       a word boundary, four octets separated by dots, a word boundary;
 *   port     a word boundary, two to five digits, a word boundary.
 *
 * An octet is one of the alternatives `25` followed by 0-5, `2` followed by
 * 0-4 and a digit, `1` followed by two digits, or a digit optionally preceded
 * by a non-zero digit (so 0 to 255 without leading zeros).
 *
 * Every octet of the two address patterns is followed by a literal `.` or
 * `:` or by `\b`, and the port `\d+` by `\b`; none of them can be followed by
 * a digit. So whatever alternative the backtracking engine picks, a match
 * always consumes whole runs of digits, and a match at position `i` exists
 * exactly when the runs starting at `i` have the right shape. The scanners
 * below check that shape; `FindAll` is `finditer` (leftmost matches, the
 * next search starting where the previous match ended) and `Search` is
 * `search`.
 */
module Patterns {
  import opened Wrappers
  import opened PyText

  datatype Pattern = IpPort | Ip | Port

  /** Python's `\w` for one character. */
  predicate IsWordChar(c: char) {
    IsDigit(c) || ('a' <= c <= 'z') || ('A' <= c <= 'Z') || c == '_'
  }

  /** `\b` at `i`, given that `s[i]` is a word character. */
  predicate WordStartsAt(s: string, i: nat)
    requires i <= |s|
  {
    i == 0 || !IsWordChar(s[i - 1])
  }

  /** `\b` at `j`, given that `s[j - 1]` is a word character. */
  predicate WordEndsAt(s: string, j: nat)
    requires j <= |s|
  {
    j == |s| || !IsWordChar(s[j])
  }

  /** The octet alternation `25[0-5]|2[0-4][0-9]|1\d{2}|[1-9]?\d`, alternative by alternative. */
  predicate OctetAlternative(o: string) {
    || (|o| == 3 && o[0] == '2' && o[1] == '5' && '0' <= o[2] <= '5')
    || (|o| == 3 && o[0] == '2' && '0' <= o[1] <= '4' && IsDigit(o[2]))
    || (|o| == 3 && o[0] == '1' && IsDigit(o[1]) && IsDigit(o[2]))
    || (|o| == 2 && '1' <= o[0] <= '9' && IsDigit(o[1]))
    || (|o| == 1 && IsDigit(o[0]))
  }

  /** A decimal number from 0 to 255 written without a leading zero. */
  predicate IsOctet(o: string) {
    && AllDigits(o)
    && 1 <= |o| <= 3
    && (|o| > 1 ==> o[0] != '0')
    && DigitsValue(o) <= 255
  }

  /** The alternation accepts exactly the octets 0..255 without leading zeros. */
  lemma OctetAlternativeIsOctet(o: string)
    ensures OctetAlternative(o) <==> IsOctet(o)
  {
    if AllDigits(o) && 1 <= |o| <= 3 {
      ShortDigitsValue(o);
    }
  }

  lemma ShortDigitsValue(o: string)
    requires AllDigits(o) && 1 <= |o| <= 3
    ensures |o| == 1 ==> DigitsValue(o) == DigitOf(o[0])
    ensures |o| == 2 ==> DigitsValue(o) == 10 * DigitOf(o[0]) + DigitOf(o[1])
    ensures |o| == 3 ==> DigitsValue(o) == 100 * DigitOf(o[0]) + 10 * DigitOf(o[1]) + DigitOf(o[2])
  {
    var one := o[..1];
    assert one[..0] == [];
    assert DigitsValue(one) == DigitOf(o[0]);
    if |o| >= 2 {
      var two := o[..2];
      assert two[..1] == one;
      assert DigitsValue(two) == 10 * DigitOf(o[0]) + DigitOf(o[1]);
      if |o| == 3 {
        assert o[..2] == two;
      } else {
        assert o == two;
      }
    } else {
      assert o == one;
    }
  }

  /** `h` is four octets joined by dots, e.g. `"10.0.0.1"`. */
  predicate IsIPv4(h: string) {
    IsDottedOctets(h, 4)
  }

  predicate IsDottedOctets(h: string, n: nat) {
    var parts := Split(h, '.');
    |parts| == n && forall k :: 0 <= k < n ==> IsOctet(parts[k])
  }

  /** `m` is an IPv4 address, a colon and a non-empty run of digits (the port is not range-checked). */
  predicate IsIPv4Port(m: string) {
    var parts := Split(m, ':');
    |parts| == 2 && IsIPv4(parts[0]) && parts[1] != [] && AllDigits(parts[1])
  }

  /** A standalone port as the port pattern finds it: two to five digits. */
  predicate IsPortText(m: string) {
    2 <= |m| <= 5 && AllDigits(m)
  }

  /** What a match of each pattern looks like. */
  predicate Matches(p: Pattern, m: string) {
    match p
    case IpPort => IsIPv4Port(m)
    case Ip => IsIPv4(m)
    case Port => IsPortText(m)
  }

  /** The end of the run of digits that starts at `i`. */
  function DigitRunEnd(s: string, i: nat): (j: nat)
    requires i <= |s|
    ensures i <= j <= |s|
    ensures forall k :: i <= k < j ==> IsDigit(s[k])
    ensures j == |s| || !IsDigit(s[j])
    decreases |s| - i
  {
    if i < |s| && IsDigit(s[i]) then DigitRunEnd(s, i + 1) else i
  }

  /** The end of an octet starting at `i`: the digit run there, if the alternation accepts it. */
  function OctetEnd(s: string, i: nat): Option<nat>
    requires i <= |s|
  {
    var j := DigitRunEnd(s, i);
    if OctetAlternative(s[i..j]) then Some(j) else None
  }

  /** The end of `n` octets separated by dots, starting at `i`. */
  function DottedEnd(s: string, i: nat, n: nat): (r: Option<nat>)
    requires i <= |s| && n >= 1
    ensures r.Some? ==> i < r.value <= |s|
    decreases n
  {
    match OctetEnd(s, i)
    case None => None
    case Some(j) =>
      if n == 1 then Some(j)
      else if j < |s| && s[j] == '.' then DottedEnd(s, j + 1, n - 1)
      else None
  }

  /** The end of a match of `p` that starts exactly at `i`, if there is one. */
  function MatchAt(p: Pattern, s: string, i: nat): (r: Option<nat>)
    requires i <= |s|
    ensures r.Some? ==> i < r.value <= |s|
  {
    if !WordStartsAt(s, i) then None
    else match p
      case Ip =>
        (match DottedEnd(s, i, 4)
         case Some(j) => if WordEndsAt(s, j) then Some(j) else None
         case None => None)
      case IpPort =>
        (match DottedEnd(s, i, 4)
         case Some(j) =>
           if j < |s| && s[j] == ':' then
             var k := DigitRunEnd(s, j + 1);
             if k > j + 1 && WordEndsAt(s, k) then Some(k) else None
           else None
         case None => None)
      case Port =>
        var k := DigitRunEnd(s, i);
        if 2 <= k - i <= 5 && WordEndsAt(s, k) then Some(k) else None
  }

  /** `p.finditer(s)` from position `from`: the leftmost non-overlapping matches, in order. */
  function FindAll(p: Pattern, s: string, from: nat): (ms: seq<string>)
    requires from <= |s|
    ensures forall k :: 0 <= k < |ms| ==> Matches(p, ms[k])
    decreases |s| - from
  {
    if from == |s| then []
    else match MatchAt(p, s, from)
      case Some(j) => MatchIsToken(p, s, from); [s[from..j]] + FindAll(p, s, j)
      case None => FindAll(p, s, from + 1)
  }

  /** `p.search(s)` from position `from`: the leftmost match, if any. */
  function SearchFrom(p: Pattern, s: string, from: nat): Option<string>
    requires from <= |s|
    decreases |s| - from
  {
    if from == |s| then None
    else match MatchAt(p, s, from)
      case Some(j) => Some(s[from..j])
      case None => SearchFrom(p, s, from + 1)
  }

  function Search(p: Pattern, s: string): Option<string> {
    SearchFrom(p, s, 0)
  }

  /** `search` finds exactly the first match `finditer` would report. */
  lemma {:induction false} SearchIsFirstMatch(p: Pattern, s: string, from: nat)
    requires from <= |s|
    ensures var ms := FindAll(p, s, from);
            SearchFrom(p, s, from) == if ms == [] then None else Some(ms[0])
    decreases |s| - from
  {
    if from < |s| && MatchAt(p, s, from).None? {
      SearchIsFirstMatch(p, s, from + 1);
    }
  }

  /** Every match of a pattern has the shape the pattern describes. */
  lemma MatchIsToken(p: Pattern, s: string, i: nat)
    requires i <= |s| && MatchAt(p, s, i).Some?
    ensures Matches(p, s[i..MatchAt(p, s, i).value])
  {
    match p
    case Ip => DottedEndIsDotted(s, i, 4);
    case IpPort => IpPortMatchIsToken(s, i);
    case Port =>
      var e := MatchAt(p, s, i).value;
      assert forall k :: 0 <= k < e - i ==> s[i..e][k] == s[i + k];
  }

  lemma IpPortMatchIsToken(s: string, i: nat)
    requires i <= |s| && MatchAt(IpPort, s, i).Some?
    ensures IsIPv4Port(s[i..MatchAt(IpPort, s, i).value])
  {
    var e := MatchAt(IpPort, s, i).value;
    var j := DottedEnd(s, i, 4).value;
    DottedEndIsDotted(s, i, 4);
    DottedEndChars(s, i, 4);
    HostHasNoColon(s, i, j);
    PortIsDigits(s, j + 1, e);
    SliceAround(s, i, j, e);
    IpPortCompose(s[i..j], s[j + 1..e]);
  }

  lemma HostHasNoColon(s: string, i: nat, j: nat)
    requires i <= j <= |s| && forall k :: i <= k < j ==> IsDigit(s[k]) || s[k] == '.'
    ensures ':' !in s[i..j]
  {
    assert forall k :: 0 <= k < j - i ==> s[i..j][k] == s[i + k];
  }

  lemma PortIsDigits(s: string, i: nat, e: nat)
    requires i <= e <= |s| && e == DigitRunEnd(s, i)
    ensures AllDigits(s[i..e])
  {
    assert forall k :: 0 <= k < e - i ==> s[i..e][k] == s[i + k];
  }

  lemma IpPortCompose(host: string, port: string)
    requires IsIPv4(host) && ':' !in host && port != [] && AllDigits(port)
    ensures IsIPv4Port(host + [':'] + port)
  {
    assert ':' !in port;
    SplitAfterPart(host, port, ':');
    SplitNoSeparator(port, ':');
  }

  /** The text `DottedEnd` accepts is `n` octets joined by dots. */
  lemma {:induction false} DottedEndIsDotted(s: string, i: nat, n: nat)
    requires i <= |s| && n >= 1 && DottedEnd(s, i, n).Some?
    ensures IsDottedOctets(s[i..DottedEnd(s, i, n).value], n)
    decreases n
  {
    var j := OctetEnd(s, i).value;
    OctetAt(s, i);
    if n == 1 {
      OneOctetDotted(s[i..j]);
    } else {
      DottedEndNext(s, i, n);
      DottedEndIsDotted(s, j + 1, n - 1);
      DottedCompose(s, i, j, DottedEnd(s, i, n).value, n);
    }
  }

  lemma OneOctetDotted(o: string)
    requires IsOctet(o)
    ensures IsDottedOctets(o, 1)
  {
    assert '.' !in o;
    SplitNoSeparator(o, '.');
  }

  lemma DottedCompose(s: string, i: nat, j: nat, e: nat, n: nat)
    requires i <= j < e <= |s| && s[j] == '.' && n >= 2
    requires IsOctet(s[i..j]) && IsDottedOctets(s[j + 1..e], n - 1)
    ensures IsDottedOctets(s[i..e], n)
  {
    SliceAround(s, i, j, e);
    DottedStep(s[i..j], s[j + 1..e], n);
  }

  /** The text `DottedEnd` accepts is made of digits and dots only. */
  lemma {:induction false} DottedEndChars(s: string, i: nat, n: nat)
    requires i <= |s| && n >= 1 && DottedEnd(s, i, n).Some?
    ensures forall k :: i <= k < DottedEnd(s, i, n).value ==> IsDigit(s[k]) || s[k] == '.'
    decreases n
  {
    if n >= 2 {
      DottedEndNext(s, i, n);
      DottedEndChars(s, OctetEnd(s, i).value + 1, n - 1);
    }
  }

  /** The first octet of a match is an octet in the sense of `IsOctet`. */
  lemma OctetAt(s: string, i: nat)
    requires i <= |s| && OctetEnd(s, i).Some?
    ensures OctetEnd(s, i).value == DigitRunEnd(s, i) && IsOctet(s[i..OctetEnd(s, i).value])
  {
    OctetAlternativeIsOctet(s[i..DigitRunEnd(s, i)]);
  }

  /** More than one octet: a dot follows the first, and the rest is matched after it. */
  lemma DottedEndNext(s: string, i: nat, n: nat)
    requires i <= |s| && n >= 2 && DottedEnd(s, i, n).Some?
    ensures OctetEnd(s, i).Some?
    ensures var j := OctetEnd(s, i).value;
            j < |s| && s[j] == '.' && DottedEnd(s, j + 1, n - 1) == DottedEnd(s, i, n)
  {
  }

  lemma SliceAround(s: string, i: nat, j: nat, e: nat)
    requires i <= j < e <= |s|
    ensures s[i..e] == s[i..j] + [s[j]] + s[j + 1..e]
  {
    calc {
      s[i..e];
      s[i..j] + s[j..e];
      s[i..j] + ([s[j]] + s[j + 1..e]);
      s[i..j] + [s[j]] + s[j + 1..e];
    }
  }

  lemma DottedStep(first: string, rest: string, n: nat)
    requires n >= 2 && IsOctet(first) && IsDottedOctets(rest, n - 1)
    ensures IsDottedOctets(first + ['.'] + rest, n)
  {
    assert '.' !in first;
    SplitAfterPart(first, rest, '.');
    var parts := Split(first + ['.'] + rest, '.');
    var tail := Split(rest, '.');
    assert parts == [first] + tail;
    forall k | 0 <= k < n
      ensures IsOctet(parts[k])
    {
      if k > 0 {
        assert parts[k] == tail[k - 1];
      }
    }
  }

  /** A run of digits that a non-digit (or the end) closes is the run `DigitRunEnd` finds. */
  lemma {:induction false} DigitRunEndAt(s: string, i: nat, e: nat)
    requires i <= e <= |s| && forall k :: i <= k < e ==> IsDigit(s[k])
    requires e == |s| || !IsDigit(s[e])
    ensures DigitRunEnd(s, i) == e
    decreases e - i
  {
    if i < e {
      DigitRunEndAt(s, i + 1, e);
    }
  }

  lemma DigitTextRunEnd(s: string, i: nat, e: nat)
    requires i <= e <= |s| && AllDigits(s[i..e])
    requires e == |s| || !IsDigit(s[e])
    ensures DigitRunEnd(s, i) == e
  {
    assert forall k :: i <= k < e ==> s[k] == s[i..e][k - i];
    DigitRunEndAt(s, i, e);
  }

  /** `n` dotted octets at `i`, not followed by a digit, are exactly what `DottedEnd` consumes. */
  lemma {:induction false} DottedTextEnd(s: string, i: nat, e: nat, n: nat)
    requires i <= e <= |s| && n >= 1 && IsDottedOctets(s[i..e], n)
    requires e == |s| || !IsDigit(s[e])
    ensures DottedEnd(s, i, n) == Some(e)
    decreases n
  {
    if n == 1 {
      OneDotted(s[i..e]);
      OctetRunAt(s, i, e);
    } else {
      var j := DottedTextHead(s, i, e, n);
      DottedTextEnd(s, j + 1, e, n - 1);
      DottedEndStep(s, i, j, n);
    }
  }

  lemma DottedEndStep(s: string, i: nat, j: nat, n: nat)
    requires i <= j < |s| && n >= 2 && OctetEnd(s, i) == Some(j) && s[j] == '.'
    ensures DottedEnd(s, i, n) == DottedEnd(s, j + 1, n - 1)
  {
  }

  /** The first of `n >= 2` dotted octets at `i`: an octet `OctetEnd` accepts, a dot, and `n - 1` dotted octets. */
  lemma DottedTextHead(s: string, i: nat, e: nat, n: nat) returns (j: nat)
    requires i <= e <= |s| && n >= 2 && IsDottedOctets(s[i..e], n)
    ensures OctetEnd(s, i) == Some(j) && j < e && s[j] == '.'
    ensures IsDottedOctets(s[j + 1..e], n - 1)
  {
    var parts := Split(s[i..e], '.');
    SplitFirst(s[i..e], '.');
    j := i + |parts[0]|;
    SliceAtSeparator(s, i, e, parts[0], Join(parts[1..], '.'), '.');
    OctetRunAt(s, i, j);
    DottedRest(parts, n);
  }

  lemma OneDotted(h: string)
    requires IsDottedOctets(h, 1)
    ensures IsOctet(h)
  {
    assert Split(h, '.')[0] == Join(Split(h, '.'), '.');
  }

  /** With at least two parts, the text is the first part, the separator, and the other parts joined. */
  lemma SplitFirst(h: string, sep: char)
    requires |Split(h, sep)| >= 2
    ensures var parts := Split(h, sep);
            h == parts[0] + [sep] + Join(parts[1..], sep)
  {
  }

  lemma SliceAtSeparator(s: string, i: nat, e: nat, a: string, b: string, sep: char)
    requires i <= e <= |s| && s[i..e] == a + [sep] + b
    ensures i + |a| < e
    ensures s[i..i + |a|] == a && s[i + |a|] == sep && s[i + |a| + 1..e] == b
  {
    var h := s[i..e];
    assert h[..|a|] == a && h[|a|] == sep && h[|a| + 1..] == b;
  }

  /** The parts after the first of `n` dotted octets are `n - 1` dotted octets. */
  lemma DottedRest(parts: seq<string>, n: nat)
    requires n >= 2 && |parts| == n && forall k :: 0 <= k < n ==> IsOctet(parts[k]) && '.' !in parts[k]
    ensures IsDottedOctets(Join(parts[1..], '.'), n - 1)
  {
    assert forall k :: 0 <= k < n - 1 ==> parts[1..][k] == parts[k + 1];
    SplitJoin(parts[1..], '.');
  }

  /** An octet at `i` that a non-digit (or the end) closes is what `OctetEnd` accepts. */
  lemma OctetRunAt(s: string, i: nat, e: nat)
    requires i <= e <= |s| && IsOctet(s[i..e])
    requires e == |s| || !IsDigit(s[e])
    ensures OctetEnd(s, i) == Some(e)
  {
    DigitTextRunEnd(s, i, e);
    OctetAlternativeIsOctet(s[i..e]);
  }

  /** A match of `p` at `i` ends at `j` exactly when `s[i..j]` is a token of `p` standing between two word boundaries. */
  lemma MatchExactly(p: Pattern, s: string, i: nat, j: nat)
    requires i <= j <= |s|
    ensures MatchAt(p, s, i) == Some(j) <==> WordStartsAt(s, i) && WordEndsAt(s, j) && Matches(p, s[i..j])
  {
    if MatchAt(p, s, i) == Some(j) {
      MatchIsToken(p, s, i);
    } else if WordStartsAt(s, i) && WordEndsAt(s, j) && Matches(p, s[i..j]) {
      TokenIsMatch(p, s, i, j);
    }
  }

  lemma TokenIsMatch(p: Pattern, s: string, i: nat, j: nat)
    requires i <= j <= |s| && WordStartsAt(s, i) && WordEndsAt(s, j) && Matches(p, s[i..j])
    ensures MatchAt(p, s, i) == Some(j)
  {
    match p
    case Ip =>
      DottedTextEnd(s, i, j, 4);
    case IpPort =>
      IpPortTokenIsMatch(s, i, j);
    case Port =>
      DigitTextRunEnd(s, i, j);
  }

  lemma IpPortTokenIsMatch(s: string, i: nat, j: nat)
    requires i <= j <= |s| && WordStartsAt(s, i) && WordEndsAt(s, j) && IsIPv4Port(s[i..j])
    ensures MatchAt(IpPort, s, i) == Some(j)
  {
    var c := IpPortColon(s, i, j);
    DottedTextEnd(s, i, c, 4);
    DigitTextRunEnd(s, c + 1, j);
    IpPortAt(s, i, c, j);
  }

  /** An address ending at a colon, followed by a digit run ending at a word boundary, is an IP:port match. */
  lemma IpPortAt(s: string, i: nat, c: nat, j: nat)
    requires i <= c && c + 1 < j <= |s| && s[c] == ':'
    requires WordStartsAt(s, i) && WordEndsAt(s, j)
    requires DottedEnd(s, i, 4) == Some(c) && DigitRunEnd(s, c + 1) == j
    ensures MatchAt(IpPort, s, i) == Some(j)
  {
  }

  /** The colon of an IP:port token at `s[i..j]`. */
  lemma IpPortColon(s: string, i: nat, j: nat) returns (c: nat)
    requires i <= j <= |s| && IsIPv4Port(s[i..j])
    ensures i <= c && c + 1 < j && s[c] == ':'
    ensures IsIPv4(s[i..c]) && AllDigits(s[c + 1..j])
  {
    var parts := Split(s[i..j], ':');
    SplitFirst(s[i..j], ':');
    assert parts[1..] == [parts[1]];
    c := i + |parts[0]|;
    SliceAtSeparator(s, i, j, parts[0], parts[1], ':');
  }

  /**
   * Completeness of `finditer`: a match at `i` is reported when no match that
   * starts between `from` and `i` runs past `i`.
   */
  lemma {:induction false} FindAllReports(p: Pattern, s: string, from: nat, i: nat)
    requires from <= i < |s| && MatchAt(p, s, i).Some?
    requires forall k :: from <= k < i && MatchAt(p, s, k).Some? ==> MatchAt(p, s, k).value <= i
    ensures s[i..MatchAt(p, s, i).value] in FindAll(p, s, from)
    decreases i - from
  {
    FindAllHit(p, s, i);
    if from < i {
      match MatchAt(p, s, from)
      case None =>
        FindAllSkip(p, s, from);
        FindAllReports(p, s, from + 1, i);
      case Some(j) =>
        FindAllHit(p, s, from);
        if j < i {
          FindAllReports(p, s, j, i);
        }
    }
  }

  /** A token of `p` between word boundaries, overlapped by no earlier match, is among the matches `finditer` reports. */
  lemma StandaloneTokenReported(p: Pattern, s: string, from: nat, i: nat, j: nat)
    requires from <= i <= j <= |s| && i < |s|
    requires WordStartsAt(s, i) && WordEndsAt(s, j) && Matches(p, s[i..j])
    requires forall k :: from <= k < i && MatchAt(p, s, k).Some? ==> MatchAt(p, s, k).value <= i
    ensures s[i..j] in FindAll(p, s, from)
  {
    MatchExactly(p, s, i, j);
    FindAllReports(p, s, from, i);
  }

  /** No match starts right after a word character (there is no `\b` there). */
  lemma NoMatchAfterWordChar(p: Pattern, s: string, i: nat)
    requires 0 < i <= |s| && IsWordChar(s[i - 1])
    ensures MatchAt(p, s, i).None?
  {
  }

  /** Every match starts with a digit. */
  lemma NoMatchAtNonDigit(p: Pattern, s: string, i: nat)
    requires i < |s| && !IsDigit(s[i])
    ensures MatchAt(p, s, i).None?
  {
    assert DigitRunEnd(s, i) == i;
  }

  /** `finditer` steps over a position where no match starts. */
  lemma FindAllSkip(p: Pattern, s: string, i: nat)
    requires i < |s| && MatchAt(p, s, i).None?
    ensures FindAll(p, s, i) == FindAll(p, s, i + 1)
  {
  }

  /** `finditer` reports a match that starts at `i` and resumes where it ends. */
  lemma FindAllHit(p: Pattern, s: string, i: nat)
    requires i < |s| && MatchAt(p, s, i).Some?
    ensures FindAll(p, s, i) == [s[i..MatchAt(p, s, i).value]] + FindAll(p, s, MatchAt(p, s, i).value)
  {
  }

  /** An out-of-range first octet: `"300.1.1.1:80"` holds no IP:port match. */
  lemma OutOfRangeOctetNoMatch()
    ensures FindAll(IpPort, "300.1.1.1:80", 0) == []
  {
    var s := "300.1.1.1:80";
    OutOfRangeTail(s);
    FirstRunRejected(s);
    FindAllSkip(IpPort, s, 3);
    FindAllSkip(IpPort, s, 2);
    NoMatchAfterWordChar(IpPort, s, 1);
    FindAllSkip(IpPort, s, 1);
    FindAllSkip(IpPort, s, 0);
  }

  lemma FirstRunRejected(s: string)
    requires s == "300.1.1.1:80"
    ensures MatchAt(IpPort, s, 0).None? && MatchAt(IpPort, s, 2).None? && MatchAt(IpPort, s, 3).None?
  {
    assert DigitRunEnd(s, 3) == 3 && DigitRunEnd(s, 2) == 3 && DigitRunEnd(s, 1) == 3;
    assert DigitRunEnd(s, 0) == 3;
    assert s[0..3] == "300";
  }

  /** From position 4 on, `"300.1.1.1:80"` offers only three dotted octets before the colon. */
  lemma OutOfRangeTail(s: string)
    requires s == "300.1.1.1:80"
    ensures FindAll(IpPort, s, 4) == []
  {
    assert DigitRunEnd(s, 4) == 5 && DigitRunEnd(s, 6) == 7 && DigitRunEnd(s, 8) == 9;
    assert DigitRunEnd(s, 12) == 12 && DigitRunEnd(s, 11) == 12 && DigitRunEnd(s, 10) == 12;
    assert DottedEnd(s, 8, 2) == None;
    assert DottedEnd(s, 6, 3) == None;
    assert DottedEnd(s, 4, 4) == None;
    assert DottedEnd(s, 6, 4) == None;
    assert DottedEnd(s, 8, 4) == None;
    assert DottedEnd(s, 10, 4) == None;
    FindAllSkip(IpPort, s, 11);
    FindAllSkip(IpPort, s, 10);
    FindAllSkip(IpPort, s, 9);
    FindAllSkip(IpPort, s, 8);
    FindAllSkip(IpPort, s, 7);
    FindAllSkip(IpPort, s, 6);
    FindAllSkip(IpPort, s, 5);
    FindAllSkip(IpPort, s, 4);
  }

  /** `"1.2.3.4:8080"` standing alone at `i` is matched there, whole. */
  lemma SampleAddressMatchesAt(s: string, i: nat)
    requires i + 12 <= |s| && s[i..i + 12] == "1.2.3.4:8080"
    requires WordStartsAt(s, i) && WordEndsAt(s, i + 12)
    ensures MatchAt(IpPort, s, i) == Some(i + 12)
  {
    SampleHost(s, i);
    SamplePort(s, i);
    assert s[i + 7] == ':';
  }

  /** A lone digit followed by a non-digit is an octet. */
  lemma SingleDigitOctet(s: string, i: nat)
    requires i < |s| && IsDigit(s[i]) && (i + 1 == |s| || !IsDigit(s[i + 1]))
    ensures OctetEnd(s, i) == Some(i + 1)
  {
    assert DigitRunEnd(s, i + 1) == i + 1;
    assert DigitRunEnd(s, i) == i + 1;
    var o := s[i..i + 1];
    assert |o| == 1 && o[0] == s[i];
    assert OctetAlternative(o);
  }

  lemma SampleHost(s: string, i: nat)
    requires i + 12 <= |s| && s[i..i + 12] == "1.2.3.4:8080"
    ensures DottedEnd(s, i, 4) == Some(i + 7)
  {
    assert s[i] == '1' && s[i + 1] == '.' && s[i + 2] == '2' && s[i + 3] == '.';
    assert s[i + 4] == '3' && s[i + 5] == '.' && s[i + 6] == '4' && s[i + 7] == ':';
    SingleDigitOctet(s, i + 6);
    assert DottedEnd(s, i + 6, 1) == Some(i + 7);
    SingleDigitOctet(s, i + 4);
    assert DottedEnd(s, i + 4, 2) == Some(i + 7);
    SingleDigitOctet(s, i + 2);
    assert DottedEnd(s, i + 2, 3) == Some(i + 7);
    SingleDigitOctet(s, i);
  }

  lemma SamplePort(s: string, i: nat)
    requires i + 12 <= |s| && s[i..i + 12] == "1.2.3.4:8080"
    requires WordEndsAt(s, i + 12)
    ensures DigitRunEnd(s, i + 8) == i + 12
  {
    assert s[i + 8] == '8' && s[i + 9] == '0' && s[i + 10] == '8' && s[i + 11] == '0';
    assert DigitRunEnd(s, i + 12) == i + 12;
    assert DigitRunEnd(s, i + 11) == i + 12;
    assert DigitRunEnd(s, i + 10) == i + 12;
    assert DigitRunEnd(s, i + 9) == i + 12;
  }

  /** A repeated candidate is matched at both places: `finditer` itself does not deduplicate. */
  lemma RepeatedCandidateMatchedTwice()
    ensures FindAll(IpPort, "1.2.3.4:8080 noise 1.2.3.4:8080", 0) == ["1.2.3.4:8080", "1.2.3.4:8080"]
  {
    var s := "1.2.3.4:8080 noise 1.2.3.4:8080";
    SecondCandidate(s);
    SkipNoise(s);
    FirstCandidate(s);
  }

  lemma FirstCandidate(s: string)
    requires s == "1.2.3.4:8080 noise 1.2.3.4:8080"
    ensures FindAll(IpPort, s, 0) == ["1.2.3.4:8080"] + FindAll(IpPort, s, 12)
  {
    assert s[0..12] == "1.2.3.4:8080";
    SampleAddressMatchesAt(s, 0);
    FindAllHit(IpPort, s, 0);
  }

  lemma SecondCandidate(s: string)
    requires s == "1.2.3.4:8080 noise 1.2.3.4:8080"
    ensures FindAll(IpPort, s, 19) == ["1.2.3.4:8080"]
  {
    assert s[19..31] == "1.2.3.4:8080";
    SampleAddressMatchesAt(s, 19);
    FindAllHit(IpPort, s, 19);
  }

  lemma SkipNoise(s: string)
    requires s == "1.2.3.4:8080 noise 1.2.3.4:8080"
    ensures FindAll(IpPort, s, 12) == FindAll(IpPort, s, 19)
  {
    NoMatchAtNonDigit(IpPort, s, 18);
    FindAllSkip(IpPort, s, 18);
    NoMatchAtNonDigit(IpPort, s, 17);
    FindAllSkip(IpPort, s, 17);
    NoMatchAtNonDigit(IpPort, s, 16);
    FindAllSkip(IpPort, s, 16);
    NoMatchAtNonDigit(IpPort, s, 15);
    FindAllSkip(IpPort, s, 15);
    NoMatchAtNonDigit(IpPort, s, 14);
    FindAllSkip(IpPort, s, 14);
    NoMatchAtNonDigit(IpPort, s, 13);
    FindAllSkip(IpPort, s, 13);
    NoMatchAtNonDigit(IpPort, s, 12);
    FindAllSkip(IpPort, s, 12);
  }
}
