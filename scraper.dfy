/**
 * Candidate discovery: the three extraction strategies and the catalog
 * builder that merges every source into one first-seen, duplicate-free list.
 *
 * HTML parsing is not modelled: a fetched page arrives as its raw body
 * together with what the HTML parser makes of it (the page text, the text of
 * every `<td>` cell in document order, and the cell texts of every `<tr>`).
 */
module Scraper {
  import opened Wrappers
  import opened PyText
  import opened Patterns
  import opened FirstSeen

  /** The listing sources, in the order they are consulted. */
  const Sources: seq<string> := [
    "https://api.proxyscrape.com/v2/?request=displayproxies&protocol=http&country=IR&timeout=10000&simplified=true",
    "https://api.proxyscrape.com/v2/?request=displayproxies&protocol=https&country=IR&timeout=10000&simplified=true",
    "https://www.proxy-list.download/api/v1/get?type=http&country=IR",
    "https://www.proxy-list.download/api/v1/get?type=https&country=IR",
    "https://spys.one/free-proxy-list/IR/",
    "https://www.freeproxy.world/?country=IR",
    "https://raw.githubusercontent.com/TheSpeedX/PROXY-List/master/http.txt"
  ]

  /**
   * A fetched page: the raw response text, the whole-page text, the text of
   * each table cell, and the rows of the tables as lists of cell texts.
   */
  datatype Page = Page(body: string, text: string, cells: seq<string>, rows: seq<seq<string>>)

  /** The outcome of fetching one source: the page, or a `RequestException`. */
  datatype Fetch = Fetched(page: Page) | FetchFailed

  datatype Strategy = LineList | TableRegex | TablePaired

  /** Python's `t in s` for strings. */
  predicate Contains(s: string, t: string) {
    exists i :: 0 <= i <= |s| - |t| && t <= s[i..]
  }

  /** How a source is read, decided from its URL; `freeproxy.world` is tested first. */
  function StrategyFor(url: string): Strategy {
    if Contains(url, "freeproxy.world") then TablePaired
    else if Contains(url, "displayproxies") || Contains(url, "/api/v1/get")
         || Contains(url, "raw.githubusercontent.com") then LineList
    else TableRegex
  }

  // ---------------------------------------------------------------------
  // The regex strategy (extract_proxies)

  /** The first IP:port match of each cell that has one, in cell order. */
  function CellMatches(cells: seq<string>): seq<string> {
    if cells == [] then []
    else
      var init := CellMatches(cells[..|cells| - 1]);
      match Search(IpPort, cells[|cells| - 1])
      case Some(m) => init + [m]
      case None => init
  }

  /**
   * What the regex strategy yields: the distinct matches in the page text,
   * or, when there are none, the distinct first matches of the cells.
   */
  function RegexExtraction(page: Page): seq<string> {
    var whole := Dedup(FindAll(IpPort, page.text, 0));
    if whole != [] then whole else Dedup(CellMatches(page.cells))
  }

  /** `extract_proxies`: scan the page text, falling back to cell-by-cell search. */
  method ExtractProxies(page: Page) returns (proxies: seq<string>)
    ensures proxies == RegexExtraction(page)
  {
    var matches := FindAll(IpPort, page.text, 0);
    proxies := KeepFirstSeen(matches);
    if proxies == [] {
      proxies := SearchCells(page.cells);
    }
  }

  /** The main loop of `extract_proxies`: each match in order, skipped when already seen. */
  method KeepFirstSeen(matches: seq<string>) returns (proxies: seq<string>)
    ensures proxies == Dedup(matches)
  {
    var seen: set<string> := {};
    proxies := [];
    for i := 0 to |matches|
      invariant proxies == Dedup(matches[..i])
      invariant forall x :: x in seen <==> x in proxies
    {
      var proxy := matches[i];
      assert matches[..i + 1] == matches[..i] + [proxy];
      DedupSnoc(matches[..i], proxy);
      if proxy !in seen {
        seen := seen + {proxy};
        proxies := proxies + [proxy];
      }
    }
    assert matches[..|matches|] == matches;
  }

  /** The fallback loop of `extract_proxies`: the first match in each cell, skipped when already seen. */
  method SearchCells(cells: seq<string>) returns (proxies: seq<string>)
    ensures proxies == Dedup(CellMatches(cells))
  {
    var seen: set<string> := {};
    proxies := [];
    for c := 0 to |cells|
      invariant proxies == Dedup(CellMatches(cells[..c]))
      invariant forall x :: x in seen <==> x in proxies
    {
      var found := Search(IpPort, cells[c]);
      CellMatchesStep(cells, c);
      if found.Some? {
        var proxy := found.value;
        DedupSnoc(CellMatches(cells[..c]), proxy);
        if proxy !in seen {
          seen := seen + {proxy};
          proxies := proxies + [proxy];
        }
      } else {
        assert CellMatches(cells[..c + 1]) == CellMatches(cells[..c]);
      }
    }
    assert cells[..|cells|] == cells;
  }

  /** One more cell adds its first match, if it has one. */
  lemma CellMatchesStep(cells: seq<string>, c: nat)
    requires c < |cells|
    ensures CellMatches(cells[..c + 1])
            == CellMatches(cells[..c]) + (if Search(IpPort, cells[c]).Some? then [Search(IpPort, cells[c]).value] else [])
  {
    assert cells[..c + 1][..c] == cells[..c];
  }

  lemma {:induction false} CellMatchesAtMostOnePerCell(cells: seq<string>)
    ensures |CellMatches(cells)| <= |cells|
    ensures forall k :: 0 <= k < |CellMatches(cells)| ==> IsIPv4Port(CellMatches(cells)[k])
  {
    if cells != [] {
      var last := cells[|cells| - 1];
      CellMatchesAtMostOnePerCell(cells[..|cells| - 1]);
      SearchIsFirstMatch(IpPort, last, 0);
      var ms := FindAll(IpPort, last, 0);
      if ms != [] {
        assert Matches(IpPort, ms[0]);
      }
    }
  }

  /**
   * The regex strategy yields distinct IP:port strings; the cell fallback is
   * used only when the page text has no match, and yields at most one
   * candidate per cell.
   */
  lemma RegexExtractionShape(page: Page)
    ensures NoDuplicates(RegexExtraction(page))
    ensures forall k :: 0 <= k < |RegexExtraction(page)| ==> IsIPv4Port(RegexExtraction(page)[k])
    ensures FindAll(IpPort, page.text, 0) != [] ==>
              forall m :: m in RegexExtraction(page) <==> m in FindAll(IpPort, page.text, 0)
    ensures FindAll(IpPort, page.text, 0) == [] ==> |RegexExtraction(page)| <= |page.cells|
  {
    var ms := FindAll(IpPort, page.text, 0);
    DedupElements(ms);
    if ms != [] {
      assert ms[0] in Dedup(ms);
      DedupKeepsTokens(ms);
    } else {
      var cms := CellMatches(page.cells);
      DedupElements(cms);
      CellMatchesAtMostOnePerCell(page.cells);
      DedupNotLonger(cms);
      DedupKeepsTokens(cms);
    }
  }

  lemma DedupKeepsTokens(xs: seq<string>)
    requires forall k :: 0 <= k < |xs| ==> IsIPv4Port(xs[k])
    ensures forall k :: 0 <= k < |Dedup(xs)| ==> IsIPv4Port(Dedup(xs)[k])
  {
    DedupElements(xs);
    forall k | 0 <= k < |Dedup(xs)|
      ensures IsIPv4Port(Dedup(xs)[k])
    {
      assert Dedup(xs)[k] in xs;
    }
  }

  // ---------------------------------------------------------------------
  // The paired-cells strategy (extract_freeproxy_world)

  /** The first cell at or after `from` in which the IP pattern finds a match. */
  function FirstIpCell(row: seq<string>, from: nat): (r: Option<nat>)
    requires from <= |row|
    ensures r.Some? ==> from <= r.value < |row| && Search(Ip, row[r.value]).Some?
    ensures forall k :: from <= k < (if r.Some? then r.value else |row|) ==> Search(Ip, row[k]).None?
    decreases |row| - from
  {
    if from == |row| then None
    else if Search(Ip, row[from]).Some? then Some(from)
    else FirstIpCell(row, from + 1)
  }

  /**
   * The proxy a table row yields: the address found in its first address
   * cell, joined to the first 2-5 digit number of the next cell. No next
   * cell, or no number in it, and the row yields nothing.
   */
  function RowProxy(row: seq<string>): Option<string> {
    match FirstIpCell(row, 0)
    case None => None
    case Some(i) =>
      if i + 1 < |row| && Search(Port, row[i + 1]).Some? then
        Some(Search(Ip, row[i]).value + ":" + Search(Port, row[i + 1]).value)
      else None
  }

  /** What the paired strategy yields: one proxy per productive row, in row order, duplicates kept. */
  function PairedExtraction(rows: seq<seq<string>>): seq<string> {
    if rows == [] then []
    else
      var init := PairedExtraction(rows[..|rows| - 1]);
      match RowProxy(rows[|rows| - 1])
      case Some(p) => init + [p]
      case None => init
  }

  /** `extract_freeproxy_world`: one pass over the rows, stopping each row at its first address cell. */
  method ExtractFreeproxyWorld(rows: seq<seq<string>>) returns (results: seq<string>)
    ensures results == PairedExtraction(rows)
  {
    results := [];
    for r := 0 to |rows|
      invariant results == PairedExtraction(rows[..r])
    {
      PairedExtractionStep(rows, r);
      var candidate := ScanRow(rows[r]);
      if candidate.Some? {
        results := results + [candidate.value];
      }
    }
    assert rows[..|rows|] == rows;
  }

  /** The body of the row loop: scan the cells up to the first address cell and pair it with the next. */
  method ScanRow(tds: seq<string>) returns (candidate: Option<string>)
    ensures candidate == RowProxy(tds)
  {
    candidate := None;
    if tds == [] {
      FirstIpCellNone(tds);
    }
    var i := 0;
    while i < |tds|
      invariant 0 <= i <= |tds|
      invariant forall k :: 0 <= k < i ==> Search(Ip, tds[k]).None?
      invariant i == |tds| ==> RowProxy(tds).None?
    {
      var ipMatch := Search(Ip, tds[i]);
      if ipMatch.Some? {
        var ip := ipMatch.value;
        var port: Option<string> := None;
        if i + 1 < |tds| {
          var portMatch := Search(Port, tds[i + 1]);
          if portMatch.Some? {
            port := Some(portMatch.value);
          }
        }
        RowProxyFound(tds, i);
        if port.Some? {
          candidate := Some(ip + ":" + port.value);
        }
        return;
      }
      i := i + 1;
      if i == |tds| {
        FirstIpCellNone(tds);
      }
    }
  }

  /** One more row adds its candidate, if it yields one. */
  lemma PairedExtractionStep(rows: seq<seq<string>>, r: nat)
    requires r < |rows|
    ensures PairedExtraction(rows[..r + 1])
            == PairedExtraction(rows[..r]) + (if RowProxy(rows[r]).Some? then [RowProxy(rows[r]).value] else [])
  {
    assert rows[..r + 1][..r] == rows[..r];
  }

  /** The row's candidate, read off its first address cell `i`. */
  lemma RowProxyFound(row: seq<string>, i: nat)
    requires i < |row| && Search(Ip, row[i]).Some?
    requires forall k :: 0 <= k < i ==> Search(Ip, row[k]).None?
    ensures RowProxy(row) == if i + 1 < |row| && Search(Port, row[i + 1]).Some?
                             then Some(Search(Ip, row[i]).value + ":" + Search(Port, row[i + 1]).value)
                             else None
  {
    FirstIpCellAt(row, i);
  }

  /** The first address cell is the first cell whose search succeeds. */
  lemma FirstIpCellAt(row: seq<string>, i: nat)
    requires i < |row| && Search(Ip, row[i]).Some?
    requires forall k :: 0 <= k < i ==> Search(Ip, row[k]).None?
    ensures FirstIpCell(row, 0) == Some(i)
  {
  }

  lemma FirstIpCellNone(row: seq<string>)
    requires forall k :: 0 <= k < |row| ==> Search(Ip, row[k]).None?
    ensures FirstIpCell(row, 0).None?
  {
  }

  /** A row whose first address cell `i` has a successor yields the pair of cells `i` and `i + 1`. */
  lemma RowProxyAt(row: seq<string>, i: nat)
    requires FirstIpCell(row, 0) == Some(i) && i + 1 < |row|
    ensures RowProxy(row) == if Search(Port, row[i + 1]).Some?
                             then Some(Search(Ip, row[i]).value + ":" + Search(Port, row[i + 1]).value)
                             else None
  {
  }

  /** A row's candidate depends on nothing past the cell that follows its first address cell. */
  lemma LaterCellsIgnored(row: seq<string>, i: nat, tail: seq<string>)
    requires FirstIpCell(row, 0) == Some(i) && i + 1 < |row|
    ensures RowProxy(row[..i + 2] + tail) == RowProxy(row)
  {
    var row' := row[..i + 2] + tail;
    forall k | 0 <= k < i + 2
      ensures row'[k] == row[k]
    {
    }
    assert forall k :: 0 <= k < i ==> Search(Ip, row'[k]).None?;
    FirstIpCellAt(row', i);
    RowProxyAt(row, i);
    RowProxyAt(row', i);
  }

  /** An address, a colon and a port of two to five digits. */
  predicate IsPairedProxy(m: string) {
    IsIPv4Port(m) && IsPortText(Split(m, ':')[1])
  }

  /** Every candidate of the paired strategy is an address, a colon and a 2-5 digit port. */
  lemma {:induction false} PairedExtractionShape(rows: seq<seq<string>>)
    ensures |PairedExtraction(rows)| <= |rows|
    ensures forall k :: 0 <= k < |PairedExtraction(rows)| ==> IsPairedProxy(PairedExtraction(rows)[k])
  {
    if rows != [] {
      PairedExtractionShape(rows[..|rows| - 1]);
      var row := rows[|rows| - 1];
      if RowProxy(row).Some? {
        RowProxyShape(row);
      }
    }
  }

  lemma RowProxyShape(row: seq<string>)
    requires RowProxy(row).Some?
    ensures IsPairedProxy(RowProxy(row).value)
  {
    var i := FirstIpCell(row, 0).value;
    var ip, port := Search(Ip, row[i]).value, Search(Port, row[i + 1]).value;
    SearchMatches(Ip, row[i]);
    SearchMatches(Port, row[i + 1]);
    AddressPortIsToken(ip, port);
  }

  lemma SearchMatches(p: Pattern, s: string)
    requires Search(p, s).Some?
    ensures Matches(p, Search(p, s).value)
  {
    SearchIsFirstMatch(p, s, 0);
    assert Matches(p, FindAll(p, s, 0)[0]);
  }

  /** An address joined to a digit run by a colon is an IP:port string. */
  lemma AddressPortIsToken(ip: string, port: string)
    requires IsIPv4(ip) && port != [] && AllDigits(port)
    ensures IsIPv4Port(ip + ":" + port)
    ensures Split(ip + ":" + port, ':') == [ip, port]
  {
    var octets := Split(ip, '.');
    JoinKeepsOut(octets, '.', ':');
    assert ':' !in port;
    SplitAfterPart(ip, port, ':');
    SplitNoSeparator(port, ':');
    assert ip + ":" + port == ip + [':'] + port;
  }

  /** A character that is neither the separator nor in any part is not in the joined string. */
  lemma {:induction false} JoinKeepsOut(parts: seq<string>, sep: char, c: char)
    requires |parts| >= 1 && c != sep
    requires forall k :: 0 <= k < |parts| ==> forall j :: 0 <= j < |parts[k]| ==> IsDigit(parts[k][j])
    requires !IsDigit(c)
    ensures c !in Join(parts, sep)
  {
    if |parts| > 1 {
      JoinKeepsOut(parts[1..], sep, c);
      assert c !in parts[0];
    } else {
      assert c !in parts[0];
    }
  }

  /** The paired strategy keeps duplicates: two identical productive rows yield the same proxy twice. */
  lemma PairedKeepsDuplicates(row: seq<string>)
    requires RowProxy(row).Some?
    ensures PairedExtraction([row, row]) == [RowProxy(row).value, RowProxy(row).value]
  {
    var p := RowProxy(row).value;
    assert [row, row][..1] == [row];
    assert [row][..0] == [];
    assert PairedExtraction([row]) == [p];
  }

  // ---------------------------------------------------------------------
  // The line-list strategy

  /** `[line.strip() for line in body.splitlines() if line.strip()]` */
  function StrippedLines(body: string): seq<string> {
    NonEmptyStripped(Lines(body))
  }

  function NonEmptyStripped(lines: seq<string>): seq<string> {
    if lines == [] then []
    else
      var init := NonEmptyStripped(lines[..|lines| - 1]);
      var t := Strip(lines[|lines| - 1]);
      if t != [] then init + [t] else init
  }

  /** The lines that hold a colon, in order. */
  function ColonLines(lines: seq<string>): seq<string> {
    if lines == [] then []
    else
      var init := ColonLines(lines[..|lines| - 1]);
      if ':' in lines[|lines| - 1] then init + [lines[|lines| - 1]] else init
  }

  /** What a line-list source contributes before deduplication. */
  function LineListEntries(body: string): seq<string> {
    ColonLines(StrippedLines(body))
  }

  /** A line-list entry is a non-empty, stripped, single line holding a colon. */
  predicate IsListEntry(e: string) {
    e != [] && ':' in e && !IsSpace(e[0]) && !IsSpace(e[|e| - 1]) && NoLineBreak(e)
  }

  lemma LineListEntryShape(body: string)
    ensures forall k :: 0 <= k < |LineListEntries(body)| ==> IsListEntry(LineListEntries(body)[k])
  {
    var stripped := StrippedLines(body);
    NonEmptyStrippedShape(Lines(body));
    ColonLinesShape(stripped);
    forall k | 0 <= k < |ColonLines(stripped)|
      ensures IsListEntry(ColonLines(stripped)[k])
    {
      var e := ColonLines(stripped)[k];
      assert e in stripped;
    }
  }

  /** A stripped, non-empty line. */
  predicate IsStrippedLine(e: string) {
    e != [] && !IsSpace(e[0]) && !IsSpace(e[|e| - 1]) && NoLineBreak(e)
  }

  /** The last line contributes its stripped text, unless that is empty. */
  lemma NonEmptyStrippedLast(lines: seq<string>)
    requires lines != []
    ensures var n := |lines| - 1;
            NonEmptyStripped(lines) == if Strip(lines[n]) != [] then NonEmptyStripped(lines[..n]) + [Strip(lines[n])]
                                       else NonEmptyStripped(lines[..n])
  {
  }

  /** Lines that are already stripped and non-empty pass through unchanged. */
  lemma {:induction false} NonEmptyStrippedOfStripped(lines: seq<string>)
    requires forall k :: 0 <= k < |lines| ==> lines[k] != [] && Strip(lines[k]) == lines[k]
    ensures NonEmptyStripped(lines) == lines
  {
    if lines != [] {
      var n := |lines| - 1;
      assert forall k :: 0 <= k < n ==> lines[..n][k] == lines[k];
      NonEmptyStrippedOfStripped(lines[..n]);
      StrippedSnoc(lines);
    }
  }

  lemma StrippedSnoc(lines: seq<string>)
    requires lines != [] && lines[|lines| - 1] != [] && Strip(lines[|lines| - 1]) == lines[|lines| - 1]
    requires NonEmptyStripped(lines[..|lines| - 1]) == lines[..|lines| - 1]
    ensures NonEmptyStripped(lines) == lines
  {
    var n := |lines| - 1;
    NonEmptyStrippedLast(lines);
    SnocLast(lines);
  }

  lemma {:induction false} NonEmptyStrippedShape(lines: seq<string>)
    requires forall k :: 0 <= k < |lines| ==> NoLineBreak(lines[k])
    ensures forall k :: 0 <= k < |NonEmptyStripped(lines)| ==> IsStrippedLine(NonEmptyStripped(lines)[k])
  {
    if lines != [] {
      var init := lines[..|lines| - 1];
      NonEmptyStrippedShape(init);
      StripOneLine(lines[|lines| - 1]);
    }
  }

  lemma StripOneLine(line: string)
    requires NoLineBreak(line)
    ensures Strip(line) != [] ==> IsStrippedLine(Strip(line))
  {
    StripIsStripped(line);
    StripIsSlice(line);
    var t := Strip(line);
    var i := |line| - |StripLeft(line)|;
    forall j | 0 <= j < |t|
      ensures !IsLineBreak(t[j])
    {
      assert t[j] == line[i + j];
    }
  }

  lemma {:induction false} ColonLinesShape(lines: seq<string>)
    ensures forall k :: 0 <= k < |ColonLines(lines)| ==>
              ColonLines(lines)[k] in lines && ':' in ColonLines(lines)[k]
  {
    if lines != [] {
      ColonLinesShape(lines[..|lines| - 1]);
    }
  }

  /** A line is kept exactly when it holds a colon. */
  lemma {:induction false} ColonLinesMembers(lines: seq<string>)
    ensures forall x :: x in ColonLines(lines) <==> x in lines && ':' in x
  {
    if lines != [] {
      var n := |lines| - 1;
      ColonLinesMembers(lines[..n]);
      SnocLast(lines);
    }
  }

  /** The colon filter keeps line order: it distributes over concatenation. */
  lemma {:induction false} ColonLinesAppend(a: seq<string>, b: seq<string>)
    ensures ColonLines(a + b) == ColonLines(a) + ColonLines(b)
    decreases |b|
  {
    if b == [] {
      assert a + b == a;
    } else {
      var n := |b| - 1;
      ColonLinesAppend(a, b[..n]);
      SnocSplit(a, b);
      if ':' in b[n] {
        ConcatSnoc(ColonLines(a), ColonLines(b[..n]), b[n]);
      }
    }
  }

  /** Every line stripped, in order. */
  function StripAll(lines: seq<string>): (stripped: seq<string>)
    ensures |stripped| == |lines|
    ensures forall k :: 0 <= k < |lines| ==> stripped[k] == Strip(lines[k])
  {
    if lines == [] then [] else StripAll(lines[..|lines| - 1]) + [Strip(lines[|lines| - 1])]
  }

  /** A stripped line is kept exactly when it is not empty. */
  lemma {:induction false} NonEmptyStrippedMembers(lines: seq<string>)
    ensures forall x :: x in NonEmptyStripped(lines) <==> x != [] && x in StripAll(lines)
  {
    if lines != [] {
      var n := |lines| - 1;
      NonEmptyStrippedMembers(lines[..n]);
      NonEmptyStrippedLast(lines);
      assert StripAll(lines) == StripAll(lines[..n]) + [Strip(lines[n])];
    }
  }

  /** The strip-and-drop-empty filter keeps line order: it distributes over concatenation. */
  lemma {:induction false} NonEmptyStrippedAppend(a: seq<string>, b: seq<string>)
    ensures NonEmptyStripped(a + b) == NonEmptyStripped(a) + NonEmptyStripped(b)
    decreases |b|
  {
    if b == [] {
      assert a + b == a;
    } else {
      var n := |b| - 1;
      NonEmptyStrippedAppend(a, b[..n]);
      SnocSplit(a, b);
      NonEmptyStrippedLast(a + b);
      NonEmptyStrippedLast(b);
      if Strip(b[n]) != [] {
        ConcatSnoc(NonEmptyStripped(a), NonEmptyStripped(b[..n]), Strip(b[n]));
      }
    }
  }

  /**
   * A line-list source contributes exactly the stripped lines of its body
   * that hold a colon (a colon also makes the stripped line non-empty).
   */
  lemma LineListEntriesExactly(body: string)
    ensures forall x :: x in LineListEntries(body) <==> ':' in x && x in StripAll(Lines(body))
  {
    ColonLinesMembers(StrippedLines(body));
    NonEmptyStrippedMembers(Lines(body));
  }

  // ---------------------------------------------------------------------
  // The catalog (get_proxies)

  /** What one source adds to the catalog before deduplication; a failed fetch adds nothing. */
  function Contribution(url: string, fetch: Fetch): seq<string> {
    match fetch
    case FetchFailed => []
    case Fetched(page) =>
      match StrategyFor(url)
      case TablePaired => PairedExtraction(page.rows)
      case LineList => LineListEntries(page.body)
      case TableRegex => RegexExtraction(page)
  }

  /** The candidates each source yields, one list per source, in source order. */
  function Extractions(sources: seq<string>, fetches: seq<Fetch>): (parts: seq<seq<string>>)
    requires |fetches| == |sources|
    ensures |parts| == |sources|
  {
    if sources == [] then []
    else
      var n := |sources| - 1;
      Extractions(sources[..n], fetches[..n]) + [Contribution(sources[n], fetches[n])]
  }

  lemma {:induction false} ExtractionsAt(sources: seq<string>, fetches: seq<Fetch>)
    requires |fetches| == |sources|
    ensures forall k :: 0 <= k < |sources| ==> Extractions(sources, fetches)[k] == Contribution(sources[k], fetches[k])
  {
    if sources != [] {
      var n := |sources| - 1;
      ExtractionsAt(sources[..n], fetches[..n]);
    }
  }

  /** The lists joined end to end. */
  function Concat(parts: seq<seq<string>>): seq<string> {
    if parts == [] then [] else Concat(parts[..|parts| - 1]) + parts[|parts| - 1]
  }

  lemma {:induction false} ConcatAppend(p1: seq<seq<string>>, p2: seq<seq<string>>)
    ensures Concat(p1 + p2) == Concat(p1) + Concat(p2)
    decreases |p2|
  {
    if p2 == [] {
      assert p1 + p2 == p1;
    } else {
      var n := |p2| - 1;
      ConcatAppend(p1, p2[..n]);
      assert (p1 + p2)[..|p1| + n] == p1 + p2[..n];
    }
  }

  lemma {:induction false} ConcatMembers(parts: seq<seq<string>>)
    ensures forall x :: x in Concat(parts) <==> exists k :: 0 <= k < |parts| && x in parts[k]
  {
    if parts != [] {
      var n := |parts| - 1;
      ConcatMembers(parts[..n]);
      forall x | x in Concat(parts)
        ensures exists k :: 0 <= k < |parts| && x in parts[k]
      {
        if x in Concat(parts[..n]) {
          var k :| 0 <= k < n && x in parts[..n][k];
          assert parts[k] == parts[..n][k];
        }
      }
      forall x, k | 0 <= k < |parts| && x in parts[k]
        ensures x in Concat(parts)
      {
        if k < n {
          assert parts[..n][k] == parts[k];
        }
      }
    }
  }

  function Catalog(sources: seq<string>, fetches: seq<Fetch>): seq<string>
    requires |fetches| == |sources|
  {
    Dedup(Concat(Extractions(sources, fetches)))
  }

  lemma ExtractionAt(sources: seq<string>, fetches: seq<Fetch>, k: nat)
    requires |fetches| == |sources| && k < |sources|
    ensures Extractions(sources, fetches)[k] == Contribution(sources[k], fetches[k])
  {
    ExtractionsAt(sources, fetches);
  }

  /** The extractions of two runs of sources, one after the other. */
  lemma ExtractionsAppend(s1: seq<string>, f1: seq<Fetch>, s2: seq<string>, f2: seq<Fetch>)
    requires |f1| == |s1| && |f2| == |s2|
    ensures Extractions(s1 + s2, f1 + f2) == Extractions(s1, f1) + Extractions(s2, f2)
  {
    var e := Extractions(s1 + s2, f1 + f2);
    var e1, e2 := Extractions(s1, f1), Extractions(s2, f2);
    forall k | 0 <= k < |e|
      ensures e[k] == (e1 + e2)[k]
    {
      ExtractionAt(s1 + s2, f1 + f2, k);
      if k < |s1| {
        ExtractionAt(s1, f1, k);
        assert (s1 + s2)[k] == s1[k] && (f1 + f2)[k] == f1[k];
      } else {
        ExtractionAt(s2, f2, k - |s1|);
        assert (s1 + s2)[k] == s2[k - |s1|] && (f1 + f2)[k] == f2[k - |f1|];
      }
    }
  }

  /**
   * The catalog holds every candidate some source yields, each exactly once,
   * in the order of its first appearance across the sources.
   */
  lemma CatalogShape(sources: seq<string>, fetches: seq<Fetch>)
    requires |fetches| == |sources|
    ensures var c := Catalog(sources, fetches);
            var all := Concat(Extractions(sources, fetches));
            && NoDuplicates(c)
            && (forall x :: x in c <==>
                  exists k :: 0 <= k < |sources| && x in Contribution(sources[k], fetches[k]))
            && forall i, j :: 0 <= i < j < |c| ==>
                 c[i] in all && c[j] in all && FirstIndex(all, c[i]) < FirstIndex(all, c[j])
  {
    var parts := Extractions(sources, fetches);
    var all := Concat(parts);
    DedupElements(all);
    DedupFirstSeenOrder(all);
    ConcatMembers(parts);
    ExtractionsAt(sources, fetches);
  }

  /** A source whose fetch failed leaves the catalog exactly as if it were not configured. */
  lemma FailedSourceIgnored(s1: seq<string>, f1: seq<Fetch>, url: string, s2: seq<string>, f2: seq<Fetch>)
    requires |f1| == |s1| && |f2| == |s2|
    ensures Catalog(s1 + [url] + s2, f1 + [FetchFailed] + f2) == Catalog(s1 + s2, f1 + f2)
  {
    FailedExtractionEmpty(s1, f1, url, s2, f2);
    EmptyPartIgnored(Extractions(s1, f1), Extractions(s2, f2));
  }

  lemma FailedExtractionEmpty(s1: seq<string>, f1: seq<Fetch>, url: string, s2: seq<string>, f2: seq<Fetch>)
    requires |f1| == |s1| && |f2| == |s2|
    ensures Extractions(s1 + [url] + s2, f1 + [FetchFailed] + f2) == Extractions(s1, f1) + [[]] + Extractions(s2, f2)
    ensures Extractions(s1 + s2, f1 + f2) == Extractions(s1, f1) + Extractions(s2, f2)
  {
    ExtractionsAppend(s1 + [url], f1 + [FetchFailed], s2, f2);
    ExtractionsAppend(s1, f1, [url], [FetchFailed]);
    ExtractionAt([url], [FetchFailed], 0);
    ExtractionsAppend(s1, f1, s2, f2);
  }

  /** An empty part adds nothing to the deduplicated concatenation. */
  lemma EmptyPartIgnored(e1: seq<seq<string>>, e2: seq<seq<string>>)
    ensures Concat(e1 + [[]] + e2) == Concat(e1 + e2)
  {
    ConcatAppend(e1 + [[]], e2);
    ConcatAppend(e1, [[]]);
    ConcatAppend(e1, e2);
    assert Concat([[]]) == [];
    assert Concat(e1) + [] == Concat(e1);
  }

  /** Later sources only append: the catalog of the first `k` sources is a prefix of the whole catalog. */
  lemma CatalogPrefix(sources: seq<string>, fetches: seq<Fetch>, k: nat)
    requires |fetches| == |sources| && k <= |sources|
    ensures Catalog(sources[..k], fetches[..k]) <= Catalog(sources, fetches)
  {
    assert sources == sources[..k] + sources[k..];
    assert fetches == fetches[..k] + fetches[k..];
    ExtractionsAppend(sources[..k], fetches[..k], sources[k..], fetches[k..]);
    var e1, e2 := Extractions(sources[..k], fetches[..k]), Extractions(sources[k..], fetches[k..]);
    ConcatAppend(e1, e2);
    DedupAppend(Concat(e1), Concat(e2));
  }

  /**
   * Two sources with an overlapping candidate: a line list yielding
   * `10.0.0.1:3128` and `10.0.0.2:8080`, then a table yielding `10.0.0.1:3128`
   * again. The catalog lists each candidate once, in first-seen order.
   */
  lemma OverlappingSources(sources: seq<string>, fetches: seq<Fetch>)
    requires |sources| == 2 && |fetches| == 2
    requires Contribution(sources[0], fetches[0]) == ["10.0.0.1:3128", "10.0.0.2:8080"]
    requires Contribution(sources[1], fetches[1]) == ["10.0.0.1:3128"]
    ensures Catalog(sources, fetches) == ["10.0.0.1:3128", "10.0.0.2:8080"]
  {
    var a, b := "10.0.0.1:3128", "10.0.0.2:8080";
    ExtractionsAt(sources, fetches);
    var parts := Extractions(sources, fetches);
    assert parts == [[a, b], [a]];
    assert parts[..1] == [[a, b]] && parts[..1][..0] == [];
    assert Concat(parts[..1]) == [a, b];
    var all := [a, b, a];
    assert Concat(parts) == all;
    assert all[..2][..1] == [a] && all[..1][..0] == [];
    assert Dedup(all[..1]) == [a];
    assert Dedup(all[..2]) == [a, b];
    assert all[..|all| - 1] == all[..2];
  }

  /** Appends the items not yet seen, keeping `seen` equal to the elements of the list. */
  method AddUnseen(all: seq<string>, seen: set<string>, items: seq<string>, ghost before: seq<string>)
    returns (all': seq<string>, seen': set<string>)
    requires all == Dedup(before)
    requires forall x :: x in seen <==> x in all
    ensures all' == Dedup(before + items)
    ensures forall x :: x in seen' <==> x in all'
  {
    all', seen' := all, seen;
    assert before + items[..0] == before;
    for j := 0 to |items|
      invariant all' == Dedup(before + items[..j])
      invariant forall x :: x in seen' <==> x in all'
    {
      var proxy := items[j];
      assert (before + items[..j + 1])[..|before| + j] == before + items[..j];
      if proxy !in seen' {
        seen' := seen' + {proxy};
        all' := all' + [proxy];
      }
    }
    assert items[..|items|] == items;
  }

  /** The line-list branch: appends each unseen line that holds a colon. */
  method AddColonLines(all: seq<string>, seen: set<string>, lines: seq<string>, ghost before: seq<string>)
    returns (all': seq<string>, seen': set<string>)
    requires all == Dedup(before)
    requires forall x :: x in seen <==> x in all
    ensures all' == Dedup(before + ColonLines(lines))
    ensures forall x :: x in seen' <==> x in all'
  {
    all', seen' := all, seen;
    assert before + ColonLines(lines[..0]) == before;
    for j := 0 to |lines|
      invariant all' == Dedup(before + ColonLines(lines[..j]))
      invariant forall x :: x in seen' <==> x in all'
    {
      var line := lines[j];
      assert lines[..j + 1][..j] == lines[..j];
      ghost var done := before + ColonLines(lines[..j]);
      if ':' in line {
        assert before + ColonLines(lines[..j + 1]) == done + [line];
        assert (done + [line])[..|done|] == done;
      }
      if ':' in line && line !in seen' {
        seen' := seen' + {line};
        all' := all' + [line];
      }
    }
    assert lines[..|lines|] == lines;
  }

  /**
   * `get_proxies`: every source in order, one fetch outcome each; a failed
   * fetch is skipped, and a candidate enters the catalog only the first time
   * it is seen.
   */
  method GetProxies(sources: seq<string>, fetches: seq<Fetch>) returns (allProxies: seq<string>)
    requires |fetches| == |sources|
    ensures allProxies == Catalog(sources, fetches)
  {
    allProxies := [];
    var seen: set<string> := {};
    for s := 0 to |sources|
      invariant allProxies == Dedup(Concat(Extractions(sources[..s], fetches[..s])))
      invariant forall x :: x in seen <==> x in allProxies
    {
      ghost var before := Concat(Extractions(sources[..s], fetches[..s]));
      assert sources[..s + 1][..s] == sources[..s] && fetches[..s + 1][..s] == fetches[..s];
      var url := sources[s];
      ghost var after := before + Contribution(url, fetches[s]);
      assert Concat(Extractions(sources[..s + 1], fetches[..s + 1])) == after;
      if fetches[s].FetchFailed? {
        assert after == before;
        continue;
      }
      var html := fetches[s].page;
      if Contains(url, "freeproxy.world") {
        var extracted := ExtractFreeproxyWorld(html.rows);
        allProxies, seen := AddUnseen(allProxies, seen, extracted, before);
      } else if Contains(url, "displayproxies") || Contains(url, "/api/v1/get")
                || Contains(url, "raw.githubusercontent.com") {
        var lines := StrippedLines(html.body);
        allProxies, seen := AddColonLines(allProxies, seen, lines, before);
      } else {
        var extracted := ExtractProxies(html);
        allProxies, seen := AddUnseen(allProxies, seen, extracted, before);
      }
    }
    assert sources[..|sources|] == sources && fetches[..|fetches|] == fetches;
  }
}
