/** The checksum listing of an archive: a line `digest  path` per file, printed
    by the backup and read back by the verification. A byte string is a
    sequence of characters, one per byte. */
module Checksums {
  import opened Wrappers

  type Bytes = string

  const DIGEST_LENGTH: nat := 64

  datatype ListingError = NotAscii | BadLine | BadDigest

  datatype Entry = Entry(digest: string, path: string)

  predicate IsHex(c: char) {
    '0' <= c <= '9' || 'a' <= c <= 'f'
  }

  predicate AllHex(s: string) {
    forall k :: 0 <= k < |s| ==> IsHex(s[k])
  }

  predicate IsSha256(s: string) {
    |s| == DIGEST_LENGTH && AllHex(s)
  }

  predicate IsAscii(s: string) {
    forall k :: 0 <= k < |s| ==> s[k] as int < 128
  }

  // -------------------------------------------------------------------- lines

  /** The ASCII characters at which Python's `str.splitlines` ends a line. */
  predicate IsBreak(c: char) {
    var n := c as int;
    10 <= n <= 13 || 28 <= n <= 30
  }

  predicate NoBreaks(s: string) {
    forall k :: 0 <= k < |s| ==> !IsBreak(s[k])
  }

  function LineEnd(s: string): (n: nat)
    ensures n <= |s| && NoBreaks(s[..n]) && (n < |s| ==> IsBreak(s[n]))
  {
    if s == "" || IsBreak(s[0]) then 0
    else
      assert forall n: nat :: n <= |s[1..]| ==> s[..n + 1] == [s[0]] + s[1..][..n];
      1 + LineEnd(s[1..])
  }

  /** `\r\n` ends one line, not two. */
  function NextLine(s: string): (n: nat)
    ensures LineEnd(s) <= n <= |s|
  {
    var n := LineEnd(s);
    if n == |s| then n
    else if s[n] as int == 13 && n + 1 < |s| && s[n + 1] as int == 10 then n + 2
    else n + 1
  }

  function SplitLines(s: string): seq<string>
    decreases |s|
  {
    if s == "" then [] else [s[..LineEnd(s)]] + SplitLines(s[NextLine(s)..])
  }

  lemma {:induction false} LineEndsAt(line: string, rest: string)
    requires NoBreaks(line)
    ensures LineEnd(line + "\n" + rest) == |line|
  {
    var s := line + "\n" + rest;
    if line != "" {
      assert s[1..] == line[1..] + "\n" + rest;
      LineEndsAt(line[1..], rest);
    }
  }

  lemma FirstLine(line: string, rest: string)
    requires NoBreaks(line)
    ensures SplitLines(line + "\n" + rest) == [line] + SplitLines(rest)
  {
    LineEndsAt(line, rest);
    var s := line + "\n" + rest;
    assert s[..|line|] == line && s[|line| + 1..] == rest;
  }

  // ------------------------------------------------------------------ entries

  /** The position of the first double space, or the length if there is none. */
  function FirstGap(s: string): (n: nat)
    ensures n <= |s|
    ensures n < |s| ==> n + 1 < |s| && s[n] == s[n + 1] == ' '
  {
    if |s| < 2 then |s| else if s[0] == s[1] == ' ' then 0 else 1 + FirstGap(s[1..])
  }

  /** `line.split("  ")` with exactly two parts. */
  function ParseLine(line: string): Result<Entry, ListingError> {
    var n := FirstGap(line);
    if n == |line| || FirstGap(line[n + 2..]) != |line[n + 2..]| then Err(BadLine)
    else if !IsSha256(line[..n]) then Err(BadDigest)
    else Ok(Entry(line[..n], line[n + 2..]))
  }

  function PrintLine(e: Entry): string {
    e.digest + "  " + e.path
  }

  lemma {:induction false} GapAfterDigest(digest: string, path: string)
    requires AllHex(digest)
    ensures FirstGap(digest + "  " + path) == |digest|
  {
    var s := digest + "  " + path;
    if digest != "" {
      assert s[1..] == digest[1..] + "  " + path;
      GapAfterDigest(digest[1..], path);
    }
  }

  /** Paths a line can carry: no line break, no double space, ASCII only. */
  predicate Printable(path: string) {
    NoBreaks(path) && FirstGap(path) == |path| && IsAscii(path)
  }

  lemma LineRoundTrip(e: Entry)
    requires IsSha256(e.digest) && Printable(e.path)
    ensures ParseLine(PrintLine(e)) == Ok(e)
    ensures NoBreaks(PrintLine(e)) && IsAscii(PrintLine(e))
  {
    GapAfterDigest(e.digest, e.path);
    assert PrintLine(e)[..|e.digest|] == e.digest && PrintLine(e)[|e.digest| + 2..] == e.path;
  }

  lemma {:induction false} GapSplits(s: string)
    requires FirstGap(s) < |s|
    ensures s == s[..FirstGap(s)] + "  " + s[FirstGap(s) + 2..]
  {
  }

  /** A line is accepted exactly if it is a digest, a double space, and a path
      without one. */
  lemma ParseLineMeans(line: string, e: Entry)
    ensures ParseLine(line) == Ok(e) <==>
            line == e.digest + "  " + e.path && IsSha256(e.digest) && FirstGap(e.path) == |e.path|
  {
    if IsSha256(e.digest) && line == e.digest + "  " + e.path {
      GapAfterDigest(e.digest, e.path);
      assert line[..|e.digest|] == e.digest && line[|e.digest| + 2..] == e.path;
    }
    if ParseLine(line) == Ok(e) {
      GapSplits(line);
    }
  }

  // ------------------------------------------------------------- whole listing

  /** Assigning the entries to a dictionary in order. */
  function Assign(entries: seq<Entry>, result: map<string, string>): map<string, string>
    decreases |entries|
  {
    if entries == [] then result else Assign(entries[1..], result[entries[0].path := entries[0].digest])
  }

  function Print(entries: seq<Entry>): string {
    if entries == [] then "" else PrintLine(entries[0]) + "\n" + Print(entries[1..])
  }

  function ParseLines(lines: seq<string>, result: map<string, string>): Result<map<string, string>, ListingError> {
    if lines == [] then Ok(result)
    else
      match ParseLine(lines[0])
      case Err(e) => Err(e)
      case Ok(entry) => ParseLines(lines[1..], result[entry.path := entry.digest])
  }

  function Parsed(payload: Bytes): Result<map<string, string>, ListingError> {
    if !IsAscii(payload) then Err(NotAscii) else ParseLines(SplitLines(payload), map[])
  }

  method ParseChecksums(payload: Bytes) returns (r: Result<map<string, string>, ListingError>)
    ensures r == Parsed(payload)
  {
    if !IsAscii(payload) {
      return Err(NotAscii);
    }
    var lines := SplitLines(payload);
    var result := map[];
    for k := 0 to |lines|
      invariant Parsed(payload) == ParseLines(lines[k..], result)
    {
      assert lines[k..][0] == lines[k] && lines[k..][1..] == lines[k + 1..];
      var entry := ParseLine(lines[k]);
      if entry.Err? {
        return Err(entry.error);
      }
      result := result[entry.value.path := entry.value.digest];
    }
    return Ok(result);
  }

  /** The lines a list of entries would be printed as. */
  ghost predicate Reads(lines: seq<string>, entries: seq<Entry>) {
    && |lines| == |entries|
    && forall k :: 0 <= k < |lines| ==>
         && lines[k] == entries[k].digest + "  " + entries[k].path
         && IsSha256(entries[k].digest) && FirstGap(entries[k].path) == |entries[k].path|
  }

  lemma {:induction false} LinesAreEntries(lines: seq<string>, result: map<string, string>)
    returns (entries: seq<Entry>)
    requires ParseLines(lines, result).Ok?
    ensures Reads(lines, entries)
  {
    entries := [];
    if lines != [] {
      var entry := ParseLine(lines[0]).value;
      ParseLineMeans(lines[0], entry);
      entries := LinesAreEntries(lines[1..], result[entry.path := entry.digest]);
      entries := [entry] + entries;
    }
  }

  lemma {:induction false} EntriesAreParsed(lines: seq<string>, entries: seq<Entry>, result: map<string, string>)
    requires Reads(lines, entries)
    ensures ParseLines(lines, result) == Ok(Assign(entries, result))
  {
    if lines != [] {
      ParseLineMeans(lines[0], entries[0]);
      EntriesAreParsed(lines[1..], entries[1..], result[entries[0].path := entries[0].digest]);
    }
  }

  /** Any payload is accepted exactly if it is ASCII and each of its lines is an
      entry; the result assigns the entries in order. */
  lemma ListingMeans(payload: Bytes, result: map<string, string>)
    ensures Parsed(payload) == Ok(result) <==>
            && IsAscii(payload)
            && exists entries :: Reads(SplitLines(payload), entries) && result == Assign(entries, map[])
  {
    hide ParseLines, SplitLines, Assign, Reads, IsAscii;
    if IsAscii(payload) && ParseLines(SplitLines(payload), map[]).Ok? {
      var entries := LinesAreEntries(SplitLines(payload), map[]);
      EntriesAreParsed(SplitLines(payload), entries, map[]);
    }
    forall entries | Reads(SplitLines(payload), entries)
      ensures ParseLines(SplitLines(payload), map[]) == Ok(Assign(entries, map[]))
    {
      EntriesAreParsed(SplitLines(payload), entries, map[]);
    }
  }

  lemma {:induction false} PrintedLines(entries: seq<Entry>)
    requires forall e :: e in entries ==> IsSha256(e.digest) && Printable(e.path)
    ensures IsAscii(Print(entries))
    ensures var lines := SplitLines(Print(entries));
            |lines| == |entries| && forall k :: 0 <= k < |lines| ==> lines[k] == PrintLine(entries[k])
  {
    hide SplitLines, PrintLine, IsSha256, Printable, NoBreaks;
    if entries == [] {
      EmptyListing();
    } else {
      var first, rest := entries[0], entries[1..];
      LineRoundTrip(first);
      PrintedLines(rest);
      FirstLine(PrintLine(first), Print(rest));
      assert Print(entries) == PrintLine(first) + "\n" + Print(rest);
    }
  }

  lemma EmptyListing()
    ensures SplitLines("") == []
  {
  }

  lemma {:induction false} ParsePrintedLines(entries: seq<Entry>, lines: seq<string>, result: map<string, string>)
    requires forall e :: e in entries ==> IsSha256(e.digest) && Printable(e.path)
    requires |lines| == |entries| && forall k :: 0 <= k < |lines| ==> lines[k] == PrintLine(entries[k])
    ensures ParseLines(lines, result) == Ok(Assign(entries, result))
  {
    if entries != [] {
      LineRoundTrip(entries[0]);
      ParsePrintedLines(entries[1..], lines[1..], result[entries[0].path := entries[0].digest]);
    }
  }

  /** Reading the printed listing returns its map. */
  lemma ListingRoundTrip(entries: seq<Entry>)
    requires forall e :: e in entries ==> IsSha256(e.digest) && Printable(e.path)
    ensures Parsed(Print(entries)) == Ok(Assign(entries, map[]))
  {
    PrintedLines(entries);
    ParsePrintedLines(entries, SplitLines(Print(entries)), map[]);
  }

  // ---------------------------------------------- listings that do not read back

  /** A path as the archives have it: it ends in a character of its own, and is
      shorter than a digest and its gap. */
  predicate Bounded(path: string) {
    0 < |path| <= DIGEST_LENGTH + 2 && !IsBreak(path[|path| - 1])
  }

  ghost predicate AllPrintable(entries: seq<Entry>) {
    forall k :: 0 <= k < |entries| ==> Printable(entries[k].path)
  }

  ghost predicate AllBounded(entries: seq<Entry>) {
    forall k :: 0 <= k < |entries| ==> IsSha256(entries[k].digest) && Bounded(entries[k].path)
  }

  ghost predicate AllAsciiPaths(entries: seq<Entry>) {
    forall k :: 0 <= k < |entries| ==> IsAscii(entries[k].path)
  }

  lemma ShortLineFails(line: string)
    requires |line| < DIGEST_LENGTH + 2
    ensures ParseLine(line).Err?
  {
  }

  lemma GapInPathFails(e: Entry)
    requires IsSha256(e.digest) && FirstGap(e.path) != |e.path|
    ensures ParseLine(PrintLine(e)).Err?
  {
    GapAfterDigest(e.digest, e.path);
    assert PrintLine(e)[|e.digest| + 2..] == e.path;
  }

  lemma TwoLines(s: string, result: map<string, string>)
    requires s != "" && NextLine(s) < |s| && ParseLine(s[NextLine(s)..][..LineEnd(s[NextLine(s)..])]).Err?
    ensures ParseLines(SplitLines(s), result).Err?
  {
    var rest := s[NextLine(s)..];
    var second := rest[..LineEnd(rest)];
    assert SplitLines(rest) == [second] + SplitLines(rest[NextLine(rest)..]);
    assert SplitLines(s) == [s[..LineEnd(s)]] + SplitLines(rest);
    assert SplitLines(s)[1..] == SplitLines(rest) && SplitLines(rest)[0] == second;
  }

  lemma {:induction false} BreakEndsLine(s: string, k: nat)
    requires k < |s| && IsBreak(s[k])
    ensures LineEnd(s) <= k
  {
    if k > 0 { BreakEndsLine(s[1..], k - 1); }
  }

  /** A line break inside a path leaves a second line too short for a digest. */
  lemma BreakInPathFails(e: Entry, rest: string, result: map<string, string>)
    requires IsSha256(e.digest) && Bounded(e.path) && !NoBreaks(e.path)
    ensures ParseLines(SplitLines(PrintLine(e) + "\n" + rest), result).Err?
  {
    hide ParseLines, SplitLines, ParseLine;
    var line := PrintLine(e);
    var s := line + "\n" + rest;
    var p :| 0 <= p < |e.path| && IsBreak(e.path[p]);
    assert s[|e.digest| + 2 + p] == e.path[p];
    var j, n := LineEnd(s), NextLine(s);
    BreakEndsLine(s, |e.digest| + 2 + p);
    assert forall k :: 0 <= k < |e.digest| ==> s[k] == e.digest[k] && IsHex(s[k]);
    assert s[|e.digest|] == s[|e.digest| + 1] == ' ';
    assert j >= |e.digest| + 2;
    assert line[|line| - 1] == e.path[|e.path| - 1] == s[|line| - 1];
    assert n < |line|;
    var tail := s[n..];
    assert tail[|line| - n] == '\n';
    BreakEndsLine(tail, |line| - n);
    ShortLineFails(tail[..LineEnd(tail)]);
    TwoLines(s, result);
  }

  lemma {:induction false} UnprintableFails(entries: seq<Entry>, result: map<string, string>)
    requires AllBounded(entries) && !AllPrintable(entries) && IsAscii(Print(entries))
    ensures ParseLines(SplitLines(Print(entries)), result).Err?
  {
    hide ParseLine, SplitLines, FirstGap, NoBreaks;
    var e, rest := entries[0], entries[1..];
    var text := Print(rest);
    assert entries == [e] + rest;
    assert Print(entries) == PrintLine(e) + "\n" + text;
    PrintIsAscii(entries);
    if !NoBreaks(e.path) {
      BreakInPathFails(e, text, result);
    } else {
      LineWithoutBreaks(e);
      FirstLine(PrintLine(e), text);
      assert SplitLines(Print(entries))[0] == PrintLine(e) && SplitLines(Print(entries))[1..] == SplitLines(text);
      if FirstGap(e.path) != |e.path| {
        GapInPathFails(e);
      } else {
        LineRoundTrip(e);
        assert !AllPrintable(rest) by {
          var k :| 0 <= k < |entries| && !Printable(entries[k].path);
          assert k > 0 && rest[k - 1] == entries[k];
        }
        PrintIsAscii(rest);
        UnprintableFails(rest, result[e.path := e.digest]);
      }
    }
  }

  lemma LineWithoutBreaks(e: Entry)
    requires IsSha256(e.digest) && NoBreaks(e.path)
    ensures NoBreaks(PrintLine(e))
  {
  }

  /** A printed listing is ASCII, so can be encoded, if its paths are. */
  lemma {:induction false} PrintIsAscii(entries: seq<Entry>)
    requires forall k :: 0 <= k < |entries| ==> IsSha256(entries[k].digest)
    ensures IsAscii(Print(entries)) <==> AllAsciiPaths(entries)
  {
    if entries != [] {
      var e, rest := entries[0], entries[1..];
      assert entries == [e] + rest;
      PrintIsAscii(rest);
      LineIsAscii(e);
      AsciiConcat(PrintLine(e), "\n");
      AsciiConcat(PrintLine(e) + "\n", Print(rest));
    }
  }

  lemma AsciiConcat(s: string, t: string)
    ensures IsAscii(s + t) <==> IsAscii(s) && IsAscii(t)
  {
    assert forall k :: 0 <= k < |s| ==> (s + t)[k] == s[k];
    assert forall k :: 0 <= k < |t| ==> (s + t)[|s| + k] == t[k];
  }

  lemma LineIsAscii(e: Entry)
    requires IsSha256(e.digest)
    ensures IsAscii(PrintLine(e)) <==> IsAscii(e.path)
  {
    assert forall k :: 0 <= k < |e.digest| ==> IsHex(e.digest[k]);
    AsciiConcat(e.digest, "  ");
    AsciiConcat(e.digest + "  ", e.path);
  }

  /** A printed listing reads back as its map exactly if every path is ASCII
      without line breaks and double spaces; otherwise it does not read at all. */
  lemma ListingReadsBack(entries: seq<Entry>)
    requires AllBounded(entries)
    ensures Parsed(Print(entries)).Ok? <==> AllPrintable(entries)
    ensures AllPrintable(entries) ==> Parsed(Print(entries)) == Ok(Assign(entries, map[]))
  {
    hide Print, SplitLines, ParseLines, NoBreaks, FirstGap;
    if AllPrintable(entries) {
      ListingRoundTrip(entries);
    } else if IsAscii(Print(entries)) {
      UnprintableFails(entries, map[]);
    }
  }

  // ------------------------------------------------------------------ the map

  ghost predicate DistinctPaths(entries: seq<Entry>) {
    forall j, k :: 0 <= j < k < |entries| ==> entries[j].path != entries[k].path
  }

  /** A path no entry has keeps what it had. */
  lemma {:induction false} AssignedElsewhere(entries: seq<Entry>, result: map<string, string>, path: string)
    requires forall k :: 0 <= k < |entries| ==> entries[k].path != path
    ensures path in Assign(entries, result) <==> path in result
    ensures path in result ==> Assign(entries, result)[path] == result[path]
  {
    if entries != [] {
      AssignedElsewhere(entries[1..], result[entries[0].path := entries[0].digest], path);
    }
  }

  /** With distinct paths the map gives each path its own digest. */
  lemma {:induction false} AssignedAt(entries: seq<Entry>, result: map<string, string>, k: nat)
    requires k < |entries| && DistinctPaths(entries)
    ensures entries[k].path in Assign(entries, result)
    ensures Assign(entries, result)[entries[k].path] == entries[k].digest
  {
    var next := result[entries[0].path := entries[0].digest];
    if k == 0 {
      AssignedElsewhere(entries[1..], next, entries[0].path);
    } else {
      AssignedAt(entries[1..], next, k - 1);
    }
  }
}
