/**
 * The reader of the evaluation's `output_stats` file (`parse_output_stats`):
 * a line-oriented scan that opens a block at every line starting with
 * `Class, Count, Average, StdDev`, collects `(name, average)` rows until a
 * blank line, a `System Prompt:` line or the end of input, and keeps the
 * first non-empty list of names as the tool names.
 *
 * The file's lines (as `readlines` returns them, newlines included) are the
 * input; Python's `float` is the parameter `parseFloat`, `None` standing for
 * the `ValueError` it raises.
 */
module StatsParser {
  import opened Js

  const Header := "Class, Count, Average, StdDev"
  const SystemPrompt := "System Prompt:"

  /** `str.startswith` */
  predicate StartsWith(s: string, prefix: string) {
    |prefix| <= |s| && s[..|prefix|] == prefix
  }

  // ---------------------------------------------------------------------------
  // `str.strip()` and `str.split(',')`

  /** The characters `str.isspace` accepts, which `str.strip()` removes. */
  predicate IsSpace(c: char) {
    var n := c as int;
    || 9 <= n <= 13 || 28 <= n <= 32 || n == 0x85 || n == 0xA0 || n == 0x1680
    || 0x2000 <= n <= 0x200A || n == 0x2028 || n == 0x2029 || n == 0x202F || n == 0x205F || n == 0x3000
  }

  /** Leading whitespace removed (`TrimStartShape` says what is kept). */
  function TrimStart(s: string): (r: string)
    ensures |r| <= |s|
  {
    if s != [] && IsSpace(s[0]) then TrimStart(s[1..]) else s
  }

  /** Trailing whitespace removed (`TrimEndShape` says what is kept). */
  function TrimEnd(s: string): (r: string)
    ensures |r| <= |s|
  {
    if s != [] && IsSpace(s[|s| - 1]) then TrimEnd(s[..|s| - 1]) else s
  }

  /** Leading whitespace removed: a suffix of `s`, preceded only by whitespace, not starting with any. */
  lemma {:induction false} TrimStartShape(s: string)
    ensures var r := TrimStart(s);
            && |r| <= |s| && r == s[|s| - |r|..]
            && (forall k :: 0 <= k < |s| - |r| ==> IsSpace(s[k]))
            && (r != [] ==> !IsSpace(r[0]))
  {
    if s != [] && IsSpace(s[0]) {
      TrimStartShape(s[1..]);
      assert forall k :: 1 <= k < |s| ==> s[k] == s[1..][k - 1];
    }
  }

  /** Trailing whitespace removed: a prefix of `s`, followed only by whitespace, not ending with any. */
  lemma {:induction false} TrimEndShape(s: string)
    ensures var r := TrimEnd(s);
            && |r| <= |s| && r == s[..|r|]
            && (forall k :: |r| <= k < |s| ==> IsSpace(s[k]))
            && (r != [] ==> !IsSpace(r[|r| - 1]))
  {
    if s != [] && IsSpace(s[|s| - 1]) {
      TrimEndShape(s[..|s| - 1]);
      assert forall k :: 0 <= k < |s| - 1 ==> s[k] == s[..|s| - 1][k];
    }
  }

  /** `str.strip()`; `StripSlice` and `StripEmpty` say what it keeps. */
  function Strip(s: string): string {
    TrimEnd(TrimStart(s))
  }

  /**
   * The stripped line is the slice of `s` from `a` on, with only whitespace
   * before and after it.
   */
  lemma StripSlice(s: string)
    ensures var r, a := Strip(s), |s| - |TrimStart(s)|;
            && a + |r| <= |s| && r == s[a..a + |r|]
            && (forall k :: 0 <= k < a ==> IsSpace(s[k]))
            && (forall k :: a + |r| <= k < |s| ==> IsSpace(s[k]))
  {
    var t := TrimStart(s);
    var r := TrimEnd(t);
    var a := |s| - |t|;
    TrimStartShape(s);
    TrimEndShape(t);
    SliceOfSuffix(s, a, t, r);
  }

  /** A prefix `r` of the suffix `t` of `s` from `a` on, followed in `t` only by whitespace. */
  lemma SliceOfSuffix(s: string, a: int, t: string, r: string)
    requires 0 <= a <= |s| && t == s[a..] && |r| <= |t| && r == t[..|r|]
    requires forall k :: |r| <= k < |t| ==> IsSpace(t[k])
    ensures a + |r| <= |s| && r == s[a..a + |r|]
    ensures forall k :: a + |r| <= k < |s| ==> IsSpace(s[k])
  {
    assert s[a..][..|r|] == s[a..a + |r|];
    forall k | a + |r| <= k < |s|
      ensures IsSpace(s[k])
    {
      assert s[k] == t[k - a];
    }
  }

  /** Neither end of a stripped line is whitespace. */
  lemma StripEnds(s: string)
    ensures var r := Strip(s);
            r != [] ==> !IsSpace(r[0]) && !IsSpace(r[|r| - 1])
  {
    var t := TrimStart(s);
    var r := TrimEnd(t);
    TrimStartShape(s);
    TrimEndShape(t);
    assert r != [] ==> r[0] == t[0];
  }

  /** A line strips to nothing exactly when it is all whitespace: `lines[i].strip()` is false. */
  lemma StripEmpty(s: string)
    ensures Strip(s) == [] <==> forall k :: 0 <= k < |s| ==> IsSpace(s[k])
  {
    StripSlice(s);
    StripEnds(s);
    var r, a := Strip(s), |s| - |TrimStart(s)|;
    if r != [] {
      assert r[0] == s[a];
    }
  }

  /** `s.split(sep)`: at least one part (`SplitParts`: none holding `sep`; `SplitJoin`: joined again, `s`). */
  function Split(s: string, sep: char): (parts: seq<string>)
    ensures |parts| >= 1
  {
    if s == [] then [""]
    else
      var rest := Split(s[1..], sep);
      if s[0] == sep then [""] + rest
      else [[s[0]] + rest[0]] + rest[1..]
  }

  /** No part of a split holds the separator. */
  lemma {:induction false} SplitParts(s: string, sep: char)
    ensures forall k :: 0 <= k < |Split(s, sep)| ==> sep !in Split(s, sep)[k]
  {
    if s != [] {
      SplitParts(s[1..], sep);
      var rest := Split(s[1..], sep);
      if s[0] != sep {
        assert forall k :: 1 <= k < |rest| ==> rest[1..][k - 1] == rest[k];
      }
    }
  }

  /** `sep.join(parts)` */
  function Join(parts: seq<string>, sep: char): string
    requires |parts| >= 1
  {
    if |parts| == 1 then parts[0] else parts[0] + [sep] + Join(parts[1..], sep)
  }

  // ---------------------------------------------------------------------------
  // The block grammar

  /** `[p.strip() for p in line.split(',')]` */
  function Parts(line: string): (parts: seq<string>)
    ensures |parts| == |Split(line, ',')|
  {
    var pieces := Split(line, ',');
    seq(|pieces|, k requires 0 <= k < |pieces| => Strip(pieces[k]))
  }

  /** The `(name, average)` a row contributes: it needs three parts and a third that parses. */
  function RowOf(line: string, parseFloat: string -> Option<real>): Option<(string, real)> {
    var parts := Parts(line);
    if |parts| < 3 then None
    else match parseFloat(parts[2])
      case None => None
      case Some(av) => Some((parts[0], av))
  }

  /** A reader of one row line. */
  type RowParse = string -> Option<(string, real)>

  /** The row reader of the parser, `RowOf` with Python's `float`. */
  function RowParser(parseFloat: string -> Option<real>): RowParse {
    line => RowOf(line, parseFloat)
  }

  /** A line that closes a block: blank after stripping, or a `System Prompt:` line. */
  predicate EndsBlock(line: string) {
    Strip(line) == [] || StartsWith(line, SystemPrompt)
  }

  /** Where the rows that start at line `j` stop: the first closing line at or after `j`, or the end of input. */
  function BlockEnd(lines: seq<string>, j: nat): (e: nat)
    requires j <= |lines|
    ensures j <= e <= |lines|
    ensures forall k :: j <= k < e ==> !EndsBlock(lines[k])
    ensures e < |lines| ==> EndsBlock(lines[e])
    decreases |lines| - j
  {
    if j == |lines| || EndsBlock(lines[j]) then j else BlockEnd(lines, j + 1)
  }

  /** One block: the tool names and their averages. */
  datatype Block = Block(names: seq<string>, avgs: seq<real>)

  /**
   * The block read from its row lines: the rows that parse, in order, each
   * giving its name and its average at the same position (`RowsOrigin`).
   */
  function BlockOf(rows: seq<string>, row: RowParse): (b: Block)
    ensures |b.names| == |b.avgs| <= |rows|
  {
    if rows == [] then Block([], [])
    else
      var init := rows[..|rows| - 1];
      assert forall j :: 0 <= j < |init| ==> init[j] == rows[j];
      AddRow(BlockOf(init, row), rows[|rows| - 1], row)
  }

  /** One more row line: its name and average are appended when it parses. */
  function AddRow(b: Block, line: string, row: RowParse): Block {
    match row(line)
    case None => b
    case Some(r) => Block(b.names + [r.0], b.avgs + [r.1])
  }

  lemma NextRow(lines: seq<string>, start: nat, i: nat, row: RowParse)
    requires start <= i < |lines|
    ensures BlockOf(lines[start..i + 1], row) == AddRow(BlockOf(lines[start..i], row), lines[i], row)
  {
    assert lines[start..i + 1][..i - start] == lines[start..i];
  }

  /**
   * The blocks found from line `i` on. A header opens a block whose rows run
   * from the next line to `BlockEnd`, and the scan resumes at that closing
   * line; any other line is skipped.
   */
  function Blocks(lines: seq<string>, i: nat, parseFloat: string -> Option<real>): seq<Block>
    requires i <= |lines|
    decreases |lines| - i
  {
    if i == |lines| then []
    else if StartsWith(lines[i], Header) then
      var e := BlockEnd(lines, i + 1);
      [BlockOf(lines[i + 1..e], RowParser(parseFloat))] + Blocks(lines, e, parseFloat)
    else Blocks(lines, i + 1, parseFloat)
  }

  /** `class_names`: replaced by a block's names for as long as it is still empty. */
  function ClassNames(blocks: seq<Block>): seq<string> {
    if blocks == [] then []
    else
      var before := ClassNames(blocks[..|blocks| - 1]);
      if before == [] then blocks[|blocks| - 1].names else before
  }

  /** `blocks`: the averages of every block, empty ones included. */
  function Averages(blocks: seq<Block>): (r: seq<seq<real>>)
    ensures |r| == |blocks|
    ensures forall k :: 0 <= k < |blocks| ==> r[k] == blocks[k].avgs
  {
    seq(|blocks|, k requires 0 <= k < |blocks| => blocks[k].avgs)
  }

  // ---------------------------------------------------------------------------
  // The parser's loops

  /** `parse_output_stats`, on the lines of the file. */
  method ParseOutputStats(lines: seq<string>, parseFloat: string -> Option<real>)
    returns (classNames: seq<string>, blocks: seq<seq<real>>)
    ensures classNames == ClassNames(Blocks(lines, 0, parseFloat))
    ensures blocks == Averages(Blocks(lines, 0, parseFloat))
  {
    classNames := [];
    blocks := [];
    ghost var found: seq<Block> := [];
    var i := 0;
    var n := |lines|;
    while i < n
      invariant 0 <= i <= n
      invariant Blocks(lines, 0, parseFloat) == found + Blocks(lines, i, parseFloat)
      invariant classNames == ClassNames(found)
      invariant blocks == Averages(found)
      decreases n - i
    {
      if StartsWith(lines[i], Header) {
        HeaderOpensBlock(lines, i, parseFloat);
        i := i + 1;
        var names, avgs := ReadRows(lines, i, parseFloat);
        i := BlockEnd(lines, i);
        if classNames == [] {
          classNames := names;
        }
        blocks := blocks + [avgs];
        AppendBlock(found, Block(names, avgs), Blocks(lines, i, parseFloat));
        found := found + [Block(names, avgs)];
      } else {
        OtherLineSkipped(lines, i, parseFloat);
        i := i + 1;
      }
    }
    assert Blocks(lines, i, parseFloat) == [];
    assert found + [] == found;
  }

  lemma HeaderOpensBlock(lines: seq<string>, i: nat, parseFloat: string -> Option<real>)
    requires i < |lines| && StartsWith(lines[i], Header)
    ensures Blocks(lines, i, parseFloat)
         == [BlockOf(lines[i + 1..BlockEnd(lines, i + 1)], RowParser(parseFloat))] + Blocks(lines, BlockEnd(lines, i + 1), parseFloat)
  {
  }

  lemma OtherLineSkipped(lines: seq<string>, i: nat, parseFloat: string -> Option<real>)
    requires i < |lines| && !StartsWith(lines[i], Header)
    ensures Blocks(lines, i, parseFloat) == Blocks(lines, i + 1, parseFloat)
  {
  }

  /** What the scan's state becomes when one more block is appended. */
  lemma AppendBlock(found: seq<Block>, b: Block, rest: seq<Block>)
    ensures found + ([b] + rest) == (found + [b]) + rest
    ensures ClassNames(found + [b]) == if ClassNames(found) == [] then b.names else ClassNames(found)
    ensures Averages(found + [b]) == Averages(found) + [b.avgs]
  {
    assert (found + [b])[..|found|] == found;
  }

  /**
   * The inner `while` from line `start`: it stops at `BlockEnd(lines, start)`
   * and returns the names and averages of the rows it passed.
   */
  method ReadRows(lines: seq<string>, start: nat, parseFloat: string -> Option<real>)
    returns (names: seq<string>, avgs: seq<real>)
    requires start <= |lines|
    ensures Block(names, avgs) == BlockOf(lines[start..BlockEnd(lines, start)], RowParser(parseFloat))
  {
    names, avgs := [], [];
    var i := start;
    var n := |lines|;
    while i < n && !EndsBlock(lines[i])
      invariant start <= i <= n
      invariant BlockEnd(lines, i) == BlockEnd(lines, start)
      invariant Block(names, avgs) == BlockOf(lines[start..i], RowParser(parseFloat))
      decreases n - i
    {
      NextRow(lines, start, i, RowParser(parseFloat));
      names, avgs := ReadRow(names, avgs, lines[i], parseFloat);
      i := i + 1;
    }
  }

  /** The body of the inner `while` for one line: a row with three parts and a third that parses is appended. */
  method ReadRow(names0: seq<string>, avgs0: seq<real>, line: string, parseFloat: string -> Option<real>)
    returns (names: seq<string>, avgs: seq<real>)
    ensures Block(names, avgs) == AddRow(Block(names0, avgs0), line, RowParser(parseFloat))
  {
    names, avgs := names0, avgs0;
    var parts := Parts(line);
    if |parts| >= 3 {
      var name, avgStr := parts[0], parts[2];
      var av := parseFloat(avgStr);
      if av.None? {
        return;
      }
      names := names + [name];
      avgs := avgs + [av.value];
    }
  }

  // ---------------------------------------------------------------------------
  // Properties

  /** Splitting and joining again gives the line back. */
  lemma {:induction false} SplitJoin(s: string, sep: char)
    ensures Join(Split(s, sep), sep) == s
  {
    if s != [] {
      SplitJoin(s[1..], sep);
      var rest := Split(s[1..], sep);
      if s[0] != sep && |rest| > 1 {
        assert ([[s[0]] + rest[0]] + rest[1..])[1..] == rest[1..];
      }
    }
  }

  /** Stripping twice is stripping once. */
  lemma StripIdempotent(s: string)
    ensures Strip(Strip(s)) == Strip(s)
  {
    var r := Strip(s);
    StripEnds(s);
    if r != [] {
      assert TrimStart(r) == r;
      assert TrimEnd(r) == r;
    }
  }

  /** Within every block, there are as many averages as names. */
  lemma {:induction false} NamesMatchAverages(lines: seq<string>, i: nat, parseFloat: string -> Option<real>)
    requires i <= |lines|
    ensures forall k :: 0 <= k < |Blocks(lines, i, parseFloat)| ==>
              |Blocks(lines, i, parseFloat)[k].names| == |Blocks(lines, i, parseFloat)[k].avgs|
    decreases |lines| - i
  {
    if i < |lines| {
      if StartsWith(lines[i], Header) {
        NamesMatchAverages(lines, BlockEnd(lines, i + 1), parseFloat);
      } else {
        NamesMatchAverages(lines, i + 1, parseFloat);
      }
    }
  }

  /** Every name and average of `b` come together from one line of `rows` that `row` reads. */
  predicate FromRows(b: Block, rows: seq<string>, row: RowParse) {
    && |b.names| == |b.avgs|
    && forall k :: 0 <= k < |b.names| ==>
         exists j :: 0 <= j < |rows| && row(rows[j]) == Some((b.names[k], b.avgs[k]))
  }

  /** A block holds nothing but the rows of its lines that parse. */
  lemma {:induction false} RowsOrigin(rows: seq<string>, row: RowParse)
    ensures FromRows(BlockOf(rows, row), rows, row)
  {
    if rows != [] {
      var init := rows[..|rows| - 1];
      RowsOrigin(init, row);
      var prev, b := BlockOf(init, row), BlockOf(rows, row);
      forall k | 0 <= k < |b.names|
        ensures exists j :: 0 <= j < |rows| && row(rows[j]) == Some((b.names[k], b.avgs[k]))
      {
        if k < |prev.names| {
          var j :| 0 <= j < |init| && row(init[j]) == Some((prev.names[k], prev.avgs[k]));
          assert rows[j] == init[j];
        } else {
          assert row(rows[|rows| - 1]) == Some((b.names[k], b.avgs[k]));
        }
      }
    }
  }

  /** A row that is skipped (fewer than three parts, or a third part that does not parse) adds nothing. */
  lemma SkippedRow(rows: seq<string>, line: string, parseFloat: string -> Option<real>)
    requires |Parts(line)| < 3 || parseFloat(Parts(line)[2]).None?
    ensures BlockOf(rows + [line], RowParser(parseFloat)) == BlockOf(rows, RowParser(parseFloat))
  {
    assert (rows + [line])[..|rows|] == rows;
  }

  /** A row that parses appends its first part and its parsed third part. */
  lemma ParsedRow(rows: seq<string>, line: string, parseFloat: string -> Option<real>)
    requires |Parts(line)| >= 3 && parseFloat(Parts(line)[2]).Some?
    ensures var b, b' := BlockOf(rows, RowParser(parseFloat)), BlockOf(rows + [line], RowParser(parseFloat));
            b' == Block(b.names + [Parts(line)[0]], b.avgs + [parseFloat(Parts(line)[2]).value])
  {
    assert (rows + [line])[..|rows|] == rows;
  }

  /** Lines after the last header never add a block. */
  lemma {:induction false} NoHeaderNoBlocks(lines: seq<string>, i: nat, parseFloat: string -> Option<real>)
    requires i <= |lines|
    requires forall k :: i <= k < |lines| ==> !StartsWith(lines[k], Header)
    ensures Blocks(lines, i, parseFloat) == []
    decreases |lines| - i
  {
    if i < |lines| {
      NoHeaderNoBlocks(lines, i + 1, parseFloat);
    }
  }

  /** Count of the lines in `lines[i..]` that start with the header. */
  function HeaderCount(lines: seq<string>, i: nat): nat
    requires i <= |lines|
    decreases |lines| - i
  {
    if i == |lines| then 0 else HeaderCount(lines, i + 1) + (if StartsWith(lines[i], Header) then 1 else 0)
  }

  lemma {:induction false} HeaderCountMonotone(lines: seq<string>, i: nat, j: nat)
    requires i <= j <= |lines|
    ensures HeaderCount(lines, j) <= HeaderCount(lines, i)
    decreases j - i
  {
    if i < j {
      HeaderCountMonotone(lines, i + 1, j);
    }
  }

  /**
   * At most one block per header line, and exactly one per header line when
   * no header falls inside another block's rows (a header there is read as a
   * row, and its `Average` does not parse).
   */
  lemma {:induction false} BlocksPerHeader(lines: seq<string>, i: nat, parseFloat: string -> Option<real>)
    requires i <= |lines|
    ensures |Blocks(lines, i, parseFloat)| <= HeaderCount(lines, i)
    decreases |lines| - i
  {
    if i < |lines| {
      if StartsWith(lines[i], Header) {
        var e := BlockEnd(lines, i + 1);
        BlocksPerHeader(lines, e, parseFloat);
        HeaderCountMonotone(lines, i + 1, e);
      } else {
        BlocksPerHeader(lines, i + 1, parseFloat);
      }
    }
  }

  /** A header's block is closed by a blank line or a `System Prompt:` line; so no header sits inside it. */
  predicate Separated(lines: seq<string>) {
    forall k :: 0 <= k < |lines| && StartsWith(lines[k], Header) ==>
      forall j :: k < j < BlockEnd(lines, k + 1) ==> !StartsWith(lines[j], Header)
  }

  lemma {:induction false} OneBlockPerHeader(lines: seq<string>, i: nat, parseFloat: string -> Option<real>)
    requires i <= |lines| && Separated(lines)
    ensures |Blocks(lines, i, parseFloat)| == HeaderCount(lines, i)
    decreases |lines| - i
  {
    if i < |lines| {
      if StartsWith(lines[i], Header) {
        var e := BlockEnd(lines, i + 1);
        OneBlockPerHeader(lines, e, parseFloat);
        NoHeaderBetween(lines, i + 1, e);
      } else {
        OneBlockPerHeader(lines, i + 1, parseFloat);
      }
    }
  }

  lemma {:induction false} NoHeaderBetween(lines: seq<string>, i: nat, e: nat)
    requires i <= e <= |lines|
    requires forall j :: i <= j < e ==> !StartsWith(lines[j], Header)
    ensures HeaderCount(lines, i) == HeaderCount(lines, e)
    decreases e - i
  {
    if i < e {
      NoHeaderBetween(lines, i + 1, e);
    }
  }

  /**
   * `class_names` is empty exactly when every block's names are, and
   * otherwise it is the names of the first block that has any.
   */
  lemma {:induction false} FirstNonEmptyNames(blocks: seq<Block>)
    ensures ClassNames(blocks) == [] <==> forall k :: 0 <= k < |blocks| ==> blocks[k].names == []
    ensures ClassNames(blocks) != [] ==>
              exists k :: && 0 <= k < |blocks| && ClassNames(blocks) == blocks[k].names
                          && forall j :: 0 <= j < k ==> blocks[j].names == []
  {
    if blocks != [] {
      var init := blocks[..|blocks| - 1];
      FirstNonEmptyNames(init);
      assert forall j :: 0 <= j < |init| ==> init[j] == blocks[j];
      if ClassNames(init) != [] {
        var k :| && 0 <= k < |init| && ClassNames(init) == init[k].names
                 && forall j :: 0 <= j < k ==> init[j].names == [];
        assert blocks[k] == init[k];
      }
    }
  }

  /** The parser answers the first non-empty names list and one averages list per block, of matching lengths. */
  lemma ParserResult(lines: seq<string>, parseFloat: string -> Option<real>)
    ensures var bs := Blocks(lines, 0, parseFloat);
            ClassNames(bs) != [] ==>
              exists k :: && 0 <= k < |bs| && ClassNames(bs) == bs[k].names
                          && |ClassNames(bs)| == |Averages(bs)[k]|
                          && forall j :: 0 <= j < k ==> bs[j].names == []
  {
    var bs := Blocks(lines, 0, parseFloat);
    FirstNonEmptyNames(bs);
    NamesMatchAverages(lines, 0, parseFloat);
  }
}
