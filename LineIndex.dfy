/**
 * The line index of tomlkit-core: a table of the offsets at which lines
 * start, and the conversion of an offset into a zero-based (line, column)
 * pair by a binary search over that table.
 *
 * Offsets are character offsets into a `seq<char>`; the source indexes UTF-8
 * bytes, and with characters a column is simply a difference of offsets.
 */
module LineIndex {

  /** Zero-based position in a text. */
  datatype Coord = Coord(line: nat, column: nat)

  /** The index the source builds once per text and only reads afterwards. */
  datatype LineIndex = LineIndex(lineStarts: seq<nat>)

  /** Outcome of a binary search, as Rust's `Result<usize, usize>`. */
  datatype SearchResult = Found(index: nat) | NotFound(insertAt: nat)

  /** Number of line feeds in `text`. */
  function NewlineCount(text: string): nat
  {
    multiset(text)['\n']
  }

  ghost predicate Sorted(s: seq<nat>)
  {
    forall i, j :: 0 <= i < j < |s| ==> s[i] <= s[j]
  }

  ghost predicate Increasing(s: seq<nat>)
  {
    forall i, j :: 0 <= i < j < |s| ==> s[i] < s[j]
  }

  /** What a line-start table of `text` is. */
  ghost predicate IsLineTable(text: string, starts: seq<nat>)
  {
    && |starts| == NewlineCount(text) + 1
    && starts[0] == 0
    && Increasing(starts)
    && (forall i :: 0 < i < |starts| ==> 0 < starts[i] <= |text| && text[starts[i] - 1] == '\n')
    && (forall p :: 0 <= p < |text| && text[p] == '\n' ==> p + 1 in starts)
  }

  /** The line-start table of `text`: 0, then the offset after each line feed. */
  function LineStarts(text: string): (r: seq<nat>)
    ensures |r| > 0 && r[0] == 0
    decreases |text|
  {
    if |text| == 0 then [0]
    else LineStarts(text[..|text| - 1]) + (if text[|text| - 1] == '\n' then [|text|] else [])
  }

  lemma {:induction false} LineStartsBounded(text: string)
    ensures forall i :: 0 <= i < |LineStarts(text)| ==> LineStarts(text)[i] <= |text|
    decreases |text|
  {
    if |text| > 0 {
      LineStartsBounded(text[..|text| - 1]);
    }
  }

  lemma {:induction false} LineStartsIncreasing(text: string)
    ensures Increasing(LineStarts(text))
    decreases |text|
  {
    if |text| > 0 {
      var p := text[..|text| - 1];
      LineStartsIncreasing(p);
      LineStartsBounded(p);
    }
  }

  lemma {:induction false} LineStartsCount(text: string)
    ensures |LineStarts(text)| == NewlineCount(text) + 1
    decreases |text|
  {
    if |text| > 0 {
      var p := text[..|text| - 1];
      assert text == p + [text[|text| - 1]];
      assert multiset(text) == multiset(p) + multiset([text[|text| - 1]]);
      LineStartsCount(p);
    }
  }

  lemma {:induction false} LineStartsAfterNewline(text: string)
    ensures forall i :: 0 < i < |LineStarts(text)| ==>
      0 < LineStarts(text)[i] <= |text| && text[LineStarts(text)[i] - 1] == '\n'
    decreases |text|
  {
    if |text| > 0 {
      var n := |text|;
      var p := text[..n - 1];
      LineStartsAfterNewline(p);
      var sp, s := LineStarts(p), LineStarts(text);
      forall i | 0 < i < |s|
        ensures 0 < s[i] <= n && text[s[i] - 1] == '\n'
      {
        if i < |sp| {
          assert s[i] == sp[i];
          assert text[s[i] - 1] == p[sp[i] - 1];
        }
      }
    }
  }

  lemma {:induction false} LineStartsComplete(text: string)
    ensures forall q :: 0 <= q < |text| && text[q] == '\n' ==> q + 1 in LineStarts(text)
    decreases |text|
  {
    if |text| > 0 {
      var n := |text|;
      var p := text[..n - 1];
      LineStartsComplete(p);
      var sp, s := LineStarts(p), LineStarts(text);
      forall q | 0 <= q < n && text[q] == '\n'
        ensures q + 1 in s
      {
        if q < n - 1 {
          assert p[q] == '\n';
          var k :| 0 <= k < |sp| && sp[k] == q + 1;
          assert s[k] == q + 1;
        } else {
          assert s[|s| - 1] == n;
        }
      }
    }
  }

  /** `LineStarts` meets every requirement of a line-start table. */
  lemma LineStartsShape(text: string)
    ensures IsLineTable(text, LineStarts(text))
  {
    LineStartsIncreasing(text);
    LineStartsCount(text);
    LineStartsAfterNewline(text);
    LineStartsComplete(text);
  }

  /** Entries of the table of `text` up to offset `k` are exactly the table of `text[..k]`. */
  lemma {:induction false} LineStartsPrefix(text: string, k: nat)
    requires k <= |text|
    ensures |LineStarts(text[..k])| <= |LineStarts(text)|
    ensures LineStarts(text)[..|LineStarts(text[..k])|] == LineStarts(text[..k])
    ensures forall i :: |LineStarts(text[..k])| <= i < |LineStarts(text)| ==> LineStarts(text)[i] > k
    decreases |text|
  {
    if k < |text| {
      var p := text[..|text| - 1];
      assert p[..k] == text[..k];
      LineStartsPrefix(p, k);
    } else {
      assert text[..k] == text;
    }
  }

  /** Number of characters after the last line feed of `prefix`. */
  function ColumnOf(prefix: string): nat
    decreases |prefix|
  {
    if |prefix| == 0 || prefix[|prefix| - 1] == '\n' then 0
    else ColumnOf(prefix[..|prefix| - 1]) + 1
  }

  /**
   * Reference definition of the position of `offset` in `text`: the line is
   * the number of line feeds before it, the column the number of characters
   * since the last of them.
   */
  function Position(text: string, offset: nat): Coord
    requires offset <= |text|
  {
    Coord(NewlineCount(text[..offset]), ColumnOf(text[..offset]))
  }

  lemma {:induction false} LastLineStart(prefix: string)
    ensures LineStarts(prefix)[|LineStarts(prefix)| - 1] + ColumnOf(prefix) == |prefix|
    decreases |prefix|
  {
    if |prefix| > 0 {
      LastLineStart(prefix[..|prefix| - 1]);
    }
  }

  /** `LineIndex::new`: one pass over the text, pushing the offset after each line feed. */
  method Build(text: string) returns (index: LineIndex)
    ensures index.lineStarts == LineStarts(text)
    ensures IsLineTable(text, index.lineStarts)
  {
    var starts: seq<nat> := [0];
    for i := 0 to |text|
      invariant starts == LineStarts(text[..i])
    {
      assert text[..i + 1][..i] == text[..i];
      if text[i] == '\n' {
        starts := starts + [i + 1];
      }
    }
    assert text[..|text|] == text;
    LineStartsShape(text);
    index := LineIndex(starts);
  }

  /** Rust's `slice::binary_search` over the half-open window `[lo, hi)`. */
  function Search(s: seq<nat>, x: nat, lo: nat, hi: nat): (r: SearchResult)
    requires Sorted(s) && lo <= hi <= |s|
    requires forall i :: 0 <= i < lo ==> s[i] < x
    requires forall i :: hi <= i < |s| ==> x < s[i]
    ensures r.Found? ==> r.index < |s| && s[r.index] == x
    ensures r.NotFound? ==> r.insertAt <= |s|
    ensures r.NotFound? ==> forall i :: 0 <= i < r.insertAt ==> s[i] < x
    ensures r.NotFound? ==> forall i :: r.insertAt <= i < |s| ==> x < s[i]
    decreases hi - lo
  {
    if lo == hi then NotFound(lo)
    else
      var mid := lo + (hi - lo) / 2;
      if s[mid] == x then Found(mid)
      else if s[mid] < x then Search(s, x, mid + 1, hi)
      else Search(s, x, lo, mid)
  }

  function BinarySearch(s: seq<nat>, x: nat): (r: SearchResult)
    requires Sorted(s)
    ensures r.Found? ==> r.index < |s| && s[r.index] == x
    ensures r.NotFound? ==> r.insertAt <= |s|
    ensures r.NotFound? ==> forall i :: 0 <= i < r.insertAt ==> s[i] < x
    ensures r.NotFound? ==> forall i :: r.insertAt <= i < |s| ==> x < s[i]
  {
    Search(s, x, 0, |s|)
  }

  /**
   * `LineIndex::coords`: the line is the last table entry at or before
   * `offset` (found by binary search; the `NotFound` case never asks for line
   * -1 because the table starts with 0), the column the characters from that
   * line's start up to `offset`.
   */
  function Coords(index: LineIndex, offset: nat, content: string): (c: Coord)
    requires |index.lineStarts| > 0 && index.lineStarts[0] == 0 && Increasing(index.lineStarts)
    requires offset <= |content|
    ensures c.line < |index.lineStarts| && index.lineStarts[c.line] <= offset
    ensures forall i :: 0 <= i < |index.lineStarts| && index.lineStarts[i] <= offset ==> i <= c.line
    ensures c.column == offset - index.lineStarts[c.line]
  {
    var s := index.lineStarts;
    var line: nat := match BinarySearch(s, offset)
      case Found(i) => i
      case NotFound(i) => i - 1;
    Coord(line, |content[s[line]..offset]|)
  }

  /** On the table of the text itself, `Coords` agrees with the reference `Position`. */
  lemma CoordsIsPosition(text: string, offset: nat)
    requires offset <= |text|
    ensures IsLineTable(text, LineStarts(text))
    ensures Coords(LineIndex(LineStarts(text)), offset, text) == Position(text, offset)
  {
    LineStartsShape(text);
    var p := text[..offset];
    LineStartsShape(p);
    LineStartsPrefix(text, offset);
    LastLineStart(p);
    var s := LineStarts(text);
    var sp := LineStarts(p);
    var c := Coords(LineIndex(s), offset, text);
    assert s[|sp| - 1] == sp[|sp| - 1] <= offset;
    assert |sp| - 1 <= c.line;
    assert c.line < |sp|;
  }

  /** An offset at which a line starts is column 0 of that line. */
  lemma CoordsAtLineStart(text: string, i: nat)
    requires i < |LineStarts(text)|
    ensures IsLineTable(text, LineStarts(text)) && LineStarts(text)[i] <= |text|
    ensures Coords(LineIndex(LineStarts(text)), LineStarts(text)[i], text) == Coord(i, 0)
  {
    LineStartsShape(text);
  }

  /** Offset 0 is line 0, column 0. */
  lemma CoordsAtStart(text: string)
    ensures IsLineTable(text, LineStarts(text))
    ensures Coords(LineIndex(LineStarts(text)), 0, text) == Coord(0, 0)
  {
    CoordsAtLineStart(text, 0);
  }
}
