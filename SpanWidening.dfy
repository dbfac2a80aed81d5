/**
 * Widening of a parser error span to token boundaries, as `validate_toml`
 * does before it reports positions: the start walks left and the end walks
 * right until they meet a delimiter. The two delimiter sets differ.
 */
module SpanWidening {

  /**
   * Rust's `char::is_whitespace`: the characters with the Unicode White_Space
   * property.
   */
  predicate IsWhitespace(c: char): (r: bool)
    ensures c as int < 0x80 ==> (r <==> c in "\t\n\U{B}\U{C}\r ")
    ensures r ==> c as int <= 0x3000
  {
    || ('\t' <= c <= '\r')
    || c == ' '
    || c == '\U{85}'
    || c == '\U{A0}'
    || c == '\U{1680}'
    || ('\U{2000}' <= c <= '\U{200A}')
    || c == '\U{2028}'
    || c == '\U{2029}'
    || c == '\U{202F}'
    || c == '\U{205F}'
    || c == '\U{3000}'
  }

  /** A character that stops the leftward walk of the span's start when it precedes it. */
  predicate StopsBackward(c: char): (r: bool)
    ensures r <==> IsWhitespace(c) || c in "=[{,\"'"
  {
    IsWhitespace(c) || c == '=' || c == '[' || c == '{' || c == ',' || c == '"' || c == '\''
  }

  /** A character that stops the rightward walk of the span's end when it sits at it. */
  predicate StopsForward(c: char): (r: bool)
    ensures r <==> IsWhitespace(c) || c in "#]},\"'"
  {
    IsWhitespace(c) || c == '#' || c == ']' || c == '}' || c == ',' || c == '"' || c == '\''
  }

  /**
   * The two stop sets share whitespace, `,`, `"` and `'`; only the start
   * stops at `=`, `[` and `{`, only the end at `#`, `]` and `}`.
   */
  lemma StopSetsDiffer(c: char)
    ensures StopsBackward(c) && StopsForward(c) <==> IsWhitespace(c) || c in ",\"'"
    ensures StopsBackward(c) && !StopsForward(c) <==> c in "=[{"
    ensures StopsForward(c) && !StopsBackward(c) <==> c in "#]}"
  {
  }

  /** Where the leftward walk from `start` ends. */
  function WidenStart(content: string, start: nat): (r: nat)
    requires start <= |content|
    ensures r <= start
    ensures r == 0 || StopsBackward(content[r - 1])
    ensures forall k :: r <= k < start ==> !StopsBackward(content[k])
    decreases start
  {
    if start == 0 || StopsBackward(content[start - 1]) then start
    else WidenStart(content, start - 1)
  }

  /** Where the rightward walk from `end` ends. */
  function WidenEnd(content: string, end: nat): (r: nat)
    requires end <= |content|
    ensures end <= r <= |content|
    ensures r == |content| || StopsForward(content[r])
    ensures forall k :: end <= k < r ==> !StopsForward(content[k])
    decreases |content| - end
  {
    if end == |content| || StopsForward(content[end]) then end
    else WidenEnd(content, end + 1)
  }

  /** The three properties of `WidenStart` determine it. */
  lemma WidenStartUnique(content: string, start: nat, r: nat)
    requires start <= |content| && r <= start
    requires r == 0 || StopsBackward(content[r - 1])
    requires forall k :: r <= k < start ==> !StopsBackward(content[k])
    ensures r == WidenStart(content, start)
  {
  }

  /** The three properties of `WidenEnd` determine it. */
  lemma WidenEndUnique(content: string, end: nat, r: nat)
    requires end <= r <= |content|
    requires r == |content| || StopsForward(content[r])
    requires forall k :: end <= k < r ==> !StopsForward(content[k])
    ensures r == WidenEnd(content, end)
  {
  }

  /** The two loops of `validate_toml` that move the error span's offsets. */
  method WidenSpan(content: string, start: nat, end: nat) returns (newStart: nat, newEnd: nat)
    requires start <= |content| && end <= |content|
    ensures newStart == WidenStart(content, start)
    ensures newEnd == WidenEnd(content, end)
  {
    newStart := start;
    while newStart > 0
      invariant newStart <= start
      invariant WidenStart(content, newStart) == WidenStart(content, start)
    {
      var c := content[newStart - 1];
      if StopsBackward(c) {
        break;
      }
      newStart := newStart - 1;
    }
    newEnd := end;
    while newEnd < |content|
      invariant end <= newEnd <= |content|
      invariant WidenEnd(content, newEnd) == WidenEnd(content, end)
    {
      var c := content[newEnd];
      if StopsForward(c) {
        break;
      }
      newEnd := newEnd + 1;
    }
  }
}
