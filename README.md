# tomlkit-core validator core, modelled in Dafny

This project models the deterministic logic of `tomlkit-core`, the Rust
library that the tomlkit editor extension compiles to WebAssembly in order to
check TOML documents:

- **Line index** (`LineIndex.dfy`): `LineIndex::new` collects the offsets at
  which lines start, and `LineIndex::coords` turns an offset into a zero-based
  (line, column) pair by a binary search over that table.
- **Error-span widening** (`SpanWidening.dfy`): when the TOML parser reports a
  `[start, end)` error range, `validate_toml` widens it to token boundaries.
  The start walks left until the character before it is whitespace or one of
  `= [ { , " '`. The end walks right until the character at it is whitespace
  or one of `# ] } , " '`.
- **Result shaping** (`Validation.dfy`): `validate_toml` over an abstract parse
  outcome (`Parsed`, or `Failed` with an optional span and a message) decides
  which of `line`, `column`, `end_line`, `end_column` and `message` are present.
- **Schema sanitising** (`JsonSanitize.dfy`): `sanitize_json` removes every
  object member whose key starts with `x-`, at every depth, before a schema is
  compiled.

`Wrappers.dfy` holds the `Option` type.

Offsets are character offsets into a `seq<char>`, where the source uses UTF-8
byte offsets. With characters, the column that `coords` counts is the
difference between the offset and the line's start. `char::is_whitespace` is
modelled by the fixed list of Unicode White_Space characters.

Each loop of the source is a method proved against a specification function:
- `Build` against `LineStarts`;
- `WidenSpan` against `WidenStart` and `WidenEnd`;
- `SanitizeJson` against `Sanitize`.

The properties are proved about those functions. `Coords` is tied to an
independent reference, `Position`. On the table of the text itself, the line is
the number of line feeds before the offset. The column is the number of
characters since the last of them.

## Model

| member | source | states |
|---|---|---|
| `LineIndex.LineStarts` | tomlkit-core/src/lib.rs:107-115 | the line-start table is never empty and starts with offset 0 |
| `LineIndex.LineStartsBounded` | tomlkit-core/src/lib.rs:109-112 | every entry of the table is at most the text length |
| `LineIndex.LineStartsIncreasing` | tomlkit-core/src/lib.rs:108-113 | the table is strictly increasing |
| `LineIndex.LineStartsCount` | tomlkit-core/src/lib.rs:108-113 | the table has exactly one more entry than the text has line feeds |
| `LineIndex.LineStartsAfterNewline` | tomlkit-core/src/lib.rs:110-111 | every entry after the first is the offset just after a line feed |
| `LineIndex.LineStartsComplete` | tomlkit-core/src/lib.rs:109-112 | the offset after every line feed of the text is in the table |
| `LineIndex.LineStartsShape` | tomlkit-core/src/lib.rs:107-115 | the table meets every condition of a line-start table at once (count, first entry 0, increasing, sound, complete) |
| `LineIndex.LineStartsPrefix` | tomlkit-core/src/lib.rs:109-112 | the table of a prefix is a prefix of the table, and every later entry lies beyond the prefix |
| `LineIndex.LastLineStart` | tomlkit-core/src/lib.rs:122-123 | the last line start of a text plus the characters after its last line feed is the text length |
| `LineIndex.Build` | tomlkit-core/src/lib.rs:107-115 | the loop that pushes the offset after each line feed yields exactly `LineStarts` of the text, hence a line-start table |
| `LineIndex.Search` | tomlkit-core/src/lib.rs:118 | binary search on a sorted window: a found index holds the key; otherwise the insertion point splits smaller entries from larger ones |
| `LineIndex.BinarySearch` | tomlkit-core/src/lib.rs:118-121 | `binary_search` on a sorted table: `Found(i)` holds the key; `NotFound(i)` is the insertion point, with smaller entries before it and larger ones after |
| `LineIndex.Coords` | tomlkit-core/src/lib.rs:117-125 | the line is the greatest table index whose entry is at most the offset (the `idx - 1` branch cannot underflow because the table starts with 0); the column is the character count from that line's start to the offset |
| `LineIndex.CoordsIsPosition` | tomlkit-core/src/lib.rs:117-125 | on the table of the text itself, the line is the number of line feeds before the offset and the column is the number of characters since the last of them |
| `LineIndex.CoordsAtLineStart` | tomlkit-core/src/lib.rs:118-123 | the offset at which line `i` starts maps to line `i`, column 0 |
| `LineIndex.CoordsAtStart` | tomlkit-core/src/lib.rs:118-123 | offset 0 maps to line 0, column 0 |
| `SpanWidening.IsWhitespace` | tomlkit-core/src/lib.rs:54 | `char::is_whitespace`: among ASCII characters exactly tab, line feed, vertical tab, form feed, carriage return and space; no whitespace character lies above U+3000 |
| `SpanWidening.StopsBackward` | tomlkit-core/src/lib.rs:54-60 | the start's walk stops at whitespace and at the six characters `= [ { , " '` |
| `SpanWidening.StopsForward` | tomlkit-core/src/lib.rs:68-74 | the end's walk stops at whitespace and at the six characters `# ] } , " '` |
| `SpanWidening.StopSetsDiffer` | tomlkit-core/src/lib.rs:54-74 | the two stop sets share whitespace, `,`, `"` and `'`; only the start stops at `= [ {`, only the end at `# ] }` |
| `SpanWidening.WidenStart` | tomlkit-core/src/lib.rs:47-65 | the widened start is at most the original start; it is 0 or the character before it is whitespace or one of `= [ { , " '`; no character between it and the original start is |
| `SpanWidening.WidenEnd` | tomlkit-core/src/lib.rs:66-79 | the widened end lies between the original end and the text length; it is the text length or the character at it is whitespace or one of `# ] } , " '`; no character between the original end and it is |
| `SpanWidening.WidenStartUnique` | tomlkit-core/src/lib.rs:47-65 | any start offset with those three properties is the widened start |
| `SpanWidening.WidenEndUnique` | tomlkit-core/src/lib.rs:66-79 | any end offset with those three properties is the widened end |
| `SpanWidening.WidenSpan` | tomlkit-core/src/lib.rs:44-79 | the two `while` loops move the start and end offsets exactly to `WidenStart` and `WidenEnd` of the parser's span |
| `Validation.ValidateToml` | tomlkit-core/src/lib.rs:29-97 | `valid` holds iff the parse succeeded. On success every position and the message are absent. On a failure without a span the four positions are absent and the message is present. On a failure with a span the positions are `coords` of the widened start and end: the line feeds before each and the characters since the last one |
| `JsonSanitize.IsExtensionKey` | tomlkit-core/src/lib.rs:192 | a key is an extension key iff it has at least two characters and they are `x` and `-` |
| `JsonSanitize.Kept` | tomlkit-core/src/lib.rs:192 | `retain` keeps exactly the members whose key does not start with `x-` |
| `JsonSanitize.KeptMultiplicity` | tomlkit-core/src/lib.rs:192 | `retain` keeps each non-extension member as many times as it occurs and drops every extension member |
| `JsonSanitize.KeptConcat` | tomlkit-core/src/lib.rs:192 | `retain` keeps the relative order of the remaining members |
| `JsonSanitize.KeptNone` | tomlkit-core/src/lib.rs:192 | `retain` keeps every member of an object that has no extension key |
| `JsonSanitize.Sanitize` | tomlkit-core/src/lib.rs:188-205 | the value `sanitize_json` leaves behind: scalars are unchanged, arrays keep their length, objects stay objects with at most as many members (objects keep their non-extension members in order with each value sanitised, arrays are sanitised element by element) |
| `JsonSanitize.SanitizeCleans` | tomlkit-core/src/lib.rs:188-205 | after sanitising, no object at any depth has a key starting with `x-` |
| `JsonSanitize.SanitizeFixesClean` | tomlkit-core/src/lib.rs:188-205 | a value without extension keys anywhere is left unchanged |
| `JsonSanitize.SanitizeIdempotent` | tomlkit-core/src/lib.rs:188-205 | sanitising twice gives the same value as sanitising once |
| `JsonSanitize.SanitizeKeys` | tomlkit-core/src/lib.rs:192-196 | sanitising an object keeps exactly its non-extension keys, in their original order |
| `JsonSanitize.SanitizeJson` | tomlkit-core/src/lib.rs:188-205 | the recursive walk (drop extension members, then sanitise each remaining value or array element in turn) yields `Sanitize` of its input |

## Left out

- TOML parsing (`toml::from_str`, lib.rs:30) is abstracted as the `ParseOutcome` it returns. The error's text (`error.to_string()`) is the outcome's message. The model assumes that a reported span lies inside the text, because otherwise the slicing at lib.rs:48 (an out-of-range start) or lib.rs:123 (an out-of-range end, when `coords` runs) panics. It does not assume that start <= end, because the code does not need it.
- `validate_with_schema` (lib.rs:129-184) is not modelled. It composes foreign library calls: TOML to JSON conversion, schema parsing with a panic on malformed JSON, and valico compilation and validation. Its fixed error payloads have no logic of their own. Only its call to `sanitize_json` is modelled.
- JSON serialisation of the results (`serde_json::to_string`, the `Serialize` records at lib.rs:6-26) and the `wasm_bindgen` export glue are not modelled.
- UTF-8: offsets are character offsets, not byte offsets. Char-boundary stepping (`char_indices`, `len_utf8`) therefore becomes a step of one, and the column count of `coords` becomes an offset difference.
- Integer widths: `usize` offsets and the `as u32` casts of `coords` are modelled as `nat`. On the wasm32 target `usize` is 32 bits wide, so the casts never truncate.
- `LineIndex.BinarySearch`: Rust's `slice::binary_search` is modelled by its documented contract, as a plain bisection. Which index it returns among equal keys is unspecified, but a line table has no equal keys.
- `JsonSanitize.SanitizeJson`: the source edits the value in place through a unique `&mut` reference, and the model returns the edited value. With no aliasing the two are equivalent.
- An object is modelled as its ordered member list. The model does not assume that keys are unique or sorted, which serde_json's default map guarantees. Numbers are kept as their literal text, because the sanitiser never inspects them.
- The editor-extension side of tomlkit (schema catalog download, on-disk schema cache, glob matching, diagnostics publishing) is not part of this model. It is network, file-system and event plumbing.
