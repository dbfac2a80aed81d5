/**
 * `sanitize_json`: before a schema is compiled, every object member whose key
 * starts with "x-" (a vendor extension) is removed, at every depth.
 *
 * The source edits the value in place through a unique `&mut` reference, so
 * no other reference can observe the intermediate states; the model returns
 * the edited value.
 */
module JsonSanitize {

  /** A JSON value; an object is its members in order. */
  datatype Json =
    | Null
    | Bool(b: bool)
    | Number(literal: string)
    | String(s: string)
    | Array(items: seq<Json>)
    | Object(members: seq<(string, Json)>)

  /** `key.starts_with("x-")`. */
  predicate IsExtensionKey(key: string): (r: bool)
    ensures r <==> |key| >= 2 && key[0] == 'x' && key[1] == '-'
  {
    "x-" <= key
  }

  /** `retain(|key, _| !key.starts_with("x-"))` on an object's members. */
  function Kept(members: seq<(string, Json)>): (r: seq<(string, Json)>)
    ensures forall m :: m in r <==> m in members && !IsExtensionKey(m.0)
    ensures |r| <= |members|
  {
    if |members| == 0 then []
    else (if IsExtensionKey(members[0].0) then [] else [members[0]]) + Kept(members[1..])
  }

  function Keys(members: seq<(string, Json)>): (r: seq<string>)
    ensures |r| == |members|
  {
    seq(|members|, i requires 0 <= i < |members| => members[i].0)
  }

  /** The value `sanitize_json` leaves behind. */
  function Sanitize(j: Json): (r: Json)
    ensures !j.Object? && !j.Array? ==> r == j
    ensures j.Array? ==> r.Array? && |r.items| == |j.items|
    ensures j.Object? ==> r.Object? && |r.members| <= |j.members|
    decreases j
  {
    match j
    case Object(members) =>
      var kept := Kept(members);
      Object(seq(|kept|, i requires 0 <= i < |kept| =>
        assert kept[i] in members;
        (kept[i].0, Sanitize(kept[i].1))))
    case Array(items) =>
      Array(seq(|items|, i requires 0 <= i < |items| => Sanitize(items[i])))
    case _ => j
  }

  /** No object at any depth of `j` has an extension key. */
  ghost predicate Clean(j: Json)
    decreases j
  {
    match j
    case Object(members) =>
      forall i :: 0 <= i < |members| ==> !IsExtensionKey(members[i].0) && Clean(members[i].1)
    case Array(items) =>
      forall i :: 0 <= i < |items| ==> Clean(items[i])
    case _ => true
  }

  /** `retain` keeps each non-extension member as often as it occurs, and no extension member. */
  lemma {:induction false} KeptMultiplicity(members: seq<(string, Json)>, m: (string, Json))
    ensures multiset(Kept(members))[m] == if IsExtensionKey(m.0) then 0 else multiset(members)[m]
    decreases |members|
  {
    if |members| > 0 {
      assert members == [members[0]] + members[1..];
      KeptMultiplicity(members[1..], m);
    }
  }

  /** `retain` keeps the members' relative order. */
  lemma {:induction false} KeptConcat(a: seq<(string, Json)>, b: seq<(string, Json)>)
    ensures Kept(a + b) == Kept(a) + Kept(b)
    decreases |a|
  {
    if |a| > 0 {
      assert (a + b)[1..] == a[1..] + b;
      KeptConcat(a[1..], b);
    } else {
      assert a + b == b;
    }
  }

  /** `retain` keeps every member when there is nothing to remove. */
  lemma {:induction false} KeptNone(members: seq<(string, Json)>)
    requires forall i :: 0 <= i < |members| ==> !IsExtensionKey(members[i].0)
    ensures Kept(members) == members
    decreases |members|
  {
    if |members| > 0 {
      KeptNone(members[1..]);
    }
  }

  /** After sanitising, no object at any depth has a key starting with "x-". */
  lemma {:induction false} SanitizeCleans(j: Json)
    ensures Clean(Sanitize(j))
    decreases j
  {
    match j
    case Object(members) =>
      var kept := Kept(members);
      forall i | 0 <= i < |kept|
        ensures Clean(Sanitize(kept[i].1))
      {
        assert kept[i] in members;
        SanitizeCleans(kept[i].1);
      }
    case Array(items) =>
      forall i | 0 <= i < |items|
        ensures Clean(Sanitize(items[i]))
      {
        SanitizeCleans(items[i]);
      }
    case _ =>
  }

  /** A value with no extension key anywhere is left unchanged. */
  lemma {:induction false} SanitizeFixesClean(j: Json)
    requires Clean(j)
    ensures Sanitize(j) == j
    decreases j
  {
    match j
    case Object(members) =>
      KeptNone(members);
      forall i | 0 <= i < |members|
        ensures Sanitize(members[i].1) == members[i].1
      {
        SanitizeFixesClean(members[i].1);
      }
      assert Sanitize(j).members == members;
    case Array(items) =>
      forall i | 0 <= i < |items|
        ensures Sanitize(items[i]) == items[i]
      {
        SanitizeFixesClean(items[i]);
      }
      assert Sanitize(j).items == items;
    case _ =>
  }

  /** Sanitising twice is sanitising once. */
  lemma SanitizeIdempotent(j: Json)
    ensures Sanitize(Sanitize(j)) == Sanitize(j)
  {
    SanitizeCleans(j);
    SanitizeFixesClean(Sanitize(j));
  }

  /** Sanitising an object keeps exactly its non-extension keys, in their order. */
  lemma SanitizeKeys(j: Json)
    requires j.Object?
    ensures Keys(Sanitize(j).members) == Keys(Kept(j.members))
  {
  }

  /**
   * `sanitize_json`: on an object, first drop the extension members, then
   * sanitise each remaining value in turn; on an array, sanitise each element
   * in turn; leave every other value as it is.
   */
  method SanitizeJson(value: Json) returns (r: Json)
    ensures r == Sanitize(value)
    decreases value
  {
    match value
    case Object(members) =>
      var kept := Kept(members);
      var out := kept;
      for i := 0 to |kept|
        invariant |out| == |kept|
        invariant forall k :: 0 <= k < i ==> out[k] == (kept[k].0, Sanitize(kept[k].1))
        invariant forall k :: i <= k < |kept| ==> out[k] == kept[k]
      {
        assert kept[i] in members;
        var v := SanitizeJson(out[i].1);
        out := out[i := (out[i].0, v)];
      }
      r := Object(out);
    case Array(items) =>
      var out := items;
      for i := 0 to |items|
        invariant |out| == |items|
        invariant forall k :: 0 <= k < i ==> out[k] == Sanitize(items[k])
        invariant forall k :: i <= k < |items| ==> out[k] == items[k]
      {
        var v := SanitizeJson(out[i]);
        out := out[i := v];
      }
      r := Array(out);
    case _ =>
      r := value;
  }
}
