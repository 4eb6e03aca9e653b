/** Field paths: the `_`-separated keys of a flat request body and
    Python's `str.split("_")` on them. */
module KeyPath {

  const Sep: char := '_'

  /** The segments joined back with `_` (the inverse of `Split`). */
  function Join(parts: seq<string>): (s: string)
    requires |parts| >= 1
    decreases |parts|
  {
    if |parts| == 1 then parts[0] else parts[0] + [Sep] + Join(parts[1..])
  }

  /** `s.split("_")`: always at least one segment, empty segments kept,
      no segment contains `_`, and joining the segments gives back `s`. */
  function Split(s: string): (parts: seq<string>)
    ensures |parts| >= 1
    ensures forall i :: 0 <= i < |parts| ==> Sep !in parts[i]
    ensures Join(parts) == s
    decreases |s|
  {
    if |s| == 0 then [""]
    else if s[0] == Sep then
      var rest := Split(s[1..]);
      assert s == [Sep] + s[1..];
      [""] + rest
    else
      var rest := Split(s[1..]);
      var parts := [[s[0]] + rest[0]] + rest[1..];
      assert parts[1..] == rest[1..];
      assert s == [s[0]] + s[1..];
      parts
  }

  /** A key without `_` is a single segment, itself. */
  lemma {:induction false} SplitNoSep(a: string)
    requires Sep !in a
    ensures Split(a) == [a]
    decreases |a|
  {
    if |a| > 0 {
      SplitNoSep(a[1..]);
      assert [a[0]] + a[1..] == a;
    }
  }

  /** Splitting stops at the first `_`. */
  lemma {:induction false} SplitAtSep(a: string, b: string)
    requires Sep !in a
    ensures Split(a + [Sep] + b) == [a] + Split(b)
    decreases |a|
  {
    var s := a + [Sep] + b;
    if |a| == 0 {
      assert s[0] == Sep && s[1..] == b;
    } else {
      assert s[0] == a[0] && s[1..] == a[1..] + [Sep] + b;
      SplitAtSep(a[1..], b);
      assert [a[0]] + a[1..] == a;
    }
  }

  /** Joining segments free of `_` and splitting again gives the segments back,
      empty ones included. */
  lemma {:induction false} SplitJoin(parts: seq<string>)
    requires |parts| >= 1
    requires forall i :: 0 <= i < |parts| ==> Sep !in parts[i]
    ensures Split(Join(parts)) == parts
    decreases |parts|
  {
    if |parts| == 1 {
      SplitNoSep(parts[0]);
    } else {
      SplitJoin(parts[1..]);
      SplitAtSep(parts[0], Join(parts[1..]));
      assert [parts[0]] + parts[1..] == parts;
    }
  }

  /** `"a__b"` and `"a_"` put the empty string into the path as a real segment;
      the empty key is one empty segment. */
  lemma SplitExamples()
    ensures Split("a__b") == ["a", "", "b"]
    ensures Split("a_") == ["a", ""]
    ensures Split("_") == ["", ""]
    ensures Split("") == [""]
  {
    SplitJoin(["a", "", "b"]);
    assert Join(["a", "", "b"]) == "a__b";
    SplitJoin(["a", ""]);
    assert Join(["a", ""]) == "a_";
    SplitJoin(["", ""]);
    assert Join(["", ""]) == "_";
  }
}
