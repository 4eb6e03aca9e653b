/** `assemble_nested_body`: a flat dict whose keys are `_`-separated paths
    becomes a nested dict. The three tool files carry identical copies; this
    module models them once. */
module NestedBody {
  import opened Values
  import opened KeyPath

  /** `d.setdefault(seg, {})` seen from the cursor: the mapping the cursor moves
      to, a fresh empty one when `seg` is absent, and `None` when `seg` holds a
      value that is not a mapping (the next `setdefault` or the final
      assignment on it raises). */
  function Descend(d: Body, seg: string): Option<Body> {
    if seg !in d then Some(map[])
    else match d[seg]
      case Obj(c) => Some(c)
      case _ => None
  }

  /** Where the cursor `d` stands after descending through `path` from `m`. */
  function Walk(m: Body, path: seq<string>): Option<Body>
    decreases |path|
  {
    if path == [] then Some(m)
    else match Descend(m, path[0])
      case None => None
      case Some(c) => Walk(c, path[1..])
  }

  /** `m` with the mapping at `path` replaced by `sub`, creating the mappings
      along `path` that are missing: what writing through the cursor does to
      the root when mappings are values. */
  function Graft(m: Body, path: seq<string>, sub: Body): Body
    decreases |path|
  {
    if path == [] then sub
    else
      var c := if path[0] in m && m[path[0]].Obj? then m[path[0]].fields else map[];
      m[path[0] := Obj(Graft(c, path[1..], sub))]
  }

  /** One iteration of the outer loop: the key's segments `parts` are walked,
      creating or reusing a mapping for each of the first n-1, and `v` is
      assigned at the last. `None` when the walk meets a non-mapping. */
  function Put(m: Body, parts: seq<string>, v: Value): Option<Body>
    requires |parts| >= 1
    decreases |parts|
  {
    if |parts| == 1 then Some(m[parts[0] := v])
    else match Descend(m, parts[0])
      case None => None
      case Some(c) =>
        match Put(c, parts[1..], v)
        case None => None
        case Some(c') => Some(m[parts[0] := Obj(c')])
  }

  function Then(o: Option<Body>, parts: seq<string>, v: Value): Option<Body>
    requires |parts| >= 1
  {
    match o
    case None => None
    case Some(m) => Put(m, parts, v)
  }

  /** Processing one `(key, value)` item. */
  function Step(o: Option<Body>, item: (string, Value)): Option<Body> {
    Then(o, Split(item.0), item.1)
  }

  /** Processing the remaining items in order, from the tree built so far. */
  function Fold(o: Option<Body>, items: FlatBody): Option<Body>
    decreases |items|
  {
    if items == [] then o else Fold(Step(o, items[0]), items[1..])
  }

  /** What `assemble_nested_body(flat)` returns; `None` when it raises. */
  function Assemble(flat: FlatBody): Option<Body> {
    Fold(Some(map[]), flat)
  }

  /** Once a step has failed, the call has raised: nothing later recovers. */
  lemma {:induction false} FoldNone(items: FlatBody)
    ensures Fold(None, items) == None
    decreases |items|
  {
    if items != [] {
      FoldNone(items[1..]);
    }
  }

  /** Walking `p + q` is walking `p`, then `q` from where the cursor stands. */
  lemma {:induction false} WalkAppend(m: Body, p: seq<string>, q: seq<string>)
    ensures Walk(m, p + q) == match Walk(m, p) case None => None case Some(d) => Walk(d, q)
    decreases |p|
  {
    if p != [] {
      assert (p + q)[0] == p[0] && (p + q)[1..] == p[1..] + q;
      match Descend(m, p[0])
      case None =>
      case Some(c) => WalkAppend(c, p[1..], q);
    } else {
      assert p + q == q;
    }
  }

  /** The cursor loop and the recursive `Put` agree: `Put` fails exactly when
      the walk over the first n-1 segments fails, and otherwise assigns `v`
      in the mapping the walk reaches. */
  lemma {:induction false} PutByCursor(m: Body, parts: seq<string>, v: Value)
    requires |parts| >= 1
    ensures var n := |parts|;
      Put(m, parts, v) ==
        match Walk(m, parts[..n - 1])
        case None => None
        case Some(d) => Some(Graft(m, parts[..n - 1], d[parts[n - 1] := v]))
    decreases |parts|
  {
    var n := |parts|;
    if n > 1 {
      assert parts[..n - 1][0] == parts[0];
      assert parts[..n - 1][1..] == parts[1..][..n - 2];
      match Descend(m, parts[0])
      case None =>
      case Some(c) =>
        PutByCursor(c, parts[1..], v);
    }
  }

  /** The loop of `assemble_nested_body`: for each item in order, split the
      key, walk the cursor `d` down the first n-1 segments (setdefault), and
      assign the value at the last. Returns `None` where Python raises. */
  method AssembleNestedBody(flatBody: FlatBody) returns (r: Option<Body>)
    ensures r == Assemble(flatBody)
  {
    var nested: Body := map[];
    var k := 0;
    while k < |flatBody|
      invariant 0 <= k <= |flatBody|
      invariant Fold(Some(nested), flatBody[k..]) == Assemble(flatBody)
    {
      var (key, value) := flatBody[k];
      var parts := Split(key);
      var n := |parts|;
      var d := nested;
      var i := 0;
      while i < n - 1
        invariant 0 <= i <= n - 1
        invariant Walk(nested, parts[..i]) == Some(d)
      {
        var part := parts[i];
        WalkAppend(nested, parts[..i], [part]);
        assert parts[..i] + [part] == parts[..i + 1];
        if part in d && !d[part].Obj? {
          // `d` is about to become a non-mapping: the call raises
          assert Walk(nested, parts[..i + 1]) == None;
          WalkAppend(nested, parts[..i + 1], parts[i + 1..n - 1]);
          assert parts[..i + 1] + parts[i + 1..n - 1] == parts[..n - 1];
          PutByCursor(nested, parts, value);
          assert flatBody[k..] == [flatBody[k]] + flatBody[k + 1..];
          FoldNone(flatBody[k + 1..]);
          return None;
        }
        d := if part in d then d[part].fields else map[];
        i := i + 1;
      }
      PutByCursor(nested, parts, value);
      nested := Graft(nested, parts[..n - 1], d[parts[n - 1] := value]);
      assert flatBody[k..] == [flatBody[k]] + flatBody[k + 1..];
      k := k + 1;
    }
    r := Some(nested);
  }
}
