/** Properties of a whole call of `assemble_nested_body`: what the result
    holds, when it cannot fail, when key order does not matter, and worked
    examples of the order-dependent cases. */
module AssemblyLaws {
  import opened Values
  import opened KeyPath
  import opened NestedBody
  import opened AssemblyProperties

  /** The two items' segment lists part ways. */
  predicate Apart(x: (string, Value), y: (string, Value)) {
    Diverge(Split(x.0), Split(y.0))
  }

  /** No key's segment list is a prefix of another's (equal lists included). */
  predicate PrefixFree(flat: FlatBody) {
    forall i, j {:trigger Apart(flat[i], flat[j])} ::
      0 <= i < |flat| && 0 <= j < |flat| && i != j ==> Apart(flat[i], flat[j])
  }

  /** Item `item` accounts for finding `w` at path `q` of the tree: `q` lies on
      the way to the item's path and holds a mapping, or `q` lies at or below
      the item's path and `w` is the item's value or a part of it. */
  predicate Accounts(item: (string, Value), q: seq<string>, w: Value) {
    var p := Split(item.0);
    (q < p && w.Obj?) || (p <= q && Lookup(item.1, q[|p|..]) == Some(w))
  }

  /** Something is found at the non-empty path `q` below the root of `m`. */
  predicate Present(m: Body, q: seq<string>) {
    |q| >= 1 && Lookup(Obj(m), q).Some?
  }

  /** One of the first `n` items accounts for what `m` holds at `q`. */
  ghost predicate AccountedAt(m: Body, flat: FlatBody, n: int, q: seq<string>)
    requires 0 <= n <= |flat| && Present(m, q)
  {
    exists i :: 0 <= i < n && Accounts(flat[i], q, Lookup(Obj(m), q).value)
  }

  /** Everything found below the root of `m` is accounted for by one of the
      first `n` items. */
  ghost predicate AllAccounted(m: Body, flat: FlatBody, n: int)
    requires 0 <= n <= |flat|
  {
    forall q {:trigger Present(m, q)} :: Present(m, q) ==> AccountedAt(m, flat, n, q)
  }

  /** The item's value sits at its key's path in `m`. */
  predicate PlacedAt(m: Body, item: (string, Value)) {
    Lookup(Obj(m), Split(item.0)) == Some(item.1)
  }

  /** Each of the first `n` items' values sits at its key's path in `m`. */
  predicate AllPlaced(m: Body, flat: FlatBody, n: int)
    requires 0 <= n <= |flat|
  {
    forall i {:trigger PlacedAt(m, flat[i])} :: 0 <= i < n ==> PlacedAt(m, flat[i])
  }

  lemma FoldUnfold(o: Option<Body>, flat: FlatBody, k: int)
    requires 0 <= k < |flat|
    ensures Fold(o, flat[k..]) == Fold(Step(o, flat[k]), flat[k + 1..])
  {
    assert flat[k..][0] == flat[k] && flat[k..][1..] == flat[k + 1..];
  }

  /** One more item keeps everything in the tree accounted for. */
  lemma AccountedStep(m: Body, flat: FlatBody, k: int)
    requires 0 <= k < |flat| && AllAccounted(m, flat, k)
    requires Step(Some(m), flat[k]).Some?
    ensures AllAccounted(Step(Some(m), flat[k]).value, flat, k + 1)
  {
    var p, v := Split(flat[k].0), flat[k].1;
    var m' := Put(m, p, v).value;
    assert m' == Step(Some(m), flat[k]).value;
    forall q | Present(m', q)
      ensures AccountedAt(m', flat, k + 1, q)
    {
      var w := Lookup(Obj(m'), q).value;
      if p <= q {
        PutAtPath(m, p, v, q);
        assert Accounts(flat[k], q, w);
      } else if q < p {
        PutPrefixIsMapping(m, p, v, q);
        assert Accounts(flat[k], q, w);
      } else {
        PutFrame(m, p, v, q);
        assert Present(m, q);
        var i :| 0 <= i < k && Accounts(flat[i], q, w);
        assert Accounts(flat[i], q, w);
      }
    }
  }

  lemma {:induction false} FoldAccounted(m: Body, flat: FlatBody, k: int)
    requires 0 <= k <= |flat| && AllAccounted(m, flat, k)
    ensures Fold(Some(m), flat[k..]).Some? ==> AllAccounted(Fold(Some(m), flat[k..]).value, flat, |flat|)
    decreases |flat| - k
  {
    if k < |flat| {
      FoldUnfold(Some(m), flat, k);
      match Step(Some(m), flat[k])
      case None =>
        FoldNone(flat[k + 1..]);
      case Some(m') =>
        AccountedStep(m, flat, k);
        FoldAccounted(m', flat, k + 1);
    } else {
      assert flat[k..] == [];
    }
  }

  /** Nothing extra: every path present in the result is accounted for by an
      input item, so every leaf is an input value (or part of one) and every
      inner mapping lies on the way to some key's path. */
  lemma AssembleProvenance(flat: FlatBody)
    requires Assemble(flat).Some?
    ensures AllAccounted(Assemble(flat).value, flat, |flat|)
  {
    assert flat[0..] == flat;
    FoldAccounted(map[], flat, 0);
  }

  /** Every top-level key of the result is the first segment of some input key. */
  lemma TopLevelKeys(flat: FlatBody)
    requires Assemble(flat).Some?
    ensures forall k :: k in Assemble(flat).value ==>
      exists i :: 0 <= i < |flat| && Split(flat[i].0)[0] == k
  {
    var t := Assemble(flat).value;
    AssembleProvenance(flat);
    forall k | k in t
      ensures exists i :: 0 <= i < |flat| && Split(flat[i].0)[0] == k
    {
      assert Lookup(Obj(t), [k]) == Some(t[k]);
      assert Present(t, [k]);
      var i :| 0 <= i < |flat| && Accounts(flat[i], [k], t[k]);
      assert Split(flat[i].0)[0] == k;
    }
  }

  /** With prefix-free keys the next item never meets a non-mapping on its way:
      whatever lies on a proper prefix of its path was put there on the way to
      another key's path, hence is a mapping. */
  lemma PrefixFreeNotBlocked(m: Body, flat: FlatBody, k: int)
    requires PrefixFree(flat) && 0 <= k < |flat| && AllAccounted(m, flat, k)
    ensures !Blocked(m, Split(flat[k].0))
  {
    var p := Split(flat[k].0);
    forall i | 1 <= i < |p|
      ensures !NonMapping(Lookup(Obj(m), p[..i]))
    {
      var q := p[..i];
      if Present(m, q) {
        var j :| 0 <= j < k && Accounts(flat[j], q, Lookup(Obj(m), q).value);
        assert Apart(flat[j], flat[k]);
      }
    }
  }

  /** One more item, when it does not raise, keeps every earlier prefix-free
      item's value in place and puts its own at its path. */
  lemma PlacedStep(m: Body, flat: FlatBody, k: int)
    requires PrefixFree(flat) && 0 <= k < |flat| && AllPlaced(m, flat, k)
    requires Step(Some(m), flat[k]).Some?
    ensures AllPlaced(Step(Some(m), flat[k]).value, flat, k + 1)
  {
    var p, v := Split(flat[k].0), flat[k].1;
    var m' := Put(m, p, v).value;
    assert m' == Step(Some(m), flat[k]).value;
    forall i | 0 <= i < k + 1
      ensures PlacedAt(m', flat[i])
    {
      if i == k {
        PutAtPath(m, p, v, p);
        assert p[|p|..] == [];
      } else {
        assert Apart(flat[k], flat[i]);
        PutFrame(m, p, v, Split(flat[i].0));
        assert PlacedAt(m, flat[i]);
      }
    }
  }

  lemma {:induction false} FoldPrefixFree(m: Body, flat: FlatBody, k: int)
    requires PrefixFree(flat) && 0 <= k <= |flat|
    requires AllAccounted(m, flat, k) && AllPlaced(m, flat, k)
    ensures Fold(Some(m), flat[k..]).Some?
    ensures AllPlaced(Fold(Some(m), flat[k..]).value, flat, |flat|)
    decreases |flat| - k
  {
    if k < |flat| {
      var p, v := Split(flat[k].0), flat[k].1;
      FoldUnfold(Some(m), flat, k);
      PrefixFreeNotBlocked(m, flat, k);
      PutFailsIffBlocked(m, p, v);
      var m' := Put(m, p, v).value;
      assert Step(Some(m), flat[k]) == Some(m');
      PlacedStep(m, flat, k);
      AccountedStep(m, flat, k);
      FoldPrefixFree(m', flat, k + 1);
    } else {
      assert flat[k..] == [];
    }
  }

  /** When no key's segment list is a prefix of another's, assembly never
      fails and every value sits at its key's path. */
  lemma AssemblePrefixFree(flat: FlatBody)
    requires PrefixFree(flat)
    ensures Assemble(flat).Some?
    ensures forall i :: 0 <= i < |flat| ==> Lookup(Obj(Assemble(flat).value), Split(flat[i].0)) == Some(flat[i].1)
  {
    assert flat[0..] == flat;
    FoldPrefixFree(map[], flat, 0);
    var t := Assemble(flat).value;
    forall i | 0 <= i < |flat|
      ensures Lookup(Obj(t), Split(flat[i].0)) == Some(flat[i].1)
    {
      assert PlacedAt(t, flat[i]);
    }
  }

  /** Re-flattening: with prefix-free keys and values that are not mappings,
      the leaves of the result are exactly the input items, and joining a
      leaf's path with `_` gives back its key. */
  lemma ReflattenRecoversInput(flat: FlatBody)
    requires PrefixFree(flat)
    requires forall i :: 0 <= i < |flat| ==> !flat[i].1.Obj?
    ensures Assemble(flat).Some?
    ensures forall i :: 0 <= i < |flat| ==> Lookup(Obj(Assemble(flat).value), Split(flat[i].0)) == Some(flat[i].1)
    ensures forall q :: |q| >= 1 && NonMapping(Lookup(Obj(Assemble(flat).value), q)) ==>
      exists i :: 0 <= i < |flat| && Join(q) == flat[i].0 && Lookup(Obj(Assemble(flat).value), q) == Some(flat[i].1)
  {
    AssemblePrefixFree(flat);
    AssembleProvenance(flat);
    var t := Assemble(flat).value;
    forall q | |q| >= 1 && NonMapping(Lookup(Obj(t), q))
      ensures exists i :: 0 <= i < |flat| && Join(q) == flat[i].0 && Lookup(Obj(t), q) == Some(flat[i].1)
    {
      var w := Lookup(Obj(t), q).value;
      assert Present(t, q);
      var i :| 0 <= i < |flat| && Accounts(flat[i], q, w);
      var p := Split(flat[i].0);
      assert p <= q && Lookup(flat[i].1, q[|p|..]) == Some(w);
      assert q[|p|..] == [];
      assert q == p;
    }
  }

  /** Processing order of two items whose paths part ways does not matter. */
  lemma StepCommutes(o: Option<Body>, x: (string, Value), y: (string, Value))
    requires Apart(x, y)
    ensures Step(Step(o, x), y) == Step(Step(o, y), x)
  {
    if o.Some? {
      PutCommutes(o.value, Split(x.0), x.1, Split(y.0), y.1);
    }
  }

  /** An item can be moved to the front past items whose paths part ways with its own. */
  lemma {:induction false} MoveToFront(o: Option<Body>, items: FlatBody, j: int)
    requires 0 <= j < |items|
    requires forall i :: 0 <= i < j ==> Apart(items[i], items[j])
    ensures Fold(o, items) == Fold(Step(o, items[j]), items[..j] + items[j + 1..])
    decreases j
  {
    if j == 0 {
      assert items[..0] + items[1..] == items[1..];
    } else {
      var tail := items[1..];
      assert tail[j - 1] == items[j];
      MoveToFront(Step(o, items[0]), tail, j - 1);
      StepCommutes(o, items[0], items[j]);
      var rest := tail[..j - 1] + tail[j..];
      assert ([items[0]] + rest)[1..] == rest;
      assert [items[0]] + rest == items[..j] + items[j + 1..];
    }
  }

  lemma PrefixFreeWithout(a: FlatBody, j: int)
    requires PrefixFree(a) && 0 <= j < |a|
    ensures PrefixFree(a[..j] + a[j + 1..])
  {
    var r := a[..j] + a[j + 1..];
    forall i, i' | 0 <= i < |r| && 0 <= i' < |r| && i != i'
      ensures Apart(r[i], r[i'])
    {
      var ai := if i < j then i else i + 1;
      var ai' := if i' < j then i' else i' + 1;
      assert r[i] == a[ai] && r[i'] == a[ai'];
      assert Apart(a[ai], a[ai']);
    }
  }

  lemma MultisetWithout(a: FlatBody, j: int, b: FlatBody)
    requires 0 <= j < |a| && |b| > 0 && a[j] == b[0] && multiset(a) == multiset(b)
    ensures multiset(a[..j] + a[j + 1..]) == multiset(b[1..])
  {
    assert a == a[..j] + [a[j]] + a[j + 1..];
    assert multiset(a) == multiset(a[..j]) + multiset{a[j]} + multiset(a[j + 1..]);
    assert multiset(a[..j] + a[j + 1..]) == multiset(a[..j]) + multiset(a[j + 1..]);
    assert b == [b[0]] + b[1..];
    assert multiset(b) == multiset{b[0]} + multiset(b[1..]);
    assert multiset(b[1..]) == multiset(b) - multiset{b[0]};
    assert multiset(a[..j] + a[j + 1..]) == multiset(a) - multiset{a[j]};
  }

  lemma {:induction false} FoldOrderIrrelevant(o: Option<Body>, a: FlatBody, b: FlatBody)
    requires PrefixFree(a) && multiset(a) == multiset(b)
    ensures Fold(o, a) == Fold(o, b)
    decreases |a|
  {
    if a == [] {
      assert |b| == |multiset(b)| == 0;
    } else {
      assert |b| == |multiset(b)| == |multiset(a)| == |a|;
      var x := b[0];
      assert x in multiset(a);
      var j :| 0 <= j < |a| && a[j] == x;
      MoveToFront(o, a, j);
      var rest := a[..j] + a[j + 1..];
      MultisetWithout(a, j, b);
      PrefixFreeWithout(a, j);
      FoldOrderIrrelevant(Step(o, x), rest, b[1..]);
    }
  }

  /** With prefix-free keys, key order does not affect the result. */
  lemma AssembleOrderIrrelevant(a: FlatBody, b: FlatBody)
    requires PrefixFree(a) && multiset(a) == multiset(b)
    ensures Assemble(a) == Assemble(b)
  {
    FoldOrderIrrelevant(Some(map[]), a, b);
  }

  /** An empty flat body gives an empty mapping. */
  lemma AssembleEmpty()
    ensures Assemble([]) == Some(map[])
  {
  }

  /** `{"a_b": 1, "a": 2}` gives `{"a": 2}`: the later, shorter key silently
      replaces the subtree the earlier one built. */
  lemma OverwriteExample()
    ensures Assemble([("a_b", Int(1)), ("a", Int(2))]) == Some(map["a" := Int(2)])
  {
    SplitJoin(["a", "b"]);
    assert Join(["a", "b"]) == "a_b";
    SplitNoSep("a");
    var first := Put(map[], ["a", "b"], Int(1));
    assert first == Some(map["a" := Obj(map["b" := Int(1)])]);
    LaterPrefixReplaces(map[], ["a", "b"], Int(1), ["a"], Int(2));
  }

  /** `{"a": 2, "a_b": 1}` raises: `"a_b"` has to descend through the integer
      at `"a"`. */
  lemma ConflictExample()
    ensures Assemble([("a", Int(2)), ("a_b", Int(1))]) == None
  {
    SplitJoin(["a", "b"]);
    assert Join(["a", "b"]) == "a_b";
    SplitNoSep("a");
    var m := map["a" := Int(2)];
    assert Descend(m, "a") == None;
    assert Put(m, ["a", "b"], Int(1)) == None;
  }

  lemma Fold3(o: Option<Body>, x: (string, Value), y: (string, Value), z: (string, Value))
    ensures Fold(o, [x, y, z]) == Step(Step(Step(o, x), y), z)
  {
    var flat := [x, y, z];
    assert flat[1..] == [y, z] && [y, z][1..] == [z] && [z][1..] == [];
    assert Fold(o, flat) == Fold(Step(o, x), [y, z]);
    assert Fold(Step(o, x), [y, z]) == Fold(Step(Step(o, x), y), [z]);
    assert Fold(Step(Step(o, x), y), [z]) == Fold(Step(Step(Step(o, x), y), z), []);
  }

  /** Keys sharing a leading segment become siblings under one shared
      mapping: the second key reuses the mapping the first one created or
      found, instead of replacing it. */
  lemma SharedPrefixSiblings(m: Body, a: string, b1: string, v1: Value, b2: string, v2: Value)
    requires Sep !in a && Sep !in b1 && Sep !in b2 && b1 != b2
    requires Descend(m, a).Some?
    ensures Step(Step(Some(m), (a + [Sep] + b1, v1)), (a + [Sep] + b2, v2))
         == Some(m[a := Obj(Descend(m, a).value[b1 := v1][b2 := v2])])
  {
    var c := Descend(m, a).value;
    TwoSegmentStep(m, a, b1, v1);
    var m1 := m[a := Obj(c[b1 := v1])];
    assert Descend(m1, a) == Some(c[b1 := v1]);
    TwoSegmentStep(m1, a, b2, v2);
    assert m1[a := Obj(c[b1 := v1][b2 := v2])] == m[a := Obj(c[b1 := v1][b2 := v2])];
  }

  /** The shape of a custom-event body such as `{"eventType": ..,
      "scope_clusters": .., "scope_namespaces": ..}`: the one-segment key `e`
      stays at the top level and the keys `s_c`, `s_n` become siblings `c`,
      `n` of one mapping under `s`. */
  lemma SiblingsExample(e: string, s: string, c: string, n: string, v1: Value, v2: Value, v3: Value)
    requires Sep !in e && Sep !in s && Sep !in c && Sep !in n
    requires e != s && c != n
    ensures Assemble([(e, v1), (s + [Sep] + c, v2), (s + [Sep] + n, v3)])
         == Some(map[e := v1, s := Obj(map[c := v2, n := v3])])
  {
    var x, y, z := (e, v1), (s + [Sep] + c, v2), (s + [Sep] + n, v3);
    Fold3(Some(map[]), x, y, z);
    PutSingleSegment(map[], e, v1);
    var m1 := map[e := v1];
    assert Descend(m1, s) == Some(map[]);
    SharedPrefixSiblings(m1, s, c, v2, n, v3);
    var scope: Body := map[c := v2, n := v3];
    assert map[][c := v2][n := v3] == scope;
  }

  lemma TwoSegmentStep(m: Body, a: string, b: string, v: Value)
    requires Sep !in a && Sep !in b
    ensures Step(Some(m), (a + [Sep] + b, v)) ==
      match Descend(m, a) case None => None case Some(c) => Some(m[a := Obj(c[b := v])])
  {
    assert [a, b][1..] == [b];
    assert Join([a, b]) == a + [Sep] + b;
    SplitJoin([a, b]);
    assert Split(a + [Sep] + b) == [a, b];
    assert [a, b][1..] == [b];
    match Descend(m, a)
    case None =>
    case Some(c) =>
      assert Put(c, [b], v) == Some(c[b := v]);
  }
}
