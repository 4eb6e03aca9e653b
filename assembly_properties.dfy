/** What `assemble_nested_body` does to a tree, one key at a time and for a
    whole flat body: where the value lands, what stays, when the call raises,
    when key order matters and when the flat body can be read back. */
module AssemblyProperties {
  import opened Values
  import opened KeyPath
  import opened NestedBody

  /** The lookup finds something that is not a mapping. */
  predicate NonMapping(o: Option<Value>) {
    o.Some? && !o.value.Obj?
  }

  /** Some proper, non-empty prefix of `p` leads, in `m`, to a value that is
      not a mapping: the walk would have to descend through it. */
  ghost predicate Blocked(m: Body, p: seq<string>) {
    exists i :: 1 <= i < |p| && NonMapping(Lookup(Obj(m), p[..i]))
  }

  /** The value lands at the key's own path and replaces whatever subtree was
      there: below that path the tree is the value itself. */
  lemma {:induction false} PutAtPath(m: Body, p: seq<string>, v: Value, q: seq<string>)
    requires |p| >= 1 && Put(m, p, v).Some? && p <= q
    ensures Lookup(Obj(Put(m, p, v).value), q) == Lookup(v, q[|p|..])
    decreases |p|
  {
    var m' := Put(m, p, v).value;
    var a := p[0];
    assert q != [] && q[0] == a;
    LookupStep(m', q);
    if |p| == 1 {
      assert m'[a] == v;
      assert q[|p|..] == q[1..];
    } else {
      var c := Descend(m, a).value;
      var c' := Put(c, p[1..], v).value;
      assert m'[a] == Obj(c');
      assert p[1..] <= q[1..];
      PutAtPath(c, p[1..], v, q[1..]);
      assert q[|p|..] == q[1..][|p| - 1..];
    }
  }

  /** Every proper prefix of the key's path holds a mapping afterwards: the
      n-1 mappings the key descended through, created or reused. */
  lemma {:induction false} PutPrefixIsMapping(m: Body, p: seq<string>, v: Value, q: seq<string>)
    requires |p| >= 1 && Put(m, p, v).Some? && q < p
    ensures Lookup(Obj(Put(m, p, v).value), q).Some?
    ensures Lookup(Obj(Put(m, p, v).value), q).value.Obj?
    decreases |p|
  {
    if q != [] {
      var m' := Put(m, p, v).value;
      var c := Descend(m, p[0]).value;
      var c' := Put(c, p[1..], v).value;
      assert m'[p[0]] == Obj(c');
      assert q[0] == p[0] && q[1..] < p[1..];
      LookupStep(m', q);
      PutPrefixIsMapping(c, p[1..], v, q[1..]);
    }
  }

  /** Every path that parts ways with the key's path is untouched, so siblings
      under a shared prefix survive. */
  lemma {:induction false} PutFrame(m: Body, p: seq<string>, v: Value, q: seq<string>)
    requires |p| >= 1 && Put(m, p, v).Some? && Diverge(p, q)
    ensures Lookup(Obj(Put(m, p, v).value), q) == Lookup(Obj(m), q)
    decreases |p|
  {
    var m' := Put(m, p, v).value;
    assert q != [];
    LookupStep(m', q);
    LookupStep(m, q);
    if q[0] == p[0] {
      assert |p| > 1;
      var c := Descend(m, p[0]).value;
      var c' := Put(c, p[1..], v).value;
      assert m'[p[0]] == Obj(c');
      assert p == [p[0]] + p[1..] && q == [q[0]] + q[1..];
      assert Diverge(p[1..], q[1..]);
      PutFrame(c, p[1..], v, q[1..]);
      assert q[1..] != [];
      LookupStep(c, q[1..]);
      LookupStep(c', q[1..]);
    } else {
      assert m' == m[p[0] := m'[p[0]]];
    }
  }

  /** The call raises exactly when a key has to descend through a value that
      is not a mapping; a missing segment is created instead. */
  lemma {:induction false} PutFailsIffBlocked(m: Body, p: seq<string>, v: Value)
    requires |p| >= 1
    ensures Put(m, p, v).None? <==> Blocked(m, p)
    decreases |p|
  {
    if |p| > 1 {
      var a := p[0];
      assert p[..1] == [a];
      if a in m && !m[a].Obj? {
        assert NonMapping(Lookup(Obj(m), p[..1]));
      } else {
        var c := Descend(m, a).value;
        PutFailsIffBlocked(c, p[1..], v);
        forall i | 2 <= i <= |p|
          ensures p[..i][1..] == p[1..][..i - 1]
        {
        }
        if a in m {
          assert m[a] == Obj(c);
          if Blocked(m, p) {
            var i :| 1 <= i < |p| && NonMapping(Lookup(Obj(m), p[..i]));
            assert Lookup(Obj(m), p[..1]) == Some(Obj(c));
            assert i >= 2;
            assert Lookup(Obj(m), p[..i]) == Lookup(Obj(c), p[1..][..i - 1]);
          }
          if Blocked(c, p[1..]) {
            var i :| 1 <= i < |p[1..]| && NonMapping(Lookup(Obj(c), p[1..][..i]));
            assert Lookup(Obj(m), p[..i + 1]) == Lookup(Obj(c), p[1..][..i]);
          }
        } else {
          assert c == map[];
        }
      }
    }
  }

  /** A key without `_` becomes a top-level entry holding its value unchanged,
      whatever the tree held under that name. */
  lemma PutSingleSegment(m: Body, key: string, v: Value)
    requires Sep !in key
    ensures Step(Some(m), (key, v)) == Some(m[key := v])
  {
    SplitNoSep(key);
  }

  /** A later key whose path is a proper prefix of an earlier key's path
      silently replaces the subtree the earlier key built: the result is as
      if the earlier key had never been there. */
  lemma {:induction false} LaterPrefixReplaces(m: Body, p1: seq<string>, v1: Value, p2: seq<string>, v2: Value)
    requires |p2| >= 1 && p2 < p1
    requires Put(m, p1, v1).Some?
    ensures Put(Put(m, p1, v1).value, p2, v2) == Put(m, p2, v2)
    decreases |p2|
  {
    var a := p1[0];
    assert p2[0] == a;
    var m1 := Put(m, p1, v1).value;
    var c := Descend(m, a).value;
    var c1 := Put(c, p1[1..], v1).value;
    assert m1 == m[a := Obj(c1)];
    if |p2| == 1 {
      assert m1[a := v2] == m[a := v2];
    } else {
      assert p2[1..] < p1[1..];
      LaterPrefixReplaces(c, p1[1..], v1, p2[1..], v2);
      assert Descend(m1, a) == Some(c1);
      match Put(c, p2[1..], v2)
      case None =>
      case Some(c2) =>
        assert Put(m1, p2, v2) == Some(m1[a := Obj(c2)]);
        assert Put(m, p2, v2) == Some(m[a := Obj(c2)]);
        assert m1[a := Obj(c2)] == m[a := Obj(c2)];
    }
  }

  /** `Put` reads and writes only the entry named by the path's first
      segment: setting another top-level entry first changes nothing else. */
  lemma PutOtherEntry(m: Body, a: string, x: Value, p: seq<string>, v: Value)
    requires |p| >= 1 && a != p[0]
    ensures Put(m[a := x], p, v) ==
      match Put(m, p, v) case None => None case Some(m') => Some(m'[a := x])
  {
    assert Descend(m[a := x], p[0]) == Descend(m, p[0]);
    if |p| == 1 {
      assert m[a := x][p[0] := v] == m[p[0] := v][a := x];
    } else {
      match Descend(m, p[0])
      case None =>
      case Some(c) =>
        match Put(c, p[1..], v)
        case None =>
        case Some(c') =>
          assert m[a := x][p[0] := Obj(c')] == m[p[0] := Obj(c')][a := x];
    }
  }

  /** Two keys whose paths part ways can be processed in either order, with
      the same tree or the same failure. */
  lemma {:induction false} PutCommutes(m: Body, p1: seq<string>, v1: Value, p2: seq<string>, v2: Value)
    requires |p1| >= 1 && |p2| >= 1 && Diverge(p1, p2)
    ensures Then(Put(m, p1, v1), p2, v2) == Then(Put(m, p2, v2), p1, v1)
    decreases |p1|, 1
  {
    if p1[0] != p2[0] {
      PutCommutesOtherHead(m, p1, v1, p2, v2);
    } else {
      PutCommutesSameHead(m, p1, v1, p2, v2);
    }
  }

  /** `Put` changes at most the top-level entry its path starts with. */
  lemma PutHeadOnly(m: Body, p: seq<string>, v: Value)
    requires |p| >= 1 && Put(m, p, v).Some?
    ensures p[0] in Put(m, p, v).value
    ensures Put(m, p, v).value == m[p[0] := Put(m, p, v).value[p[0]]]
  {
  }

  /** The case of `PutCommutes` where the paths start with different segments:
      each key rewrites only its own top-level entry. */
  lemma PutCommutesOtherHead(m: Body, p1: seq<string>, v1: Value, p2: seq<string>, v2: Value)
    requires |p1| >= 1 && |p2| >= 1 && p1[0] != p2[0]
    ensures Then(Put(m, p1, v1), p2, v2) == Then(Put(m, p2, v2), p1, v1)
  {
    var a, b := p1[0], p2[0];
    var o1, o2 := Put(m, p1, v1), Put(m, p2, v2);
    if o1.Some? {
      PutHeadOnly(m, p1, v1);
      PutOtherEntry(m, a, o1.value[a], p2, v2);
    }
    if o2.Some? {
      PutHeadOnly(m, p2, v2);
      PutOtherEntry(m, b, o2.value[b], p1, v1);
    }
    if o1.Some? && o2.Some? {
      var x, y := o1.value[a], o2.value[b];
      assert m[b := y][a := x] == m[a := x][b := y];
    }
  }

  /** Two keys with the same first segment `a`, processed in turn, act on the
      mapping under `a` and nowhere else. */
  lemma ThenSameHead(m: Body, c: Body, p1: seq<string>, v1: Value, p2: seq<string>, v2: Value)
    requires |p1| > 1 && |p2| > 1 && p1[0] == p2[0] && Descend(m, p1[0]) == Some(c)
    ensures Then(Put(m, p1, v1), p2, v2) ==
      match Then(Put(c, p1[1..], v1), p2[1..], v2)
      case None => None
      case Some(x) => Some(m[p1[0] := Obj(x)])
  {
    var a := p1[0];
    match Put(c, p1[1..], v1)
    case None =>
    case Some(c1) =>
      assert Put(m, p1, v1) == Some(m[a := Obj(c1)]);
      assert Descend(m[a := Obj(c1)], a) == Some(c1);
      match Put(c1, p2[1..], v2)
      case None =>
      case Some(x) =>
        assert m[a := Obj(c1)][a := Obj(x)] == m[a := Obj(x)];
  }

  /** The case of `PutCommutes` where both paths start with the same segment:
      both descend into the same mapping and commute there. */
  lemma {:induction false} PutCommutesSameHead(m: Body, p1: seq<string>, v1: Value, p2: seq<string>, v2: Value)
    requires |p1| >= 1 && |p2| >= 1 && Diverge(p1, p2) && p1[0] == p2[0]
    ensures Then(Put(m, p1, v1), p2, v2) == Then(Put(m, p2, v2), p1, v1)
    decreases |p1|, 0
  {
    var a := p1[0];
    assert |p1| > 1 && |p2| > 1;
    assert p1 == [a] + p1[1..] && p2 == [a] + p2[1..];
    assert Diverge(p1[1..], p2[1..]);
    match Descend(m, a)
    case None =>
    case Some(c) =>
      PutCommutes(c, p1[1..], v1, p2[1..], v2);
      ThenSameHead(m, c, p1, v1, p2, v2);
      ThenSameHead(m, c, p2, v2, p1, v1);
  }
}
