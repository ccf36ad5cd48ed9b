/** The recursive merge of configuration documents. */
module ConfigMerge {
  import opened Sequences
  import opened Values

  /** `b` laid over `a`: two mappings merge key by key, anything else in `b` wins. */
  function Merge(a: Value, b: Value): Value
    decreases b
  {
    if a.Dict? && b.Dict? then
      Dict(map k | k in a.entries.Keys + b.entries.Keys ::
             if k !in b.entries then a.entries[k]
             else if k !in a.entries then b.entries[k]
             else Merge(a.entries[k], b.entries[k]))
    else b
  }

  /** The merge, key by key of `b`, into a copy of `a`. */
  method DeepMerge(a: Dictionary, b: Dictionary) returns (out: Dictionary)
    ensures Dict(out) == Merge(Dict(a), Dict(b))
    decreases Dict(b)
  {
    out := a;
    var todo := b.Keys;
    while todo != {}
      invariant todo <= b.Keys && out.Keys == a.Keys + (b.Keys - todo)
      invariant forall k :: k in out.Keys ==>
        out[k] == if k !in b || k in todo then (if k in a then a[k] else out[k])
                  else if k in a then Merge(a[k], b[k]) else b[k]
      decreases todo
    {
      var k :| k in todo;
      assert Dict(b).entries[k] == b[k];
      if b[k].Dict? && k in out && out[k].Dict? {
        var merged := DeepMerge(out[k].entries, b[k].entries);
        out := out[k := Dict(merged)];
      } else {
        out := out[k := b[k]];
      }
      todo := todo - {k};
    }
  }

  /** What stands at a path of keys, if the path leads anywhere. */
  ghost function At(v: Value, path: seq<string>): Option<Value> {
    if path == [] then Some(v)
    else if v.Dict? && path[0] in v.entries then At(v.entries[path[0]], path[1..])
    else None
  }

  /** On the way along the path `b` has something that is no mapping. */
  ghost predicate Blocks(b: Value, path: seq<string>) {
    path != [] && (!b.Dict? || (path[0] in b.entries && Blocks(b.entries[path[0]], path[1..])))
  }

  ghost predicate IsMapping(v: Option<Value>) {
    v.Some? && v.value.Dict?
  }

  lemma {:induction false} BlockedLeadsNowhere(b: Value, path: seq<string>)
    ensures Blocks(b, path) ==> At(b, path) == None
    decreases |path|
  {
    if path != [] && b.Dict? && path[0] in b.entries {
      BlockedLeadsNowhere(b.entries[path[0]], path[1..]);
    }
  }

  /**
   Main result, path by path and at any depth: `b` decides every path it has and every
   path it cuts off; all other paths lead where they lead in `a`. Where both have a
   mapping the result has one.
   */
  lemma {:induction false} MergeAt(a: Value, b: Value, path: seq<string>)
    ensures var v := At(Merge(a, b), path);
      if Blocks(b, path) then v == None
      else if At(b, path) == None then v == At(a, path)
      else if IsMapping(At(a, path)) && IsMapping(At(b, path)) then
        IsMapping(v) && v.value.entries.Keys == At(a, path).value.entries.Keys + At(b, path).value.entries.Keys
      else v == At(b, path)
    decreases |path|
  {
    BlockedLeadsNowhere(b, path);
    if path != [] && a.Dict? && b.Dict? && path[0] in a.entries && path[0] in b.entries {
      MergeAt(a.entries[path[0]], b.entries[path[0]], path[1..]);
    }
  }

  lemma EmptyIsIdentity(a: Dictionary)
    ensures Merge(Dict(a), Dict(map[])) == Dict(a)
    ensures Merge(Dict(map[]), Dict(a)) == Dict(a)
  {
    assert Merge(Dict(a), Dict(map[])).entries == a;
    assert Merge(Dict(map[]), Dict(a)).entries == a;
  }

  /** The paths of `a` are all decided by `b`: laying `b` over it leaves nothing of `a`. */
  predicate Covers(b: Value, a: Value)
    decreases a
  {
    a.Dict? && b.Dict? ==>
      forall k :: k in a.entries.Keys ==> k in b.entries && Covers(b.entries[k], a.entries[k])
  }

  lemma {:induction false} MergeIsRightExactly(a: Value, b: Value)
    ensures Merge(a, b) == b <==> Covers(b, a)
    decreases a
  {
    if a.Dict? && b.Dict? {
      var m := Merge(a, b).entries;
      forall k | k in a.entries && k in b.entries
        ensures m[k] == b.entries[k] <==> Covers(b.entries[k], a.entries[k])
      {
        MergeIsRightExactly(a.entries[k], b.entries[k]);
      }
      if Covers(b, a) {
        assert m == b.entries;
      }
      if Merge(a, b) == b {
        forall k | k in a.entries ensures k in b.entries {
          assert k in m;
        }
      }
    }
  }

  /** Laying the same document over again changes nothing. */
  lemma {:induction false} MergeAbsorbs(a: Value, b: Value)
    ensures Merge(Merge(a, b), b) == Merge(a, b)
    decreases b
  {
    if b.Dict? {
      var once := Merge(a, b).entries;
      forall k | k in b.entries && k in once
        ensures Merge(once[k], b.entries[k]) == once[k]
      {
        MergeAbsorbs(if a.Dict? && k in a.entries then a.entries[k] else b.entries[k], b.entries[k]);
        MergeSelf(b.entries[k]);
      }
      assert Merge(Dict(once), b).entries == once;
    }
  }

  lemma {:induction false} MergeSelf(a: Value)
    ensures Merge(a, a) == a
    decreases a
  {
    if a.Dict? {
      forall k | k in a.entries ensures Merge(a.entries[k], a.entries[k]) == a.entries[k] {
        MergeSelf(a.entries[k]);
      }
      assert Merge(a, a).entries == a.entries;
    }
  }

  /**
   Merging in either order agrees here: wherever a mapping of `a` meets a leaf of `b`
   and then a mapping of `c`, the mapping of `c` decides all that of `a`.
   */
  predicate Associates(a: Value, b: Value, c: Value)
    decreases c
  {
    c.Dict? && a.Dict? ==>
      if b.Dict? then
        forall k :: k in c.entries.Keys && k in b.entries && k in a.entries ==>
          Associates(a.entries[k], b.entries[k], c.entries[k])
      else Covers(c, a)
  }

  /** Main result: the merge is associative exactly where `Associates` says. */
  lemma {:induction false} AssociativeExactly(a: Value, b: Value, c: Value)
    ensures Merge(Merge(a, b), c) == Merge(a, Merge(b, c)) <==> Associates(a, b, c)
    decreases c
  {
    if c.Dict? && a.Dict? {
      if b.Dict? {
        AssociativeDicts(a, b, c);
      } else {
        MergeIsRightExactly(a, c);
      }
    }
  }

  lemma {:induction false} AssociativeDicts(a: Value, b: Value, c: Value)
    requires a.Dict? && b.Dict? && c.Dict?
    ensures Merge(Merge(a, b), c) == Merge(a, Merge(b, c)) <==> Associates(a, b, c)
    decreases c, 0
  {
    var left, right := Merge(Merge(a, b), c).entries, Merge(a, Merge(b, c)).entries;
    assert left.Keys == right.Keys;
    forall k | k in left
      ensures left[k] == right[k] <==>
        (k in a.entries && k in b.entries && k in c.entries ==>
           Associates(a.entries[k], b.entries[k], c.entries[k]))
    {
      if k in a.entries && k in b.entries && k in c.entries {
        AssociativeExactly(a.entries[k], b.entries[k], c.entries[k]);
      }
    }
    if Associates(a, b, c) {
      assert left == right;
    }
  }

  /** Where the three documents agree on what is a mapping, the merge is associative. */
  predicate Agree(a: Value, b: Value)
    decreases a
  {
    a.Dict? == b.Dict? &&
    (a.Dict? ==> forall k :: k in a.entries.Keys && k in b.entries ==> Agree(a.entries[k], b.entries[k]))
  }

  lemma {:induction false} AgreeingTreesAssociate(a: Value, b: Value, c: Value)
    requires Agree(a, b)
    ensures Associates(a, b, c)
    ensures Merge(Merge(a, b), c) == Merge(a, Merge(b, c))
    decreases c
  {
    if c.Dict? && a.Dict? {
      forall k | k in c.entries && k in b.entries && k in a.entries
        ensures Associates(a.entries[k], b.entries[k], c.entries[k])
      {
        AgreeingTreesAssociate(a.entries[k], b.entries[k], c.entries[k]);
      }
    }
    AssociativeExactly(a, b, c);
  }

  /** A mapping, then a leaf, then a mapping: the two orders differ. */
  lemma NotAssociative()
    ensures var a := Dict(map["x" := Dict(map["p" := Num(1.0)])]);
      var b := Dict(map["x" := Null]);
      var c := Dict(map["x" := Dict(map["q" := Num(2.0)])]);
      Merge(Merge(a, b), c) != Merge(a, Merge(b, c))
  {
    var a := Dict(map["x" := Dict(map["p" := Num(1.0)])]);
    var b := Dict(map["x" := Null]);
    var c := Dict(map["x" := Dict(map["q" := Num(2.0)])]);
    assert !Covers(c.entries["x"], a.entries["x"]) by {
      assert "p" in a.entries["x"].entries && "p" !in c.entries["x"].entries;
    }
    assert !Associates(a, b, c);
    AssociativeExactly(a, b, c);
  }
}
