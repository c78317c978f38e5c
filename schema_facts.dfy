/**
 * What a successful derivation guarantees about its bindings: each one is
 * the field found at its index path below the root, with the codec the
 * registry gives its type and the (source, name) pairs its tags resolve to;
 * the index paths address disjoint slots; and no (source, name) pair is
 * shared by two bindings.
 */
module SchemaFacts {
  import opened Wrappers
  import opened Reflection
  import opened Types
  import opened Schema

  /** A struct reached by the walk, with the naming context its fields get. */
  datatype Place = Place(ty: Ty, context: string)

  /**
   * The struct the walk reaches by following `path` from `root`: each step
   * goes into a field with a non-empty converted name whose type is an
   * unregistered struct, keeping the context for an embedded or inline field
   * and extending it with the field's name otherwise.
   */
  function Descend(cfg: Config, root: Ty, path: seq<nat>): Option<Place>
    decreases |path|
  {
    if path == [] then Some(Place(root, ""))
    else match Descend(cfg, root, path[..|path| - 1])
      case None => None
      case Some(p) =>
        var i := path[|path| - 1];
        if p.ty.Struct? && i < |p.ty.fields| then
          var f := p.ty.fields[i];
          var name := cfg.conv(f.name);
          if name != "" && Lookup(cfg.reg, f.ty).None? && f.ty.Struct? then
            Some(Place(f.ty, if f.anonymous || Options(cfg, f).inline then p.context else NewContext(p.context, name)))
          else None
        else None
  }

  ghost predicate NodeOk(cfg: Config, root: Ty, n: Node) {
    n.ty.Struct? && Descend(cfg, root, n.path) == Some(Place(n.ty, n.context))
  }

  /**
   * `b` is what parse records for field `i` of the struct reached at `P`,
   * where `b.path == P + [i]`: the declared field, a non-empty converted
   * name, the codec lookup, non-empty whitelisted sources, and per source
   * its own tag value or else the first source's name, which defaults to
   * the context joined with the field name.
   */
  ghost predicate BindingOk(cfg: Config, root: Ty, b: Binding) {
    |b.path| >= 1 &&
    var P := b.path[..|b.path| - 1];
    var i := b.path[|b.path| - 1];
    match Descend(cfg, root, P)
    case None => false
    case Some(p) =>
      p.ty.Struct? && i < |p.ty.fields| && b.field == p.ty.fields[i] &&
      var name := cfg.conv(b.field.name);
      var opts := Options(cfg, b.field);
      name != "" && Lookup(cfg.reg, b.field.ty) == Some((b.isSlice, b.codec)) &&
      |opts.sources| > 0 && SourcesValid(cfg.validSources, opts.sources) &&
      |b.sources| == |opts.sources| &&
      forall k :: 0 <= k < |b.sources| ==>
        b.sources[k] == FieldSource(opts.sources[k], ResolvedName(b.field.tag, NewContext(p.context, name), opts.sources, k))
  }

  ghost predicate AllBindingsOk(cfg: Config, root: Ty, bs: Schema) {
    forall a :: 0 <= a < |bs| ==> BindingOk(cfg, root, bs[a])
  }

  ghost predicate AllNodesOk(cfg: Config, root: Ty, q: seq<Node>) {
    forall k :: 0 <= k < |q| ==> NodeOk(cfg, root, q[k])
  }

  predicate BindingsDisjoint(bs: Schema) {
    forall a, b :: 0 <= a < b < |bs| ==> Independent(bs[a].path, bs[b].path)
  }

  /** The paths of recorded bindings and queued nodes address pairwise disjoint slots. */
  predicate PathsDisjoint(bs: Schema, q: seq<Node>) {
    BindingsDisjoint(bs) &&
    (forall a, b :: 0 <= a < b < |q| ==> Independent(q[a].path, q[b].path)) &&
    (forall a, b :: 0 <= a < |bs| && 0 <= b < |q| ==> Independent(bs[a].path, q[b].path))
  }

  /** No (source, name) pair belongs to two different bindings. */
  predicate PairsDistinct(bs: Schema) {
    forall a, b, x, y :: 0 <= a < b < |bs| && 0 <= x < |bs[a].sources| && 0 <= y < |bs[b].sources| ==>
      bs[a].sources[x] != bs[b].sources[y]
  }

  /** What every successfully derived schema of `root` satisfies. */
  ghost predicate SchemaInvariant(cfg: Config, root: Ty, bs: Schema) {
    AllBindingsOk(cfg, root, bs) && BindingsDisjoint(bs) && PairsDistinct(bs)
  }

  ghost predicate WalkInv(cfg: Config, root: Ty, q: seq<Node>, bs: Schema) {
    AllNodesOk(cfg, root, q) && AllBindingsOk(cfg, root, bs) && PathsDisjoint(bs, q) && PairsDistinct(bs)
  }

  /** A path recorded while fields `..i` of the node at `P` were processed. */
  predicate PathOk(P: seq<nat>, i: nat, r: seq<nat>) {
    Independent(r, P) || (IsPrefix(P, r) && |r| == |P| + 1 && r[|P|] < i)
  }

  ghost predicate FieldsInv(cfg: Config, root: Ty, n: Node, i: nat, q: seq<Node>, bs: Schema) {
    NodeOk(cfg, root, n) && WalkInv(cfg, root, q, bs) &&
    (forall k :: 0 <= k < |q| ==> PathOk(n.path, i, q[k].path)) &&
    (forall a :: 0 <= a < |bs| ==> PathOk(n.path, i, bs[a].path))
  }

  lemma PrefixTrans(a: seq<nat>, b: seq<nat>, c: seq<nat>)
    ensures IsPrefix(a, b) && IsPrefix(b, c) ==> IsPrefix(a, c)
  {
    if IsPrefix(a, b) && IsPrefix(b, c) {
      assert c[..|a|] == c[..|b|][..|a|];
    }
  }

  lemma PrefixOfExtension(r: seq<nat>, P: seq<nat>, i: nat)
    ensures IsPrefix(r, P + [i]) ==> IsPrefix(r, P) || r == P + [i]
  {
    if |r| <= |P| {
      assert (P + [i])[..|r|] == P[..|r|];
    }
  }

  lemma SameLengthPrefix(a: seq<nat>, b: seq<nat>)
    ensures |a| == |b| && IsPrefix(a, b) ==> a == b
  {
  }

  /** The path of field `i` is disjoint from every path recorded before it. */
  lemma NewPathIndependent(P: seq<nat>, i: nat, r: seq<nat>)
    requires PathOk(P, i, r)
    ensures Independent(r, P + [i]) && Independent(P + [i], r)
  {
    var Q := P + [i];
    assert IsPrefix(P, Q);
    PrefixTrans(P, Q, r);
    PrefixOfExtension(r, P, i);
    SameLengthPrefix(Q, r);
    SameLengthPrefix(r, Q);
  }

  lemma IndependentSymmetric(p: seq<nat>, q: seq<nat>)
    ensures Independent(p, q) <==> Independent(q, p)
  {
  }

  /** Field `i` of the node reached at `n.path` is reached at `n.path + [i]`. */
  lemma DescendChild(cfg: Config, root: Ty, n: Node, i: nat)
    requires NodeOk(cfg, root, n) && i < |n.ty.fields|
    ensures Descend(cfg, root, n.path + [i]) ==
      var f := n.ty.fields[i];
      var name := cfg.conv(f.name);
      if name != "" && Lookup(cfg.reg, f.ty).None? && f.ty.Struct? then
        Some(Place(f.ty, if f.anonymous || Options(cfg, f).inline then n.context else NewContext(n.context, name)))
      else None
  {
    assert (n.path + [i])[..|n.path|] == n.path;
  }

  /** Skipping field `i` keeps the invariant. */
  lemma SkipSound(cfg: Config, root: Ty, n: Node, i: nat, q: seq<Node>, bs: Schema)
    requires FieldsInv(cfg, root, n, i, q, bs)
    ensures FieldsInv(cfg, root, n, i + 1, q, bs)
  {
  }

  /** Queueing the struct of field `i` keeps the invariant. */
  lemma QueueSound(cfg: Config, root: Ty, n: Node, i: nat, q: seq<Node>, bs: Schema, child: Node)
    requires FieldsInv(cfg, root, n, i, q, bs) && i < |n.ty.fields|
    requires child.path == n.path + [i] && child.ty.Struct?
    requires Descend(cfg, root, child.path) == Some(Place(child.ty, child.context))
    ensures FieldsInv(cfg, root, n, i + 1, q + [child], bs)
  {
    var q1 := q + [child];
    DisjointAppendNode(n.path, i, q, bs, child);
    forall k | 0 <= k < |q1| ensures NodeOk(cfg, root, q1[k]) {
      if k < |q| { assert q1[k] == q[k]; }
    }
  }

  lemma DisjointAppendNode(P: seq<nat>, i: nat, q: seq<Node>, bs: Schema, child: Node)
    requires PathsDisjoint(bs, q) && child.path == P + [i]
    requires forall k :: 0 <= k < |q| ==> PathOk(P, i, q[k].path)
    requires forall a :: 0 <= a < |bs| ==> PathOk(P, i, bs[a].path)
    ensures PathsDisjoint(bs, q + [child])
    ensures forall k :: 0 <= k < |q + [child]| ==> PathOk(P, i + 1, (q + [child])[k].path)
  {
    var q1 := q + [child];
    forall k | 0 <= k < |q| ensures Independent(q[k].path, child.path) {
      NewPathIndependent(P, i, q[k].path);
    }
    forall a | 0 <= a < |bs| ensures Independent(bs[a].path, child.path) {
      NewPathIndependent(P, i, bs[a].path);
    }
    assert forall k :: 0 <= k < |q| ==> q1[k] == q[k];
    assert (P + [i])[..|P|] == P;
    assert PathOk(P, i + 1, child.path);
  }

  lemma BindingsOkAppend(cfg: Config, root: Ty, bs: Schema, b: Binding)
    requires AllBindingsOk(cfg, root, bs) && BindingOk(cfg, root, b)
    ensures AllBindingsOk(cfg, root, bs + [b])
  {
    var bs1 := bs + [b];
    forall a | 0 <= a < |bs1| ensures BindingOk(cfg, root, bs1[a]) {
      if a < |bs| { assert bs1[a] == bs[a]; }
    }
  }

  lemma PairsDistinctAppend(bs: Schema, b: Binding)
    requires PairsDistinct(bs)
    requires forall y :: 0 <= y < |b.sources| ==> !SourceExists(bs, b.sources[y])
    ensures PairsDistinct(bs + [b])
  {
    var bs1 := bs + [b];
    forall a, c, x, y | 0 <= a < c < |bs1| && 0 <= x < |bs1[a].sources| && 0 <= y < |bs1[c].sources|
      ensures bs1[a].sources[x] != bs1[c].sources[y]
    {
      assert bs1[a] == bs[a];
      if c == |bs| {
        assert !SourceExists(bs, b.sources[y]);
      } else {
        assert bs1[c] == bs[c];
      }
    }
  }

  lemma DisjointAppendBinding(P: seq<nat>, i: nat, q: seq<Node>, bs: Schema, b: Binding)
    requires PathsDisjoint(bs, q) && b.path == P + [i]
    requires forall k :: 0 <= k < |q| ==> PathOk(P, i, q[k].path)
    requires forall a :: 0 <= a < |bs| ==> PathOk(P, i, bs[a].path)
    ensures PathsDisjoint(bs + [b], q)
    ensures forall a :: 0 <= a < |bs + [b]| ==> PathOk(P, i + 1, (bs + [b])[a].path)
  {
    var bs1 := bs + [b];
    forall k | 0 <= k < |q| ensures Independent(b.path, q[k].path) {
      NewPathIndependent(P, i, q[k].path);
    }
    forall a | 0 <= a < |bs| ensures Independent(bs[a].path, b.path) {
      NewPathIndependent(P, i, bs[a].path);
    }
    assert forall a :: 0 <= a < |bs| ==> bs1[a] == bs[a];
    assert (P + [i])[..|P|] == P;
    assert PathOk(P, i + 1, b.path);
  }

  /** Recording the binding of field `i` keeps the invariant. */
  lemma RecordSound(cfg: Config, root: Ty, n: Node, i: nat, q: seq<Node>, bs: Schema, b: Binding)
    requires FieldsInv(cfg, root, n, i, q, bs)
    requires b.path == n.path + [i] && BindingOk(cfg, root, b)
    requires forall y :: 0 <= y < |b.sources| ==> !SourceExists(bs, b.sources[y])
    ensures FieldsInv(cfg, root, n, i + 1, q, bs + [b])
  {
    BindingsOkAppend(cfg, root, bs, b);
    PairsDistinctAppend(bs, b);
    DisjointAppendBinding(n.path, i, q, bs, b);
  }

  /** The binding recorded for field `i` of a reached node is the one its tags describe. */
  lemma NewBindingOk(cfg: Config, root: Ty, n: Node, i: nat, bs: Schema, fss: seq<FieldSource>, isSlice: bool, codec: Codec)
    requires NodeOk(cfg, root, n) && i < |n.ty.fields|
    requires
      var f := n.ty.fields[i];
      var name := cfg.conv(f.name);
      var opts := Options(cfg, f);
      name != "" && Lookup(cfg.reg, f.ty) == Some((isSlice, codec)) &&
      |opts.sources| > 0 && SourcesValid(cfg.validSources, opts.sources) &&
      ResolveSources(f.tag, NewContext(n.context, name), opts.sources, bs) == Ok(fss)
    ensures BindingOk(cfg, root, Binding(fss, n.ty.fields[i], n.path + [i], isSlice, codec))
    ensures forall y :: 0 <= y < |fss| ==> !SourceExists(bs, fss[y])
  {
    assert (n.path + [i])[..|n.path|] == n.path;
  }

  /** Processing one field keeps the invariant and moves its position on. */
  lemma StepFieldSound(cfg: Config, root: Ty, n: Node, i: nat, q: seq<Node>, bs: Schema)
    requires n.ty.Struct? && i < |n.ty.fields| && AllStruct(q)
    requires FieldsInv(cfg, root, n, i, q, bs)
    ensures StepField(cfg, n, i, q, bs).Ok? ==>
      FieldsInv(cfg, root, n, i + 1, StepField(cfg, n, i, q, bs).value.0, StepField(cfg, n, i, q, bs).value.1)
  {
    var f := n.ty.fields[i];
    var name := cfg.conv(f.name);
    var opts := Options(cfg, f);
    if name == "" {
      SkipSound(cfg, root, n, i, q, bs);
    } else {
      match Lookup(cfg.reg, f.ty)
      case None =>
        if f.ty.Struct? {
          var ctx := if f.anonymous || opts.inline then n.context else NewContext(n.context, name);
          DescendChild(cfg, root, n, i);
          QueueSound(cfg, root, n, i, q, bs, Node(f.ty, n.path + [i], ctx));
        } else {
          SkipSound(cfg, root, n, i, q, bs);
        }
      case Some((isSlice, codec)) =>
        if |opts.sources| == 0 {
          SkipSound(cfg, root, n, i, q, bs);
        } else if SourcesValid(cfg.validSources, opts.sources) {
          var rs := ResolveSources(f.tag, NewContext(n.context, name), opts.sources, bs);
          if rs.Ok? {
            NewBindingOk(cfg, root, n, i, bs, rs.value, isSlice, codec);
            RecordSound(cfg, root, n, i, q, bs, Binding(rs.value, f, n.path + [i], isSlice, codec));
          }
        }
    }
  }

  /** Processing the remaining fields of a node keeps the invariant to the end of the node. */
  lemma {:induction false} StepFieldsSound(cfg: Config, root: Ty, n: Node, i: nat, q: seq<Node>, bs: Schema)
    requires n.ty.Struct? && i <= |n.ty.fields| && AllStruct(q)
    requires FieldsInv(cfg, root, n, i, q, bs)
    ensures StepFields(cfg, n, i, q, bs).Ok? ==>
      WalkInv(cfg, root, StepFields(cfg, n, i, q, bs).value.0, StepFields(cfg, n, i, q, bs).value.1)
    decreases |n.ty.fields| - i
  {
    if i < |n.ty.fields| {
      var r := StepField(cfg, n, i, q, bs);
      StepFieldSound(cfg, root, n, i, q, bs);
      if r.Ok? {
        StepFieldsSound(cfg, root, n, i + 1, r.value.0, r.value.1);
      }
    }
  }

  /** Dequeueing the first node: every other recorded path is disjoint from it. */
  lemma DequeueSound(cfg: Config, root: Ty, q: seq<Node>, bs: Schema)
    requires q != [] && WalkInv(cfg, root, q, bs)
    ensures FieldsInv(cfg, root, q[0], 0, q[1..], bs)
  {
    var P := q[0].path;
    forall k | 0 <= k < |q[1..]| ensures PathOk(P, 0, q[1..][k].path) {
      assert q[1..][k] == q[k + 1];
      IndependentSymmetric(q[0].path, q[k + 1].path);
    }
    assert PathsDisjoint(bs, q[1..]) by {
      forall a, b | 0 <= a < b < |q[1..]| ensures Independent(q[1..][a].path, q[1..][b].path) {
        assert q[1..][a] == q[a + 1] && q[1..][b] == q[b + 1];
      }
      forall a, b | 0 <= a < |bs| && 0 <= b < |q[1..]| ensures Independent(bs[a].path, q[1..][b].path) {
        assert q[1..][b] == q[b + 1];
      }
    }
    forall a | 0 <= a < |bs| ensures PathOk(P, 0, bs[a].path) {
      assert Independent(bs[a].path, q[0].path);
    }
  }

  lemma {:induction false} WalkSound(cfg: Config, root: Ty, q: seq<Node>, bs: Schema)
    requires AllStruct(q) && WalkInv(cfg, root, q, bs)
    ensures Walk(cfg, q, bs).Ok? ==> SchemaInvariant(cfg, root, Walk(cfg, q, bs).value)
    decreases Measure(q)
  {
    if q != [] {
      MeasureFront(q);
      assert q[0].ty.fields[0..] == q[0].ty.fields;
      DequeueSound(cfg, root, q, bs);
      var r := StepFields(cfg, q[0], 0, q[1..], bs);
      StepFieldsSound(cfg, root, q[0], 0, q[1..], bs);
      if r.Ok? {
        WalkSound(cfg, root, r.value.0, r.value.1);
      }
    }
  }

  /** Every schema parse derives satisfies the schema invariant. */
  lemma DeriveSound(cfg: Config, root: Ty)
    requires root.Struct?
    ensures DeriveSchema(cfg, root).Ok? ==> SchemaInvariant(cfg, root, DeriveSchema(cfg, root).value)
  {
    var n := Node(root, [], "");
    assert NodeOk(cfg, root, n);
    WalkSound(cfg, root, [n], []);
  }

  /**
   * What one field step does, case by case: a field whose converted name
   * is empty is skipped; a field of an unregistered struct type is queued
   * whatever its tag says; any other field the registry does not cover is
   * an error exactly when its tag names sources; a codec field without
   * sources is skipped; a codec field with sources fails on a source
   * outside the whitelist and otherwise records one binding, unless a
   * resolved pair is already taken.
   */
  lemma StepFieldCases(cfg: Config, n: Node, i: nat, q: seq<Node>, bs: Schema)
    requires n.ty.Struct? && i < |n.ty.fields| && AllStruct(q)
    ensures var f := n.ty.fields[i];
      var r := StepField(cfg, n, i, q, bs);
      var named := cfg.conv(f.name) != "";
      var opts := Options(cfg, f);
      (!named ==> r == Ok((q, bs))) &&
      (named && Lookup(cfg.reg, f.ty) == None && f.ty.Struct? ==>
        r.Ok? && r.value.1 == bs && |r.value.0| == |q| + 1 && r.value.0[..|q|] == q &&
        r.value.0[|q|].ty == f.ty && r.value.0[|q|].path == n.path + [i]) &&
      (named && Lookup(cfg.reg, f.ty) == None && !f.ty.Struct? ==>
        (r.Err? <==> |opts.sources| > 0) && (r.Err? ==> r.error == UnsupportedFieldType(f.name)) && (r.Ok? ==> r.value == (q, bs))) &&
      (named && Lookup(cfg.reg, f.ty).Some? && |opts.sources| == 0 ==> r == Ok((q, bs))) &&
      (named && Lookup(cfg.reg, f.ty).Some? && |opts.sources| > 0 ==>
        (!SourcesValid(cfg.validSources, opts.sources) ==> r == Err(InvalidSource(f.name))) &&
        (r.Ok? ==>
           r.value.0 == q && |r.value.1| == |bs| + 1 && r.value.1[..|bs|] == bs &&
           r.value.1[|bs|].field == f && r.value.1[|bs|].path == n.path + [i] &&
           (r.value.1[|bs|].isSlice, r.value.1[|bs|].codec) == Lookup(cfg.reg, f.ty).value))
  {
    var f := n.ty.fields[i];
    var r := StepField(cfg, n, i, q, bs);
    if cfg.conv(f.name) != "" && r.Ok? {
      if Lookup(cfg.reg, f.ty) == None && f.ty.Struct? {
        assert (q + [r.value.0[|q|]])[..|q|] == q;
      } else if Lookup(cfg.reg, f.ty).Some? && |Options(cfg, f).sources| > 0 {
        assert (bs + [r.value.1[|bs|]])[..|bs|] == bs;
      }
    }
  }
}
