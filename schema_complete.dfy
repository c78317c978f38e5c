/**
 * What a successful derivation does not miss: every field of every struct
 * the walk can reach that has a non-empty converted name, a codec and
 * sources gets a binding at its index path. With the soundness facts this
 * says that parse binds exactly those fields.
 */
module SchemaComplete {
  import opened Wrappers
  import opened Reflection
  import opened Types
  import opened Schema
  import opened SchemaFacts

  /** Parse binds this field: a non-empty converted name, a codec, and sources in its tag. */
  predicate Bound(cfg: Config, f: Field) {
    cfg.conv(f.name) != "" && Lookup(cfg.reg, f.ty).Some? && |Options(cfg, f).sources| > 0
  }

  /** Parse queues this field's struct: a non-empty converted name and an unregistered struct type. */
  predicate Nested(cfg: Config, f: Field) {
    cfg.conv(f.name) != "" && Lookup(cfg.reg, f.ty).None? && f.ty.Struct?
  }

  /** Some recorded binding is field `f` at `path`. */
  predicate Recorded(bs: Schema, path: seq<nat>, f: Field) {
    exists a :: 0 <= a < |bs| && bs[a].path == path && bs[a].field == f
  }

  /** Some queued node sits at `path`. */
  predicate Queued(q: seq<Node>, path: seq<nat>) {
    exists k :: 0 <= k < |q| && q[k].path == path
  }

  /** Some queued node lies on the way to `P`, so the walk has yet to reach it. */
  predicate Pending(q: seq<Node>, P: seq<nat>) {
    exists k :: 0 <= k < |q| && IsPrefix(q[k].path, P)
  }

  /** Every bound field of the struct `t` at `P` has its binding in `bs`. */
  predicate FieldsRecorded(cfg: Config, bs: Schema, P: seq<nat>, t: Ty) {
    t.Struct? ==> forall i :: 0 <= i < |t.fields| && Bound(cfg, t.fields[i]) ==> Recorded(bs, P + [i], t.fields[i])
  }

  /** The walk's completeness invariant: each reachable struct is still pending or has all its bound fields recorded. */
  ghost predicate Covered(cfg: Config, root: Ty, q: seq<Node>, bs: Schema) {
    forall P :: Descend(cfg, root, P).Some? ==> Pending(q, P) || FieldsRecorded(cfg, bs, P, Descend(cfg, root, P).value.ty)
  }

  /** Every struct on the way to a reachable struct is reachable. */
  lemma {:induction false} DescendPrefix(cfg: Config, root: Ty, P: seq<nat>, m: nat)
    requires m <= |P| && Descend(cfg, root, P).Some?
    ensures Descend(cfg, root, P[..m]).Some?
    decreases |P|
  {
    if m < |P| {
      var P0 := P[..|P| - 1];
      assert P0[..m] == P[..m];
      DescendPrefix(cfg, root, P0, m);
    } else {
      assert P[..m] == P;
    }
  }

  /** What one field step did: it only appended, and it recorded field `i` if bound and queued it if nested. */
  ghost predicate StepDone(cfg: Config, n: Node, i: nat, q: seq<Node>, bs: Schema, q1: seq<Node>, bs1: Schema)
    requires n.ty.Struct? && i < |n.ty.fields|
  {
    |q| <= |q1| && q1[..|q|] == q && |bs| <= |bs1| && bs1[..|bs|] == bs &&
    (Bound(cfg, n.ty.fields[i]) ==> |bs| < |bs1| && bs1[|bs|].path == n.path + [i] && bs1[|bs|].field == n.ty.fields[i]) &&
    (Nested(cfg, n.ty.fields[i]) ==> |q| < |q1| && q1[|q|].path == n.path + [i])
  }

  /** What processing fields `i..` of `n` did: it only appended, recorded every bound field and queued every nested one. */
  ghost predicate Progress(cfg: Config, n: Node, i: nat, q: seq<Node>, bs: Schema, q1: seq<Node>, bs1: Schema) {
    |q| <= |q1| && q1[..|q|] == q && |bs| <= |bs1| && bs1[..|bs|] == bs && n.ty.Struct? &&
    (forall j :: i <= j < |n.ty.fields| && Bound(cfg, n.ty.fields[j]) ==> Recorded(bs1, n.path + [j], n.ty.fields[j])) &&
    (forall j :: i <= j < |n.ty.fields| && Nested(cfg, n.ty.fields[j]) ==> Queued(q1, n.path + [j]))
  }

  lemma StepFieldDone(cfg: Config, n: Node, i: nat, q: seq<Node>, bs: Schema)
    requires n.ty.Struct? && i < |n.ty.fields| && AllStruct(q)
    ensures var r := StepField(cfg, n, i, q, bs);
      r.Ok? ==> StepDone(cfg, n, i, q, bs, r.value.0, r.value.1)
  {
    StepFieldCases(cfg, n, i, q, bs);
  }

  /** One step followed by the rest of the fields makes progress from `i`. */
  lemma ProgressCompose(cfg: Config, n: Node, i: nat, q: seq<Node>, bs: Schema, q1: seq<Node>, bs1: Schema, q2: seq<Node>, bs2: Schema)
    requires n.ty.Struct? && i < |n.ty.fields|
    requires StepDone(cfg, n, i, q, bs, q1, bs1) && Progress(cfg, n, i + 1, q1, bs1, q2, bs2)
    ensures Progress(cfg, n, i, q, bs, q2, bs2)
  {
    assert q2[..|q|] == q2[..|q1|][..|q|];
    assert bs2[..|bs|] == bs2[..|bs1|][..|bs|];
    var f := n.ty.fields[i];
    forall j | i <= j < |n.ty.fields| && Bound(cfg, n.ty.fields[j]) ensures Recorded(bs2, n.path + [j], n.ty.fields[j]) {
      if j == i {
        assert bs2[|bs|] == bs1[|bs|];
        assert bs2[|bs|].path == n.path + [i] && bs2[|bs|].field == f;
      }
    }
    forall j | i <= j < |n.ty.fields| && Nested(cfg, n.ty.fields[j]) ensures Queued(q2, n.path + [j]) {
      if j == i {
        assert q2[|q|] == q1[|q|];
        assert q2[|q|].path == n.path + [i];
      }
    }
  }

  /** The field loop from `i` on makes progress. */
  lemma {:induction false} StepFieldsProgress(cfg: Config, n: Node, i: nat, q: seq<Node>, bs: Schema)
    requires n.ty.Struct? && i <= |n.ty.fields| && AllStruct(q)
    ensures var r := StepFields(cfg, n, i, q, bs);
      r.Ok? ==> Progress(cfg, n, i, q, bs, r.value.0, r.value.1)
    decreases |n.ty.fields| - i
  {
    if i < |n.ty.fields| {
      StepFieldDone(cfg, n, i, q, bs);
      var r1 := StepField(cfg, n, i, q, bs);
      if r1.Ok? {
        var q1 := r1.value.0;
        var bs1 := r1.value.1;
        StepFieldsProgress(cfg, n, i + 1, q1, bs1);
        var r := StepFields(cfg, n, i + 1, q1, bs1);
        if r.Ok? {
          assert StepFields(cfg, n, i, q, bs) == r;
          ProgressCompose(cfg, n, i, q, bs, q1, bs1, r.value.0, r.value.1);
        }
      }
    } else {
      assert q[..|q|] == q && bs[..|bs|] == bs;
    }
  }

  lemma RecordedExtend(cfg: Config, bs: Schema, bs1: Schema, P: seq<nat>, t: Ty)
    requires |bs| <= |bs1| && bs1[..|bs|] == bs && FieldsRecorded(cfg, bs, P, t)
    ensures FieldsRecorded(cfg, bs1, P, t)
  {
    if t.Struct? {
      forall i | 0 <= i < |t.fields| && Bound(cfg, t.fields[i]) ensures Recorded(bs1, P + [i], t.fields[i]) {
        var a :| 0 <= a < |bs| && bs[a].path == P + [i] && bs[a].field == t.fields[i];
        assert bs1[a] == bs[a];
      }
    }
  }

  /** A reachable struct strictly below a reachable node lies below the node's nested field on its way. */
  lemma BelowNode(cfg: Config, root: Ty, n: Node, P: seq<nat>)
    requires NodeOk(cfg, root, n) && Descend(cfg, root, P).Some?
    requires IsPrefix(n.path, P) && |n.path| < |P|
    ensures P[|n.path|] < |n.ty.fields| && Nested(cfg, n.ty.fields[P[|n.path|]])
    ensures IsPrefix(n.path + [P[|n.path|]], P)
  {
    var j := P[|n.path|];
    var P1 := P[..|n.path| + 1];
    DescendPrefix(cfg, root, P, |n.path| + 1);
    assert P1 == n.path + [j];
    assert P1[..|P1| - 1] == n.path;
  }

  /** Processing the first node keeps the completeness invariant. */
  lemma DequeueCovered(cfg: Config, root: Ty, q: seq<Node>, bs: Schema, q1: seq<Node>, bs1: Schema)
    requires q != [] && NodeOk(cfg, root, q[0]) && Covered(cfg, root, q, bs)
    requires Progress(cfg, q[0], 0, q[1..], bs, q1, bs1)
    ensures Covered(cfg, root, q1, bs1)
  {
    var n := q[0];
    var rest := q[1..];
    forall P | Descend(cfg, root, P).Some?
      ensures Pending(q1, P) || FieldsRecorded(cfg, bs1, P, Descend(cfg, root, P).value.ty)
    {
      var t := Descend(cfg, root, P).value.ty;
      if FieldsRecorded(cfg, bs, P, t) {
        RecordedExtend(cfg, bs, bs1, P, t);
      } else {
        var k :| 0 <= k < |q| && IsPrefix(q[k].path, P);
        if k > 0 {
          assert q1[k - 1] == rest[k - 1] == q[k];
        } else if |P| == |n.path| {
          assert P == n.path;
        } else {
          BelowNode(cfg, root, n, P);
          var k1 :| 0 <= k1 < |q1| && q1[k1].path == n.path + [P[|n.path|]];
          assert IsPrefix(q1[k1].path, P);
        }
      }
    }
  }

  /** The walk keeps the invariant to the end, where nothing is pending. */
  lemma {:induction false} WalkComplete(cfg: Config, root: Ty, q: seq<Node>, bs: Schema)
    requires AllStruct(q) && WalkInv(cfg, root, q, bs) && Covered(cfg, root, q, bs)
    ensures Walk(cfg, q, bs).Ok? ==> Covered(cfg, root, [], Walk(cfg, q, bs).value)
    decreases Measure(q)
  {
    if q != [] {
      MeasureFront(q);
      assert q[0].ty.fields[0..] == q[0].ty.fields;
      DequeueSound(cfg, root, q, bs);
      StepFieldsSound(cfg, root, q[0], 0, q[1..], bs);
      StepFieldsProgress(cfg, q[0], 0, q[1..], bs);
      var r := StepFields(cfg, q[0], 0, q[1..], bs);
      if r.Ok? {
        DequeueCovered(cfg, root, q, bs, r.value.0, r.value.1);
        WalkComplete(cfg, root, r.value.0, r.value.1);
      }
    }
  }

  /** Every struct reachable from a struct root is a struct. */
  lemma DescendStruct(cfg: Config, root: Ty, P: seq<nat>)
    requires root.Struct? && Descend(cfg, root, P).Some?
    ensures Descend(cfg, root, P).value.ty.Struct?
  {
  }

  /** A successful parse leaves nothing pending and a sound schema. */
  lemma DeriveCovered(cfg: Config, root: Ty)
    requires root.Struct?
    ensures DeriveSchema(cfg, root).Ok? ==>
      Covered(cfg, root, [], DeriveSchema(cfg, root).value) && SchemaInvariant(cfg, root, DeriveSchema(cfg, root).value)
  {
    var n := Node(root, [], "");
    assert NodeOk(cfg, root, n);
    forall P | Descend(cfg, root, P).Some? ensures Pending([n], P) {
      assert IsPrefix([n][0].path, P);
    }
    WalkComplete(cfg, root, [n], []);
    DeriveSound(cfg, root);
  }

  /** In a sound schema with nothing pending, the bindings at `P + [i]` are exactly the bound fields. */
  lemma CompleteAt(cfg: Config, root: Ty, bs: Schema, P: seq<nat>, p: Place, i: nat)
    requires Covered(cfg, root, [], bs) && SchemaInvariant(cfg, root, bs)
    requires Descend(cfg, root, P) == Some(p) && p.ty.Struct? && i < |p.ty.fields|
    ensures (exists a :: 0 <= a < |bs| && bs[a].path == P + [i]) <==> Bound(cfg, p.ty.fields[i])
    ensures Bound(cfg, p.ty.fields[i]) ==>
      exists a :: 0 <= a < |bs| && bs[a].path == P + [i] && bs[a].field == p.ty.fields[i] &&
        (bs[a].isSlice, bs[a].codec) == Lookup(cfg.reg, p.ty.fields[i].ty).value
  {
    var f := p.ty.fields[i];
    assert FieldsRecorded(cfg, bs, P, p.ty);
    if a :| 0 <= a < |bs| && bs[a].path == P + [i] {
      assert BindingOk(cfg, root, bs[a]);
      assert bs[a].path[..|bs[a].path| - 1] == P;
    }
    if Bound(cfg, f) {
      var a :| 0 <= a < |bs| && bs[a].path == P + [i] && bs[a].field == f;
      assert BindingOk(cfg, root, bs[a]);
    }
  }

  /**
   * Parse binds exactly the bound fields of the structs it reaches: when it
   * succeeds, field `i` of the struct reached at `P` has a binding at
   * `P + [i]` if and only if its converted name is not empty, the registry
   * gives its type a codec and its tag names sources; that binding is the
   * field itself, with the registry's codec.
   */
  lemma DeriveComplete(cfg: Config, root: Ty, P: seq<nat>, p: Place, i: nat)
    requires root.Struct? && DeriveSchema(cfg, root).Ok?
    requires Descend(cfg, root, P) == Some(p)
    ensures p.ty.Struct?
    ensures var bs := DeriveSchema(cfg, root).value;
      i < |p.ty.fields| ==>
        ((exists a :: 0 <= a < |bs| && bs[a].path == P + [i]) <==> Bound(cfg, p.ty.fields[i])) &&
        (Bound(cfg, p.ty.fields[i]) ==>
          exists a :: 0 <= a < |bs| && bs[a].path == P + [i] && bs[a].field == p.ty.fields[i] &&
            (bs[a].isSlice, bs[a].codec) == Lookup(cfg.reg, p.ty.fields[i].ty).value)
  {
    DescendStruct(cfg, root, P);
    DeriveCovered(cfg, root);
    if i < |p.ty.fields| {
      CompleteAt(cfg, root, DeriveSchema(cfg, root).value, P, p, i);
    }
  }
}
