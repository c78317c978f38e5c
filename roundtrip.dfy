/**
 * Round trips between Decode and Encode over a map source/destination
 * that takes every Set, as in the library's tests: encoding a value and
 * decoding the map back copies every bound field whose encoding is not
 * empty, and decoding a map of canonical values and encoding the result
 * gives back the same values under the same keys.
 */
module RoundTrip {
  import opened Wrappers
  import opened Reflection
  import opened Schema
  import opened SchemaFacts
  import opened Typing
  import Decoding
  import Encoding

  /** The destination of the library's map-backed tests: every Set is accepted, none fails. */
  const AcceptAll: (string, string) -> bool := (source: string, field: string) => true
  const FailNone: (string, string) -> bool := (source: string, field: string) => false

  /** The key of source `k` of a binding. */
  function Key(b: Binding, k: nat): (string, string)
    requires k < |b.sources|
  {
    (b.sources[k].source, b.sources[k].name)
  }

  /** The values a source map holds under source `k` of a binding. */
  function At(src: Decoding.SourceMap, b: Binding, k: nat): seq<string>
    requires k < |b.sources|
  {
    Decoding.Get(src, b.sources[k].source, b.sources[k].name)
  }

  /** No later source of a binding repeats its first one. */
  predicate FirstSourceUnique(b: Binding) {
    forall k :: 0 < k < |b.sources| ==> b.sources[k] != b.sources[0]
  }

  /** The hypotheses shared by both round trips: a sound schema of `root` over lawful codecs. */
  ghost predicate Setting(cfg: Config, root: Ty, s: Schema) {
    SchemaInvariant(cfg, root, s) && RegistryConsistent(cfg.reg) && AllLawful(cfg.reg) &&
    root.Struct? && root !in cfg.reg &&
    forall a :: 0 <= a < |s| ==> FirstSourceUnique(s[a])
  }

  // ---- the decoding half ----

  /** Only the first source of the binding has values, and when it has, they decode to a value of the field's type. */
  predicate Decodable(src: Decoding.SourceMap, b: Binding) {
    |b.sources| > 0 &&
    (forall k :: 0 < k < |b.sources| ==> At(src, b, k) == []) &&
    (At(src, b, 0) != [] ==>
      var d := Decoding.DecodeStrings(b, At(src, b, 0));
      d.Ok? && d.value.Some? && Decoding.HasType(d.value.value, b.field.ty))
  }

  /** The value decoding writes into the binding's slot, if any. */
  function Written(src: Decoding.SourceMap, b: Binding): Option<Val>
    requires Decodable(src, b)
  {
    if At(src, b, 0) == [] then None else Decoding.DecodeStrings(b, At(src, b, 0)).value
  }

  /** The slot binding `a` holds once bindings `..i` are decoded into `w`. */
  function SlotAfter(s: Schema, src: Decoding.SourceMap, i: nat, a: nat, w: Val): Option<Val>
    requires a < |s| && Decodable(src, s[a])
  {
    if a < i && Written(src, s[a]).Some? then Written(src, s[a]) else GetAt(w, s[a].path)
  }

  /** Decoding one binding writes its own slot, as Written says, and no other bound slot. */
  lemma DecodeOne(s: Schema, src: Decoding.SourceMap, i: nat, wi: Val)
    requires i < |s| && BindingsDisjoint(s) && Decodable(src, s[i]) && GetAt(wi, s[i].path).Some?
    ensures var (w1, o) := Decoding.DecodeSources(s[i], src, 0, Decoding.NoSource, wi);
      o == Pass &&
      GetAt(w1, s[i].path) == (if Written(src, s[i]).Some? then Written(src, s[i]) else GetAt(wi, s[i].path)) &&
      forall a :: 0 <= a < |s| && a != i ==> GetAt(w1, s[a].path) == GetAt(wi, s[a].path)
  {
    var b := s[i];
    var vals := At(src, b, 0);
    forall k | 0 < k < |b.sources| ensures Decoding.Get(src, b.sources[k].source, b.sources[k].name) == [] {
      assert At(src, b, k) == [];
    }
    if vals == [] {
      Decoding.SkipEmptySources(b, src, 0, |b.sources|, Decoding.NoSource, wi);
    } else {
      var x := Written(src, b).value;
      var w1 := SetAt(wi, b.path, x);
      assert Decoding.WriteField(b, vals, wi) == Ok((w1, true));
      Decoding.SkipEmptySources(b, src, 1, |b.sources|, b.sources[0], w1);
      assert Decoding.DecodeSources(b, src, 0, Decoding.NoSource, wi) == (w1, Pass);
      GetAfterSet(wi, b.path, x);
      forall a | 0 <= a < |s| && a != i
        ensures GetAt(w1, s[a].path) == GetAt(wi, s[a].path)
      {
        if a < i {
          IndependentSymmetric(s[a].path, b.path);
        }
        GetAfterSetElsewhere(wi, b.path, s[a].path, x);
      }
    }
  }

  /** Decoding bindings `i..` passes and leaves every bound slot as SlotAfter says. */
  lemma {:induction false} DecodeAll(s: Schema, src: Decoding.SourceMap, i: nat, w: Val, wi: Val)
    requires i <= |s| && BindingsDisjoint(s)
    requires forall a :: 0 <= a < |s| ==> Decodable(src, s[a]) && GetAt(w, s[a].path).Some?
    requires forall a :: 0 <= a < |s| ==> GetAt(wi, s[a].path) == SlotAfter(s, src, i, a, w)
    ensures var (w1, o) := Decoding.DecodeBindings(s, src, i, wi);
      o == Pass && forall a :: 0 <= a < |s| ==> GetAt(w1, s[a].path) == SlotAfter(s, src, |s|, a, w)
    decreases |s| - i
  {
    if i < |s| {
      assert GetAt(wi, s[i].path) == GetAt(w, s[i].path);
      DecodeOne(s, src, i, wi);
      var (w1, o) := Decoding.DecodeSources(s[i], src, 0, Decoding.NoSource, wi);
      SlotAdvance(s, src, i, w, wi, w1);
      DecodeAll(s, src, i + 1, w, w1);
    }
  }

  /** Once binding `i` is decoded as DecodeOne says, every bound slot is as SlotAfter says for `i + 1`. */
  lemma SlotAdvance(s: Schema, src: Decoding.SourceMap, i: nat, w: Val, wi: Val, w1: Val)
    requires i < |s| && forall a :: 0 <= a < |s| ==> Decodable(src, s[a])
    requires forall a :: 0 <= a < |s| ==> GetAt(wi, s[a].path) == SlotAfter(s, src, i, a, w)
    requires GetAt(w1, s[i].path) == (if Written(src, s[i]).Some? then Written(src, s[i]) else GetAt(wi, s[i].path))
    requires forall a :: 0 <= a < |s| && a != i ==> GetAt(w1, s[a].path) == GetAt(wi, s[a].path)
    ensures forall a :: 0 <= a < |s| ==> GetAt(w1, s[a].path) == SlotAfter(s, src, i + 1, a, w)
  {
    forall a | 0 <= a < |s| ensures GetAt(w1, s[a].path) == SlotAfter(s, src, i + 1, a, w) {
      if a != i {
        assert SlotAfter(s, src, i + 1, a, w) == SlotAfter(s, src, i, a, w);
      }
    }
  }

  // ---- the encoding half ----

  /** The strings encoding writes for a binding. */
  function Encoded(b: Binding, v: Val): seq<string> {
    var r := Encoding.EncodeField(b, v);
    if r.Ok? then r.value else []
  }

  /** The store holds the encoding of bindings `..i` under their first source, and nothing under any other source. */
  predicate StoreAt(s: Schema, v: Val, i: nat, store: Encoding.Store) {
    forall a, k :: 0 <= a < |s| && 0 <= k < |s[a].sources| ==>
      At(store, s[a], k) == (if a < i && k == 0 then Encoded(s[a], v) else [])
  }

  /** Every key of the store is the first source of one of bindings `..i` whose encoding is not empty. */
  predicate StoreKeys(s: Schema, v: Val, i: nat, store: Encoding.Store) {
    forall key :: key in store ==>
      exists a :: 0 <= a < i && a < |s| && |s[a].sources| > 0 && key == Key(s[a], 0) && |Encoded(s[a], v)| > 0
  }

  /** Storing binding `i`'s encoding under its first source adds no other key. */
  lemma KeysStep(s: Schema, v: Val, i: nat, store: Encoding.Store)
    requires i < |s| && |s[i].sources| > 0 && StoreKeys(s, v, i, store)
    ensures StoreKeys(s, v, i + 1, if |Encoded(s[i], v)| > 0 then store[Key(s[i], 0) := Encoded(s[i], v)] else store)
  {
    var store1 := if |Encoded(s[i], v)| > 0 then store[Key(s[i], 0) := Encoded(s[i], v)] else store;
    forall key | key in store1
      ensures exists a :: 0 <= a < i + 1 && a < |s| && |s[a].sources| > 0 && key == Key(s[a], 0) && |Encoded(s[a], v)| > 0
    {
      if key !in store {
        assert key == Key(s[i], 0) && |Encoded(s[i], v)| > 0;
      }
    }
  }

  /** Storing binding `i`'s encoding under its first source keeps the store description. */
  lemma StoreStep(s: Schema, v: Val, i: nat, store: Encoding.Store)
    requires i < |s| && |s[i].sources| > 0 && PairsDistinct(s) && FirstSourceUnique(s[i])
    requires StoreAt(s, v, i, store)
    ensures StoreAt(s, v, i + 1, if |Encoded(s[i], v)| > 0 then store[Key(s[i], 0) := Encoded(s[i], v)] else store)
  {
    var store1 := if |Encoded(s[i], v)| > 0 then store[Key(s[i], 0) := Encoded(s[i], v)] else store;
    forall a, k | 0 <= a < |s| && 0 <= k < |s[a].sources|
      ensures At(store1, s[a], k) == (if a < i + 1 && k == 0 then Encoded(s[a], v) else [])
    {
      if a != i || k != 0 {
        assert s[a].sources[k] != s[i].sources[0] by {
          if a < i {
            assert !(s[a].sources[k] == s[i].sources[0]);
          } else if a > i {
            assert !(s[i].sources[0] == s[a].sources[k]);
          }
        }
        assert Key(s[a], k) != Key(s[i], 0);
        assert At(store1, s[a], k) == At(store, s[a], k);
      }
    }
  }

  /** Encoding bindings `i..` into the accept-all destination passes and completes the store description. */
  lemma {:induction false} EncodeAll(s: Schema, i: nat, v: Val, st: Encoding.DestState)
    requires i <= |s| && PairsDistinct(s)
    requires forall a :: 0 <= a < |s| ==> |s[a].sources| > 0 && FirstSourceUnique(s[a]) && Encoding.EncodeField(s[a], v).Ok?
    requires StoreAt(s, v, i, st.store) && StoreKeys(s, v, i, st.store)
    ensures var (st1, o) := Encoding.EncodeBindings(AcceptAll, FailNone, s, i, v, st);
      o == Pass && StoreAt(s, v, |s|, st1.store) && StoreKeys(s, v, |s|, st1.store)
    decreases |s| - i
  {
    if i < |s| {
      EncodeOne(s[i], v, st);
      var (st1, o) := Encoding.EncodeBinding(AcceptAll, FailNone, s[i], v, st);
      StoreStep(s, v, i, st.store);
      KeysStep(s, v, i, st.store);
      EncodeAll(s, i + 1, v, st1);
    }
  }

  /** Encoding one binding into the accept-all destination passes and stores its encoding under its first source. */
  lemma EncodeOne(b: Binding, v: Val, st: Encoding.DestState)
    requires |b.sources| > 0 && Encoding.EncodeField(b, v).Ok?
    ensures var (st1, o) := Encoding.EncodeBinding(AcceptAll, FailNone, b, v, st);
      o == Pass && st1.store == if |Encoded(b, v)| > 0 then st.store[Key(b, 0) := Encoded(b, v)] else st.store
  {
    var vals := Encoded(b, v);
    if |vals| > 0 {
      assert !FailNone(b.sources[0].source, b.sources[0].name) && AcceptAll(b.sources[0].source, b.sources[0].name);
      var st1 := Encoding.SetResult(AcceptAll, FailNone, st, b.sources[0].source, b.sources[0].name, vals).0;
      assert Encoding.TrySources(AcceptAll, FailNone, b, vals, 0, st) == (st1, Pass);
    }
  }

  // ---- encode, then decode ----

  lemma SlotRoundTrip(cfg: Config, root: Ty, s: Schema, a: nat, v: Val)
    requires Setting(cfg, root, s) && a < |s| && Typed(cfg.reg, v, root)
    ensures GetAt(v, s[a].path).Some? && |s[a].sources| > 0
    ensures Encoding.EncodeField(s[a], v).Ok?
    ensures |Encoded(s[a], v)| > 0 ==>
      Decoding.DecodeStrings(s[a], Encoded(s[a], v)) == Ok(Some(GetAt(v, s[a].path).value)) &&
      Decoding.HasType(GetAt(v, s[a].path).value, s[a].field.ty)
  {
    assert BindingOk(cfg, root, s[a]);
    BoundSlot(cfg, root, s[a], v);
    FieldRoundTrip(cfg.reg, s[a], GetAt(v, s[a].path).value);
  }

  /**
   * Encode then decode: encoding `v` into an empty accept-all map and
   * decoding that map into `w` both pass, and every bound slot of the
   * result holds `v`'s value when it encoded to something, `w`'s otherwise.
   */
  lemma EncodeThenDecode(cfg: Config, root: Ty, s: Schema, v: Val, w: Val)
    requires Setting(cfg, root, s) && Typed(cfg.reg, v, root) && Typed(cfg.reg, w, root)
    ensures var (st, o) := Encoding.EncodeBindings(AcceptAll, FailNone, s, 0, v, Encoding.DestState(map[], []));
      o == Pass &&
      var (w1, o1) := Decoding.DecodeBindings(s, st.store, 0, w);
      o1 == Pass &&
      forall a :: 0 <= a < |s| ==>
        GetAt(w1, s[a].path) == (if |Encoded(s[a], v)| > 0 then GetAt(v, s[a].path) else GetAt(w, s[a].path))
  {
    var st0 := Encoding.DestState(map[], []);
    forall a | 0 <= a < |s|
      ensures |s[a].sources| > 0 && FirstSourceUnique(s[a]) && Encoding.EncodeField(s[a], v).Ok?
    {
      SlotRoundTrip(cfg, root, s, a, v);
    }
    EncodeAll(s, 0, v, st0);
    var (st, o) := Encoding.EncodeBindings(AcceptAll, FailNone, s, 0, v, st0);
    forall a | 0 <= a < |s|
      ensures Decodable(st.store, s[a]) && GetAt(w, s[a].path).Some?
      ensures Written(st.store, s[a]) == if |Encoded(s[a], v)| > 0 then GetAt(v, s[a].path) else None
    {
      SlotRoundTrip(cfg, root, s, a, v);
      assert BindingOk(cfg, root, s[a]);
      BoundSlot(cfg, root, s[a], w);
    }
    DecodeAll(s, st.store, 0, w, w);
  }

  // ---- decode, then encode ----

  /** Values that decode for the binding and encode back to themselves. */
  predicate Canonical(b: Binding, vals: seq<string>) {
    vals != [] &&
    match Decoding.DecodeStrings(b, vals)
    case Ok(Some(x)) => Decoding.HasType(x, b.field.ty) && Encoding.EncodeStrings(b, x) == Ok(vals)
    case _ => false
  }

  /**
   * Decode then encode: when each binding finds canonical values under its
   * first source and nothing under the others, decoding into `w` and
   * encoding the result into an empty accept-all map both pass, and the
   * new map holds exactly the source's values under every bound key.
   */
  lemma DecodeThenEncode(cfg: Config, root: Ty, s: Schema, src: Decoding.SourceMap, w: Val)
    requires Setting(cfg, root, s) && Typed(cfg.reg, w, root)
    requires forall a :: 0 <= a < |s| ==>
      |s[a].sources| > 0 && Canonical(s[a], At(src, s[a], 0)) &&
      forall k :: 0 < k < |s[a].sources| ==> At(src, s[a], k) == []
    ensures var (w1, o) := Decoding.DecodeBindings(s, src, 0, w);
      o == Pass &&
      var (st, o1) := Encoding.EncodeBindings(AcceptAll, FailNone, s, 0, w1, Encoding.DestState(map[], []));
      o1 == Pass &&
      (forall a, k :: 0 <= a < |s| && 0 <= k < |s[a].sources| ==> At(st.store, s[a], k) == At(src, s[a], k)) &&
      forall key :: key in st.store ==> exists a :: 0 <= a < |s| && |s[a].sources| > 0 && key == Key(s[a], 0)
  {
    DecodeCanonical(cfg, root, s, src, w);
    var (w1, o) := Decoding.DecodeBindings(s, src, 0, w);
    EncodeAll(s, 0, w1, Encoding.DestState(map[], []));
    var (st, o1) := Encoding.EncodeBindings(AcceptAll, FailNone, s, 0, w1, Encoding.DestState(map[], []));
    forall a, k | 0 <= a < |s| && 0 <= k < |s[a].sources| ensures At(st.store, s[a], k) == At(src, s[a], k) {
      assert Encoded(s[a], w1) == At(src, s[a], 0);
    }
  }

  /**
   * When the source map holds nothing but values under the first sources
   * of the bindings, decode then encode rebuilds exactly that map.
   */
  lemma DecodeThenEncodeExact(cfg: Config, root: Ty, s: Schema, src: Decoding.SourceMap, w: Val)
    requires Setting(cfg, root, s) && Typed(cfg.reg, w, root)
    requires forall a :: 0 <= a < |s| ==>
      |s[a].sources| > 0 && Canonical(s[a], At(src, s[a], 0)) &&
      forall k :: 0 < k < |s[a].sources| ==> At(src, s[a], k) == []
    requires forall key :: key in src ==> exists a :: 0 <= a < |s| && |s[a].sources| > 0 && key == Key(s[a], 0)
    ensures var (w1, o) := Decoding.DecodeBindings(s, src, 0, w);
      var (st, o1) := Encoding.EncodeBindings(AcceptAll, FailNone, s, 0, w1, Encoding.DestState(map[], []));
      o == Pass && o1 == Pass && st.store == src
  {
    DecodeThenEncode(cfg, root, s, src, w);
    var (w1, o) := Decoding.DecodeBindings(s, src, 0, w);
    var (st, o1) := Encoding.EncodeBindings(AcceptAll, FailNone, s, 0, w1, Encoding.DestState(map[], []));
    forall a | 0 <= a < |s| ensures |s[a].sources| > 0 && At(src, s[a], 0) != [] {
    }
    SameFirstSources(s, st.store, src);
  }

  /** Two maps keyed only by first sources, agreeing there and holding values under each, are equal. */
  lemma SameFirstSources(s: Schema, m1: Decoding.SourceMap, m2: Decoding.SourceMap)
    requires forall a :: 0 <= a < |s| ==> |s[a].sources| > 0 && At(m2, s[a], 0) != []
    requires forall a :: 0 <= a < |s| ==> At(m1, s[a], 0) == At(m2, s[a], 0)
    requires forall key :: key in m1 ==> exists a :: 0 <= a < |s| && |s[a].sources| > 0 && key == Key(s[a], 0)
    requires forall key :: key in m2 ==> exists a :: 0 <= a < |s| && |s[a].sources| > 0 && key == Key(s[a], 0)
    ensures m1 == m2
  {
    forall key | key in m1 ensures key in m2 && m2[key] == m1[key] {
      var a :| 0 <= a < |s| && |s[a].sources| > 0 && key == Key(s[a], 0);
      assert At(m1, s[a], 0) == At(m2, s[a], 0);
    }
    forall key | key in m2 ensures key in m1 {
      var a :| 0 <= a < |s| && |s[a].sources| > 0 && key == Key(s[a], 0);
      assert At(m1, s[a], 0) == At(m2, s[a], 0);
    }
  }

  /** The decode half of DecodeThenEncode: decoding passes and leaves every slot encoding back to its source. */
  lemma DecodeCanonical(cfg: Config, root: Ty, s: Schema, src: Decoding.SourceMap, w: Val)
    requires Setting(cfg, root, s) && Typed(cfg.reg, w, root)
    requires forall a :: 0 <= a < |s| ==>
      |s[a].sources| > 0 && Canonical(s[a], At(src, s[a], 0)) &&
      forall k :: 0 < k < |s[a].sources| ==> At(src, s[a], k) == []
    ensures var (w1, o) := Decoding.DecodeBindings(s, src, 0, w);
      o == Pass &&
      forall a :: 0 <= a < |s| ==>
        |s[a].sources| > 0 && FirstSourceUnique(s[a]) && Encoding.EncodeField(s[a], w1) == Ok(At(src, s[a], 0))
  {
    AllDecodable(cfg, root, s, src, w);
    DecodeAll(s, src, 0, w, w);
    var (w1, o) := Decoding.DecodeBindings(s, src, 0, w);
    forall a | 0 <= a < |s|
      ensures |s[a].sources| > 0 && FirstSourceUnique(s[a]) && Encoding.EncodeField(s[a], w1) == Ok(At(src, s[a], 0))
    {
      CanonicalSlot(s[a], src, GetAt(w1, s[a].path));
    }
  }

  /** In a well-typed value every binding's slot exists, and with a value for every first source each binding decodes. */
  lemma AllDecodable(cfg: Config, root: Ty, s: Schema, src: Decoding.SourceMap, w: Val)
    requires Setting(cfg, root, s) && Typed(cfg.reg, w, root)
    requires forall a :: 0 <= a < |s| ==>
      |s[a].sources| > 0 && Canonical(s[a], At(src, s[a], 0)) &&
      forall k :: 0 < k < |s[a].sources| ==> At(src, s[a], k) == []
    ensures forall a :: 0 <= a < |s| ==> Decodable(src, s[a]) && GetAt(w, s[a].path).Some?
  {
    forall a | 0 <= a < |s|
      ensures Decodable(src, s[a]) && GetAt(w, s[a].path).Some?
    {
      assert BindingOk(cfg, root, s[a]);
      BoundSlot(cfg, root, s[a], w);
    }
  }

  /** A slot holding what canonical values decode to encodes back to those values. */
  lemma CanonicalSlot(b: Binding, src: Decoding.SourceMap, slot: Option<Val>)
    requires |b.sources| > 0 && Canonical(b, At(src, b, 0)) && Decodable(src, b)
    requires slot == Written(src, b)
    ensures Encoding.EncodeStrings(b, slot.value) == Ok(At(src, b, 0))
  {
  }

  // ---- through parse ----

  /**
   * The same round trip starting from the schema parse derives for `root`,
   * as Encode and Decode look it up: with a registry of lawful codecs and
   * no tag naming one source twice, it passes and restores every bound slot.
   */
  lemma DerivedEncodeThenDecode(cfg: Config, root: Ty, v: Val, w: Val)
    requires root.Struct? && root !in cfg.reg && RegistryConsistent(cfg.reg) && AllLawful(cfg.reg)
    requires DeriveSchema(cfg, root).Ok?
    requires forall a :: 0 <= a < |DeriveSchema(cfg, root).value| ==> FirstSourceUnique(DeriveSchema(cfg, root).value[a])
    requires Typed(cfg.reg, v, root) && Typed(cfg.reg, w, root)
    ensures var s := DeriveSchema(cfg, root);
      var (st, o) := Encoding.EncodeWith(AcceptAll, FailNone, s, v, Encoding.DestState(map[], []));
      o == Pass &&
      var (w1, o1) := Decoding.DecodeWith(s, st.store, w);
      o1 == Pass &&
      forall a :: 0 <= a < |s.value| ==>
        GetAt(w1, s.value[a].path) == (if |Encoded(s.value[a], v)| > 0 then GetAt(v, s.value[a].path) else GetAt(w, s.value[a].path))
  {
    DeriveSound(cfg, root);
    EncodeThenDecode(cfg, root, DeriveSchema(cfg, root).value, v, w);
  }
}
