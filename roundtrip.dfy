/**
 * Store after load: a freshly loaded tree, stored into an empty document,
 * reproduces the source document on the schema's scalar keys and sets no
 * other key.
 */
module RoundTrip {
  import opened Wrappers
  import opened Schema
  import opened Discovery
  import opened Paths
  import opened Documents
  import opened Store
  import opened Load
  import opened Keys

  /**
   * Every scalar field reachable from `c` is null after construction (no
   * field initialiser, no primitive type), so a field the document does not
   * mention stays null and is not stored back.
   */
  predicate NullDefaults(c: ClassDecl)
    decreases Size(c)
  {
    DiscoveredFields(c);
    forall f :: f in AnnotatedFieldsOf(c) ==>
      match f.kind
      case ScalarField(initial) => initial.None?
      case NodeField(t) => NullDefaults(t)
  }

  /**
   * The chain `idxs` reaches a leaf of the loaded tree if and only if it
   * reaches a scalar field of the schema whose key the document holds, and
   * the leaf then carries that field's names and the document's value.
   */
  predicate LeafMatchesKey(c: ClassDecl, doc: map<string, Scalar>, prefix: string, idxs: seq<nat>)
    requires Loaded(c, doc, prefix).Success? && Conforms(Loaded(c, doc, prefix).value)
  {
    var leaf := LeafAt(Loaded(c, doc, prefix).value, idxs);
    var field := SchemaFieldAt(c, idxs);
    && (leaf.Some? <==> field.Some? && field.value.1.kind.ScalarField? && Qualify(prefix, field.value.0) in doc)
    && (leaf.Some? ==> leaf.value == (field.value.0, doc[Qualify(prefix, field.value.0)]))
  }

  /**
   * The leaves of a loaded tree are exactly the scalar fields of the schema
   * whose keys the document holds, each carrying the document's value.
   */
  lemma {:induction false} LoadedLeaves(c: ClassDecl, doc: map<string, Scalar>, prefix: string, idxs: seq<nat>)
    requires Loaded(c, doc, prefix).Success? && NullDefaults(c)
    ensures Conforms(Loaded(c, doc, prefix).value)
    ensures LeafMatchesKey(c, doc, prefix, idxs)
    decreases Size(c), 1
  {
    LoadMaterialises(c, doc, prefix);
    var fields := AnnotatedFieldsOf(c);
    if idxs != [] && idxs[0] < |fields| {
      if fields[idxs[0]].kind.ScalarField? {
        ScalarHeadLeaves(c, doc, prefix, idxs);
      } else {
        NodeHeadLeaves(c, doc, prefix, idxs);
      }
    }
  }

  /** LoadedLeaves for a chain that starts at a scalar field. */
  lemma ScalarHeadLeaves(c: ClassDecl, doc: map<string, Scalar>, prefix: string, idxs: seq<nat>)
    requires Loaded(c, doc, prefix).Success? && NullDefaults(c) && Conforms(Loaded(c, doc, prefix).value)
    requires idxs != [] && idxs[0] < |AnnotatedFieldsOf(c)| && AnnotatedFieldsOf(c)[idxs[0]].kind.ScalarField?
    ensures LeafMatchesKey(c, doc, prefix, idxs)
  {
    var f := AnnotatedFieldsOf(c)[idxs[0]];
    LoadedScalarSlot(c, doc, prefix, idxs[0]);
    QualifyStep(prefix, f.name, []);
    assert [f.name] + [] == [f.name];
  }

  /** LoadedLeaves for a chain that starts at a node field: the rest of the chain is followed in the nested section. */
  lemma {:induction false} NodeHeadLeaves(c: ClassDecl, doc: map<string, Scalar>, prefix: string, idxs: seq<nat>)
    requires Loaded(c, doc, prefix).Success? && NullDefaults(c) && Conforms(Loaded(c, doc, prefix).value)
    requires idxs != [] && idxs[0] < |AnnotatedFieldsOf(c)| && AnnotatedFieldsOf(c)[idxs[0]].kind.NodeField?
    ensures LeafMatchesKey(c, doc, prefix, idxs)
    decreases Size(c), 0
  {
    var f := AnnotatedFieldsOf(c)[idxs[0]];
    var path := JoinPath(prefix, f.name);
    LoadedNodeSlot(c, doc, prefix, idxs[0]);
    var sub := Loaded(c, doc, prefix).value.values[idxs[0]].inst;
    assert LeafAt(Loaded(c, doc, prefix).value, idxs)
        == match LeafAt(sub, idxs[1..]) case None => None case Some(e) => Some(([f.name] + e.0, e.1));
    if |idxs| > 1 {
      LoadedLeaves(f.kind.cls, doc, path, idxs[1..]);
      var below := SchemaFieldAt(f.kind.cls, idxs[1..]);
      if below.Some? {
        QualifyStep(prefix, f.name, below.value.0);
      }
    }
  }

  /** With null defaults, a loaded scalar slot is the document's value at its path, or null. */
  lemma LoadedScalarSlot(c: ClassDecl, doc: map<string, Scalar>, prefix: string, i: nat)
    requires Loaded(c, doc, prefix).Success? && NullDefaults(c)
    requires i < |AnnotatedFieldsOf(c)| && AnnotatedFieldsOf(c)[i].kind.ScalarField?
    ensures |Loaded(c, doc, prefix).value.values| == |AnnotatedFieldsOf(c)|
    ensures var path := JoinPath(prefix, AnnotatedFieldsOf(c)[i].name);
            Loaded(c, doc, prefix).value.values[i] == if path in doc then Leaf(doc[path]) else Null
  {
    LoadedSlots(c, doc, prefix);
    assert AnnotatedFieldsOf(c)[i] in AnnotatedFieldsOf(c);
    assert SlotLoaded(c, doc, prefix, Constructed(c).values, Loaded(c, doc, prefix).value.values, i);
  }

  /** A loaded node slot holds the section loaded under its path, whose class again has null defaults. */
  lemma LoadedNodeSlot(c: ClassDecl, doc: map<string, Scalar>, prefix: string, i: nat)
    requires Loaded(c, doc, prefix).Success? && NullDefaults(c)
    requires i < |AnnotatedFieldsOf(c)| && AnnotatedFieldsOf(c)[i].kind.NodeField?
    ensures |Loaded(c, doc, prefix).value.values| == |AnnotatedFieldsOf(c)|
    ensures var f := AnnotatedFieldsOf(c)[i];
            && Loaded(c, doc, prefix).value.values[i].Node?
            && Loaded(f.kind.cls, doc, JoinPath(prefix, f.name)) == Success(Loaded(c, doc, prefix).value.values[i].inst)
            && NullDefaults(f.kind.cls)
            && Size(f.kind.cls) < Size(c)
  {
    LoadedSlots(c, doc, prefix);
    DiscoveredFields(c);
    assert AnnotatedFieldsOf(c)[i] in AnnotatedFieldsOf(c);
    assert SlotLoaded(c, doc, prefix, Constructed(c).values, Loaded(c, doc, prefix).value.values, i);
  }

  /**
   * Round trip: storing a freshly loaded tree into an empty document gives
   * the source document restricted to the schema's scalar keys.
   */
  lemma StoreAfterLoad(c: ClassDecl, doc: map<string, Scalar>, prefix: string)
    requires Loaded(c, doc, prefix).Success? && NullDefaults(c)
    ensures Conforms(Loaded(c, doc, prefix).value)
    ensures ApplyAll(map[], Emitted(Loaded(c, doc, prefix).value, prefix))
            == map k | k in doc && IsScalarKey(c, prefix, k) :: doc[k]
  {
    var inst := Loaded(c, doc, prefix).value;
    LoadMaterialises(c, doc, prefix);
    var es := Emitted(inst, prefix);
    forall e | e in es
      ensures e.0 in doc && doc[e.0] == e.1 && IsScalarKey(c, prefix, e.0)
    {
      var idxs := EmittedUpToSound(inst, prefix, |inst.values|, e);
      LoadedLeaves(c, doc, prefix, idxs);
    }
    forall k | k in doc && IsScalarKey(c, prefix, k)
      ensures k in KeysOf(es)
    {
      var idxs :| SchemaFieldAt(c, idxs).Some? && SchemaFieldAt(c, idxs).value.1.kind.ScalarField?
                  && Qualify(prefix, SchemaFieldAt(c, idxs).value.0) == k;
      LoadedLeaves(c, doc, prefix, idxs);
      LeafEmitted(inst, prefix, idxs);
      assert (k, doc[k]) in es;
    }
    ApplyAllAgreeing(es, doc);
  }
}
