/**
 * The store direction (storeAtRoot / store / walkTree): a depth-first walk
 * over the annotated fields of a node instance that skips null values,
 * descends into nested node values under the extended path, and sends
 * every other value to the document's set.
 */
module Store {
  import opened Wrappers
  import opened Schema
  import opened Discovery
  import opened Paths
  import opened Documents

  /** An instance holds one value per discovered field of its runtime class, and so do its nested instances. */
  predicate Conforms(inst: Instance)
  {
    && |inst.values| == |AnnotatedFieldsOf(inst.cls)|
    && forall i :: 0 <= i < |inst.values| && inst.values[i].Node? ==> Conforms(inst.values[i].inst)
  }

  /** The sink calls, in order, that walking `inst` under `prefix` makes. */
  function Emitted(inst: Instance, prefix: string): seq<(string, Scalar)>
    requires Conforms(inst)
    decreases inst, 1, 0
  {
    EmittedUpTo(inst, prefix, |inst.values|)
  }

  /** The sink calls made for the first `n` fields. */
  function EmittedUpTo(inst: Instance, prefix: string, n: nat): seq<(string, Scalar)>
    requires Conforms(inst) && n <= |inst.values|
    decreases inst, 0, n
  {
    if n == 0 then []
    else
      var path := JoinPath(prefix, AnnotatedFieldsOf(inst.cls)[n - 1].name);
      EmittedUpTo(inst, prefix, n - 1) +
        match inst.values[n - 1]
        case Null => []
        case Leaf(s) => [(path, s)]
        case Node(sub) => Emitted(sub, path)
  }

  /**
   * walkTree(config::set, pathPrefix, true): the document afterwards is the
   * document before with the calls of Emitted applied in order.
   */
  method WalkTree(inst: Instance, pathPrefix: string, doc: Document)
    requires Conforms(inst)
    modifies doc
    ensures doc.entries == ApplyAll(old(doc.entries), Emitted(inst, pathPrefix))
    decreases inst
  {
    var fields := GetAnnotatedFields(inst.cls);
    var path: string;
    for i := 0 to |fields|
      invariant doc.entries == ApplyAll(old(doc.entries), EmittedUpTo(inst, pathPrefix, i))
    {
      path := fields[i].name;
      if pathPrefix != "" {
        path := pathPrefix + "." + path;
      }
      var value := inst.values[i];
      ghost var before := EmittedUpTo(inst, pathPrefix, i);
      assert path == JoinPath(pathPrefix, AnnotatedFieldsOf(inst.cls)[i].name);
      match value {
        case Null =>
          assert EmittedUpTo(inst, pathPrefix, i + 1) == before + [];
          assert before + [] == before;
          assert doc.entries == ApplyAll(old(doc.entries), EmittedUpTo(inst, pathPrefix, i + 1));
        case Leaf(s) =>
          doc.Set(path, s);
          assert EmittedUpTo(inst, pathPrefix, i + 1) == before + [(path, s)];
          assert (before + [(path, s)])[..|before|] == before;
          assert doc.entries == ApplyAll(old(doc.entries), EmittedUpTo(inst, pathPrefix, i + 1));
        case Node(sub) =>
          WalkTree(sub, path, doc);
          assert EmittedUpTo(inst, pathPrefix, i + 1) == before + Emitted(sub, path);
          ApplyAllConcat(old(doc.entries), before, Emitted(sub, path));
          assert doc.entries == ApplyAll(old(doc.entries), EmittedUpTo(inst, pathPrefix, i + 1));
      }
    }
  }

  /** store(config, section). */
  method Store(inst: Instance, doc: Document, section: string)
    requires Conforms(inst)
    modifies doc
    ensures doc.entries == ApplyAll(old(doc.entries), Emitted(inst, section))
  {
    WalkTree(inst, section, doc);
  }

  /** storeAtRoot(config). */
  method StoreAtRoot(inst: Instance, doc: Document)
    requires Conforms(inst)
    modifies doc
    ensures doc.entries == ApplyAll(old(doc.entries), Emitted(inst, ""))
  {
    Store(inst, doc, "");
  }

  /**
   * The non-null, non-node value reached from `inst` by following the field
   * indices `idxs` (every index but the last through a nested node value),
   * with the names of the fields followed.
   */
  function LeafAt(inst: Instance, idxs: seq<nat>): Option<(seq<Identifier>, Scalar)>
    requires Conforms(inst)
    decreases inst
  {
    if idxs == [] || idxs[0] >= |inst.values| then None
    else
      var name := AnnotatedFieldsOf(inst.cls)[idxs[0]].name;
      match inst.values[idxs[0]]
      case Null => None
      case Leaf(s) => if |idxs| == 1 then Some(([name], s)) else None
      case Node(sub) =>
        match LeafAt(sub, idxs[1..])
        case None => None
        case Some(e) => Some(([name] + e.0, e.1))
  }

  /** Every sink call made for the first `n` fields is a leaf reached through one of them, keyed by the chain of field names leading to it. */
  lemma {:induction false} EmittedUpToSound(inst: Instance, prefix: string, n: nat, e: (string, Scalar))
    returns (idxs: seq<nat>)
    requires Conforms(inst) && n <= |inst.values| && e in EmittedUpTo(inst, prefix, n)
    ensures idxs != [] && idxs[0] < n
    ensures LeafAt(inst, idxs).Some? && LeafAt(inst, idxs).value.1 == e.1
    ensures Qualify(prefix, LeafAt(inst, idxs).value.0) == e.0
    decreases inst, n
  {
    var i := n - 1;
    var name := AnnotatedFieldsOf(inst.cls)[i].name;
    var path := JoinPath(prefix, name);
    var earlier := EmittedUpTo(inst, prefix, i);
    if e in earlier {
      idxs := EmittedUpToSound(inst, prefix, i, e);
    } else {
      match inst.values[i]
      case Null =>
        assert false;
      case Leaf(s) =>
        assert EmittedUpTo(inst, prefix, n) == earlier + [(path, s)];
        idxs := [i];
        assert LeafAt(inst, idxs) == Some(([name], s));
        QualifyStep(prefix, name, []);
      case Node(sub) =>
        assert EmittedUpTo(inst, prefix, n) == earlier + Emitted(sub, path);
        var rest := EmittedUpToSound(sub, path, |sub.values|, e);
        idxs := [i] + rest;
        assert idxs[1..] == rest;
        var below := LeafAt(sub, rest).value;
        assert LeafAt(inst, idxs) == Some(([name] + below.0, below.1));
        QualifyStep(prefix, name, below.0);
    }
  }

  /** Every leaf of the tree is sent to the sink, under the chain of field names leading to it. */
  lemma {:induction false} LeafEmitted(inst: Instance, prefix: string, idxs: seq<nat>)
    requires Conforms(inst) && LeafAt(inst, idxs).Some?
    ensures (Qualify(prefix, LeafAt(inst, idxs).value.0), LeafAt(inst, idxs).value.1) in Emitted(inst, prefix)
    decreases inst
  {
    var i := idxs[0];
    var name := AnnotatedFieldsOf(inst.cls)[i].name;
    var leaf := LeafAt(inst, idxs).value;
    match inst.values[i]
    case Leaf(s) =>
      assert leaf == ([name], s);
      QualifyStep(prefix, name, []);
      assert [name] + [] == [name];
      SlotLeafEmitted(inst, prefix, i);
    case Node(sub) =>
      var path := JoinPath(prefix, name);
      var below := LeafAt(sub, idxs[1..]).value;
      assert leaf == ([name] + below.0, below.1);
      LeafEmitted(sub, path, idxs[1..]);
      QualifyStep(prefix, name, below.0);
      SlotNodeEmitted(inst, prefix, i, (Qualify(path, below.0), below.1));
  }

  /** A non-null scalar slot is sent under its field's path. */
  lemma SlotLeafEmitted(inst: Instance, prefix: string, i: nat)
    requires Conforms(inst) && i < |inst.values| && inst.values[i].Leaf?
    ensures (JoinPath(prefix, AnnotatedFieldsOf(inst.cls)[i].name), inst.values[i].scalar) in Emitted(inst, prefix)
  {
    EmittedUpToGrows(inst, prefix, i + 1, |inst.values|);
  }

  /** Whatever walking a nested node slot sends, walking the enclosing instance sends too. */
  lemma SlotNodeEmitted(inst: Instance, prefix: string, i: nat, e: (string, Scalar))
    requires Conforms(inst) && i < |inst.values| && inst.values[i].Node?
    requires e in Emitted(inst.values[i].inst, JoinPath(prefix, AnnotatedFieldsOf(inst.cls)[i].name))
    ensures e in Emitted(inst, prefix)
  {
    EmittedUpToGrows(inst, prefix, i + 1, |inst.values|);
  }

  lemma {:induction false} EmittedUpToGrows(inst: Instance, prefix: string, m: nat, n: nat)
    requires Conforms(inst) && m <= n <= |inst.values|
    ensures forall e :: e in EmittedUpTo(inst, prefix, m) ==> e in EmittedUpTo(inst, prefix, n)
    decreases n
  {
    if m < n {
      EmittedUpToGrows(inst, prefix, m, n - 1);
    }
  }

  /**
   * The sink receives exactly the leaves of the tree: a pair is sent if and
   * only if some chain of fields reaches a non-null, non-node value equal to
   * its value, and its key is that chain's names joined under the prefix.
   * Null fields and nested node values are never sent themselves.
   */
  lemma EmittedExactlyLeaves(inst: Instance, prefix: string, key: string, v: Scalar)
    requires Conforms(inst)
    ensures (key, v) in Emitted(inst, prefix) <==>
      exists idxs :: LeafAt(inst, idxs).Some? && LeafAt(inst, idxs).value.1 == v
                     && Qualify(prefix, LeafAt(inst, idxs).value.0) == key
  {
    if (key, v) in Emitted(inst, prefix) {
      var idxs := EmittedUpToSound(inst, prefix, |inst.values|, (key, v));
    }
    forall idxs | LeafAt(inst, idxs).Some?
      ensures (Qualify(prefix, LeafAt(inst, idxs).value.0), LeafAt(inst, idxs).value.1) in Emitted(inst, prefix)
    {
      LeafEmitted(inst, prefix, idxs);
    }
  }

  /**
   * Every key sent is a non-empty dot-joined chain of field names, after the
   * prefix and a '.' when the prefix is not empty.
   */
  lemma EmittedKeysAreDotted(inst: Instance, prefix: string, e: (string, Scalar))
    requires Conforms(inst) && e in Emitted(inst, prefix)
    ensures exists names: seq<Identifier> ::
      names != [] && e.0 == (if prefix == "" then Dotted(names) else prefix + "." + Dotted(names))
  {
    var idxs := EmittedUpToSound(inst, prefix, |inst.values|, e);
    LeafNamesNonEmpty(inst, idxs);
    QualifyIsDotted(prefix, LeafAt(inst, idxs).value.0);
  }

  lemma LeafNamesNonEmpty(inst: Instance, idxs: seq<nat>)
    requires Conforms(inst) && LeafAt(inst, idxs).Some?
    ensures LeafAt(inst, idxs).value.0 != []
  {
  }
}
