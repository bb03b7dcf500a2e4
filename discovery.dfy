/**
 * Field discovery (getAnnotatedFields): the annotated fields of a class and
 * of its ancestors, walking up the superclass chain while the class is still
 * a config node. The class's own fields come first, then its superclass's,
 * and so on; each level keeps declaration order.
 */
module Discovery {
  import opened Wrappers
  import opened Schema

  /** The annotated fields of `fs`, in their declared order. */
  function DeclaredAnnotated(fs: seq<FieldDecl>): (r: seq<FieldDecl>)
    ensures |r| <= |fs|
  {
    if fs == [] then []
    else DeclaredAnnotated(fs[..|fs| - 1]) + (if fs[|fs| - 1].annotated then [fs[|fs| - 1]] else [])
  }

  /** Filtering keeps exactly the annotated fields. */
  lemma {:induction false} DeclaredAnnotatedMembers(fs: seq<FieldDecl>)
    ensures forall f :: f in DeclaredAnnotated(fs) <==> f in fs && f.annotated
  {
    if fs != [] {
      var init := fs[..|fs| - 1];
      DeclaredAnnotatedMembers(init);
      assert fs == init + [fs[|fs| - 1]];
    }
  }

  /** What getAnnotatedFields returns for class `c`. */
  function AnnotatedFieldsOf(c: ClassDecl): seq<FieldDecl>
  {
    if !c.isNode then [] else DeclaredAnnotated(c.fields) + InheritedFields(c.superclass)
  }

  /**
   * Discovery returns only annotated fields, and every node class that a
   * discovered field nests is smaller than the class being discovered (the
   * measure that makes loading terminate).
   */
  lemma {:induction false} DiscoveredFields(c: ClassDecl)
    ensures forall f :: f in AnnotatedFieldsOf(c) ==> f.annotated
    ensures forall f :: f in AnnotatedFieldsOf(c) && f.kind.NodeField? ==> Size(f.kind.cls) < Size(c)
  {
    if c.isNode {
      DeclaredSmaller(c);
      DeclaredAnnotatedMembers(c.fields);
      if c.superclass.Some? {
        DiscoveredFields(c.superclass.value);
      }
    }
  }

  /** The annotated fields discovered from `o` upwards; none above the top of the hierarchy. */
  function InheritedFields(o: Option<ClassDecl>): seq<FieldDecl>
  {
    match o
    case None => []
    case Some(s) => AnnotatedFieldsOf(s)
  }

  lemma DeclaredSmaller(c: ClassDecl)
    ensures forall f :: f in c.fields && f.kind.NodeField? ==> Size(f.kind.cls) < Size(c)
  {
    forall f | f in c.fields && f.kind.NodeField?
      ensures Size(f.kind.cls) < Size(c)
    {
      var i :| 0 <= i < |c.fields| && c.fields[i] == f;
      DeclaredNestedSmaller(c, |c.fields|, i);
    }
  }

  /** Extending the scanned prefix by one field extends the filtered list by that field when it is annotated. */
  lemma DeclaredAnnotatedSnoc(fs: seq<FieldDecl>, i: nat)
    requires i < |fs|
    ensures DeclaredAnnotated(fs[..i + 1]) == DeclaredAnnotated(fs[..i]) + (if fs[i].annotated then [fs[i]] else [])
  {
    assert fs[..i + 1][..i] == fs[..i];
  }

  /**
   * getAnnotatedFields: a loop up the superclass chain that appends each
   * level's annotated fields to a growing list.
   */
  method GetAnnotatedFields(c: ClassDecl) returns (fields: seq<FieldDecl>)
    ensures fields == AnnotatedFieldsOf(c)
  {
    fields := [];
    var clazz := Some(c);
    while clazz.Some? && clazz.value.isNode
      invariant fields + InheritedFields(clazz) == AnnotatedFieldsOf(c)
      decreases clazz
    {
      var k := clazz.value;
      ghost var before := fields;
      fields := AppendAnnotated(fields, k.fields);
      assert fields + InheritedFields(k.superclass)
          == before + (DeclaredAnnotated(k.fields) + InheritedFields(k.superclass));
      clazz := k.superclass;
    }
    assert fields + [] == fields;
  }

  /** The inner loop of getAnnotatedFields: append the annotated fields among `fs`, in order. */
  method AppendAnnotated(fields: seq<FieldDecl>, fs: seq<FieldDecl>) returns (r: seq<FieldDecl>)
    ensures r == fields + DeclaredAnnotated(fs)
  {
    r := fields;
    for i := 0 to |fs|
      invariant r == fields + DeclaredAnnotated(fs[..i])
    {
      DeclaredAnnotatedSnoc(fs, i);
      if fs[i].annotated {
        r := r + [fs[i]];
      }
    }
    assert fs[..|fs|] == fs;
  }

  /** The class, its superclass, and so on up to the top of the hierarchy. */
  function Ancestry(c: ClassDecl): (r: seq<ClassDecl>)
    ensures |r| > 0 && r[0] == c
  {
    [c] + (match c.superclass case None => [] case Some(s) => Ancestry(s))
  }

  /** The length of the longest prefix of `cs` made of config-node classes. */
  function NodePrefix(cs: seq<ClassDecl>): (n: nat)
    ensures n <= |cs|
    ensures forall i :: 0 <= i < n ==> cs[i].isNode
    ensures n < |cs| ==> !cs[n].isNode
  {
    if cs == [] || !cs[0].isNode then 0 else 1 + NodePrefix(cs[1..])
  }

  /** All declared fields of the classes `cs`, the first class's fields first. */
  function DeclaredFieldsOf(cs: seq<ClassDecl>): seq<FieldDecl>
  {
    if cs == [] then [] else cs[0].fields + DeclaredFieldsOf(cs[1..])
  }

  lemma {:induction false} DeclaredAnnotatedConcat(a: seq<FieldDecl>, b: seq<FieldDecl>)
    ensures DeclaredAnnotated(a + b) == DeclaredAnnotated(a) + DeclaredAnnotated(b)
    decreases |b|
  {
    if b != [] {
      var b' := b[..|b| - 1];
      assert (a + b)[..|a + b| - 1] == a + b';
      DeclaredAnnotatedConcat(a, b');
    } else {
      assert a + b == a;
    }
  }

  /**
   * Discovery filters, in order, the declared fields of the class and of its
   * ancestors up to (and excluding) the first one that is not a config node,
   * keeping the annotated ones.
   */
  lemma {:induction false} DiscoveryFiltersNodeAncestry(c: ClassDecl)
    ensures AnnotatedFieldsOf(c) == DeclaredAnnotated(DeclaredFieldsOf(Ancestry(c)[..NodePrefix(Ancestry(c))]))
  {
    var cs := Ancestry(c);
    if !c.isNode {
      assert cs[..NodePrefix(cs)] == [];
    } else {
      var tail := cs[1..];
      assert NodePrefix(cs) == 1 + NodePrefix(tail);
      var kept := cs[..NodePrefix(cs)];
      assert kept[0] == c && kept[1..] == tail[..NodePrefix(tail)];
      DeclaredAnnotatedConcat(c.fields, DeclaredFieldsOf(kept[1..]));
      match c.superclass
      case None =>
        assert tail == [];
        assert DeclaredFieldsOf(kept[1..]) == [];
      case Some(s) =>
        assert tail == Ancestry(s);
        DiscoveryFiltersNodeAncestry(s);
    }
  }

  /** `a` is a suffix of `b`. */
  predicate IsSuffix(a: seq<FieldDecl>, b: seq<FieldDecl>)
  {
    |a| <= |b| && b[|b| - |a|..] == a
  }

  /**
   * An ancestor's discovered fields are a suffix of its subclass's: the
   * subclass's own fields come before every inherited one, and inherited
   * fields are all included, in the same order.
   */
  lemma {:induction false} InheritedFieldsAreSuffix(c: ClassDecl, k: nat)
    requires k < NodePrefix(Ancestry(c))
    ensures IsSuffix(AnnotatedFieldsOf(Ancestry(c)[k]), AnnotatedFieldsOf(c))
    decreases k
  {
    if k == 0 {
      var r := AnnotatedFieldsOf(c);
      assert r[0..] == r;
    } else {
      var s := AncestorStep(c, k);
      InheritedFieldsAreSuffix(s, k - 1);
      SuffixOfConcat(DeclaredAnnotated(c.fields), AnnotatedFieldsOf(s), AnnotatedFieldsOf(Ancestry(s)[k - 1]));
    }
  }

  /** The k-th node ancestor of `c` (k > 0) is the (k-1)-th node ancestor of its superclass. */
  lemma AncestorStep(c: ClassDecl, k: nat) returns (s: ClassDecl)
    requires 0 < k < NodePrefix(Ancestry(c))
    ensures c.isNode && c.superclass == Some(s)
    ensures AnnotatedFieldsOf(c) == DeclaredAnnotated(c.fields) + AnnotatedFieldsOf(s)
    ensures k - 1 < NodePrefix(Ancestry(s)) && Ancestry(c)[k] == Ancestry(s)[k - 1]
  {
    var cs := Ancestry(c);
    assert NodePrefix(cs) == 1 + NodePrefix(cs[1..]);
    s := c.superclass.value;
    assert cs[1..] == Ancestry(s);
  }

  /** A suffix of the second part of a concatenation is a suffix of the whole. */
  lemma SuffixOfConcat(own: seq<FieldDecl>, sup: seq<FieldDecl>, anc: seq<FieldDecl>)
    requires IsSuffix(anc, sup)
    ensures IsSuffix(anc, own + sup)
  {
    assert (own + sup)[|own + sup| - |anc|..] == sup[|sup| - |anc|..];
  }
}
