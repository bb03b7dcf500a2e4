/**
 * Comment lookup (getComments / findNode / findField): given a root class
 * and a full dotted key, descend one segment at a time to the field that
 * declared the key and return its @ConfigNode comment lines; any miss gives
 * no lines rather than an error.
 */
module Comments {
  import opened Wrappers
  import opened Schema
  import opened Discovery
  import opened Paths
  import opened Keys

  /** path.indexOf('.'): the position of the first '.'. */
  function IndexOfDot(s: string): (k: nat)
    requires '.' in s
    ensures k < |s| && s[k] == '.' && '.' !in s[..k]
  {
    if s[0] == '.' then 0
    else
      assert s == [s[0]] + s[1..];
      var k := IndexOfDot(s[1..]);
      assert s[..k + 1] == [s[0]] + s[1..][..k];
      k + 1
  }

  /** The index of the first field of `fs` named `name`, if any. */
  function FirstNamed(fs: seq<FieldDecl>, name: string): (r: Option<nat>)
    ensures r.Some? ==> r.value < |fs| && fs[r.value].name == name
    ensures r.Some? ==> forall j :: 0 <= j < r.value ==> fs[j].name != name
    ensures r.None? ==> forall j :: 0 <= j < |fs| ==> fs[j].name != name
  {
    if fs == [] then None
    else if fs[0].name == name then Some(0)
    else
      match FirstNamed(fs[1..], name)
      case None => None
      case Some(k) => Some(k + 1)
  }

  /**
   * findField(clazz, path): a key without '.' names a discovered field (own
   * or inherited, first match); otherwise the segment before the first '.'
   * names a field declared on the class itself, annotated or not, whose
   * declared type must be a config node, and the rest of the key is looked
   * up there. None stands for NoSuchFieldException.
   */
  function FindField(c: ClassDecl, path: string): (r: Option<FieldDecl>)
    ensures r.Some? ==> r.value.annotated
    decreases |path|
  {
    if '.' !in path then
      var fields := AnnotatedFieldsOf(c);
      match FirstNamed(fields, path)
      case None => None
      case Some(i) =>
        DiscoveredFields(c);
        assert fields[i] in fields;
        Some(fields[i])
    else
      var k := IndexOfDot(path);
      match FirstNamed(c.fields, path[..k])
      case None => None
      case Some(j) =>
        match c.fields[j].kind
        case NodeField(t) => FindField(t, path[k + 1..])
        case ScalarField(_) => None
  }

  /** findNode(clazz, path): the comment lines of the @ConfigNode annotation on the field findField finds. */
  function FindNode(c: ClassDecl, path: string): Option<seq<string>>
  {
    match FindField(c, path)
    case None => None
    case Some(f) => Some(f.comments)
  }

  /** getComments(clazz) applied to `path`: the comment lines, or none when the key resolves to no field. */
  function GetComments(c: ClassDecl, path: string): seq<string>
  {
    match FindNode(c, path)
    case None => []
    case Some(lines) => lines
  }

  /**
   * A key without '.' gets the comments of the first discovered field
   * (own or inherited) with exactly that name.
   */
  lemma SingleSegmentHit(c: ClassDecl, path: string, i: nat)
    requires '.' !in path && i < |AnnotatedFieldsOf(c)| && AnnotatedFieldsOf(c)[i].name == path
    requires forall j :: 0 <= j < i ==> AnnotatedFieldsOf(c)[j].name != path
    ensures GetComments(c, path) == AnnotatedFieldsOf(c)[i].comments
  {
  }

  /** A key without '.' that names no discovered field gets no comments. */
  lemma SingleSegmentMiss(c: ClassDecl, path: string)
    requires '.' !in path && forall f :: f in AnnotatedFieldsOf(c) ==> f.name != path
    ensures GetComments(c, path) == []
  {
  }

  /**
   * A key `head.rest` whose head names no field declared on the class
   * itself, or names one whose declared type is not a config node, gets no
   * comments; inherited fields are not consulted.
   */
  lemma MultiSegmentMiss(c: ClassDecl, head: Identifier, rest: string)
    requires forall f :: f in c.fields && f.name == head ==> !f.kind.NodeField?
    ensures GetComments(c, head + "." + rest) == []
  {
    SplitAtFirstDot(head, rest);
    var r := FirstNamed(c.fields, head);
    if r.Some? {
      assert c.fields[r.value] in c.fields;
    }
  }

  /**
   * A key `head.rest` whose head names a node field declared on the class
   * itself, annotated or not, gets the comments that the rest of the key
   * gets in that field's class.
   */
  lemma MultiSegmentDelegates(c: ClassDecl, head: Identifier, rest: string, j: nat)
    requires j < |c.fields| && c.fields[j].name == head && c.fields[j].kind.NodeField?
    requires forall i :: 0 <= i < j ==> c.fields[i].name != head
    ensures GetComments(c, head + "." + rest) == GetComments(c.fields[j].kind.cls, rest)
  {
    SplitAtFirstDot(head, rest);
    var r := FirstNamed(c.fields, head);
    assert r == Some(j);
  }

  /** No two fields of `fs` share a name. */
  predicate DistinctNames(fs: seq<FieldDecl>)
  {
    forall i, j :: 0 <= i < j < |fs| ==> fs[i].name != fs[j].name
  }

  /**
   * No class reachable from `c` declares two fields with one name (which
   * Java forbids), and none inherits an annotated field whose name an
   * annotated field of a subclass repeats.
   */
  predicate NoShadowing(c: ClassDecl)
    decreases Size(c)
  {
    DiscoveredFields(c);
    && DistinctNames(c.fields)
    && DistinctNames(AnnotatedFieldsOf(c))
    && forall f :: f in AnnotatedFieldsOf(c) && f.kind.NodeField? ==> NoShadowing(f.kind.cls)
  }

  /** Every node field that the chain `idxs` passes through is declared on its class itself, not inherited. */
  predicate OwnChain(c: ClassDecl, idxs: seq<nat>)
    decreases Size(c)
  {
    |idxs| <= 1 ||
    (&& idxs[0] < |DeclaredAnnotated(c.fields)|
     && idxs[0] < |AnnotatedFieldsOf(c)|
     && match AnnotatedFieldsOf(c)[idxs[0]].kind
        case ScalarField(_) => true
        case NodeField(t) =>
          DiscoveredFields(c);
          assert AnnotatedFieldsOf(c)[idxs[0]] in AnnotatedFieldsOf(c);
          OwnChain(t, idxs[1..]))
  }

  /** Splitting `head + "." + rest` at its first '.' gives back `head` and `rest`. */
  lemma SplitAtFirstDot(head: Identifier, rest: string)
    ensures '.' in head + "." + rest
    ensures IndexOfDot(head + "." + rest) == |head|
    ensures (head + "." + rest)[..|head|] == head && (head + "." + rest)[|head| + 1..] == rest
  {
    var s := head + "." + rest;
    assert s[|head|] == '.';
  }

  lemma DottedShape(names: seq<Identifier>)
    requires |names| > 1
    ensures Dotted(names) == names[0] + "." + Dotted(names[1..])
    ensures Dotted(names[1..]) != []
  {
  }

  /** The first declared field named like a field declared on the class is that field. */
  lemma DeclaredFieldFound(c: ClassDecl, i: nat)
    requires c.isNode && DistinctNames(c.fields) && i < |DeclaredAnnotated(c.fields)|
    ensures i < |AnnotatedFieldsOf(c)|
    ensures FirstNamed(c.fields, AnnotatedFieldsOf(c)[i].name).Some?
    ensures c.fields[FirstNamed(c.fields, AnnotatedFieldsOf(c)[i].name).value] == AnnotatedFieldsOf(c)[i]
  {
    var own := DeclaredAnnotated(c.fields);
    var f := AnnotatedFieldsOf(c)[i];
    assert f == own[i];
    DeclaredAnnotatedMembers(c.fields);
    assert f in own;
    var m :| 0 <= m < |c.fields| && c.fields[m] == f;
    var r := FirstNamed(c.fields, f.name);
    assert r.Some?;
    assert r.value == m;
  }

  /**
   * The lookup as written resolves every key that follows node fields
   * declared on their own classes: it returns the comments of the field at
   * the end of the chain.
   */
  lemma {:induction false} ResolvesOwnChains(c: ClassDecl, idxs: seq<nat>)
    requires NoShadowing(c) && OwnChain(c, idxs) && SchemaFieldAt(c, idxs).Some?
    ensures GetComments(c, Dotted(SchemaFieldAt(c, idxs).value.0)) == SchemaFieldAt(c, idxs).value.1.comments
    decreases Size(c)
  {
    DiscoveredFields(c);
    var fields := AnnotatedFieldsOf(c);
    var i := idxs[0];
    var f := fields[i];
    assert f in fields;
    if |idxs| == 1 {
      assert Dotted([f.name]) == f.name;
      var r := FirstNamed(fields, f.name);
      assert r.Some? && r.value == i;
    } else {
      var t := f.kind.cls;
      var below := SchemaFieldAt(t, idxs[1..]).value;
      assert SchemaFieldAt(c, idxs).value == ([f.name] + below.0, below.1);
      DottedShape([f.name] + below.0);
      assert ([f.name] + below.0)[1..] == below.0;
      var path := Dotted([f.name] + below.0);
      SplitAtFirstDot(f.name, Dotted(below.0));
      DeclaredFieldFound(c, i);
      ResolvesOwnChains(t, idxs[1..]);
      assert FindField(c, path) == FindField(t, Dotted(below.0));
    }
  }

  /**
   * findField with the head segment looked up among the discovered fields
   * (own and inherited, annotated), the fields that store and load follow.
   */
  function FindFieldInherited(c: ClassDecl, path: string): (r: Option<FieldDecl>)
    ensures r.Some? ==> r.value.annotated
    decreases |path|
  {
    var fields := AnnotatedFieldsOf(c);
    DiscoveredFields(c);
    if '.' !in path then
      match FirstNamed(fields, path)
      case None => None
      case Some(i) =>
        assert fields[i] in fields;
        Some(fields[i])
    else
      var k := IndexOfDot(path);
      match FirstNamed(fields, path[..k])
      case None => None
      case Some(j) =>
        match fields[j].kind
        case NodeField(t) => FindFieldInherited(t, path[k + 1..])
        case ScalarField(_) => None
  }

  /** getComments built on FindFieldInherited. */
  function GetCommentsInherited(c: ClassDecl, path: string): seq<string>
  {
    match FindFieldInherited(c, path)
    case None => []
    case Some(f) => f.comments
  }

  /**
   * With the head looked up among discovered fields, every key of the
   * schema, inherited sections included, gets the comments of the field at
   * the end of its chain.
   */
  lemma {:induction false} InheritedResolvesAllChains(c: ClassDecl, idxs: seq<nat>)
    requires NoShadowing(c) && SchemaFieldAt(c, idxs).Some?
    ensures GetCommentsInherited(c, Dotted(SchemaFieldAt(c, idxs).value.0)) == SchemaFieldAt(c, idxs).value.1.comments
    decreases Size(c)
  {
    DiscoveredFields(c);
    var fields := AnnotatedFieldsOf(c);
    var i := idxs[0];
    var f := fields[i];
    assert f in fields;
    var r := FirstNamed(fields, f.name);
    assert r.Some? && r.value == i;
    if |idxs| == 1 {
      assert Dotted([f.name]) == f.name;
    } else {
      var t := f.kind.cls;
      var below := SchemaFieldAt(t, idxs[1..]).value;
      assert SchemaFieldAt(c, idxs).value == ([f.name] + below.0, below.1);
      DottedShape([f.name] + below.0);
      assert ([f.name] + below.0)[1..] == below.0;
      var path := Dotted([f.name] + below.0);
      SplitAtFirstDot(f.name, Dotted(below.0));
      InheritedResolvesAllChains(t, idxs[1..]);
      assert FindFieldInherited(c, path) == FindFieldInherited(t, Dotted(below.0));
    }
  }

  /**
   * Every key the inherited lookup resolves is a key of the schema: the
   * returned `idxs` is a chain of discovered fields whose dotted names are
   * the key and whose last field is the one the lookup returns.
   */
  lemma {:induction false} InheritedResolvesOnlySchemaKeys(c: ClassDecl, path: string) returns (idxs: seq<nat>)
    requires FindFieldInherited(c, path).Some?
    ensures SchemaFieldAt(c, idxs).Some? && SchemaFieldAt(c, idxs).value.1 == FindFieldInherited(c, path).value
    ensures Dotted(SchemaFieldAt(c, idxs).value.0) == path
    decreases |path|
  {
    var fields := AnnotatedFieldsOf(c);
    if '.' !in path {
      var i := FirstNamed(fields, path).value;
      idxs := [i];
      assert SchemaFieldAt(c, idxs).value.0 == [fields[i].name];
    } else {
      var k := IndexOfDot(path);
      var j := FirstNamed(fields, path[..k]).value;
      var rest := path[k + 1..];
      var idxs' := InheritedResolvesOnlySchemaKeys(fields[j].kind.cls, rest);
      idxs := [j] + idxs';
      SchemaFieldCons(c, j, idxs');
      DottedCons(fields[j].name, SchemaFieldAt(fields[j].kind.cls, idxs').value.0);
      assert path == path[..k] + "." + rest;
    }
  }

  /** A chain that starts with node field `j` continues with a chain of that field's class. */
  lemma SchemaFieldCons(c: ClassDecl, j: nat, idxs: seq<nat>)
    requires j < |AnnotatedFieldsOf(c)| && AnnotatedFieldsOf(c)[j].kind.NodeField?
    requires SchemaFieldAt(AnnotatedFieldsOf(c)[j].kind.cls, idxs).Some?
    ensures var below := SchemaFieldAt(AnnotatedFieldsOf(c)[j].kind.cls, idxs).value;
            SchemaFieldAt(c, [j] + idxs) == Some(([AnnotatedFieldsOf(c)[j].name] + below.0, below.1))
  {
    assert ([j] + idxs)[1..] == idxs;
  }

  /** Dotting a name in front of a non-empty chain. */
  lemma DottedCons(head: Identifier, names: seq<Identifier>)
    requires names != []
    ensures Dotted([head] + names) == head + "." + Dotted(names)
  {
    DottedShape([head] + names);
    assert ([head] + names)[1..] == names;
  }

  /**
   * The corrected lookup resolves the head of `head.rest` among discovered
   * fields, inherited ones included, and delegates the rest to its class.
   */
  lemma InheritedDelegates(c: ClassDecl, head: Identifier, rest: string, j: nat)
    requires j < |AnnotatedFieldsOf(c)| && AnnotatedFieldsOf(c)[j].name == head && AnnotatedFieldsOf(c)[j].kind.NodeField?
    requires forall i :: 0 <= i < j ==> AnnotatedFieldsOf(c)[i].name != head
    ensures GetCommentsInherited(c, head + "." + rest) == GetCommentsInherited(AnnotatedFieldsOf(c)[j].kind.cls, rest)
  {
    var fields := AnnotatedFieldsOf(c);
    SplitAtFirstDot(head, rest);
    var r := FirstNamed(fields, head);
    assert r == Some(j);
    assert FindFieldInherited(c, head + "." + rest) == FindFieldInherited(fields[j].kind.cls, rest);
  }

  /** A schema whose nested section is inherited from a base class. */
  const Server: Identifier := "server"
  const MaxPlayers: Identifier := "maxPlayers"
  const ServerSection := ClassDecl("Server", true, true,
    [FieldDecl(MaxPlayers, true, ["Max players", "Default: 20"], ScalarField(None))], None)
  const BaseConfig := ClassDecl("BaseConfig", true, true,
    [FieldDecl(Server, true, [], NodeField(ServerSection))], None)
  const PluginConfig := ClassDecl("PluginConfig", true, true, [], Some(BaseConfig))

  lemma AsWrittenMissesInheritedSection()
    ensures GetComments(PluginConfig, Server + "." + MaxPlayers) == []
  {
    MultiSegmentMiss(PluginConfig, Server, MaxPlayers);
  }

  lemma InheritedFindsInheritedSection()
    ensures GetCommentsInherited(PluginConfig, Server + "." + MaxPlayers) == ["Max players", "Default: 20"]
  {
    assert AnnotatedFieldsOf(BaseConfig) == BaseConfig.fields;
    assert AnnotatedFieldsOf(PluginConfig) == BaseConfig.fields;
    InheritedDelegates(PluginConfig, Server, MaxPlayers, 0);
    assert AnnotatedFieldsOf(ServerSection) == ServerSection.fields;
    assert FirstNamed(ServerSection.fields, MaxPlayers) == Some(0);
  }

  lemma InheritedSectionIsStored()
    ensures IsScalarKey(PluginConfig, "", Server + "." + MaxPlayers)
  {
    assert AnnotatedFieldsOf(BaseConfig) == BaseConfig.fields;
    assert AnnotatedFieldsOf(PluginConfig) == BaseConfig.fields;
    assert AnnotatedFieldsOf(ServerSection) == ServerSection.fields;
    assert SchemaFieldAt(ServerSection, [0]) == Some(([MaxPlayers], ServerSection.fields[0]));
    assert [0, 0][1..] == [0];
    assert SchemaFieldAt(PluginConfig, [0, 0]) == Some(([Server] + [MaxPlayers], ServerSection.fields[0]));
    QualifyStep("", Server, [MaxPlayers]);
    QualifyStep(Server, MaxPlayers, []);
    assert [MaxPlayers] + [] == [MaxPlayers];
  }

  /**
   * As written, the key "server.maxPlayers", which store writes and load
   * reads for PluginConfig, gets no comments: the head "server" is declared
   * on BaseConfig, not on PluginConfig. The inherited lookup finds them.
   */
  lemma InheritedSectionLosesComments()
    ensures IsScalarKey(PluginConfig, "", Server + "." + MaxPlayers)
    ensures GetComments(PluginConfig, Server + "." + MaxPlayers) == []
    ensures GetCommentsInherited(PluginConfig, Server + "." + MaxPlayers) == ["Max players", "Default: 20"]
  {
    InheritedSectionIsStored();
    AsWrittenMissesInheritedSection();
    InheritedFindsInheritedSection();
  }
}
