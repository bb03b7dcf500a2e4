/**
 * The load direction (loadAsRoot / loadSection / populate): construct an
 * instance with the no-argument constructor, then for each discovered field
 * either load the nested node class under the extended path and assign it,
 * or assign the document's value at the path when there is one.
 */
module Load {
  import opened Wrappers
  import opened Schema
  import opened Discovery
  import opened Paths
  import opened Documents
  import opened Store

  /** The RuntimeException loadSection throws: the class whose constructor could not be found or run. */
  datatype SchemaError = ConstructionFailed(className: string)

  /** What a field holds right after the no-argument constructor has run. */
  function InitialValue(f: FieldDecl): Value
  {
    match f.kind
    case ScalarField(Some(s)) => Leaf(s)
    case ScalarField(None) => Null
    case NodeField(_) => Null
  }

  /** constructor.newInstance(): a fresh instance of `c` holding its fields' initial values. */
  function Constructed(c: ClassDecl): (inst: Instance)
    ensures inst.cls == c && Conforms(inst)
    ensures forall i :: 0 <= i < |inst.values| ==> inst.values[i] == InitialValue(AnnotatedFieldsOf(c)[i])
  {
    var fields := AnnotatedFieldsOf(c);
    Instance(c, seq(|fields|, i requires 0 <= i < |fields| => InitialValue(fields[i])))
  }

  /** loadSection(clazz, yaml, pathPrefix). */
  function Loaded(c: ClassDecl, doc: map<string, Scalar>, prefix: string): Result<Instance, SchemaError>
    decreases Size(c), 1, 0
  {
    if !c.constructible then Failure(ConstructionFailed(c.name))
    else Populated(c, Constructed(c), doc, prefix)
  }

  /** populate(clazz, config, yaml, pathPrefix): `config` with every discovered field assigned. */
  function Populated(c: ClassDecl, config: Instance, doc: map<string, Scalar>, prefix: string): Result<Instance, SchemaError>
    requires config.cls == c && |config.values| == |AnnotatedFieldsOf(c)|
    decreases Size(c), 0, |AnnotatedFieldsOf(c)| + 1
  {
    match PopulatedUpTo(c, config.values, doc, prefix, |AnnotatedFieldsOf(c)|)
    case Failure(e) => Failure(e)
    case Success(values) => Success(Instance(c, values))
  }

  /** The field values after the first `n` iterations of populate's loop. */
  function PopulatedUpTo(c: ClassDecl, start: seq<Value>, doc: map<string, Scalar>, prefix: string, n: nat): (r: Result<seq<Value>, SchemaError>)
    requires |start| == |AnnotatedFieldsOf(c)| && n <= |start|
    ensures r.Success? ==> |r.value| == |start|
    decreases Size(c), 0, n
  {
    if n == 0 then Success(start)
    else
      match PopulatedUpTo(c, start, doc, prefix, n - 1)
      case Failure(e) => Failure(e)
      case Success(values) =>
        var f := AnnotatedFieldsOf(c)[n - 1];
        var path := JoinPath(prefix, f.name);
        match f.kind
        case NodeField(t) =>
          DiscoveredFields(c);
          assert f in AnnotatedFieldsOf(c);
          (match Loaded(t, doc, path)
           case Failure(e) => Failure(e)
           case Success(sub) => Success(values[n - 1 := Node(sub)]))
        case ScalarField(_) =>
          if path in doc then Success(values[n - 1 := Leaf(doc[path])]) else Success(values)
  }

  lemma {:induction false} FailureSticks(c: ClassDecl, start: seq<Value>, doc: map<string, Scalar>, prefix: string, m: nat, n: nat)
    requires |start| == |AnnotatedFieldsOf(c)| && m <= n <= |start|
    requires PopulatedUpTo(c, start, doc, prefix, m).Failure?
    ensures PopulatedUpTo(c, start, doc, prefix, n) == PopulatedUpTo(c, start, doc, prefix, m)
    decreases n
  {
    if m < n {
      FailureSticks(c, start, doc, prefix, m, n - 1);
    }
  }

  /** loadSection: construct, then populate; a missing or throwing constructor is a schema error. */
  method LoadSection(clazz: ClassDecl, yaml: Document, pathPrefix: string) returns (r: Result<Instance, SchemaError>)
    ensures r == Loaded(clazz, yaml.entries, pathPrefix)
    decreases Size(clazz), 1, 0
  {
    if !clazz.constructible {
      return Failure(ConstructionFailed(clazz.name));
    }
    var config := Constructed(clazz);
    r := Populate(clazz, config, yaml, pathPrefix);
  }

  /** populate: the loop over the discovered fields, assigning into `config`. */
  method Populate(clazz: ClassDecl, config: Instance, yaml: Document, pathPrefix: string) returns (r: Result<Instance, SchemaError>)
    requires config.cls == clazz && |config.values| == |AnnotatedFieldsOf(clazz)|
    ensures r == Populated(clazz, config, yaml.entries, pathPrefix)
    decreases Size(clazz), 0, |AnnotatedFieldsOf(clazz)| + 1
  {
    var fields := GetAnnotatedFields(clazz);
    var values := config.values;
    var path: string;
    for i := 0 to |fields|
      invariant PopulatedUpTo(clazz, config.values, yaml.entries, pathPrefix, i) == Success(values)
    {
      var field := fields[i];
      path := field.name;
      if pathPrefix != "" {
        path := pathPrefix + "." + path;
      }
      match field.kind {
        case NodeField(t) =>
          DiscoveredFields(clazz);
          assert field in AnnotatedFieldsOf(clazz);
          var value := LoadSection(t, yaml, path);
          if value.Failure? {
            FailureSticks(clazz, config.values, yaml.entries, pathPrefix, i + 1, |fields|);
            return Failure(value.error);
          }
          values := values[i := Node(value.value)];
        case ScalarField(_) =>
          var value := yaml.Get(path);
          if value.Some? {
            values := values[i := Leaf(value.value)];
          }
      }
    }
    r := Success(Instance(clazz, values));
  }

  /** loadAsRoot(clazz, yaml). */
  method LoadAsRoot(clazz: ClassDecl, yaml: Document) returns (r: Result<Instance, SchemaError>)
    ensures r == Loaded(clazz, yaml.entries, "")
  {
    r := LoadSection(clazz, yaml, "");
  }

  /**
   * What populate leaves in slot `i`, given the slot held `start[i]` before:
   * a scalar field holds the document's value at its path when there is one
   * and keeps its previous value otherwise; a node field holds the instance
   * loaded from its declared class under its path.
   */
  predicate SlotLoaded(c: ClassDecl, doc: map<string, Scalar>, prefix: string, start: seq<Value>, values: seq<Value>, i: nat)
    requires i < |AnnotatedFieldsOf(c)| == |start| == |values|
  {
    var f := AnnotatedFieldsOf(c)[i];
    var path := JoinPath(prefix, f.name);
    match f.kind
    case ScalarField(_) => values[i] == (if path in doc then Leaf(doc[path]) else start[i])
    case NodeField(t) => values[i].Node? && Loaded(t, doc, path) == Success(values[i].inst)
  }

  lemma {:induction false} PopulatedUpToSlots(c: ClassDecl, start: seq<Value>, doc: map<string, Scalar>, prefix: string, n: nat)
    requires |start| == |AnnotatedFieldsOf(c)| && n <= |start|
    requires PopulatedUpTo(c, start, doc, prefix, n).Success?
    ensures forall i :: 0 <= i < n ==> SlotLoaded(c, doc, prefix, start, PopulatedUpTo(c, start, doc, prefix, n).value, i)
    ensures forall i :: n <= i < |start| ==> PopulatedUpTo(c, start, doc, prefix, n).value[i] == start[i]
  {
    if n > 0 {
      PopulatedUpToSlots(c, start, doc, prefix, n - 1);
      var before := PopulatedUpTo(c, start, doc, prefix, n - 1).value;
      var after := PopulatedUpTo(c, start, doc, prefix, n).value;
      assert forall i :: 0 <= i < |start| && i != n - 1 ==> after[i] == before[i];
      forall i | 0 <= i < n
        ensures SlotLoaded(c, doc, prefix, start, after, i)
      {
        if i < n - 1 {
          assert SlotLoaded(c, doc, prefix, start, before, i);
        }
      }
    }
  }

  /**
   * After a successful load every discovered field has been handled: a
   * scalar field holds the document's value at its path, or the value the
   * constructor left when the document has none there; a node field holds
   * the instance loaded from its declared class under its path.
   */
  lemma LoadedSlots(c: ClassDecl, doc: map<string, Scalar>, prefix: string)
    requires Loaded(c, doc, prefix).Success?
    ensures Loaded(c, doc, prefix).value.cls == c
    ensures |Loaded(c, doc, prefix).value.values| == |AnnotatedFieldsOf(c)|
    ensures forall i :: 0 <= i < |AnnotatedFieldsOf(c)| ==>
      SlotLoaded(c, doc, prefix, Constructed(c).values, Loaded(c, doc, prefix).value.values, i)
  {
    var fields := AnnotatedFieldsOf(c);
    PopulatedUpToSlots(c, Constructed(c).values, doc, prefix, |fields|);
  }

  /** Every class reachable through discovered node fields has a usable no-argument constructor. */
  predicate AllConstructible(c: ClassDecl)
    decreases Size(c)
  {
    DiscoveredFields(c);
    && c.constructible
    && forall f :: f in AnnotatedFieldsOf(c) && f.kind.NodeField? ==> AllConstructible(f.kind.cls)
  }

  /**
   * loadSection either returns an instance or throws, and it throws exactly
   * when some class it must construct has no usable no-argument
   * constructor; what the document holds makes no difference.
   */
  lemma {:induction false} LoadSucceedsIffConstructible(c: ClassDecl, doc: map<string, Scalar>, prefix: string)
    ensures Loaded(c, doc, prefix).Success? <==> AllConstructible(c)
    decreases Size(c), 1
  {
    DiscoveredFields(c);
    var fields := AnnotatedFieldsOf(c);
    if c.constructible {
      PopulatedUpToSucceeds(c, Constructed(c).values, doc, prefix, |fields|);
    }
  }

  lemma {:induction false} PopulatedUpToSucceeds(c: ClassDecl, start: seq<Value>, doc: map<string, Scalar>, prefix: string, n: nat)
    requires |start| == |AnnotatedFieldsOf(c)| && n <= |start|
    ensures PopulatedUpTo(c, start, doc, prefix, n).Success? <==>
      forall i :: 0 <= i < n && AnnotatedFieldsOf(c)[i].kind.NodeField? ==> AllConstructible(AnnotatedFieldsOf(c)[i].kind.cls)
    decreases Size(c), 0, n
  {
    DiscoveredFields(c);
    if n > 0 {
      var f := AnnotatedFieldsOf(c)[n - 1];
      assert f in AnnotatedFieldsOf(c);
      PopulatedUpToSucceeds(c, start, doc, prefix, n - 1);
      if f.kind.NodeField? {
        LoadSucceedsIffConstructible(f.kind.cls, doc, JoinPath(prefix, f.name));
      }
    }
  }

  /**
   * Every node field of a loaded tree holds an instance of its declared
   * class, all the way down.
   */
  predicate Materialised(inst: Instance)
  {
    && |inst.values| == |AnnotatedFieldsOf(inst.cls)|
    && forall i :: 0 <= i < |inst.values| && AnnotatedFieldsOf(inst.cls)[i].kind.NodeField? ==>
         && inst.values[i].Node?
         && inst.values[i].inst.cls == AnnotatedFieldsOf(inst.cls)[i].kind.cls
         && Materialised(inst.values[i].inst)
  }

  /**
   * A loaded tree has no null node field, even where the document holds no
   * key under that field's path, no field of non-node type holds a node,
   * and it has the shape store expects.
   */
  lemma {:induction false} LoadMaterialises(c: ClassDecl, doc: map<string, Scalar>, prefix: string)
    requires Loaded(c, doc, prefix).Success?
    ensures Materialised(Loaded(c, doc, prefix).value)
    ensures Conforms(Loaded(c, doc, prefix).value)
    ensures forall i :: (0 <= i < |Loaded(c, doc, prefix).value.values| && i < |AnnotatedFieldsOf(c)|
                         && !AnnotatedFieldsOf(c)[i].kind.NodeField?) ==> !Loaded(c, doc, prefix).value.values[i].Node?
    decreases Size(c)
  {
    var inst := Loaded(c, doc, prefix).value;
    var fields := AnnotatedFieldsOf(c);
    LoadedSlots(c, doc, prefix);
    DiscoveredFields(c);
    forall i | 0 <= i < |fields|
      ensures fields[i].kind.NodeField? ==>
        inst.values[i].Node? && inst.values[i].inst.cls == fields[i].kind.cls
        && Materialised(inst.values[i].inst) && Conforms(inst.values[i].inst)
      ensures !fields[i].kind.NodeField? ==> !inst.values[i].Node?
    {
      assert SlotLoaded(c, doc, prefix, Constructed(c).values, inst.values, i);
      var path := JoinPath(prefix, fields[i].name);
      if fields[i].kind.NodeField? {
        assert fields[i] in fields;
        LoadMaterialises(fields[i].kind.cls, doc, path);
        LoadedSlots(fields[i].kind.cls, doc, path);
      }
    }
  }
}
