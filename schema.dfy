/**
 * The reflective view of config-node classes, made explicit.
 *
 * In the Java library a class is inspected with reflection: its declared
 * fields, whether each carries the @ConfigNode annotation (with its comment
 * lines), the field's declared type, the superclass, and whether the class
 * is assignable to AnnotatedConfigNode. Here a class is a value holding all
 * of that. A field whose declared type is a config-node class holds that
 * class's declaration, so the schema is a finite tree: a class with a field
 * of its own node type, for which loadSection would recurse forever, cannot
 * be written down.
 */
module Schema {
  import opened Wrappers

  /** A Java field name: non-empty and without '.', so it is exactly one path segment. */
  type Identifier = s: string | |s| > 0 && '.' !in s witness "x"

  /** A value stored in the document. The binder never looks inside one. */
  datatype Scalar = Text(text: string) | Number(number: int) | Flag(flag: bool)

  /** What a field's declared type is, as far as the binder cares. */
  datatype Kind =
    | ScalarField(initial: Option<Scalar>)  // any other type; `initial` is what the no-argument constructor leaves there
    | NodeField(cls: ClassDecl)             // a type assignable to AnnotatedConfigNode

  /** One declared field; `annotated` and `comments` are the @ConfigNode annotation. */
  datatype FieldDecl = FieldDecl(name: Identifier, annotated: bool, comments: seq<string>, kind: Kind)

  /**
   * One class: its declared fields in declaration order, its superclass
   * (None above the root of the hierarchy), whether it is assignable to
   * AnnotatedConfigNode, and whether its no-argument constructor can be
   * found and run without throwing.
   *
   * Nothing here forces the class of a NodeField to have `isNode`, or the
   * superclass of a non-node class to be a non-node class, as Java's type
   * hierarchy does. Such schemas are allowed: every property proved about
   * the binder holds for them too, and a NodeField of a non-node class
   * simply discovers no fields.
   */
  datatype ClassDecl = ClassDecl(
    name: string,
    isNode: bool,
    constructible: bool,
    fields: seq<FieldDecl>,
    superclass: Option<ClassDecl>)

  /** The runtime value of a field: null, a plain object, or a nested node instance. */
  datatype Value = Null | Leaf(scalar: Scalar) | Node(inst: Instance)

  /**
   * A node instance: its runtime class and the values of that class's
   * annotated fields, in the order field discovery lists them.
   */
  datatype Instance = Instance(cls: ClassDecl, values: seq<Value>)

  /** A measure of a class declaration: strictly above every class nested in it. */
  function Size(c: ClassDecl): nat
    decreases c, |c.fields| + 1
  {
    1 + FieldsSize(c, |c.fields|) + (if c.superclass.Some? then Size(c.superclass.value) else 0)
  }

  function FieldsSize(c: ClassDecl, n: nat): nat
    requires n <= |c.fields|
    decreases c, n
  {
    if n == 0 then 0
    else FieldsSize(c, n - 1) + (match c.fields[n - 1].kind case NodeField(t) => Size(t) case ScalarField(_) => 0)
  }

  /** Every class that a declared field nests is smaller than the declaring class. */
  lemma {:induction false} DeclaredNestedSmaller(c: ClassDecl, n: nat, i: nat)
    requires i < n <= |c.fields| && c.fields[i].kind.NodeField?
    ensures Size(c.fields[i].kind.cls) <= FieldsSize(c, n)
    decreases n
  {
    if i < n - 1 {
      DeclaredNestedSmaller(c, n - 1, i);
    }
  }
}
