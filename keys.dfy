/**
 * The keys a schema gives rise to: following discovered fields from a root
 * class, through node fields, down to a field.
 */
module Keys {
  import opened Wrappers
  import opened Schema
  import opened Discovery
  import opened Paths

  /**
   * The field reached from class `c` by following the discovered-field
   * indices `idxs`, every index but the last through a field whose declared
   * type is a config node, with the names of the fields followed.
   */
  function SchemaFieldAt(c: ClassDecl, idxs: seq<nat>): Option<(seq<Identifier>, FieldDecl)>
    decreases Size(c)
  {
    if idxs == [] || idxs[0] >= |AnnotatedFieldsOf(c)| then None
    else
      var f := AnnotatedFieldsOf(c)[idxs[0]];
      if |idxs| == 1 then Some(([f.name], f))
      else
        match f.kind
        case ScalarField(_) => None
        case NodeField(t) =>
          DiscoveredFields(c);
          assert f in AnnotatedFieldsOf(c);
          match SchemaFieldAt(t, idxs[1..])
          case None => None
          case Some(p) => Some(([f.name] + p.0, p.1))
  }

  /** `key` is the path under `prefix` of some scalar field of the schema rooted at `c`. */
  ghost predicate IsScalarKey(c: ClassDecl, prefix: string, key: string)
  {
    exists idxs :: SchemaFieldAt(c, idxs).Some? && SchemaFieldAt(c, idxs).value.1.kind.ScalarField?
                   && Qualify(prefix, SchemaFieldAt(c, idxs).value.0) == key
  }
}
