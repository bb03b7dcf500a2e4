/**
 * Path composition, shared by store and load: a field's key is its bare
 * name under an empty prefix, and `prefix + "." + name` otherwise. (The
 * Java guard also treats a null prefix like the empty one.)
 */
module Paths {
  import opened Schema

  function JoinPath(prefix: string, name: Identifier): (path: string)
    ensures |path| > 0
  {
    if prefix == "" then name else prefix + "." + name
  }

  /** The names joined with '.'. */
  function Dotted(names: seq<Identifier>): string
  {
    if names == [] then ""
    else if |names| == 1 then names[0]
    else names[0] + "." + Dotted(names[1..])
  }

  /** The key reached from `prefix` by descending through the fields named `names`, one JoinPath per level. */
  function Qualify(prefix: string, names: seq<Identifier>): string
    decreases |names|
  {
    if names == [] then prefix else Qualify(JoinPath(prefix, names[0]), names[1..])
  }

  lemma QualifyStep(prefix: string, name: Identifier, rest: seq<Identifier>)
    ensures Qualify(prefix, [name] + rest) == Qualify(JoinPath(prefix, name), rest)
  {
    assert ([name] + rest)[1..] == rest;
  }

  /**
   * Descending level by level gives the dot-joined chain of field names,
   * placed after the prefix and a '.' when the prefix is not empty.
   */
  lemma {:induction false} QualifyIsDotted(prefix: string, names: seq<Identifier>)
    requires names != []
    ensures Qualify(prefix, names) == if prefix == "" then Dotted(names) else prefix + "." + Dotted(names)
    decreases |names|
  {
    var next := JoinPath(prefix, names[0]);
    if |names| > 1 {
      QualifyIsDotted(next, names[1..]);
      if prefix != "" {
        assert next + "." + Dotted(names[1..]) == prefix + "." + (names[0] + "." + Dotted(names[1..]));
      }
    }
  }

  lemma DotInside(p: string, n: Identifier, j: int)
    requires 0 <= j < |n|
    ensures (p + "." + n)[|p| + 1 + j] != '.'
  {
    assert (p + "." + n)[|p| + 1 + j] == n[j];
    assert n[j] in n;
  }

  /**
   * Composition loses nothing: the key determines both the prefix and the
   * field name, because a name never contains '.'.
   */
  lemma JoinPathInjective(p1: string, n1: Identifier, p2: string, n2: Identifier)
    requires JoinPath(p1, n1) == JoinPath(p2, n2)
    ensures p1 == p2 && n1 == n2
  {
    var k := JoinPath(p1, n1);
    if p1 != "" && p2 != "" {
      if |n1| == |n2| {
        assert n1 == k[|k| - |n1|..] == n2;
        assert p1 == k[..|p1|] == p2;
      } else if |n1| < |n2| {
        DotInside(p2, n2, |k| - |n1| - 1 - |p2| - 1);
      } else {
        DotInside(p1, n1, |k| - |n2| - 1 - |p1| - 1);
      }
    }
  }
}
