/**
 * The configuration document (Bukkit's ConfigurationSection /
 * YamlConfiguration) as the binder sees it: a store of values addressed by
 * full dotted paths, with get and set.
 */
module Documents {
  import opened Wrappers
  import opened Schema

  class Document {
    var entries: map<string, Scalar>

    constructor ()
      ensures entries == map[]
    {
      entries := map[];
    }

    /** get(path): the stored value, or None for Java's null when nothing is stored there. */
    function Get(path: string): (v: Option<Scalar>)
      reads this
      ensures v.Some? <==> path in entries
      ensures v.Some? ==> v.value == entries[path]
    {
      if path in entries then Some(entries[path]) else None
    }

    /** set(path, value): stores a non-null value, replacing what was there. */
    method Set(path: string, value: Scalar)
      modifies this
      ensures entries == old(entries)[path := value]
    {
      entries := entries[path := value];
    }
  }

  /** The entries after the calls `set(es[0])`, `set(es[1])`, ... on `m`. */
  function ApplyAll(m: map<string, Scalar>, es: seq<(string, Scalar)>): map<string, Scalar>
  {
    if es == [] then m
    else ApplyAll(m, es[..|es| - 1])[es[|es| - 1].0 := es[|es| - 1].1]
  }

  /** The keys that the calls `es` set. */
  function KeysOf(es: seq<(string, Scalar)>): set<string>
  {
    set e | e in es :: e.0
  }

  lemma {:induction false} ApplyAllConcat(m: map<string, Scalar>, a: seq<(string, Scalar)>, b: seq<(string, Scalar)>)
    ensures ApplyAll(m, a + b) == ApplyAll(ApplyAll(m, a), b)
    decreases |b|
  {
    if b == [] {
      assert a + b == a;
    } else {
      assert (a + b)[..|a + b| - 1] == a + b[..|b| - 1];
      ApplyAllConcat(m, a, b[..|b| - 1]);
    }
  }

  /**
   * When every call sets a key to the value `d` has there, starting from an
   * empty document, the result is `d` restricted to the keys that were set,
   * whatever the order of the calls and however often a key repeats.
   */
  lemma {:induction false} ApplyAllAgreeing(es: seq<(string, Scalar)>, d: map<string, Scalar>)
    requires forall e :: e in es ==> e.0 in d && d[e.0] == e.1
    ensures ApplyAll(map[], es) == map k | k in d && k in KeysOf(es) :: d[k]
  {
    if es != [] {
      var init := es[..|es| - 1];
      var last := es[|es| - 1];
      assert forall e :: e in init ==> e in es;
      ApplyAllAgreeing(init, d);
      assert KeysOf(es) == KeysOf(init) + {last.0} by {
        assert es == init + [last];
      }
    }
  }
}
