/**
 * ModuleRegistry and DogContext: which library modules exist, and which a
 * program has imported.
 */
module Registry {
  import opened Wrappers
  import opened JavaLang
  import opened Exceptions

  /** The library module implementations the toolchain ships. */
  datatype ModuleImpl = IoImpl | MathImpl | TimeImpl | StringImpl | RandomImpl | SystemImpl | JsonImpl

  /** A DogModule: the name it reports and the implementation behind it. */
  datatype DogModule = DogModule(name: string, impl: ModuleImpl)

  // ---- String.CASE_INSENSITIVE_ORDER (on ASCII letters) ----

  function FoldChar(c: char): char
  {
    if 'A' <= c <= 'Z' then (c as int + 32) as char else c
  }

  /** a <= b in the case-insensitive order: the first differing folded character decides,
      and a proper prefix comes first. */
  predicate CaseInsensitiveLe(a: string, b: string)
  {
    if a == [] then true
    else if b == [] then false
    else if FoldChar(a[0]) != FoldChar(b[0]) then FoldChar(a[0]) < FoldChar(b[0])
    else CaseInsensitiveLe(a[1..], b[1..])
  }

  lemma {:induction false} CaseInsensitiveTotal(a: string, b: string)
    ensures CaseInsensitiveLe(a, b) || CaseInsensitiveLe(b, a)
  {
    if a != [] && b != [] && FoldChar(a[0]) == FoldChar(b[0]) {
      CaseInsensitiveTotal(a[1..], b[1..]);
    }
  }

  lemma {:induction false} CaseInsensitiveTransitive(a: string, b: string, c: string)
    requires CaseInsensitiveLe(a, b) && CaseInsensitiveLe(b, c)
    ensures CaseInsensitiveLe(a, c)
  {
    if a != [] && b != [] && c != [] && FoldChar(a[0]) == FoldChar(b[0]) && FoldChar(b[0]) == FoldChar(c[0]) {
      CaseInsensitiveTransitive(a[1..], b[1..], c[1..]);
    }
  }

  predicate SortedCI(names: seq<string>)
  {
    forall i, j :: 0 <= i < j < |names| ==> CaseInsensitiveLe(names[i], names[j])
  }

  class ModuleRegistry {
    var modules: map<string, DogModule>

    constructor ()
      ensures modules == map[]
    {
      modules := map[];
    }

    /** register: maps the module's name to it, replacing any module of that name. */
    method Register(m: DogModule)
      modifies this
      ensures modules == old(modules)[m.name := m]
      ensures Get(m.name) == Some(m)
      ensures forall n :: n != m.name ==> Get(n) == old(Get(n))
    {
      modules := modules[m.name := m];
    }

    predicate Exists(name: string)
      reads this
      ensures Exists(name) <==> Get(name).Some?
    {
      name in modules
    }

    /** get: the module registered under the name, or null (None). */
    function Get(name: string): (r: Option<DogModule>)
      reads this
      ensures r.Some? <==> name in modules
      ensures r.Some? ==> r.value == modules[name]
    {
      if name in modules then Some(modules[name]) else None
    }

    /** The registered names in case-insensitive order (the sort step of available()). */
    method SortedNames() returns (names: seq<string>)
      ensures SortedCI(names)
      ensures |names| == |modules.Keys|
      ensures forall n :: n in names <==> n in modules
      ensures forall i, j :: 0 <= i < j < |names| ==> names[i] != names[j]
    {
      var remaining := modules.Keys;
      names := [];
      while remaining != {}
        invariant remaining <= modules.Keys
        invariant forall n :: n in names <==> n in modules.Keys - remaining
        invariant |names| + |remaining| == |modules.Keys|
        invariant forall i, j :: 0 <= i < j < |names| ==> names[i] != names[j]
        invariant SortedCI(names)
        decreases |remaining|
      {
        var k :| k in remaining;
        var j := 0;
        while j < |names| && CaseInsensitiveLe(names[j], k)
          invariant 0 <= j <= |names|
          invariant forall i :: 0 <= i < j ==> CaseInsensitiveLe(names[i], k)
        {
          j := j + 1;
        }
        if j < |names| {
          CaseInsensitiveTotal(names[j], k);
          forall i | j <= i < |names|
            ensures CaseInsensitiveLe(k, names[i])
          {
            if i > j {
              CaseInsensitiveTransitive(k, names[j], names[i]);
            }
          }
        }
        InsertKeepsSorted(names, j, k);
        InsertKeepsDistinct(names, j, k);
        names := names[..j] + [k] + names[j..];
        remaining := remaining - {k};
      }
    }

    /** available(): the registered names, sorted case-insensitively and joined by ", ". */
    method Available() returns (s: string)
      ensures exists names: seq<string> ::
        SortedCI(names) && |names| == |modules.Keys| && (forall n :: n in names <==> n in modules) && s == Join(names, ", ")
    {
      var names := SortedNames();
      s := Join(names, ", ");
    }
  }

  lemma InsertKeepsSorted(names: seq<string>, j: nat, k: string)
    requires j <= |names| && SortedCI(names)
    requires forall i :: 0 <= i < j ==> CaseInsensitiveLe(names[i], k)
    requires forall i :: j <= i < |names| ==> CaseInsensitiveLe(k, names[i])
    ensures SortedCI(names[..j] + [k] + names[j..])
  {
    var r := names[..j] + [k] + names[j..];
    forall a, b | 0 <= a < b < |r|
      ensures CaseInsensitiveLe(r[a], r[b])
    {
      if b < j {
        assert r[a] == names[a] && r[b] == names[b];
      } else if b == j {
        assert r[a] == names[a];
      } else if a < j {
        assert r[a] == names[a] && r[b] == names[b - 1];
      } else if a == j {
        assert r[b] == names[b - 1];
      } else {
        assert r[a] == names[a - 1] && r[b] == names[b - 1];
      }
    }
  }

  lemma InsertKeepsDistinct(names: seq<string>, j: nat, k: string)
    requires j <= |names| && k !in names
    requires forall a, b :: 0 <= a < b < |names| ==> names[a] != names[b]
    ensures var r := names[..j] + [k] + names[j..];
      && (forall n :: n in r <==> n in names || n == k)
      && (forall a, b :: 0 <= a < b < |r| ==> r[a] != r[b])
  {
    var r := names[..j] + [k] + names[j..];
    assert names == names[..j] + names[j..];
    forall a, b | 0 <= a < b < |r|
      ensures r[a] != r[b]
    {
      if b < j {
        assert r[a] == names[a] && r[b] == names[b];
      } else if b == j {
        assert r[a] == names[a];
      } else if a < j {
        assert r[a] == names[a] && r[b] == names[b - 1];
      } else if a == j {
        assert r[b] == names[b - 1];
      } else {
        assert r[a] == names[a - 1] && r[b] == names[b - 1];
      }
    }
  }

  /** DogContext: the registry a program runs against and the set of modules it imported. */
  class DogContext {
    const registry: ModuleRegistry
    var imported: set<string>

    constructor (registry: ModuleRegistry)
      ensures this.registry == registry && imported == {}
    {
      this.registry := registry;
      imported := {};
    }

    /** importModule: fails for an unregistered name; otherwise adds the name (idempotently). */
    method ImportModule(name: string, line: int, col: int, fullLine: Option<string>) returns (err: Option<DogError>)
      modifies this
      ensures err.Some? <==> !registry.Exists(name)
      ensures err.Some? ==> err.value == At(line, col, fullLine, "Unknown module '" + name + "'. Available: io, math")
      ensures err.None? ==> imported == old(imported) + {name}
      ensures err.Some? ==> imported == old(imported)
      ensures old(imported) <= imported
    {
      if !registry.Exists(name) {
        return Some(At(line, col, fullLine, "Unknown module '" + name + "'. Available: io, math"));
      }
      imported := imported + {name};
      return None;
    }

    /** requireImported: fails exactly when the name has not been imported. */
    function RequireImported(name: string, line: int, col: int, fullLine: Option<string>): (err: Option<DogError>)
      reads this
      ensures err.Some? <==> name !in imported
      ensures err.Some? ==> err.value.message == "Module '" + name + "' is not imported. Add: import " + name
    {
      if name !in imported then Some(At(line, col, fullLine, "Module '" + name + "' is not imported. Add: import " + name))
      else None
    }
  }
}
