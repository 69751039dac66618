/** Lexical scopes of the semantic analysis (popsi.analysis.Environment): a chain of scopes,
    each with a value namespace and a type namespace, searched innermost first. */
module Env {
  import opened Wrappers

  /** Handles into the symbol table's arenas. */
  type FunctionId = nat
  type LocalId = nat
  type TypeId = nat
  type RecordId = nat

  /** What a value name denotes. */
  datatype EnvEntry = Function(functionId: FunctionId) | Local(localId: LocalId)

  /** What a type name denotes. */
  datatype TypeEnvEntry = Type(typeId: TypeId) | Record(recordId: RecordId)

  /** The reference lookup: the entry for `key` in the first scope, innermost first, that
      has one. */
  function LookupFirst<V>(scopes: seq<map<string, V>>, key: string): Option<V>
  {
    if |scopes| == 0 then None
    else if key in scopes[0] then Some(scopes[0][key])
    else LookupFirst(scopes[1..], key)
  }

  /** The lookup finds something iff some scope has the key, and then it is that of the
      first such scope. */
  lemma {:induction false} LookupFirstFindsFirst<V>(scopes: seq<map<string, V>>, key: string)
    ensures LookupFirst(scopes, key).None? <==> forall i :: 0 <= i < |scopes| ==> key !in scopes[i]
    ensures LookupFirst(scopes, key).Some? ==>
      exists i :: 0 <= i < |scopes| && key in scopes[i] && LookupFirst(scopes, key).value == scopes[i][key]
        && forall j :: 0 <= j < i ==> key !in scopes[j]
  {
    if |scopes| > 0 && key !in scopes[0] {
      var rest := scopes[1..];
      LookupFirstFindsFirst(rest, key);
      forall i | 0 < i < |scopes| ensures scopes[i] == rest[i - 1] { }
      if LookupFirst(rest, key).Some? {
        var i :| 0 <= i < |rest| && key in rest[i] && LookupFirst(rest, key).value == rest[i][key]
          && forall j :: 0 <= j < i ==> key !in rest[j];
        assert scopes[i + 1] == rest[i];
        forall j | 0 <= j < i + 1 ensures key !in scopes[j] {
          if j > 0 { assert scopes[j] == rest[j - 1]; }
        }
      }
    }
  }

  /** Binding a key in the innermost scope makes the lookup find it there and leaves every
      other key's lookup as it was. */
  lemma LookupAfterBindInnermost<V>(scopes: seq<map<string, V>>, key: string, v: V, other: string)
    requires |scopes| > 0
    ensures LookupFirst(scopes[0 := scopes[0][key := v]], key) == Some(v)
    ensures other != key ==>
      LookupFirst(scopes[0 := scopes[0][key := v]], other) == LookupFirst(scopes, other)
  {
    assert scopes[0 := scopes[0][key := v]][1..] == scopes[1..];
  }

  class Environment {
    var values: map<string, EnvEntry>
    var types: map<string, TypeEnvEntry>
    /** The enclosing scope, fixed at construction. */
    const enclosing: Option<Environment>
    /** The enclosing scopes, nearest first. */
    ghost const ancestors: seq<Environment>

    /** The chain of enclosing links ends, and `ancestors` lists it. */
    ghost predicate Valid()
      decreases |ancestors|
    {
      match enclosing
      case None => ancestors == []
      case Some(parent) =>
        && |ancestors| > 0
        && ancestors[0] == parent
        && parent.ancestors == ancestors[1..]
        && parent.Valid()
    }

    /** This scope and its enclosing scopes. */
    ghost function Repr(): set<Environment>
    {
      {this} + (set a | a in ancestors)
    }

    /** Every scope on the chain is valid, and lists the rest of the chain as its ancestors. */
    lemma {:induction false} AncestorsValid()
      requires Valid()
      ensures forall j :: 0 <= j < |ancestors| ==> ancestors[j].Valid() && ancestors[j].ancestors == ancestors[j + 1..]
      decreases |ancestors|
    {
      if enclosing.Some? {
        var parent := enclosing.value;
        parent.AncestorsValid();
        forall j | 0 < j < |ancestors|
          ensures ancestors[j].Valid() && ancestors[j].ancestors == ancestors[j + 1..]
        {
          assert ancestors[j] == parent.ancestors[j - 1];
          assert parent.ancestors[j..] == ancestors[j + 1..];
        }
      }
    }

    /** The chain is acyclic: no scope encloses itself. */
    lemma NotOwnAncestor()
      requires Valid()
      ensures this !in ancestors
      ensures enclosing.Some? ==> enclosing.value.Repr() < Repr() && this !in enclosing.value.Repr()
    {
      AncestorsValid();
      forall j | 0 <= j < |ancestors| ensures ancestors[j] != this {
        assert |ancestors[j].ancestors| == |ancestors| - j - 1;
      }
      if enclosing.Some? {
        var parent := enclosing.value;
        forall a | a in parent.ancestors ensures a in ancestors {
          var j :| 0 <= j < |parent.ancestors| && parent.ancestors[j] == a;
          assert ancestors[j + 1] == a;
        }
      }
    }

    /** The value namespaces along the chain, innermost first. */
    ghost function ValueScopes(): (r: seq<map<string, EnvEntry>>)
      requires Valid()
      reads Repr()
      ensures |r| == |ancestors| + 1 && r[0] == values
      decreases |ancestors|
    {
      NotOwnAncestor();
      [values] + if enclosing.Some? then enclosing.value.ValueScopes() else []
    }

    /** The type namespaces along the chain, innermost first. */
    ghost function TypeScopes(): (r: seq<map<string, TypeEnvEntry>>)
      requires Valid()
      reads Repr()
      ensures |r| == |ancestors| + 1 && r[0] == types
      decreases |ancestors|
    {
      NotOwnAncestor();
      [types] + if enclosing.Some? then enclosing.value.TypeScopes() else []
    }

    /** The root scope. */
    constructor Root()
      ensures Valid()
      ensures values == map[] && types == map[] && enclosing == None
    {
      values := map[];
      types := map[];
      enclosing := None;
      ancestors := [];
    }

    /** A scope nested in `parent`. */
    constructor Child(parent: Environment)
      requires parent.Valid()
      ensures Valid()
      ensures values == map[] && types == map[] && enclosing == Some(parent)
      ensures ValueScopes() == [map[]] + parent.ValueScopes()
      ensures TypeScopes() == [map[]] + parent.TypeScopes()
    {
      values := map[];
      types := map[];
      enclosing := Some(parent);
      ancestors := [parent] + parent.ancestors;
      new;
      assert ([parent] + parent.ancestors)[1..] == parent.ancestors;
    }

    /** Looks a value name up in this scope, then in each enclosing scope in turn. */
    function Get(key: string): (r: Option<EnvEntry>)
      requires Valid()
      reads Repr()
      ensures r == LookupFirst(ValueScopes(), key)
      ensures r.None? <==> forall i :: 0 <= i < |ValueScopes()| ==> key !in ValueScopes()[i]
      ensures r.Some? ==>
        exists i :: 0 <= i < |ValueScopes()| && key in ValueScopes()[i] && r.value == ValueScopes()[i][key]
          && forall j :: 0 <= j < i ==> key !in ValueScopes()[j]
      decreases |ancestors|
    {
      NotOwnAncestor();
      LookupFirstFindsFirst(ValueScopes(), key);
      if key in values then Some(values[key])
      else if enclosing.Some? then
        var r := enclosing.value.Get(key);
        assert ValueScopes()[1..] == enclosing.value.ValueScopes();
        r
      else None
    }

    /** Looks a type name up in this scope, then in each enclosing scope in turn. */
    function GetType(key: string): (r: Option<TypeEnvEntry>)
      requires Valid()
      reads Repr()
      ensures r == LookupFirst(TypeScopes(), key)
      ensures r.None? <==> forall i :: 0 <= i < |TypeScopes()| ==> key !in TypeScopes()[i]
      ensures r.Some? ==>
        exists i :: 0 <= i < |TypeScopes()| && key in TypeScopes()[i] && r.value == TypeScopes()[i][key]
          && forall j :: 0 <= j < i ==> key !in TypeScopes()[j]
      decreases |ancestors|
    {
      NotOwnAncestor();
      LookupFirstFindsFirst(TypeScopes(), key);
      if key in types then Some(types[key])
      else if enclosing.Some? then
        var r := enclosing.value.GetType(key);
        assert TypeScopes()[1..] == enclosing.value.TypeScopes();
        r
      else None
    }

    /** Binds a value name in this scope, replacing any earlier binding here. */
    method Put(key: string, entry: EnvEntry)
      requires Valid()
      modifies this
      ensures Valid()
      ensures values == old(values)[key := entry] && types == old(types)
      ensures ValueScopes() == old(ValueScopes())[0 := values] && TypeScopes() == old(TypeScopes())
      ensures Get(key) == Some(entry)
      ensures forall k :: k != key ==> Get(k) == old(Get(k))
      ensures forall k :: GetType(k) == old(GetType(k))
      ensures enclosing.Some? ==> forall k :: enclosing.value.Get(k) == old(enclosing.value.Get(k))
    {
      NotOwnAncestor();
      values := values[key := entry];
      var scopes := old(ValueScopes());
      assert ValueScopes() == scopes[0 := scopes[0][key := entry]];
      forall k ensures Get(k) == (if k == key then Some(entry) else old(Get(k))) {
        LookupAfterBindInnermost(scopes, key, entry, k);
      }
    }

    /** Binds a type name in this scope, replacing any earlier binding here. */
    method PutType(key: string, entry: TypeEnvEntry)
      requires Valid()
      modifies this
      ensures Valid()
      ensures types == old(types)[key := entry] && values == old(values)
      ensures TypeScopes() == old(TypeScopes())[0 := types] && ValueScopes() == old(ValueScopes())
      ensures GetType(key) == Some(entry)
      ensures forall k :: k != key ==> GetType(k) == old(GetType(k))
      ensures forall k :: Get(k) == old(Get(k))
      ensures enclosing.Some? ==> forall k :: enclosing.value.GetType(k) == old(enclosing.value.GetType(k))
    {
      NotOwnAncestor();
      types := types[key := entry];
      var scopes := old(TypeScopes());
      assert TypeScopes() == scopes[0 := scopes[0][key := entry]];
      forall k ensures GetType(k) == (if k == key then Some(entry) else old(GetType(k))) {
        LookupAfterBindInnermost(scopes, key, entry, k);
      }
    }
  }

  /** A child scope shadows a name bound in it, while its parent keeps the old binding. */
  method ShadowingScenario() returns (outer: Option<EnvEntry>, inner: Option<EnvEntry>)
    ensures outer == Some(Local(0)) && inner == Some(Local(1))
  {
    var root := new Environment.Root();
    root.Put("x", Local(0));
    var child := new Environment.Child(root);
    child.Put("x", Local(1));
    outer := root.Get("x");
    inner := child.Get("x");
  }
}
