/** The interpreter's scope chain (src/environment.js). */
module Env {
  import opened Wrappers

  /** One scope: a mutable table of bindings and a parent fixed at construction.
      The parent chain is acyclic; the ghost `ancestors` lists it, nearest first,
      and its length is what lookup recursion decreases. */
  class Environment<V> {
    const parent: Environment?<V>
    var scope: map<string, V>
    ghost const ancestors: seq<Environment<V>>

    /** The chain is well formed: `ancestors` is the parent followed by the parent's ancestors. */
    ghost predicate Valid()
      decreases |ancestors|
    {
      if parent == null then ancestors == []
      else ancestors == [parent] + parent.ancestors && parent.Valid()
    }

    /** This scope followed by its ancestors: the scopes a lookup may visit, in visiting order. */
    ghost function Chain(): seq<Environment<V>>
    {
      [this] + ancestors
    }

    /** The bindings visible from this scope: each scope's table overrides those above it. */
    ghost function View(): map<string, V>
      requires Valid()
      reads set e | e in Chain()
      decreases |ancestors|
    {
      if parent == null then scope
      else
        parent.View() + scope
    }

    /** Creates an empty scope below `parent` (a root scope when `parent` is null). */
    constructor (parent: Environment?<V>)
      requires parent != null ==> parent.Valid()
      ensures Valid()
      ensures this.parent == parent && scope == map[]
      ensures forall k :: Get(k) == if parent == null then None else parent.Get(k)
    {
      this.parent := parent;
      this.scope := map[];
      this.ancestors := if parent == null then [] else [parent] + parent.ancestors;
    }

    /** No scope is its own ancestor, and every ancestor is well formed and strictly shallower. */
    lemma {:induction false} Acyclic()
      requires Valid()
      ensures this !in ancestors
      ensures forall a :: a in ancestors ==> a.Valid() && |a.ancestors| < |ancestors|
      decreases |ancestors|
    {
      if parent != null {
        parent.Acyclic();
        forall a | a in ancestors
          ensures a.Valid() && |a.ancestors| < |ancestors|
        {
          if a != parent {
            assert a in parent.ancestors;
          }
        }
      }
    }

    /** Lookup: the nearest binding of `key` on the chain, or None (JavaScript `null`)
        when no scope binds it. Never fails. */
    function Get(key: string): (r: Option<V>)
      requires Valid()
      reads set e | e in Chain()
      ensures key in scope ==> r == Some(scope[key])
      ensures r == if key in View() then Some(View()[key]) else None
      ensures r.None? <==> forall e :: e in Chain() ==> key !in e.scope
      decreases |ancestors|
    {
      if key in scope then
        Some(scope[key])
      else if parent != null then
        assert Chain() == [this] + parent.Chain();
        parent.Get(key)
      else
        None
    }

    /** Binds `key` in this scope only: the new binding wins locally, no other key
        changes, and nothing visible from the parent changes. */
    method Set(key: string, value: V)
      requires Valid()
      modifies this
      ensures Valid()
      ensures scope == old(scope)[key := value]
      ensures Get(key) == Some(value)
      ensures forall k :: k != key ==> Get(k) == old(Get(k))
      ensures parent != null ==> parent.View() == old(parent.View())
    {
      Acyclic();
      assert parent != null ==> this !in parent.Chain();
      scope := scope[key := value];
    }
  }
}
