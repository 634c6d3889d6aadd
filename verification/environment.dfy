/** Model of source/monkey/environment.c: scopes chained through their outer scope. An environment
    is a value here. The C code shares outer scopes by pointer, and a copy shares the entries of
    the table it copies; module Ownership shows what that sharing does once a copy is destroyed,
    and that a value copy is the copy the header describes. */
module Environments {
  import opened Wrappers
  import opened Values

  /** CreateEnvironment: a scope with no bindings of its own inside `outer`, so every name reads
      as it does in `outer`. */
  function CreateEnvironment(outer: Option<Env>): (env: Env)
    ensures env.store == map[] && env.outer == outer
    ensures forall name :: GetEnvironment(env, name) == if outer.Some? then GetEnvironment(outer.value, name) else None
  {
    Env(map[], outer)
  }

  /** CopyEnvironment: a new scope with the same outer scope, into which every entry of `env`'s
      table is inserted. */
  function CopyEnvironment(env: Env): (r: Env)
    ensures r.outer == env.outer
    ensures r.store.Keys == env.store.Keys
    ensures forall name | name in r.store :: r.store[name] == env.store[name]
    ensures r == env
  {
    var created := CreateEnvironment(env.outer);
    created.(store := map name | name in env.store :: env.store[name])
  }

  /** `name` has a non-NULL entry in the table `store`. */
  predicate Binds(store: map<string, Option<Object>>, name: string)
  {
    name in store && store[name].Some?
  }

  /** GetEnvironment: the entry of the innermost scope that binds `name`, or NULL. */
  function GetEnvironment(env: Env, name: string): (r: Option<Object>)
    decreases env
  {
    if Binds(env.store, name) then env.store[name]
    else if env.outer.Some? then GetEnvironment(env.outer.value, name)
    else None
  }

  /** PutEnvironment: insert or replace the entry for `name` in the innermost table. */
  function PutEnvironment(env: Env, name: string, val: Option<Object>): (r: Env)
    ensures r.outer == env.outer
    ensures name in r.store && r.store[name] == val
    ensures forall other | other != name :: (other in r.store <==> other in env.store)
    ensures forall other | other != name && other in env.store :: r.store[other] == env.store[other]
  {
    env.(store := env.store[name := val])
  }

  /** The tables of the scope chain, innermost first: the reference reading of a lookup. */
  function Scopes(env: Env): (r: seq<map<string, Option<Object>>>)
    ensures |r| >= 1 && r[0] == env.store
    decreases env
  {
    [env.store] + if env.outer.Some? then Scopes(env.outer.value) else []
  }

  /** The scopes after the first are the scopes of the outer environment. */
  lemma ScopesTail(env: Env)
    requires env.outer.Some?
    ensures |Scopes(env)| == |Scopes(env.outer.value)| + 1
    ensures forall i | 1 <= i < |Scopes(env)| :: Scopes(env)[i] == Scopes(env.outer.value)[i - 1]
  {
    assert Scopes(env) == [env.store] + Scopes(env.outer.value);
  }

  /** A successful lookup comes from a scope of the chain that binds the name. */
  lemma {:induction false} GetFromScope(env: Env, name: string) returns (i: nat)
    requires GetEnvironment(env, name).Some?
    ensures i < |Scopes(env)| && Binds(Scopes(env)[i], name)
    decreases env
  {
    if Binds(env.store, name) {
      i := 0;
    } else {
      ScopesTail(env);
      var k := GetFromScope(env.outer.value, name);
      i := k + 1;
    }
  }

  /** A lookup reads the entry of a binding scope when no scope inside it binds the name. */
  lemma {:induction false} GetReadsScope(env: Env, name: string, i: nat)
    requires i < |Scopes(env)| && Binds(Scopes(env)[i], name)
    requires forall j | 0 <= j < i :: !Binds(Scopes(env)[j], name)
    ensures GetEnvironment(env, name) == Scopes(env)[i][name]
    decreases env
  {
    if i > 0 {
      assert !Binds(Scopes(env)[0], name);
      ScopesTail(env);
      forall j | 0 <= j < i - 1 ensures !Binds(Scopes(env.outer.value)[j], name) {
        assert !Binds(Scopes(env)[j + 1], name);
      }
      GetReadsScope(env.outer.value, name, i - 1);
    }
  }

  /** Some scope binding the name makes the lookup succeed. */
  lemma {:induction false} ScopeMakesGet(env: Env, name: string, i: nat)
    requires i < |Scopes(env)| && Binds(Scopes(env)[i], name)
    ensures GetEnvironment(env, name).Some?
    decreases env
  {
    if i > 0 && !Binds(env.store, name) {
      ScopesTail(env);
      ScopeMakesGet(env.outer.value, name, i - 1);
    }
  }

  /** A lookup succeeds exactly when some scope of the chain binds the name, and then yields the
      entry of the innermost such scope. */
  lemma GetIsInnermost(env: Env, name: string)
    ensures GetEnvironment(env, name).Some? <==> exists i | 0 <= i < |Scopes(env)| :: Binds(Scopes(env)[i], name)
    ensures forall i | 0 <= i < |Scopes(env)| && Binds(Scopes(env)[i], name)
        && (forall j | 0 <= j < i :: !Binds(Scopes(env)[j], name)) ::
      GetEnvironment(env, name) == Scopes(env)[i][name]
  {
    if GetEnvironment(env, name).Some? {
      var i := GetFromScope(env, name);
    }
    forall i | 0 <= i < |Scopes(env)| && Binds(Scopes(env)[i], name)
      ensures GetEnvironment(env, name).Some?
    {
      ScopeMakesGet(env, name, i);
    }
    forall i | 0 <= i < |Scopes(env)| && Binds(Scopes(env)[i], name)
        && (forall j | 0 <= j < i :: !Binds(Scopes(env)[j], name))
      ensures GetEnvironment(env, name) == Scopes(env)[i][name]
    {
      GetReadsScope(env, name, i);
    }
  }

  /** A new scope binds nothing itself: every lookup goes to the outer scope. */
  lemma CreateLooksOutward(outer: Option<Env>, name: string)
    ensures GetEnvironment(CreateEnvironment(outer), name)
      == if outer.Some? then GetEnvironment(outer.value, name) else None
  {
  }

  /** An entry in the innermost scope shadows every binding of the same name further out. */
  lemma Shadowing(env: Env, name: string, val: Object)
    ensures GetEnvironment(PutEnvironment(env, name, Some(val)), name) == Some(val)
  {
  }

  /** Storing under one name does not change what any other name reads. */
  lemma PutOtherName(env: Env, name: string, val: Option<Object>, other: string)
    requires other != name
    ensures GetEnvironment(PutEnvironment(env, name, val), other) == GetEnvironment(env, other)
  {
  }

  /** A later store under the same name replaces the earlier one. */
  lemma PutReplaces(env: Env, name: string, first: Option<Object>, second: Option<Object>)
    ensures PutEnvironment(PutEnvironment(env, name, first), name, second) == PutEnvironment(env, name, second)
  {
  }

  /** Storing NULL hides nothing: the name then reads as it does in the outer scopes. */
  lemma PutNullLooksOutward(env: Env, name: string)
    ensures GetEnvironment(PutEnvironment(env, name, None), name)
      == if env.outer.Some? then GetEnvironment(env.outer.value, name) else None
  {
  }

  /** A store changes only the innermost table: the scopes further out are those of `env`. */
  lemma PutKeepsOuterScopes(env: Env, name: string, val: Option<Object>)
    ensures Scopes(PutEnvironment(env, name, val))[1..] == Scopes(env)[1..]
  {
  }

  /** A copy reads every name as the original does, and stores into the copy leave the
      original's own names alone. */
  lemma CopyReadsAlike(env: Env, name: string, val: Option<Object>, other: string)
    ensures CopyEnvironment(env).store == env.store
    ensures GetEnvironment(CopyEnvironment(env), other) == GetEnvironment(env, other)
    ensures PutEnvironment(CopyEnvironment(env), name, val).store.Keys == env.store.Keys + {name}
  {
    assert CopyEnvironment(env).store == env.store;
  }
}
