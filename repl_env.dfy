/** The global scope `replEnv` of src/replEnv.ts: a root Environment populated step
    by step with the natives and the constant bindings. */
module ReplEnv {
  import opened Wrappers
  import opened Values
  import opened Env
  import opened Natives

  /** The record `defineChipmunkFunction` binds: a native, not user-defined, named by its key. */
  function NativeFunction(name: string, op: NativeOp): (r: Value) {
    Function(Native(op), false, name)
  }

  /** `defineChipmunkFunction(name, callable)`: binds `name` in `env` to a native Function
      value that carries `name` as its own name; every other binding stays as it was. */
  method DefineNative(env: Environment<Value>, name: string, op: NativeOp)
    requires env.Valid()
    modifies env
    ensures env.Valid()
    ensures env.scope == old(env.scope)[name := NativeFunction(name, op)]
    ensures env.Get(name) == Some(NativeFunction(name, op))
    ensures env.Get(name).value.Function? && !env.Get(name).value.isUserDefined
    ensures env.Get(name).value.name == name
    ensures forall k :: k != name ==> env.Get(k) == old(env.Get(k))
  {
    env.Set(name, NativeFunction(name, op));
  }

  /** The bindings of the global scope once the modelled natives and the constants
      `nil`, `true` and `false` are registered. */
  function BaseBindings(): (r: map<string, Value>) {
    map[
      "=" := NativeFunction("=", EqualsOp),
      "length" := NativeFunction("length", LengthOp),
      "nth" := NativeFunction("nth", NthOp),
      "slice" := NativeFunction("slice", SliceOp),
      "join" := NativeFunction("join", JoinOp),
      "concat" := NativeFunction("concat", ConcatOp),
      "do" := NativeFunction("do", DoOp),
      "nil" := Nil,
      "true" := Boolean(true),
      "false" := Boolean(false)
    ]
  }

  /** A lookup answered a native Function value, and calling it runs `native`. */
  ghost predicate Runs(f: Option<Value>, native: seq<Value> -> Result<Value>) {
    f.Some? && f.value.Function? && f.value.callable.Native?
    && forall args :: CallNative(f.value.callable.op, args) == native(args)
  }

  /** Each native in the base bindings runs its Natives function. */
  lemma BaseNativesRun()
    ensures Runs(Some(BaseBindings()["="]), Equals) && Runs(Some(BaseBindings()["length"]), Length)
    ensures Runs(Some(BaseBindings()["nth"]), Nth) && Runs(Some(BaseBindings()["slice"]), Slice)
    ensures Runs(Some(BaseBindings()["join"]), Join) && Runs(Some(BaseBindings()["concat"]), Concat)
    ensures Runs(Some(BaseBindings()["do"]), Do)
  {
  }

  /** Builds the global scope in the order src/replEnv.ts does: a new root scope, the
      natives, then the constants. */
  method NewReplEnv() returns (env: Environment<Value>)
    ensures fresh(env) && env.Valid() && env.parent == null
    ensures env.scope == BaseBindings()
    ensures env.Get("nil") == Some(Nil)
    ensures env.Get("true") == Some(Boolean(true))
    ensures env.Get("false") == Some(Boolean(false))
    ensures env.Get("length") == Some(Function(Native(LengthOp), false, "length"))
    ensures forall k :: env.Get(k) == if k in BaseBindings() then Some(BaseBindings()[k]) else None
    ensures Runs(env.Get("="), Equals) && Runs(env.Get("length"), Length)
    ensures Runs(env.Get("nth"), Nth) && Runs(env.Get("slice"), Slice)
    ensures Runs(env.Get("join"), Join) && Runs(env.Get("concat"), Concat)
    ensures Runs(env.Get("do"), Do)
  {
    env := new Environment(null);
    DefineNative(env, "=", EqualsOp);
    DefineNative(env, "length", LengthOp);
    DefineNative(env, "nth", NthOp);
    DefineNative(env, "slice", SliceOp);
    DefineNative(env, "join", JoinOp);
    DefineNative(env, "concat", ConcatOp);
    DefineNative(env, "do", DoOp);
    env.Set("nil", Nil);
    env.Set("true", Boolean(true));
    env.Set("false", Boolean(false));
    BaseNativesRun();
  }

  /** A name bound in the global scope can be shadowed in a call scope below it: the
      new scope sees its own binding, while the global scope keeps the native, and
      every other name still resolves through to the global scope. */
  method ShadowInCallScope(global: Environment<Value>, v: Value) returns (call: Environment<Value>)
    requires global.Valid() && global.Get("length") == Some(NativeFunction("length", LengthOp))
    ensures fresh(call) && call.Valid() && call.parent == global
    ensures call.Get("length") == Some(v)
    ensures global.Get("length") == Some(NativeFunction("length", LengthOp))
    ensures forall k :: k != "length" ==> call.Get(k) == global.Get(k)
  {
    call := new Environment(global);
    call.Set("length", v);
  }
}
