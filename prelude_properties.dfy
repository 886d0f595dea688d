/** What the prelude combinators compute on vectors, stated against reference
    definitions on sequences that do not share the Lisp definitions' shape. */
module PreludeProperties {
  import opened Values
  import opened Natives
  import opened Prelude

  // ---- tail ----

  /** `tail` of a non-empty vector drops exactly its first item; of `[]` it gives `[]`. */
  lemma TailDropsFirst(s: seq<Value>)
    ensures |s| > 0 ==> Tail(Vector(s)) == Ok(Vector(s[1..]))
    ensures |s| > 0 ==> Head(Vector(s)) == Ok(s[0]) && [s[0]] + s[1..] == s
    ensures s == [] ==> Tail(Vector(s)) == Ok(Vector([]))
  {
  }

  // ---- map ----

  /** When `f` succeeds on every item, `map f` gives a vector of the same length whose
      item `i` is `f` of item `i`. */
  lemma {:induction false} MapVector(f: Value -> Result<Value>, s: seq<Value>)
    requires forall i :: 0 <= i < |s| ==> f(s[i]).Ok?
    ensures Map(f, Vector(s)).Ok?
    ensures var r := Map(f, Vector(s)).value;
            r.Vector? && |r.items| == |s|
            && forall i :: 0 <= i < |s| ==> r.items[i] == f(s[i]).value
  {
    if s != [] {
      TailDropsFirst(s);
      MapVector(f, s[1..]);
      var rest := Map(f, Vector(s[1..])).value;
      assert Map(f, Vector(s)) == Join([Vector([f(s[0]).value]), rest]);
      forall i | 0 <= i < |s|
        ensures Map(f, Vector(s)).value.items[i] == f(s[i]).value
      {
        if i > 0 {
          assert s[1..][i - 1] == s[i];
        }
      }
    }
  }

  /** `map f` fails with the error of the first item on which `f` fails. */
  lemma {:induction false} MapFailsAtFirstFailure(f: Value -> Result<Value>, s: seq<Value>, k: nat)
    requires k < |s| && f(s[k]).Err?
    requires forall i :: 0 <= i < k ==> f(s[i]).Ok?
    ensures Map(f, Vector(s)) == Err(f(s[k]).error)
  {
    TailDropsFirst(s);
    if k > 0 {
      MapFailsAtFirstFailure(f, s[1..], k - 1);
    }
  }

  // ---- filter ----

  /** Reference for `filter`: the items of `s` that `p` accepts, in their order,
      built from the back of the sequence. */
  ghost function Kept(p: Value -> Result<Value>, s: seq<Value>): (r: seq<Value>)
    decreases |s|
  {
    if s == [] then []
    else Kept(p, s[..|s| - 1]) + (if Passes(p, s[|s| - 1]) then [s[|s| - 1]] else [])
  }

  /** Adding an item in front of `s` adds it in front of what is kept, if it is kept. */
  lemma {:induction false} KeptCons(p: Value -> Result<Value>, x: Value, s: seq<Value>)
    ensures Kept(p, [x] + s) == (if Passes(p, x) then [x] else []) + Kept(p, s)
    decreases |s|
  {
    if s == [] {
      assert ([x] + s)[..0] == [];
    } else {
      var init := s[..|s| - 1];
      assert ([x] + s)[..|s|] == [x] + init;
      KeptCons(p, x, init);
    }
  }

  /** Exactly the items `p` accepts are kept. */
  lemma {:induction false} KeptMembers(p: Value -> Result<Value>, s: seq<Value>, y: Value)
    ensures y in Kept(p, s) <==> y in s && Passes(p, y)
    ensures |Kept(p, s)| <= |s|
    decreases |s|
  {
    if s != [] {
      KeptMembers(p, s[..|s| - 1], y);
      assert s == s[..|s| - 1] + [s[|s| - 1]];
    }
  }

  /** When `p` succeeds on every item, `filter p` gives the vector of the kept items. */
  lemma {:induction false} FilterVector(p: Value -> Result<Value>, s: seq<Value>)
    requires forall i :: 0 <= i < |s| ==> p(s[i]).Ok?
    ensures Filter(p, Vector(s)) == Ok(Vector(Kept(p, s)))
  {
    if s != [] {
      TailDropsFirst(s);
      FilterVector(p, s[1..]);
      KeptCons(p, s[0], s[1..]);
    }
  }

  // ---- any? and every? ----

  /** `any? p` is true when `p` accepts item `k` and gives a false value, without
      failing, on every item before it. Later items are never looked at. */
  lemma {:induction false} AnyFindsFirstHit(p: Value -> Result<Value>, s: seq<Value>, k: nat)
    requires k < |s| && Passes(p, s[k])
    requires forall i :: 0 <= i < k ==> p(s[i]).Ok? && !Truthy(p(s[i]).value)
    ensures Any(p, Vector(s)) == Ok(Boolean(true))
  {
    TailDropsFirst(s);
    if k > 0 {
      AnyFindsFirstHit(p, s[1..], k - 1);
    }
  }

  /** `any? p` is false when `p` gives a false value, without failing, on every item. */
  lemma {:induction false} AnyNoHit(p: Value -> Result<Value>, s: seq<Value>)
    requires forall i :: 0 <= i < |s| ==> p(s[i]).Ok? && !Truthy(p(s[i]).value)
    ensures Any(p, Vector(s)) == Ok(Boolean(false))
  {
    if s != [] {
      TailDropsFirst(s);
      AnyNoHit(p, s[1..]);
    }
  }

  /** When `p` succeeds on every item, `any? p` tells whether some item is accepted. */
  lemma AnyVector(p: Value -> Result<Value>, s: seq<Value>)
    requires forall i :: 0 <= i < |s| ==> p(s[i]).Ok?
    ensures Any(p, Vector(s)) == Ok(Boolean(exists i :: 0 <= i < |s| && Passes(p, s[i])))
  {
    if exists i :: 0 <= i < |s| && Passes(p, s[i]) {
      var k := FirstHit(p, s);
      AnyFindsFirstHit(p, s, k);
    } else {
      AnyNoHit(p, s);
    }
  }

  /** The least index whose item `p` accepts. */
  lemma {:induction false} FirstHit(p: Value -> Result<Value>, s: seq<Value>) returns (k: nat)
    requires exists i :: 0 <= i < |s| && Passes(p, s[i])
    ensures k < |s| && Passes(p, s[k])
    ensures forall i :: 0 <= i < k ==> !Passes(p, s[i])
  {
    if Passes(p, s[0]) {
      k := 0;
    } else {
      var i :| 0 <= i < |s| && Passes(p, s[i]);
      assert s[1..][i - 1] == s[i];
      var j := FirstHit(p, s[1..]);
      k := j + 1;
      forall i' | 0 <= i' < k
        ensures !Passes(p, s[i'])
      {
        if i' > 0 {
          assert s[1..][i' - 1] == s[i'];
        }
      }
    }
  }

  /** `every?` coincides with `any?` on every argument, whatever its kind. */
  lemma {:induction false} EveryIsAny(p: Value -> Result<Value>, c: Value)
    ensures Every(p, c) == Any(p, c)
    decreases Count(c)
  {
    var empty := IsEmpty(c);
    if empty.Ok? && !Truthy(empty.value) {
      var h := Head(c).value;
      if p(h).Ok? && !Truthy(p(h).value) && Tail(c).Ok? {
        EveryIsAny(p, Tail(c).value);
      }
    }
  }

  /** When `p` succeeds on every item, `All p`, the intended `every?`, tells whether
      every item is accepted. */
  lemma {:induction false} AllVector(p: Value -> Result<Value>, s: seq<Value>)
    requires forall i :: 0 <= i < |s| ==> p(s[i]).Ok?
    ensures All(p, Vector(s)) == Ok(Boolean(forall i :: 0 <= i < |s| ==> Passes(p, s[i])))
  {
    if s != [] {
      TailDropsFirst(s);
      AllVector(p, s[1..]);
      if Passes(p, s[0]) {
        forall i | 0 <= i < |s| && (forall j :: 0 <= j < |s| - 1 ==> Passes(p, s[1..][j]))
          ensures Passes(p, s[i])
        {
          if i > 0 {
            assert s[1..][i - 1] == s[i];
          }
        }
      }
    }
  }

  /** The predicate "is the number 2". */
  function IsTwo(x: Value): (r: Result<Value>) {
    Ok(Boolean(x == Number(2)))
  }

  /** `every?` as written says every item of [1 2] is 2, and every item of [] is not:
      the intended `All` says the opposite in both cases. */
  lemma EveryAsWrittenDisagrees()
    ensures Every(IsTwo, Vector([Number(1), Number(2)])) == Ok(Boolean(true))
    ensures All(IsTwo, Vector([Number(1), Number(2)])) == Ok(Boolean(false))
    ensures Every(IsTwo, Vector([])) == Ok(Boolean(false))
    ensures All(IsTwo, Vector([])) == Ok(Boolean(true))
  {
  }

  // ---- reduce ----

  /** Reference for `reduce`: a left fold over `s`, built from the back of the sequence;
      it stops at the first failing step. */
  function Fold(f: (Value, Value) -> Result<Value>, v: Value, s: seq<Value>): (r: Result<Value>)
    decreases |s|
  {
    if s == [] then Ok(v)
    else
      var acc :- Fold(f, v, s[..|s| - 1]);
      f(acc, s[|s| - 1])
  }

  /** Folding `[x] + s` is one step on `x`, then folding `s` from the new accumulator. */
  lemma {:induction false} FoldCons(f: (Value, Value) -> Result<Value>, v: Value, x: Value, s: seq<Value>)
    ensures f(v, x).Err? ==> Fold(f, v, [x] + s) == Err(f(v, x).error)
    ensures f(v, x).Ok? ==> Fold(f, v, [x] + s) == Fold(f, f(v, x).value, s)
    decreases |s|
  {
    if s == [] {
      assert ([x] + s)[..0] == [];
    } else {
      var init := s[..|s| - 1];
      assert ([x] + s)[..|s|] == [x] + init;
      FoldCons(f, v, x, init);
    }
  }

  /** `reduce f v` over a vector is the left fold of `f` from `v` over its items. */
  lemma {:induction false} ReduceVector(f: (Value, Value) -> Result<Value>, v: Value, s: seq<Value>)
    ensures Reduce(f, v, Vector(s)) == Fold(f, v, s)
    decreases |s|
  {
    if s != [] {
      TailDropsFirst(s);
      FoldCons(f, v, s[0], s[1..]);
      if f(v, s[0]).Ok? {
        ReduceVector(f, f(v, s[0]).value, s[1..]);
      }
    }
  }

  // ---- contains? ----

  /** `contains? c x` on a vector tells whether some item is `=` to `x`, that is, has
      the same `value` property. */
  lemma {:induction false} ContainsVector(s: seq<Value>, x: Value)
    ensures Contains(Vector(s), x) == Ok(Boolean(exists i :: 0 <= i < |s| && Prop(s[i]) == Prop(x)))
  {
    if s != [] {
      TailDropsFirst(s);
      ContainsVector(s[1..], x);
      if Prop(s[0]) != Prop(x) {
        if exists i :: 0 <= i < |s| && Prop(s[i]) == Prop(x) {
          var i :| 0 <= i < |s| && Prop(s[i]) == Prop(x);
          assert s[1..][i - 1] == s[i];
        }
      }
    }
  }

  /** For a number, `contains?` is plain membership. */
  lemma ContainsNumber(s: seq<Value>, n: int)
    ensures Contains(Vector(s), Number(n)) == Ok(Boolean(Number(n) in s))
  {
    ContainsVector(s, Number(n));
    if Number(n) in s {
      var i :| 0 <= i < |s| && s[i] == Number(n);
      assert Prop(s[i]) == Prop(Number(n));
    }
  }

  // ---- reverse ----

  /** Reference for `reverse`: item `i` of the result is item `|s| - 1 - i` of `s`. */
  function Reversed(s: seq<Value>): (r: seq<Value>)
    ensures |r| == |s|
  {
    seq(|s|, i requires 0 <= i < |s| => s[|s| - 1 - i])
  }

  /** `reverse` of a vector is the vector of its items in reverse order. */
  lemma {:induction false} ReverseVector(s: seq<Value>)
    ensures Reverse(Vector(s)) == Ok(Vector(Reversed(s)))
  {
    if s != [] {
      TailDropsFirst(s);
      ReverseVector(s[1..]);
      assert Reversed(s[1..]) + [s[0]] == Reversed(s);
    }
  }

  /** Reversing a vector twice gives it back. */
  lemma ReverseInvolution(s: seq<Value>)
    ensures Reverse(Vector(s)).Ok?
    ensures Reverse(Reverse(Vector(s)).value) == Ok(Vector(s))
  {
    ReverseVector(s);
    ReverseVector(Reversed(s));
    assert Reversed(Reversed(s)) == s;
  }

  // ---- find ----

  /** `find p` gives the first item `p` accepts, when `p` gives a false value,
      without failing, on every item before it. */
  lemma {:induction false} FindFirstHit(p: Value -> Result<Value>, s: seq<Value>, k: nat)
    requires k < |s| && Passes(p, s[k])
    requires forall i :: 0 <= i < k ==> p(s[i]).Ok? && !Truthy(p(s[i]).value)
    ensures Find(p, Vector(s)) == Ok(s[k])
  {
    TailDropsFirst(s);
    if k > 0 {
      FindFirstHit(p, s[1..], k - 1);
    }
  }

  /** `find p` gives `nil` when `p` gives a false value, without failing, on every item. */
  lemma {:induction false} FindNoHit(p: Value -> Result<Value>, s: seq<Value>)
    requires forall i :: 0 <= i < |s| ==> p(s[i]).Ok? && !Truthy(p(s[i]).value)
    ensures Find(p, Vector(s)) == Ok(Nil)
  {
    if s != [] {
      TailDropsFirst(s);
      FindNoHit(p, s[1..]);
    }
  }

  // ---- even? and odd? ----

  /** The intended `odd?` holds exactly of the integers `even?` rejects. */
  lemma OddMeansNotEven(x: int)
    ensures Odd(x) == Boolean(!Even(x).b)
  {
  }

  /** `odd?` as written agrees with the intended one on non-negative integers, but
      calls -3 not odd: JavaScript's `%` gives -1 there, not 1. */
  lemma OddAsWrittenMissesNegatives(x: int)
    ensures x >= 0 ==> OddAsWritten(x) == Odd(x)
    ensures OddAsWritten(-3) == Boolean(false) && Odd(-3) == Boolean(true)
  {
  }
}
