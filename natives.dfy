/** The native built-ins registered in src/replEnv.ts that work on collections and
    strings: `=`, `length`, `nth`, `slice`, `join`, `concat` and `do`. Each takes the
    already-evaluated argument list and builds a new value, or fails the way the
    JavaScript code does: an explicit `throw`, a `TypeError` from reading a property
    of an argument that was not passed, or a plain `undefined` result. */
module Natives {
  import opened Values

  const LengthMessage := "length() takes a list, vector, or string"
  const NthMessage := "nth() takes a list, string, or vector and a number"
  const SliceMessage := "slice() takes a vector and two numbers"
  const JoinMessage := "join() takes two vectors"

  /** `String.prototype.charAt`: the one-character string at `i`, or "" outside the string. */
  function CharAt(text: string, i: int): (r: string)
    ensures 0 <= i < |text| ==> r == [text[i]]
    ensures !(0 <= i < |text|) ==> r == ""
  {
    if 0 <= i < |text| then [text[i]] else ""
  }

  /** How `Array.prototype.slice` turns a relative index into a position: a negative
      index counts from the end, and the result is clamped to `[0, len]`. */
  function ClampIndex(i: int, len: nat): (r: nat)
    ensures r <= len
    ensures 0 <= i <= len ==> r == i
    ensures i > len ==> r == len
    ensures i < 0 ==> r == if len + i < 0 then 0 else len + i
  {
    if i < 0 then (if len + i < 0 then 0 else len + i)
    else if i < len then i
    else len
  }

  /** `=`: compares the two arguments' `value` properties with `===`. */
  function Equals(args: seq<Value>): (r: Result<Value>)
    ensures r.Ok? <==> |args| >= 2
    ensures r.Err? ==> r.error == MissingArgument
    ensures r.Ok? ==> r.value == Boolean(Prop(args[0]) == Prop(args[1]))
  {
    if |args| < 2 then Err(MissingArgument)
    else Ok(Boolean(Prop(args[0]) == Prop(args[1])))
  }

  /** `length`: the item count of a list or vector, the character count of a string. */
  function Length(args: seq<Value>): (r: Result<Value>)
    ensures r.Ok? <==> |args| > 0 && IsCollection(args[0])
    ensures r.Ok? ==> r.value == Number(Count(args[0]))
    ensures |args| == 0 ==> r == Err(MissingArgument)
    ensures |args| > 0 && !IsCollection(args[0]) ==> r == Err(Thrown(LengthMessage))
  {
    if |args| == 0 then Err(MissingArgument)
    else
      match args[0]
      case List(items) => Ok(Number(|items|))
      case String(text) => Ok(Number(|text|))
      case Vector(items) => Ok(Number(|items|))
      case _ => Err(Thrown(LengthMessage))
  }

  /** `nth`: item `i` of a list or vector (`undefined` when `i` is outside it), or the
      one-character string at `i` of a string ("" when outside it). */
  function Nth(args: seq<Value>): (r: Result<Value>)
    ensures r.Ok? <==> |args| >= 2 && IsCollection(args[0]) && args[1].Number?
                       && (args[0].String? || 0 <= args[1].n < |args[0].items|)
    ensures r.Ok? && !args[0].String? ==> r.value == args[0].items[args[1].n]
    ensures r.Ok? && args[0].String? ==>
              r.value.String? && r.value.text == CharAt(args[0].text, args[1].n)
    ensures r == Err(Undefined) <==>
              |args| >= 2 && (args[0].List? || args[0].Vector?) && args[1].Number?
              && !(0 <= args[1].n < |args[0].items|)
    ensures r == Err(MissingArgument) <==> |args| == 0 || (|args| == 1 && IsCollection(args[0]))
    ensures r.Err? && r.error != Undefined && r.error != MissingArgument ==> r.error == Thrown(NthMessage)
  {
    if |args| == 0 then Err(MissingArgument)
    else if !IsCollection(args[0]) then Err(Thrown(NthMessage))
    else if |args| < 2 then Err(MissingArgument)
    else if !args[1].Number? then Err(Thrown(NthMessage))
    else if args[0].String? then Ok(String(CharAt(args[0].text, args[1].n)))
    else if 0 <= args[1].n < |args[0].items| then Ok(args[0].items[args[1].n])
    else Err(Undefined)
  }

  /** `slice`: a new vector of the items between two relative positions of a vector
      (empty when the end does not lie after the start). */
  function Slice(args: seq<Value>): (r: Result<Value>)
    ensures r.Ok? <==> |args| >= 3 && args[0].Vector? && args[1].Number? && args[2].Number?
    ensures r.Ok? ==>
              var s := args[0].items;
              var lo := ClampIndex(args[1].n, |s|);
              var hi := ClampIndex(args[2].n, |s|);
              r.value == Vector(if lo <= hi then s[lo..hi] else [])
    ensures r.Err? ==> r.error == MissingArgument || r.error == Thrown(SliceMessage)
  {
    if |args| == 0 then Err(MissingArgument)
    else if !args[0].Vector? then Err(Thrown(SliceMessage))
    else if |args| < 2 then Err(MissingArgument)
    else if !args[1].Number? then Err(Thrown(SliceMessage))
    else if |args| < 3 then Err(MissingArgument)
    else if !args[2].Number? then Err(Thrown(SliceMessage))
    else
      var s := args[0].items;
      var lo := ClampIndex(args[1].n, |s|);
      var hi := ClampIndex(args[2].n, |s|);
      Ok(Vector(if lo <= hi then s[lo..hi] else []))
  }

  /** `join`: a new vector holding the first vector's items followed by the second's. */
  function Join(args: seq<Value>): (r: Result<Value>)
    ensures r.Ok? <==> |args| >= 2 && args[0].Vector? && args[1].Vector?
    ensures r.Ok? ==> r.value == Vector(args[0].items + args[1].items)
    ensures r.Err? ==> r.error == MissingArgument || r.error == Thrown(JoinMessage)
  {
    if |args| == 0 then Err(MissingArgument)
    else if !args[0].Vector? then Err(Thrown(JoinMessage))
    else if |args| < 2 then Err(MissingArgument)
    else if !args[1].Vector? then Err(Thrown(JoinMessage))
    else Ok(Vector(args[0].items + args[1].items))
  }

  /** The text `concat` produces: each argument's `value` property rendered as by
      `Array.prototype.join("")`, in argument order. */
  function ConcatText(args: seq<Value>): (r: string)
  {
    if args == [] then "" else PrimText(Prop(args[0])) + ConcatText(args[1..])
  }

  /** `concat`: never fails; a string argument contributes its text. */
  function Concat(args: seq<Value>): (r: Result<Value>)
    ensures r.Ok? && r.value.String?
    ensures r.value.text == ConcatText(args)
  {
    Ok(String(ConcatText(args)))
  }

  /** The native `do`: its last argument (`undefined` when called with none). */
  function Do(args: seq<Value>): (r: Result<Value>)
    ensures |args| > 0 ==> r == Ok(args[|args| - 1])
    ensures |args| == 0 ==> r == Err(Undefined)
  {
    if |args| == 0 then Err(Undefined) else Ok(args[|args| - 1])
  }

  /** Runs the native a Function value's callable names. */
  function CallNative(op: NativeOp, args: seq<Value>): (r: Result<Value>) {
    match op
    case EqualsOp => Equals(args)
    case LengthOp => Length(args)
    case NthOp => Nth(args)
    case SliceOp => Slice(args)
    case JoinOp => Join(args)
    case ConcatOp => Concat(args)
    case DoOp => Do(args)
  }

  // ---- Properties relating the natives to one another ----

  /** Cutting a vector with `slice` at any position and gluing the parts back with
      `join` gives the vector back. */
  lemma {:induction false} SliceJoinRoundTrip(s: seq<Value>, k: int)
    requires 0 <= k <= |s|
    ensures var front := Slice([Vector(s), Number(0), Number(k)]);
            var back := Slice([Vector(s), Number(k), Number(|s|)]);
            front.Ok? && back.Ok? && Join([front.value, back.value]) == Ok(Vector(s))
  {
    assert s[0..k] + s[k..|s|] == s;
  }

  /** `length` of a `join` is the sum of the lengths, and `nth` of a `join` reads the
      first vector below its length and the second one past it. */
  lemma JoinLengthAndItems(a: seq<Value>, b: seq<Value>, i: int)
    ensures var j := Join([Vector(a), Vector(b)]);
            j.Ok? && Length([j.value]) == Ok(Number(|a| + |b|))
            && (0 <= i < |a| ==> Nth([j.value, Number(i)]) == Ok(a[i]))
            && (|a| <= i < |a| + |b| ==> Nth([j.value, Number(i)]) == Ok(b[i - |a|]))
            && (!(0 <= i < |a| + |b|) ==> Nth([j.value, Number(i)]) == Err(Undefined))
  {
  }

  /** `concat` distributes over splitting its argument list. */
  lemma {:induction false} ConcatSplit(a: seq<Value>, b: seq<Value>)
    ensures Concat(a + b).value.text == Concat(a).value.text + Concat(b).value.text
  {
    if a != [] {
      assert (a + b)[1..] == a[1..] + b;
      ConcatSplit(a[1..], b);
    } else {
      assert a + b == b;
    }
  }

  /** A string argument contributes exactly its text to `concat`, a number (below
      10^21 in magnitude) its decimal digits; nil and collections contribute nothing. */
  lemma ConcatOfOne(v: Value)
    ensures v.String? ==> Concat([v]) == Ok(String(v.text))
    ensures v.Number? ==> Concat([v]) == Ok(String(DecimalString(v.n)))
    ensures v.Nil? || v.List? || v.Vector? || v.Function? ==> Concat([v]) == Ok(String(""))
  {
    assert [v][1..] == [];
    assert ConcatText([v]) == PrimText(Prop(v)) + ConcatText([]) == PrimText(Prop(v)) + "";
    assert PrimText(Prop(v)) + "" == PrimText(Prop(v));
  }

  /** `=` compares numbers by value and tells a number from every other kind, but it
      sees no difference between any two lists, vectors or nils: none of them has
      a `value` property. */
  lemma EqualsOnNumbersAndCollections(x: int, v: Value, a: seq<Value>, b: seq<Value>)
    ensures Equals([Number(x), v]) == Ok(Boolean(v == Number(x)))
    ensures Equals([Vector(a), List(b)]) == Ok(Boolean(true))
    ensures Equals([Nil, Vector(a)]) == Ok(Boolean(true))
  {
  }
}
