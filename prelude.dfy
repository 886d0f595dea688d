/** The standard prelude of src/replEnv.ts: list combinators written in the language
    itself. Each function here follows its Lisp definition form by form. It calls the
    natives the definition calls, in the order the arguments are evaluated, and it
    fails where the Lisp definition would, with the exceptions listed in README
    "Left out": the arithmetic steps of `Tail` and `Range` are written inline, a
    callback's `undefined` result is a failure here, and there is no stack bound. The evaluator's `if` counts only `nil` and
    `false` as false (see Values.Truthy). Callbacks stand for functions of the
    language: each one either yields a value or fails. */
module Prelude {
  import opened Values
  import opened Natives

  /** `empty?` is `(= 0 (length collection))`. */
  function IsEmpty(c: Value): (r: Result<Value>)
    ensures r.Ok? <==> IsCollection(c)
    ensures r.Ok? ==> r.value == Boolean(Count(c) == 0)
    ensures !IsCollection(c) ==> r == Err(Thrown(LengthMessage))
  {
    var n :- Length([c]);
    Equals([Number(0), n])
  }

  /** `head` is `(nth collection 0)`. */
  function Head(c: Value): (r: Result<Value>)
    ensures (c.List? || c.Vector?) && |c.items| > 0 ==> r == Ok(c.items[0])
    ensures (c.List? || c.Vector?) && |c.items| == 0 ==> r == Err(Undefined)
    ensures c.String? ==> r == Ok(String(if |c.text| == 0 then "" else [c.text[0]]))
    ensures !IsCollection(c) ==> r == Err(Thrown(NthMessage))
  {
    Nth([c, Number(0)])
  }

  /** `tail` is `(slice collection 1 (+ (length collection) 1))`: it works on vectors only,
      and drops exactly the first item of a non-empty one. */
  function Tail(c: Value): (r: Result<Value>)
    ensures r.Ok? <==> c.Vector?
    ensures c.Vector? ==> r.value == Vector(if |c.items| == 0 then [] else c.items[1..])
    ensures c.List? || c.String? ==> r == Err(Thrown(SliceMessage))
    ensures !IsCollection(c) ==> r == Err(Thrown(LengthMessage))
  {
    var n :- Length([c]);
    Slice([c, Number(1), Number(n.n + 1)])
  }

  /** `range x` is `(if (<= x 0) [] (join (range (- x 1)) [(- x 1)]))`: the vector
      0, 1, ..., x - 1, empty when x is not positive. */
  function Range(x: int): (r: Result<Value>)
    ensures r.Ok? && r.value.Vector?
    ensures |r.value.items| == if x <= 0 then 0 else x
    ensures forall i :: 0 <= i < |r.value.items| ==> r.value.items[i] == Number(i)
    decreases if x <= 0 then 0 else x
  {
    if x < 0 || x == 0 then
      Ok(Vector([]))
    else
      var front := Range(x - 1).value;
      Join([front, Vector([Number(x - 1)])])
  }

  /** `map f c`: `(join [(f (head c))] (map f (tail c)))` until `c` is empty. */
  function Map(f: Value -> Result<Value>, c: Value): (r: Result<Value>)
    ensures r.Ok? ==> r.value.Vector? && |r.value.items| == Count(c)
    ensures r.Ok? && Count(c) > 0 ==> c.Vector?
    ensures IsCollection(c) && Count(c) == 0 ==> r == Ok(Vector([]))
    ensures !IsCollection(c) ==> r == Err(Thrown(LengthMessage))
    decreases Count(c)
  {
    var empty :- IsEmpty(c);
    if Truthy(empty) then
      Ok(Vector([]))
    else
      var h := Head(c).value;  // a non-empty collection has a head
      var y :- f(h);
      var t :- Tail(c);
      var rest :- Map(f, t);
      Join([Vector([y]), rest])
  }

  /** A predicate of the language accepts `x`: it yields a value the evaluator's `if` takes as true. */
  predicate Passes(p: Value -> Result<Value>, x: Value) {
    p(x).Ok? && Truthy(p(x).value)
  }

  /** `filter p c`: `(join (if (p (head c)) [(head c)] []) (filter p (tail c)))` until `c` is empty. */
  function Filter(p: Value -> Result<Value>, c: Value): (r: Result<Value>)
    ensures r.Ok? ==> r.value.Vector? && |r.value.items| <= Count(c)
    ensures r.Ok? && Count(c) > 0 ==> c.Vector?
    ensures IsCollection(c) && Count(c) == 0 ==> r == Ok(Vector([]))
    ensures !IsCollection(c) ==> r == Err(Thrown(LengthMessage))
    decreases Count(c)
  {
    var empty :- IsEmpty(c);
    if Truthy(empty) then
      Ok(Vector([]))
    else
      var h := Head(c).value;  // a non-empty collection has a head
      var keep :- p(h);
      var chosen := if Truthy(keep) then Vector([h]) else Vector([]);
      var t :- Tail(c);
      var rest :- Filter(p, t);
      Join([chosen, rest])
  }

  /** `any? p c`: false on an empty collection, true at the first item `p` accepts. */
  function Any(p: Value -> Result<Value>, c: Value): (r: Result<Value>)
    ensures r.Ok? ==> r.value.Boolean?
    ensures IsCollection(c) && Count(c) == 0 ==> r == Ok(Boolean(false))
    ensures !IsCollection(c) ==> r == Err(Thrown(LengthMessage))
    decreases Count(c)
  {
    var empty :- IsEmpty(c);
    if Truthy(empty) then
      Ok(Boolean(false))
    else
      var h := Head(c).value;  // a non-empty collection has a head
      var hit :- p(h);
      if Truthy(hit) then
        Ok(Boolean(true))
      else
        var t :- Tail(c);
        Any(p, t)
  }

  /** `every? p c` as the prelude defines it: form for form the definition of `any?`. */
  function Every(p: Value -> Result<Value>, c: Value): (r: Result<Value>)
    ensures r.Ok? ==> r.value.Boolean?
    ensures IsCollection(c) && Count(c) == 0 ==> r == Ok(Boolean(false))
    ensures !IsCollection(c) ==> r == Err(Thrown(LengthMessage))
    decreases Count(c)
  {
    var empty :- IsEmpty(c);
    if Truthy(empty) then
      Ok(Boolean(false))
    else
      var h := Head(c).value;  // a non-empty collection has a head
      var hit :- p(h);
      if Truthy(hit) then
        Ok(Boolean(true))
      else
        var t :- Tail(c);
        Every(p, t)
  }

  /** What `every?` is evidently meant to be: true on an empty collection, false at the
      first item `p` rejects. */
  function All(p: Value -> Result<Value>, c: Value): (r: Result<Value>)
    ensures r.Ok? ==> r.value.Boolean?
    ensures IsCollection(c) && Count(c) == 0 ==> r == Ok(Boolean(true))
    ensures !IsCollection(c) ==> r == Err(Thrown(LengthMessage))
    decreases Count(c)
  {
    var empty :- IsEmpty(c);
    if Truthy(empty) then
      Ok(Boolean(true))
    else
      var h := Head(c).value;  // a non-empty collection has a head
      var hit :- p(h);
      if !Truthy(hit) then
        Ok(Boolean(false))
      else
        var t :- Tail(c);
        All(p, t)
  }

  /** `reduce f v c`: `(reduce f (f v (head c)) (tail c))` until `c` is empty, then `v`. */
  function Reduce(f: (Value, Value) -> Result<Value>, v: Value, c: Value): (r: Result<Value>)
    ensures IsCollection(c) && Count(c) == 0 ==> r == Ok(v)
    ensures !IsCollection(c) ==> r == Err(Thrown(LengthMessage))
    decreases Count(c)
  {
    var empty :- IsEmpty(c);
    if Truthy(empty) then
      Ok(v)
    else
      var h := Head(c).value;  // a non-empty collection has a head
      var acc :- f(v, h);
      var t :- Tail(c);
      Reduce(f, acc, t)
  }

  /** `contains? c x`: false on an empty collection, true at the first item `=` to `x`. */
  function Contains(c: Value, x: Value): (r: Result<Value>)
    ensures r.Ok? ==> r.value.Boolean?
    ensures IsCollection(c) && Count(c) == 0 ==> r == Ok(Boolean(false))
    ensures !IsCollection(c) ==> r == Err(Thrown(LengthMessage))
    decreases Count(c)
  {
    var empty :- IsEmpty(c);
    if Truthy(empty) then
      Ok(Boolean(false))
    else
      var h := Head(c).value;  // a non-empty collection has a head
      var same := Equals([h, x]).value;
      if Truthy(same) then
        Ok(Boolean(true))
      else
        var t :- Tail(c);
        Contains(t, x)
  }

  /** `reverse c`: `c` itself when empty, else `(join (reverse (tail c)) [(head c)])`. */
  function Reverse(c: Value): (r: Result<Value>)
    ensures IsCollection(c) && Count(c) == 0 ==> r == Ok(c)
    ensures r.Ok? && Count(c) > 0 ==> c.Vector? && r.value.Vector? && |r.value.items| == Count(c)
    ensures !IsCollection(c) ==> r == Err(Thrown(LengthMessage))
    decreases Count(c)
  {
    var empty :- IsEmpty(c);
    if Truthy(empty) then
      Ok(c)
    else
      var t :- Tail(c);
      var rest :- Reverse(t);
      var h := Head(c).value;  // a non-empty collection has a head
      Join([rest, Vector([h])])
  }

  /** `find p c`: `nil` on an empty collection, else the first item `p` accepts. */
  function Find(p: Value -> Result<Value>, c: Value): (r: Result<Value>)
    ensures IsCollection(c) && Count(c) == 0 ==> r == Ok(Nil)
    ensures !IsCollection(c) ==> r == Err(Thrown(LengthMessage))
    decreases Count(c)
  {
    var empty :- IsEmpty(c);
    if Truthy(empty) then
      Ok(Nil)
    else
      var h := Head(c).value;  // a non-empty collection has a head
      var hit :- p(h);
      if Truthy(hit) then
        Ok(h)
      else
        var t :- Tail(c);
        Find(p, t)
  }

  /** JavaScript's `%` on integers: the remainder takes the sign of the dividend, and
      differs from the dividend by a multiple of the divisor. */
  function JsRemainder(x: int, y: int): (r: int)
    requires y != 0
    ensures -(if y < 0 then -y else y) < r < (if y < 0 then -y else y)
    ensures x >= 0 ==> r >= 0
    ensures x < 0 ==> r <= 0
    ensures (x - r) % (if y < 0 then -y else y) == 0
  {
    var m := if y < 0 then -y else y;
    if x >= 0 then
      RemainderOfDifference(x, m);
      x % m
    else
      RemainderOfDifference(-x, m);
      -((-x) % m)
  }

  /** Taking away its remainder leaves a multiple of `m`, on either side of zero. */
  lemma RemainderOfDifference(a: int, m: int)
    requires a >= 0 && m > 0
    ensures (a - a % m) % m == 0
    ensures (-a + a % m) % m == 0
  {
    var q := a / m;
    assert a - a % m == m * q;
    MultipleHasNoRemainder(m, q);
    assert -a + a % m == m * (-q);
    MultipleHasNoRemainder(m, -q);
  }

  /** A multiple of `m` leaves no remainder. */
  lemma MultipleHasNoRemainder(m: int, q: int)
    requires m > 0
    ensures (m * q) % m == 0
  {
    var d := (m * q) / m;
    var t := (m * q) % m;
    assert m * q == m * d + t;
    assert m * (q - d) == t;
    if q - d >= 1 {
      MultipleAtLeastDivisor(m, q - d);
    } else if q - d <= -1 {
      MultipleAtLeastDivisor(m, d - q);
    }
  }

  /** A positive multiple of `m` is at least `m`. */
  lemma {:induction false} MultipleAtLeastDivisor(m: int, k: int)
    requires m > 0 && k >= 1
    ensures m * k >= m
  {
    if k > 1 {
      assert m * k == m * (k - 1) + m;
      MultipleAtLeastDivisor(m, k - 1);
    }
  }

  /** `even?` is `(= 0 (% x 2))`: it holds exactly of the integers divisible by 2,
      negative ones included. */
  function Even(x: int): (r: Value)
    ensures r.Boolean? && (r.b <==> x % 2 == 0)
  {
    Boolean(0 == JsRemainder(x, 2))
  }

  /** `odd?` as the prelude defines it: `(= 1 (% x 2))`. It holds exactly of the odd
      integers that are not negative. */
  function OddAsWritten(x: int): (r: Value)
    ensures r.Boolean? && (r.b <==> x >= 0 && x % 2 == 1)
  {
    Boolean(1 == JsRemainder(x, 2))
  }

  /** What `odd?` is evidently meant to be: a non-zero remainder, of either sign. It
      holds exactly of the integers not divisible by 2. */
  function Odd(x: int): (r: Value)
    ensures r.Boolean? && (r.b <==> x % 2 == 1)
  {
    Boolean(0 != JsRemainder(x, 2))
  }
}
