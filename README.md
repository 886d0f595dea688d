# Scope chain and built-in library of a small Lisp interpreter

This project models two parts of the runtime of a small Lisp-family interpreter
written in TypeScript for Deno. Both parts are sequential and self-contained.

- **The scope chain** (`src/environment.js`). An `Environment` holds a mutable table
  of bindings and a parent scope that is fixed when the scope is made. `get` answers
  the nearest binding on the parent chain, or JavaScript `null` when no scope binds
  the name. `set` writes into the receiving scope only, so a child's binding shadows
  a parent's and never overwrites it. The model is the class `Env.Environment<V>`.
  Its table is a `map` field that `Set` reassigns. A ghost `ancestors` sequence
  records the parent chain. It keeps the chain acyclic and makes `Get`'s recursion
  terminate. `Get` is proved against `View()`, the merge of the chain's tables where
  nearer scopes win. `Set` is proved to change only its own scope's table.
- **The built-in library** (`src/replEnv.ts`).
  - The natives `=`, `length`, `nth`, `slice`, `join`, `concat` and `do` (module
    `Natives`). Each takes the evaluated argument list and builds a new value, or
    fails as the JavaScript does. There are three ways to fail: an explicit `throw`
    with the source's message, a `TypeError` from reading a property of an argument
    that was not passed (`MissingArgument`), or a plain `undefined` result
    (`Undefined`).
  - The registration of natives and of the constants `nil`, `true` and `false` into
    the global scope (module `ReplEnv`).
  - The prelude's list combinators, which the source writes in the language itself
    (module `Prelude`). Each is a Dafny function that follows its Lisp definition
    form by form. It calls the natives that definition calls, in argument-evaluation
    order, so the natives' failures surface where the Lisp's would (two exceptions are
    listed under "Left out"). For example, `tail` is built on
    `slice`, which accepts only vectors, so `map` over a non-empty list or string
    fails. Module `PreludeProperties` proves what each combinator computes on
    vectors. Each proof compares the combinator with a reference definition on
    sequences that is built differently, for example a fold or filter that recurses
    from the back.

Looking up a name that no scope binds does not give the language's `nil`: `get`
returns JavaScript `null` (src/environment.js:13). The model follows the code, and
`Get` answers `None`.

Numbers are modelled as integers. `=` compares the two arguments' `value` properties
with `===`, as the source does, so it cannot tell apart any two lists, vectors, nils
or functions, since none of them has a `value` property (`Natives.EqualsOnNumbersAndCollections`).
`contains?` inherits this, and for numbers it is plain membership
(`PreludeProperties.ContainsNumber`). The evaluator's `if`, which the combinators use,
treats only `nil` and `false` as false (`Values.Truthy`). The evaluator itself is
not part of this model.

## Model

| member | source | states |
|---|---|---|
| `Env.Environment.constructor` | src/environment.js:2-5 | a new scope has an empty table and the given parent (a root scope when it is null); every lookup in it answers what the parent answers, or null at a root |
| `Env.Environment.Acyclic` | src/environment.js:2-5 | because the parent is fixed at construction, no scope is its own ancestor and every ancestor is a well-formed, strictly shorter chain |
| `Env.Environment.Get` | src/environment.js:7-14 | a local binding wins over any ancestor's (shadowing); the answer is the binding in the merged view of the chain where nearer scopes win; it is null exactly when no scope on the chain binds the key; it never fails |
| `Env.Environment.Set` | src/environment.js:16-18 | the scope's table gains or overwrites exactly one key (last write wins); the new value is what `Get` answers afterwards; every other key answers as before; nothing visible from the parent changes |
| `Natives.ClampIndex` | src/replEnv.ts:126 | `Array.prototype.slice` positions: a negative index counts from the end, and every index is clamped into the vector |
| `Natives.Equals` | src/replEnv.ts:67-71 | `=` is true exactly when the two `value` properties are identical; it fails only when fewer than two arguments are passed |
| `Natives.Length` | src/replEnv.ts:85-96 | `length` gives the item count of a list or vector and the character count of a string; every other argument kind throws the source's message; a missing argument fails |
| `Natives.Nth` | src/replEnv.ts:98-116 | `nth` gives item `i` of a list or vector, or `undefined` outside it; on a string it gives the one-character string at `i`, or "" outside it; other argument kinds throw |
| `Natives.Slice` | src/replEnv.ts:118-131 | `slice` succeeds exactly on a vector and two numbers, and gives the vector of items between the two clamped positions; otherwise it throws the source's message or fails on a missing argument |
| `Natives.Join` | src/replEnv.ts:133-145 | `join` succeeds exactly on two vectors, and gives the first's items followed by the second's |
| `Natives.Concat` | src/replEnv.ts:147-153 | `concat` never fails and gives a string built from its arguments' `value` properties, in order (numbers in plain decimal, see Left out) |
| `Natives.Do` | src/replEnv.ts:210-212 | the native `do` gives its last argument, or `undefined` when it is given none |
| `Natives.SliceJoinRoundTrip` | src/replEnv.ts:118-145 | cutting a vector with `slice` at any position and gluing the parts with `join` gives the vector back |
| `Natives.JoinLengthAndItems` | src/replEnv.ts:85-145 | the `length` of a `join` is the sum of the lengths; `nth` of a `join` reads the first vector below its length, the second past it, and is `undefined` outside both |
| `Natives.ConcatSplit` | src/replEnv.ts:147-153 | `concat` of a split argument list is the concatenation of the two parts' results |
| `Natives.ConcatOfOne` | src/replEnv.ts:147-153 | a string contributes its text, a number below 10^21 in magnitude its decimal digits, and nil, lists, vectors and functions contribute nothing |
| `Natives.EqualsOnNumbersAndCollections` | src/replEnv.ts:67-71 | `=` compares numbers by value and tells a number from every other value, but calls any vector equal to any list, and nil equal to any vector |
| `Prelude.IsEmpty` | src/replEnv.ts:247-248 | `empty?` succeeds exactly on collections and is true exactly when their count is zero |
| `Prelude.Head` | src/replEnv.ts:249-250 | `head` gives the first item of a list or vector and the first character of a string ("" when the string is empty); it is `undefined` on an empty list or vector |
| `Prelude.Tail` | src/replEnv.ts:251-252 | `tail` succeeds exactly on vectors and drops exactly the first item; a list or string fails in `slice`, and any other kind fails in `length` |
| `Prelude.Range` | src/replEnv.ts:253-257 | `range x` is the vector 0, 1, ..., x - 1, and is empty when x is not positive |
| `Prelude.Map` | src/replEnv.ts:258-262 | `map` on success gives a vector as long as the collection; only a vector can be non-empty on success; an empty collection gives `[]` |
| `Prelude.Filter` | src/replEnv.ts:263-269 | `filter` on success gives a vector no longer than the collection; only a vector can be non-empty on success |
| `Prelude.Any` | src/replEnv.ts:270-275 | `any?` gives a boolean; it is false on every empty collection |
| `Prelude.Every` | src/replEnv.ts:276-281 | `every?` as written gives a boolean, and is false on every empty collection |
| `Prelude.All` | src/replEnv.ts:276-281 | the intended `every?` is true on every empty collection |
| `Prelude.Reduce` | src/replEnv.ts:282-287 | `reduce` of an empty collection is the initial value |
| `Prelude.Contains` | src/replEnv.ts:292-297 | `contains?` gives a boolean, and is false on every empty collection |
| `Prelude.Reverse` | src/replEnv.ts:298-302 | `reverse` gives an empty collection back unchanged, of whatever kind; on success with a non-empty one, it gives a vector of the same length built from a vector |
| `Prelude.Find` | src/replEnv.ts:303-309 | `find` gives `nil` on an empty collection |
| `Prelude.JsRemainder` | src/replEnv.ts:55-59 | the integer `%` takes the sign of the dividend, is smaller in size than the divisor, and differs from the dividend by a multiple of the divisor (which fixes its value) |
| `Prelude.Even` | src/replEnv.ts:241 | `even?` gives a boolean that is true exactly of the integers divisible by 2, negative ones included |
| `Prelude.OddAsWritten` | src/replEnv.ts:242 | `odd?` as written gives a boolean that is true exactly of the odd integers that are not negative |
| `Prelude.Odd` | src/replEnv.ts:242 | the intended `odd?` gives a boolean that is true exactly of the integers not divisible by 2 |
| `PreludeProperties.TailDropsFirst` | src/replEnv.ts:249-252 | on a non-empty vector, `head` is the first item and `tail` is the rest, and together they rebuild it; `tail []` is `[]` |
| `PreludeProperties.MapVector` | src/replEnv.ts:258-262 | when `f` succeeds on every item, `map f v` has `v`'s length and item `i` is `f` of item `i` |
| `PreludeProperties.MapFailsAtFirstFailure` | src/replEnv.ts:258-262 | `map` fails with the error of the first item on which `f` fails |
| `PreludeProperties.KeptCons` | src/replEnv.ts:263-269 | the filter reference keeps a new front item in front, if it is accepted |
| `PreludeProperties.KeptMembers` | src/replEnv.ts:263-269 | an item is kept exactly when it occurs in the input and is accepted; nothing is added |
| `PreludeProperties.FilterVector` | src/replEnv.ts:263-269 | when `p` succeeds on every item, `filter p v` is the vector of the accepted items in their original order |
| `PreludeProperties.AnyFindsFirstHit` | src/replEnv.ts:270-275 | `any?` is true once an item is accepted after only rejected items, whatever comes later |
| `PreludeProperties.AnyNoHit` | src/replEnv.ts:270-275 | `any?` is false when every item is rejected |
| `PreludeProperties.AnyVector` | src/replEnv.ts:270-275 | when `p` succeeds on every item, `any? p v` is true exactly when some item is accepted |
| `PreludeProperties.EveryIsAny` | src/replEnv.ts:270-281 | `every?` gives the same result as `any?` on every argument |
| `PreludeProperties.AllVector` | src/replEnv.ts:276-281 | when `p` succeeds on every item, the intended `every?` is true exactly when every item is accepted |
| `PreludeProperties.EveryAsWrittenDisagrees` | src/replEnv.ts:276-281 | `every?` as written says every item of `[1 2]` is 2 and that not every item of `[]` is; the intended one says the opposite of both |
| `PreludeProperties.FoldCons` | src/replEnv.ts:282-287 | the left-fold reference takes one step on the front item, then folds the rest |
| `PreludeProperties.ReduceVector` | src/replEnv.ts:282-287 | `reduce f v` over a vector is the left fold of `f` from `v`, stopping at the first failing step |
| `PreludeProperties.ContainsVector` | src/replEnv.ts:292-297 | `contains? v x` is true exactly when some item is `=` to `x` |
| `PreludeProperties.ContainsNumber` | src/replEnv.ts:292-297 | for a number, `contains?` is membership |
| `PreludeProperties.ReverseVector` | src/replEnv.ts:298-302 | `reverse` of a vector puts item `|s| - 1 - i` at position `i` |
| `PreludeProperties.ReverseInvolution` | src/replEnv.ts:298-302 | reversing a vector twice gives it back |
| `PreludeProperties.FindFirstHit` | src/replEnv.ts:303-309 | `find` gives the first accepted item once all earlier items are rejected |
| `PreludeProperties.FindNoHit` | src/replEnv.ts:303-309 | `find` gives `nil` when every item is rejected |
| `PreludeProperties.OddMeansNotEven` | src/replEnv.ts:241-242 | the intended `odd?` holds exactly of the integers `even?` rejects |
| `PreludeProperties.OddAsWrittenMissesNegatives` | src/replEnv.ts:242 | `odd?` as written agrees with the intended one on non-negative integers, but says -3 is not odd |
| `ReplEnv.DefineNative` | src/replEnv.ts:19-29 | `defineChipmunkFunction` binds the name, in the global scope only, to a native Function value that is not user-defined and carries the binding key as its name; every other binding is unchanged |
| `ReplEnv.NewReplEnv` | src/replEnv.ts:17-230 | the global scope is a new root whose table holds exactly the registered natives, `nil` bound to Nil, and `true` and `false` bound to the booleans; every other name looks up to null; calling each bound native runs the matching `Natives` function |
| `ReplEnv.ShadowInCallScope` | src/environment.js:7-18 | rebinding `length` in a scope below the global one changes what that scope sees, leaves the global native in place, and every other name still resolves to the global binding |

## Findings

| source | as written | input that shows it | evidently intended | confidence | as-written member | corrected member |
|---|---|---|---|---|---|---|
| src/replEnv.ts:276-281 | `every?` is a copy of `any?`: false on an empty collection, true at the first accepted item | `(every? (lambda (x) (= x 2)) [1 2])` gives true, and `every?` of any predicate over `[]` gives false | true on an empty collection, false at the first rejected item | not executed | `Prelude.Every`, with `PreludeProperties.EveryIsAny` and `PreludeProperties.EveryAsWrittenDisagrees` | `Prelude.All`, with `PreludeProperties.AllVector` |
| src/replEnv.ts:242 | `odd?` is `(= 1 (% x 2))`, and JavaScript's `%` gives a negative remainder for a negative dividend | `(odd? -3)` gives false, because `(% -3 2)` is -1 | true of every integer not divisible by 2 | not executed | `Prelude.OddAsWritten`, with `PreludeProperties.OddAsWrittenMissesNegatives` | `Prelude.Odd`, with `PreludeProperties.OddMeansNotEven` |

## Left out

- The arithmetic and comparison natives `+ - * / % pow < >` (src/replEnv.ts:31-83) compute on float64 numbers. Numbers are integers here. The integer steps the prelude needs are written inline instead: `<=` and `-` in `Range`, `+` in `Tail`, and `%` in `JsRemainder`.
- Numbers are integers: fractions, `NaN`, the infinities and `-0` are not modelled. So neither is a fractional index: `nth` on a list or vector gives `undefined` for one, while `charAt` and `slice` truncate it toward zero. Nor is the loss of precision above 2^53.
- Natives.Length: counts a string's characters as Unicode code points. The source's `value.length` (src/replEnv.ts:90) counts UTF-16 code units, so `(length "😀")` is 2 there and 1 here.
- Natives.Nth: positions in a string are code points. The source's `charAt` (src/replEnv.ts:111) indexes UTF-16 code units and can return half of a surrogate pair. A Dafny `char` cannot hold a lone surrogate.
- Prelude.Head: the first character of a string is its first code point here. The source's `charAt(0)` gives the first UTF-16 code unit, which for `"😀"` is a lone surrogate.
- Natives.Concat: renders every integer in plain decimal (`Values.DecimalString`). JavaScript renders a number of magnitude 10^21 or more in exponent form, for example `1e+21`.
- Natives.ConcatOfOne: states the decimal rendering only for numbers below 10^21 in magnitude. Above that it describes the model's plain-decimal rendering, not JavaScript's exponent form.
- A callback that returns JavaScript `undefined`, such as `(lambda (x) (head []))`, is a failure `Err(Undefined)` here. In the source the vector literal and `join` keep `undefined` as an item (src/replEnv.ts:140, 261), so `map` goes on and returns a vector holding it.
- Every prelude step recurses on the host's call stack (for example `range`, src/replEnv.ts:253-257), so a long enough input ends in a stack-overflow error. The model has no stack bound: `Range` succeeds for every integer, and the other combinators succeed on any length of vector.
- `to-string`, `parse-integer`, `parse-float` (src/replEnv.ts:155-170): they call `utils/toString.ts`, `parseInt` and `parseFloat`; `utils/toString.ts` is not part of this model.
- `print`, `print-line`, `read-line`, `read-file` (src/replEnv.ts:172-208): console and file I/O (`read-line` only throws "not implemented").
- `parse-string`, `eval` (src/replEnv.ts:214-226): they call the tokenizer, parser and evaluator, which are not part of this model.
- `NewReplEnv` registers only the natives modelled here. The others listed above are not bound in its table.
- The prelude's bootstrapping (src/replEnv.ts:232-316) runs each definition through `interpret`, which is not part of this model. `NewReplEnv` therefore does not bind the prelude names. Module `Prelude` gives their meaning directly.
- `not`, `and`, `or` and `!=` (src/replEnv.ts:234-237) are logic helpers written as `if` forms over their arguments, with `!=` calling `=`. They are not list combinators, and this model covers only the list combinators of the prelude.
- `<=`, `>=`, `abs`, `factorial`, `sum`, `product` (src/replEnv.ts:238-245, 288-291) are built on the float64 arithmetic and comparisons left out above. `load-file` (src/replEnv.ts:310-311) is built on file I/O and `eval`.
- `Range`: takes the integer inside a Number. `range` of a non-number, which goes through JavaScript's coercions in `<` and `-`, is not modelled.
- `Nth`: an index outside a list or vector makes the source return JavaScript `undefined`, which is no value of the language. The model reports it as `Err(Undefined)`. `Do` with no arguments is reported the same way.
- Callbacks passed to the combinators are total functions `Value -> Result<Value>`. A callback's side effects, such as printing or a `def` in a shared scope, and its non-termination are not modelled.
- A lambda's captured environment is not stored in `Value.Function`. Storing an `Environment` reference there would put a class with ghost fields inside every value. Closures are exercised only by the evaluator, which is not part of this model.
- `Env.Environment.constructor`: the source's default parameter `parent = null` is not modelled; callers pass `null` explicitly. Keys are strings, whereas a JavaScript `Map` accepts any key.
- src/nodes/SymbolNode.ts is a one-field record. It becomes the `Symbol(name)` constructor of `Value`, whose `value` property is the name (`Values.Prop`).
