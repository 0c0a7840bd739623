# A verified model of the browser extension's JavaScript interpreter

The extension runs automation scripts that it has received as ESTree syntax
trees. It does not use `eval`: a tree-walking interpreter walks them,
`exec(node, scope)` in `chrome_extension/modules/interpreter.js`. This
project models that evaluator in Dafny and proves properties of it.

- **Scopes.** A scope is a chain of frames. Each frame holds bindings and a
  link to its parent. Name lookup finds the innermost frame that binds the
  name.
- **Control signals.** `return`, `break` and `continue` are thrown objects
  (`{__return: true, value}`, `{__break: true}`, `{__continue: true}`). The
  statements that handle them catch these objects and read their flags.
  The model reads a flag off a signal directly (`Interp.Flag`); the
  `Properties.FlagReads...` lemmas show that this is the property read.
- **Model shape.** The evaluator is modelled as a big-step evaluator over
  an explicit store: frames, arrays, records and callables, each addressed
  by index, so sharing is kept. Every evaluation returns either
  `Ok(completion, store)` (a normal value or a thrown value) or `Stuck`.
  `Stuck` covers fuel running out and host features outside the model.

## Modules

| file | module | contents |
|---|---|---|
| `wrappers.dfy` | `Wrappers` | `Option` |
| `values.dfy` | `Values` | runtime values, thrown exceptions and control signals, truthiness, `typeof`, decimal keys |
| `ast.dfy` | `Ast` | the syntax tree, `containsAwait` and its reference definition |
| `operators.dfy` | `Operators` | binary, unary, logical and compound-assignment operators |
| `frames.dfy` | `Frames` | the frame chain, lookup, owner search and `setVariable` |
| `store.dfy` | `Store` | arrays, records and prototypes, callables, property reads and writes, object rest |
| `combinators.dfy` | `Combinators` | what `find`, `findIndex`, `some`, `every`, `filter` and `map` compute from one walk over an array |
| `templates.dfy` | `Templates` | template-literal joining |
| `interp.dfy` | `Interp` | `exec` and the corrected `assignPattern`, as one group of functions recursive on fuel; `assignPattern` as written, which cannot reach `exec` (see Findings) |
| `rules.dfy` | `Rules` | the rule of each construct: one step of the evaluator, stated in terms of its sub-evaluations |
| `properties.dfy` | `Properties` | lemmas about the evaluator that follow from the rules: loops, calls, classes, patterns and the array combinators |

## Model

The rows below name, for each part of `exec`, the member whose contract
states it. The functions of module `Interp` that evaluate a construct
(`ExecBlock`, `ExecCall`, `BindPattern` and the rest) carry only the store
invariant in their own contracts. The lemma of module `Rules` or
`Properties` named in each row unfolds the function once and states the
construct's outcome in terms of its sub-evaluations.

| member | source | states |
|---|---|---|
| Ast.ContainsAwaitIff | chrome_extension/modules/interpreter.js:7-22 | `containsAwait` holds exactly when some path of child indices from the node reaches an `await` expression (both directions). |
| Frames.LookupInnermost | chrome_extension/modules/interpreter.js:225-228 | A lookup fails exactly when no frame on the chain binds the name. When it succeeds, it gives the binding of the innermost frame that has one. |
| Frames.OwnerIsInnermost | chrome_extension/modules/interpreter.js:89-97 | The owner found by the `setVariable` scan is the first frame on the chain that binds the name. The scan finds none exactly when no frame on the chain binds it. |
| Frames.SetVariable | chrome_extension/modules/interpreter.js:89-99 | The loop that walks up the parent links writes the binding in the same frame as the reference definition `SetVar`. |
| Frames.SetVarEffect | chrome_extension/modules/interpreter.js:89-99 | After `setVariable`, the name reads as the new value from the starting frame. The owner is the only frame changed, and every other name reads as before from every frame. |
| Frames.SetVarUnownedWritesCurrent | chrome_extension/modules/interpreter.js:98 | When no frame on the chain binds the name, `setVariable` binds it in the current frame and changes no other frame. |
| Frames.OwnerAfterWrite | chrome_extension/modules/interpreter.js:89-99 | After `setVariable`, the name's owner seen from the starting frame is the frame that was written. |
| Frames.OwnerOtherName | chrome_extension/modules/interpreter.js:92-93 | Writing one name in one frame changes neither the owner nor the value of any other name, seen from any frame. |
| Store.CopyUnpicked | chrome_extension/modules/interpreter.js:75-78 | The copying loop keeps exactly the source's own keys that were not picked, each with the source's value. |
| Store.IndexEntries | chrome_extension/modules/interpreter.js:76 | The own keys of an array are its decimal indices, each mapped to its element, and there are no other keys. |
| Values.ParseNatOfDec | chrome_extension/modules/interpreter.js:76 | An index written in decimal parses back to itself. |
| Values.NatToDecInjective | chrome_extension/modules/interpreter.js:76 | Distinct indices have distinct decimal keys. |
| Operators.Binary | chrome_extension/modules/interpreter.js:638-657 | `===` and `!==` compare primitives by value and references by identity. Between two thrown values they, and `==` and `!=`, are not modelled. Integer `+`, `-` and `*` give the exact result while it lies within `Number.MAX_SAFE_INTEGER` (2^53 - 1) in magnitude, and are not modelled beyond it, where the double the source computes may be rounded. An operator throws the unsupported-operator Error exactly when it is not one of the fourteen the switch lists. |
| Operators.Unary | chrome_extension/modules/interpreter.js:675-684 | `!` negates truthiness and `typeof` gives the type name. An operator throws the unsupported Error exactly when it is not `!`, `-`, `+` or `typeof`. |
| Operators.LogicalStep | chrome_extension/modules/interpreter.js:660-673 | `&&` decides on a falsy left operand, `\|\|` on a truthy one and `??` on a non-nullish one. A decided result is the left operand. Other operators throw. |
| Operators.CompoundStep | chrome_extension/modules/interpreter.js:715-741 | `??=` writes the right-hand side only when the current value is nullish, and otherwise keeps the current value. `&&=` and `\|\|=` write the operand selected by truthiness. Only `??=` can keep. Operators outside the switch throw. |
| Operators.TruncRem | chrome_extension/modules/interpreter.js:654 | The remainder truncates toward zero. It has the dividend's sign, is smaller in magnitude than the divisor, and differs from the dividend by a multiple of the divisor. |
| Operators.StrLessAsymmetric | chrome_extension/modules/interpreter.js:646-649 | String comparison is a strict order: no two strings are each less than the other. |
| Templates.Interpolate | chrome_extension/modules/interpreter.js:272-277 | The joining loop gives `TemplateJoin` of the quasis and the substitutions. |
| Templates.TemplateJoinIsInterleave | chrome_extension/modules/interpreter.js:272-277 | The joined template equals the reference interleaving of quasi 0, value 0, quasi 1 and so on, where a missing value gives the empty string. |
| Combinators.FindOf | chrome_extension/modules/interpreter.js:370-378 | `find` gives the element at the first truthy verdict, and `undefined` when no verdict is truthy. |
| Combinators.FindIndexOf | chrome_extension/modules/interpreter.js:379-385 | `findIndex` gives the index of the first truthy verdict, and -1 when no verdict is truthy. |
| Combinators.SomeOf | chrome_extension/modules/interpreter.js:386-392 | `some` is true exactly when some verdict is truthy. |
| Combinators.EveryOf | chrome_extension/modules/interpreter.js:393-399 | `every` is true exactly when every verdict is truthy. |
| Combinators.FilterOf | chrome_extension/modules/interpreter.js:400-408 | `filter` keeps exactly the elements whose verdict is truthy, and is no longer than the walk. |
| Combinators.FilterOfAppend | chrome_extension/modules/interpreter.js:400-408 | Filtering distributes over concatenation of walks, so order is kept. |
| Combinators.FilterLoop | chrome_extension/modules/interpreter.js:400-408 | The pushing loop builds exactly `FilterOf` of the walk. |
| Combinators.MapLoop | chrome_extension/modules/interpreter.js:409-416 | The loop that stores by index into `new Array(n)` builds an array as long as the array (or the walk, if longer), with each visited verdict at its index and `undefined` beyond the walk. |
| Interp.FnExit | chrome_extension/modules/interpreter.js:196-201 | A function body that completes gives its value, and the store is unchanged. A throw that gets past it is the body's own throw, and is never a return signal. |
| Interp.Hoist | chrome_extension/modules/interpreter.js:189-204 | Hoisting binds every function declaration of the program in the current frame to a closure. Other names, and all other frames, are unchanged. |
| Interp.HoistBinds | chrome_extension/modules/interpreter.js:190-202 | After hoisting, the last declaration of each name binds it to a closure made from that declaration's parameters and body over the program's frame. A binding named `__proto__` is not the source's (see "## Left out"). |
| Interp.BindArgsKeys | chrome_extension/modules/interpreter.js:193-195 | A call frame binds exactly the parameter names. A binding named `__proto__` is not the source's (see "## Left out"). |
| Interp.BindArgsValues | chrome_extension/modules/interpreter.js:193-195 | The last parameter of a given name receives the argument at its position, or `undefined` when there are fewer arguments. A binding named `__proto__` is not the source's (see "## Left out"). |
| Interp.MakeClosure | chrome_extension/modules/interpreter.js:765-778 | A function expression allocates exactly one new callable, which captures the defining frame. |
| Interp.ClassMembers | chrome_extension/modules/interpreter.js:511-536 | The member loop fails exactly when some method's key is one the host does not let it write. Otherwise every new static or prototype key is the name of a method on that side, and frames are unchanged. |
| Interp.ClassMembersInstall | chrome_extension/modules/interpreter.js:529-535 | The last static method of each name is installed on the class, and the last prototype method of each name on the prototype, as a method closure over the current frame; a private method `#m` is installed under `m`. |
| Interp.ClassCtorInstall | chrome_extension/modules/interpreter.js:529-530 | The last constructor method of the body is the constructor, as a method closure over the current frame. |
| Properties.ClassDeclared | chrome_extension/modules/interpreter.js:497-540 | A class declaration is `Stuck` exactly when a method's key is blocked. Otherwise it binds its name in the current frame to a new class callable. Its statics and prototype hold only names of methods on that side, and it has no constructor when the body has none. A binding named `__proto__` is not the source's (see "## Left out"). |
| Properties.ClassMethodsInstalled | chrome_extension/modules/interpreter.js:511-536 | After a class declaration, the last static and prototype method of each name is a method closure over the current frame, on the class and on its prototype; a private method `#m` is there under `m`. |
| Properties.PrivateMethodInstalled | chrome_extension/modules/interpreter.js:510-535 | `class C { #m() {...} }` puts `m` on the prototype as a method closure over the current frame, since `method.key.name` of a private key is its name without `#`; the declaration is `Stuck` exactly when that name is one the prototype does not take as a plain field. |
| Properties.ClassCtorInstalled | chrome_extension/modules/interpreter.js:529-530 | After a class declaration, its constructor is the body's last constructor method, as a method closure over the current frame. |
| Interp.UpdateStepAsWritten | chrome_extension/modules/interpreter.js:230-258 | As written, `++`/`--` on a numeric binding writes the new value in the current frame. Prefix gives the new value and postfix the old one. Non-identifiers, unbound names, non-numbers and other operators throw the source's errors, in its order. A new value beyond `Number.MAX_SAFE_INTEGER` in magnitude is not modelled (`Stuck`). |
| Interp.UpdateStep | chrome_extension/modules/interpreter.js:230-258 | Corrected: the same checks, results and safe-integer bound, but the write goes to the frame that owns the name. Afterwards the name reads as the new value, and nothing else changes. |
| Interp.ToStrs | chrome_extension/modules/interpreter.js:274-275 | Converting the substitutions succeeds exactly when every value has a string form, and then gives each value's form. |
| Interp.Exec | chrome_extension/modules/interpreter.js:184-910 | Arrays, records, frames and callables only grow, parent and prototype links are kept, and a thrown value is never nullish. |
| Rules.LiteralValue | chrome_extension/modules/interpreter.js:218-223 | A literal gives its value and changes nothing; a RegExp literal is outside the model. |
| Rules.JumpsThrowSignals | chrome_extension/modules/interpreter.js:752-758 | `break` and `continue` throw their signals and change nothing. |
| Rules.FunctionDeclared | chrome_extension/modules/interpreter.js:590-604 | A nested function declaration binds its name as an own binding of the current frame to one new plain closure over that frame, and gives `undefined`. A binding named `__proto__` is not the source's (see "## Left out"). |
| Rules.UnsupportedNode | chrome_extension/modules/interpreter.js:907-908 | A node of an unlisted type throws the unsupported-node Error naming its type. |
| Rules.ProgramStep | chrome_extension/modules/interpreter.js:205-214 | The statements of a program run in order, each in the state the previous one left, and the program gives the last statement's value. A top-level `return` ends it with the returned value; any other throw propagates. |
| Rules.BlockStep | chrome_extension/modules/interpreter.js:608-614 | A block runs its statements in order and gives `undefined`. A truthy statement value with a truthy `__return` is thrown, and a throw ends the block. |
| Properties.TryHandlerGetsThrown | chrome_extension/modules/interpreter.js:617-626 | A throw from the block, signals included, runs the handler in a new child frame that binds the parameter to the thrown value. A binding named `__proto__` is not the source's (see "## Left out"). |
| Properties.TryWithoutHandlerSwallows | chrome_extension/modules/interpreter.js:617-632 | Without a handler, a throw from the block is dropped and `try` gives `undefined`. |
| Properties.TryFinalizerOutcome | chrome_extension/modules/interpreter.js:627-631 | After a completed block, a throw of the finalizer replaces the outcome; otherwise the block's value stands, in the state the finalizer left. |
| Rules.TryFinalizerAfterHandler | chrome_extension/modules/interpreter.js:619-631 | After a block that threw into a handler, the finalizer runs in the state the handler left. Its throw replaces the outcome; otherwise the handler's value or throw stands. |
| Rules.TryFinalizerAfterSwallow | chrome_extension/modules/interpreter.js:627-632 | After a block that threw with no handler, the finalizer runs. Its throw is the outcome; otherwise `try` gives `undefined`. |
| Rules.TryCompletedBlock | chrome_extension/modules/interpreter.js:617-618 | Without a finalizer, a block that completes is the outcome of `try`, and the handler does not run. |
| Rules.TemplateValue | chrome_extension/modules/interpreter.js:269-278 | A template literal evaluates its expressions in order and gives `TemplateJoin` of the quasis and the values' string forms. A failing expression is the outcome. |
| Rules.ReturnThrowsSignal | chrome_extension/modules/interpreter.js:635 | `return e` throws a return signal carrying the value of `e`, in the state `e` left. |
| Rules.CondPicksBranch | chrome_extension/modules/interpreter.js:636 | `if` (and `?:`, 760-763) evaluates the test and then exactly the branch its truthiness picks, in the state the test left. |
| Rules.CondWithoutElse | chrome_extension/modules/interpreter.js:636 | An `if` without `else` and with a falsy test gives `undefined`. |
| Rules.BinaryOperands | chrome_extension/modules/interpreter.js:638-657 | The left operand is evaluated, then the right one in the state it left, then `Binary`. An unsupported operator throws its Error only after both operands ran. |
| Rules.UnaryOperand | chrome_extension/modules/interpreter.js:675-684 | The operand is evaluated, then `Unary`; an unsupported operator throws its Error. |
| Properties.LogicalShortCircuit | chrome_extension/modules/interpreter.js:660-673 | The right operand runs only when the left one does not decide; a decided result is the left value. |
| Properties.IdentifierRead | chrome_extension/modules/interpreter.js:225-228 | A name that no chain frame binds but `Object.prototype` provides to the root scope is `Stuck`. Otherwise reading changes nothing, succeeds exactly when a chain frame binds the name and gives the innermost binding, and throws the ReferenceError naming it when none does. |
| Rules.WhileBodyRepeats | chrome_extension/modules/interpreter.js:748-750 | A `while` body that completes goes back to the test, in the state the body left. |
| Properties.WhileBodyThrowEscapes | chrome_extension/modules/interpreter.js:748-750 | Anything the `while` body throws, break and continue signals included, ends the loop and propagates. |
| Properties.WhileFalsyTestEnds | chrome_extension/modules/interpreter.js:748-750 | A falsy test ends `while` with `undefined`. |
| Rules.ForInitFirst | chrome_extension/modules/interpreter.js:826-828 | `for` runs its initialiser once and then the loop, in the state it left; a throw from it propagates. |
| Rules.ForTestEnds | chrome_extension/modules/interpreter.js:828 | A `for` test that throws ends the loop with that throw, and a falsy test ends it with `undefined`. |
| Properties.ForBreakEnds | chrome_extension/modules/interpreter.js:829-834 | A break signal from the body ends `for` with `undefined`, in the state the body left. |
| Properties.ForOtherSignalsEscape | chrome_extension/modules/interpreter.js:829-834 | Any other exception value, continue and return signals and errors included, escapes `for` unchanged and skips the update. |
| Properties.ForCatchesByBreakFlag | chrome_extension/modules/interpreter.js:829-834 | For any thrown value, records re-thrown by a block included, `for` ends with `undefined` when its `__break` reads truthy, and lets it escape unchanged, skipping the update, when it reads falsy. |
| Properties.ForNormalBodyContinues | chrome_extension/modules/interpreter.js:828-836 | After a body completes, `for` runs the update and then tests again. |
| Rules.ForOfStarts | chrome_extension/modules/interpreter.js:840-849 | `for...of` evaluates the collection once. A value that is not iterable throws the TypeError; otherwise the loop starts at element 0. |
| Properties.ForOfStepNormal | chrome_extension/modules/interpreter.js:849-868 | Each element runs the body in a new child frame binding only the loop variable; a completed body moves on to the next element. A binding named `__proto__` is not the source's (see "## Left out"). |
| Properties.ForOfStepContinue | chrome_extension/modules/interpreter.js:861-867 | A continue signal moves `for...of` on to the next element. |
| Properties.ForOfStepBreak | chrome_extension/modules/interpreter.js:861-867 | A break signal ends `for...of` with `undefined`. |
| Properties.ForOfStepEscape | chrome_extension/modules/interpreter.js:861-867 | A return signal or an error thrown by the body escapes `for...of` unchanged. |
| Properties.ForOfEnds | chrome_extension/modules/interpreter.js:847-849 | Once no element exists at the index (the length is read again each time), `for...of` ends with `undefined` and changes nothing. |
| Properties.ForOfBadLeft | chrome_extension/modules/interpreter.js:852-859 | A left side without a loop variable throws once there is an element: an empty declaration the TypeError, anything else the Error the source throws. |
| Properties.ForOfNotIterable | chrome_extension/modules/interpreter.js:841-845 | A right side that is neither an array nor a string throws the not-iterable TypeError. |
| Rules.ArrayLiteral | chrome_extension/modules/interpreter.js:780-795 | An array literal allocates one new array holding the elements, in the state the elements left. |
| Rules.ArrayHole | chrome_extension/modules/interpreter.js:782-783 | A hole throws the TypeError of reading `type` off null, before any later element runs. |
| Rules.ArrayElemPlain | chrome_extension/modules/interpreter.js:789-791 | A plain element is evaluated and appended, and the next one runs in the state it left. |
| Rules.ArrayElemSpread | chrome_extension/modules/interpreter.js:783-788 | `...e` appends the elements of an array or the characters of a string; anything else throws the TypeError. |
| Rules.ObjectLiteral | chrome_extension/modules/interpreter.js:873-893 | An object literal allocates one new record holding the merged properties. |
| Rules.ObjectSpread | chrome_extension/modules/interpreter.js:876-881 | `...e` merges the own entries of `e` over the properties so far; a primitive or null throws the TypeError. |
| Rules.ObjectProperty | chrome_extension/modules/interpreter.js:882-887 | `k: v` takes an identifier key's name or evaluates the key, then evaluates the value. The key's string form is written, overriding an earlier property of that name. A `__proto__` key, whose write runs the prototype setter in the source, is not modelled (`Stuck`). |
| Rules.ObjectOtherEntry | chrome_extension/modules/interpreter.js:888-890 | Any other entry throws the unsupported-property Error naming its type. |
| Rules.DeclareStep | chrome_extension/modules/interpreter.js:280-286 | Each declarator evaluates its initialiser (`undefined` when there is none), binds it by its pattern, and the next declarator runs in the state that left. |
| Rules.EvalListStep | chrome_extension/modules/interpreter.js:262 | An argument list evaluates its first expression; a throw ends it, otherwise the rest follows in the state it left. |
| Rules.EvalListInOrder | chrome_extension/modules/interpreter.js:262 | A completed list holds the value of each expression, each evaluated in the state the previous one left. |
| Rules.SpreadArgsStep | chrome_extension/modules/interpreter.js:469-480 | A method call's arguments: a plain argument is appended, and `...e` appends the elements of an array and throws the TypeError on anything else. |
| Rules.MemberKeyRule | chrome_extension/modules/interpreter.js:561 | A computed key is the value of the property expression; a static key is the property's name, a private `#p` giving `p` like a plain `p`. |
| Rules.MemberObjectThrows | chrome_extension/modules/interpreter.js:547-555 | A throw while evaluating the object propagates from `o.p` and gives `undefined` from `o?.p`; the key is not evaluated. |
| Rules.MemberOptionalNullish | chrome_extension/modules/interpreter.js:557-559 | `o?.p` on null or undefined gives `undefined` without evaluating the key. |
| Rules.MemberOfNullish | chrome_extension/modules/interpreter.js:561-571 | `o.p` on null or undefined evaluates the key, then throws the TypeError naming the key and the object. |
| Rules.MemberKeyThrows | chrome_extension/modules/interpreter.js:561 | A throw from a computed key propagates. |
| Rules.MemberValue | chrome_extension/modules/interpreter.js:573-587 | A property that is not a function is the result, read after the key. |
| Rules.MemberBindsMethod | chrome_extension/modules/interpreter.js:574-585 | A function read off an object that is not an array is returned as a new callable bound to that object. |
| Properties.BoundIgnoresReceiver | chrome_extension/modules/interpreter.js:585 | A bound method calls its target with the object it was read off as receiver, whatever the call supplies. |
| Rules.NewOperandsFirst | chrome_extension/modules/interpreter.js:260-262 | `new` evaluates the callee and then the arguments; a throw from either propagates. |
| Rules.NewNotConstructor | chrome_extension/modules/interpreter.js:263-265 | `new` on a value that is not a function throws the TypeError naming the callee's node type, after the arguments. |
| Rules.NewConstructs | chrome_extension/modules/interpreter.js:266 | `new` on a function constructs it with the evaluated arguments. |
| Rules.ConstructRule | chrome_extension/modules/interpreter.js:263-266 | A plain function or arrow throws "not a constructor", a class instantiates, and a bound callable constructs its target. |
| Properties.ConstructorThrowLost | chrome_extension/modules/interpreter.js:503-509 | `new C(...)` gives the new instance, linked to the class prototype, even when the constructor throws. |
| Properties.InstanceReadsPrototype | chrome_extension/modules/interpreter.js:504 | An instance without an own key reads it from its prototype. |
| Rules.ApplyClass | chrome_extension/modules/interpreter.js:503-509 | Calling a class as a function instantiates it, as `new` does. |
| Properties.CallFrameBindings | chrome_extension/modules/interpreter.js:797-817 | A call frame binds the parameter names. Arrows also bind the defining scope's `this`, and methods the receiver (516-520). Each parameter receives its argument. A binding named `__proto__` is not the source's (see "## Left out"). |
| Properties.CallOutcome | chrome_extension/modules/interpreter.js:767-776 | A call runs the body in a new child of the defining frame. A return signal gives its value, a completed body gives its value, and break and continue signals propagate. |
| Properties.CallPropagates | chrome_extension/modules/interpreter.js:771-776 | Any throw whose `__return` is not set (errors, signals, thrown objects) propagates from the call unchanged. |
| Rules.CallOnMember | chrome_extension/modules/interpreter.js:293-295 | A call on a member expression evaluates the object and then dispatches on it. |
| Rules.CallOperandsFirst | chrome_extension/modules/interpreter.js:485-486 | Any other call evaluates the callee and then the arguments; a throw from either propagates. |
| Rules.CallApplies | chrome_extension/modules/interpreter.js:485-492 | A callee that is not a function throws the TypeError after the arguments; a function is applied with `this` undefined. |
| Rules.ReceiverDispatch | chrome_extension/modules/interpreter.js:295-326 | A member call takes the array path on an array. On a string it evaluates the key first, and `includes` is host code. Any other value takes the method path. |
| Rules.MethodOptionalNullish | chrome_extension/modules/interpreter.js:447-449 | `o?.m()` on null or undefined gives `undefined` without evaluating the key or the arguments. |
| Rules.MethodOfNullish | chrome_extension/modules/interpreter.js:451-457 | `o.m()` on null or undefined throws the TypeError naming the method and the receiver, before the arguments. |
| Rules.MethodNotFunction | chrome_extension/modules/interpreter.js:459-467 | With `?.` an undefined method gives `undefined`; any value that is not a function throws the TypeError before the arguments. |
| Rules.MethodApplies | chrome_extension/modules/interpreter.js:469-482 | A method that is a function is applied to the receiver, with the arguments (spreads expanded) evaluated after the key. |
| Rules.ArrayOwnFunction | chrome_extension/modules/interpreter.js:331-347 | A function stored in an array is applied to the array, after the arguments. |
| Rules.ArrayNotFunction | chrome_extension/modules/interpreter.js:331-334 | A value read off an array that is not a function throws the TypeError before the arguments. |
| Rules.ArrayPrototypeCall | chrome_extension/modules/interpreter.js:336-443 | An `Array.prototype` method evaluates the arguments. A combinator whose first argument is a function runs as modelled; any other method is host code. |
| Interp.CallCb | chrome_extension/modules/interpreter.js:353-367 | A callback call gives the callback's normal value, or `false` when the callback throws, in the state the call left. |
| Interp.Scan | chrome_extension/modules/interpreter.js:369-416 | The walk is `Walked`: one callback call per index from the start, in order, each in the state the previous one left and below the array's length at that moment. Each verdict is the call's value and each element is read after the call. It stops only at the last visit, and otherwise runs until the array is exhausted. |
| Interp.WalkedCons | chrome_extension/modules/interpreter.js:369-416 | A walk from index i is one visit of i that does not stop, followed by a walk from i+1. |
| Properties.CombinatorSearch | chrome_extension/modules/interpreter.js:369-399 | `find`, `findIndex`, `some` and `every` never throw. They give `FindOf`, `FindIndexOf`, `SomeOf` or `EveryOf` of a walk of the array from index 0 that ends in the final state. |
| Properties.FilterCollect | chrome_extension/modules/interpreter.js:400-408 | `filter` never throws, and gives a new array holding `FilterOf` of a walk over the whole array. |
| Properties.MapCollect | chrome_extension/modules/interpreter.js:409-416 | `map` never throws, and gives a new array holding the verdicts of a walk over the whole array, as long as the array was at the start. |
| Properties.SearchWalk | chrome_extension/modules/interpreter.js:370-392 | A search walk stops at the first truthy verdict, or otherwise covers the whole array. |
| Properties.EveryWalk | chrome_extension/modules/interpreter.js:393-399 | `every` is true only after visiting the whole array, and false only at a falsy verdict. |
| Properties.CollectWalk | chrome_extension/modules/interpreter.js:400-416 | `filter` and `map` visit every index in order, and never fewer than the array's length. |
| Rules.ReduceStarts | chrome_extension/modules/interpreter.js:417-424 | `reduce` with a seed folds from index 0. Without one it throws the TypeError on an empty array, and otherwise folds from index 1 with element 0 as the seed. |
| Rules.ReduceStep | chrome_extension/modules/interpreter.js:425-431 | Past the end the accumulator is the value. Otherwise the callback runs on element `i`, and its throw ends `reduce` or its value is the next accumulator. |
| Rules.ReduceFolds | chrome_extension/modules/interpreter.js:425-431 | A completed fold called the callback once per index in order, threading the accumulator, until the array was exhausted; its value is the last accumulator. |
| Properties.ReduceOfEmpty | chrome_extension/modules/interpreter.js:418-424 | `reduce` on an empty array gives the initial value, or throws the TypeError when there is none. |
| Properties.ReduceOfSingleton | chrome_extension/modules/interpreter.js:418-431 | `reduce` on a one-element array without an initial value gives that element without calling the callback. |
| Rules.ForEachStarts | chrome_extension/modules/interpreter.js:433-438 | `forEach` runs its loop from index 0. A throw from a callback propagates; otherwise the result is `undefined`. |
| Rules.ForEachStep | chrome_extension/modules/interpreter.js:434-437 | Past the end the loop gives `undefined`. Otherwise the callback runs on element `i`, and its throw ends the loop. |
| Rules.ForEachInOrder | chrome_extension/modules/interpreter.js:433-438 | A completed `forEach` called the callback once per index in order, each call in the state the previous one left, until the array was exhausted. |
| Properties.ForEachUndefined | chrome_extension/modules/interpreter.js:433-438 | `forEach` gives `undefined`. |
| Rules.AssignToName | chrome_extension/modules/interpreter.js:689-690 | An assignment to a name follows the rule for names. |
| Rules.AssignToMember | chrome_extension/modules/interpreter.js:691-697 | An assignment to `o[k]` evaluates the object and then the key, before anything else; a throw from either propagates. |
| Rules.AssignToPattern | chrome_extension/modules/interpreter.js:703-708 | An assignment to a pattern evaluates the right-hand side, binds it by the pattern, and gives it. |
| Properties.AssignNameEffect | chrome_extension/modules/interpreter.js:703-708 | `x = e` evaluates `e` first; its failure is the outcome and writes nothing. A name that only `Object.prototype` provides is `Stuck`. Otherwise `x = e` gives e's value, `x` then reads as that value, and every other name reads as before. |
| Rules.CompoundAssignName | chrome_extension/modules/interpreter.js:711-745 | `x op= e` reads `x` before evaluating `e`. A throw from `e` propagates, and the value `CompoundStep` computes from the old value and e's value is written to the frame that owns `x`. |
| Rules.CompoundAssignNameOther | chrome_extension/modules/interpreter.js:732-741 | `x op= e` gives the current value when the operator keeps it, and throws the unsupported-assignment Error for an operator outside the switch. |
| Properties.NullishAssignKeeps | chrome_extension/modules/interpreter.js:711-736 | `x ??= e` on a non-nullish `x` evaluates `e` but gives the current value and writes nothing. |
| Properties.CompoundReadsFirst | chrome_extension/modules/interpreter.js:711-745 | `x += e` reads `x` before evaluating `e`: when `e` sets `x` to 100 and gives 10, a starting 1 yields 11. |
| Rules.AssignMemberPlain | chrome_extension/modules/interpreter.js:703-706 | `o[k] = e` evaluates `e` and then stores it. |
| Rules.AssignMemberOfNullish | chrome_extension/modules/interpreter.js:711-712 | `o[k] op= e` on null or undefined throws the TypeError of reading `k` off it, before `e` runs. |
| Rules.AssignMemberCompound | chrome_extension/modules/interpreter.js:711-744 | `o[k] op= e` reads `o[k]` before evaluating `e`. A throw from `e` propagates, and the value the operator computes is stored. |
| Rules.AssignMemberCompoundOther | chrome_extension/modules/interpreter.js:732-741 | `o[k] op= e` gives the current value when the operator keeps it, and throws the unsupported-assignment Error for an operator outside the switch. |
| Rules.StoreIntoRecord | chrome_extension/modules/interpreter.js:706 | Storing into a record under any key but `__proto__` writes the field, which then reads back as the value stored. |
| Rules.StoreIntoRecordProto | chrome_extension/modules/interpreter.js:706 | Storing `__proto__` into a record, which runs the prototype setter in the source, is not modelled (`Stuck`) and stores no field. |
| Rules.StoreIntoClass | chrome_extension/modules/interpreter.js:706 | Storing onto a class writes its statics, which then read back the value; `name`, `length`, `caller`, `arguments`, `prototype` and `__proto__`, which the class function does not take as plain own fields, are not modelled (`Stuck`). |
| Rules.StoreIntoArray | chrome_extension/modules/interpreter.js:706 | Storing at an index of an array replaces that element, and storing one past the end appends; the element then reads back. |
| Rules.StoreIntoNullish | chrome_extension/modules/interpreter.js:706 | Storing into null or undefined throws the engine's TypeError naming the key, and changes nothing. |
| Rules.StoreIntoPrimitive | chrome_extension/modules/interpreter.js:706 | Storing into a boolean, a number or a string throws a TypeError in strict mode, and changes nothing. |
| Rules.BindName | chrome_extension/modules/interpreter.js:30-32 | A name pattern binds the name through `setVariable`, unless only `Object.prototype` provides it. |
| Rules.ArrayPatternSource | chrome_extension/modules/interpreter.js:34-36 | An array pattern binds its elements from position 0, and a null or undefined source is treated as a new empty array. |
| Rules.BindElemsStep | chrome_extension/modules/interpreter.js:36-49 | A hole is skipped, and a rest element binds what is left and ends the pattern. Any other element is bound before the next one, in the state it left. |
| Rules.BindRestSlice | chrome_extension/modules/interpreter.js:39-41 | A rest element at position `i` binds `slice(i)`: a new array for an array source, a suffix for a string. |
| Rules.BindRestNoSlice | chrome_extension/modules/interpreter.js:40 | A rest element over a value with no `slice` method throws the TypeError. |
| Rules.BindElemDefault | chrome_extension/modules/interpreter.js:43-45 | Corrected binder: an element with a default whose value is undefined evaluates the default and binds its value. |
| Rules.BindElemPresent | chrome_extension/modules/interpreter.js:43-48 | An element whose value is not undefined is bound to it, and a default is not evaluated. |
| Properties.DefaultSkippedWhenPresent | chrome_extension/modules/interpreter.js:43-48 | A present element is bound as is, and the default is not evaluated. |
| Properties.DefaultUsedWhenUndefined | chrome_extension/modules/interpreter.js:43-45 | Corrected binder: a missing or `undefined` array element evaluates the default and binds its value. |
| Rules.ObjectPatternSource | chrome_extension/modules/interpreter.js:53-82 | An object pattern binds its properties and collects the keys they pick, treating a null or undefined source as a new empty record. With a rest element, its target is bound to a new record of the source's own entries that were not picked. |
| Rules.BindPropsStep | chrome_extension/modules/interpreter.js:56-72 | Each property is bound in order and adds its key to those picked; other entries are skipped. |
| Rules.BindPropKey | chrome_extension/modules/interpreter.js:58-60 | Corrected binder: a property's key is its identifier's name or the key expression's value, and a throw from it ends the pattern. |
| Rules.BindPropDefault | chrome_extension/modules/interpreter.js:63-67 | Corrected binder: a property with a default whose value is undefined evaluates the default and binds its value. |
| Rules.BindPropValue | chrome_extension/modules/interpreter.js:63-70 | Corrected binder: otherwise the value read is bound, and a default is not evaluated. |
| Interp.BindElemAsWritten | chrome_extension/modules/interpreter.js:43-48 | As written: an element with a default whose value is undefined raises the ReferenceError "exec is not defined" and binds nothing; a present value is bound through the pattern. |
| Interp.BindPropAsWritten | chrome_extension/modules/interpreter.js:57-70 | As written: a key that is not an identifier, and a default whose value is undefined, raise the ReferenceError "exec is not defined" before anything is bound; a successful property picks its identifier's name. |
| Properties.PatternsAsWrittenCannotEvaluate | chrome_extension/modules/interpreter.js:44-66 | As written, `const [x = 1] = []`, `const {a = 1} = {}` and `const {"a": y} = {a: 2}` each raise the ReferenceError and leave the store as it was. |
| Properties.PatternDefaultCorrected | chrome_extension/modules/interpreter.js:43-45 | Corrected, `const [x = 1] = []` evaluates the default and binds `x` to 1. |
| Properties.ObjectRestOmitsPicked | chrome_extension/modules/interpreter.js:73-78 | The rest holds exactly the own entries whose keys were not picked, each with the source's value, and never the key of a property written as an identifier. |
| Interp.FirstRest | chrome_extension/modules/interpreter.js:73 | The rest found is the argument of a `RestElement` of the pattern, and none is found exactly when the pattern has none. |
| Properties.UpdateAsWrittenShadows | chrome_extension/modules/interpreter.js:250-252 | As written, `n++` in a child frame leaves the enclosing `n` at 0 and binds 1 in the child. |
| Properties.UpdateReachesOwner | chrome_extension/modules/interpreter.js:250-252 | Corrected, the same update is seen from the enclosing frame. |
| Properties.FlagReadsBreakSignal | chrome_extension/modules/interpreter.js:752-754 | On the break signal, the flag the model reads agrees with the truthiness of the property read: `__break` is true, `__return` and `__continue` are false. |
| Properties.FlagReadsContinueSignal | chrome_extension/modules/interpreter.js:756-758 | On the continue signal, the flag the model reads agrees with the property read: `__continue` is true, `__return` and `__break` are false. |
| Properties.FlagReadsReturnSignal | chrome_extension/modules/interpreter.js:635 | On a return signal, the flag the model reads agrees with the property read: `__return` is true, `__break` and `__continue` are false. |
| Properties.ReturnedReadsProperty | chrome_extension/modules/interpreter.js:199 | The result a function takes from a return signal is the signal's `value` property, the value the `return` statement computed. |
| Properties.FlagReadsError | chrome_extension/modules/interpreter.js:598-600 | On a thrown error, the flag the model reads agrees with the property read. None of the three flags is set, so no function, loop or block mistakes an error for a signal. |

## Where the code and its description differ

The model follows the code in each of these places.

- **try.** A `catch` clause catches the `return`, `break` and `continue`
  signals as well as errors. A `try` without a handler swallows whatever the
  block throws.
- **Loops.** The first `WhileStatement` case wins, so `while` catches
  neither break nor continue. `for` catches only break.
- **Compound assignments.** These (`??=`, `&&=` and `||=` included)
  evaluate the right-hand side before deciding. `??=` on a value that is
  not nullish gives that value and writes nothing, but the right-hand
  side's effects have happened.
- **Parameters.** Parameters bind under the node's `name` field, so a
  destructuring or defaulted parameter binds the key `undefined`.
- **setVariable.** When no frame on the chain binds the name, it binds the
  name in the current frame.
- **Constructors.** The constructor method runs as a suspending function
  whose result is dropped, so its throws never reach the caller.

## Findings

| source | as written | input that shows it | evidently intended | confidence | as-written member | corrected member |
|---|---|---|---|---|---|---|
| chrome_extension/modules/interpreter.js:250-252 | `++` and `--` write the new value into the current frame's own bindings | frames `{n: 0}` and an empty child frame; `n++` evaluated in the child, as in `let n = 0; for (const x of [1]) { n++ }` | write the frame that owns the name, as `setVariable` does for assignments; the enclosing `n` becomes 1 | high; not executed | Interp.UpdateStepAsWritten, Properties.UpdateAsWrittenShadows | Interp.UpdateStep, Properties.UpdateReachesOwner |
| chrome_extension/modules/interpreter.js:44, 60, 66 | `assignPattern` is declared at module level and calls `exec`, which is declared only inside `executeAST` (line 184), so the call raises "ReferenceError: exec is not defined" | `const [x = 1] = []`, `const {a = 1} = {}` or `const {"a": y} = {a: 2}` | evaluate the default or the computed key in the pattern's scope, as `exec` does for every other expression | high; not executed | Interp.BindElemAsWritten, Interp.BindPropAsWritten, Properties.PatternsAsWrittenCannotEvaluate | Interp.BindElem, Interp.BindProp, Rules.BindElemDefault, Rules.BindPropKey, Rules.BindPropDefault, Properties.PatternDefaultCorrected |

`Interp.Exec` uses the corrected `UpdateStep` and the corrected binder
(`BindPattern` and its helpers).

## Left out

- Evaluator form: `exec` is a suspending recursive function. Every loop in
  it calls `exec` again, so the loops are modelled as recursive functions
  on an explicit store rather than as methods. The leaf loops that do not
  re-enter the evaluator are imperative methods proved equal to their
  specification functions: `Frames.SetVariable`, `Store.CopyUnpicked`,
  `Templates.Interpolate`, `Combinators.FilterLoop` and
  `Combinators.MapLoop`.
- Fuel: each step of the evaluator spends one unit of fuel, and running out
  gives `Stuck`. Programs that need more fuel than is supplied, and
  non-terminating programs, are not modelled beyond that point. No lemma
  states that more fuel never changes a result that is not `Stuck`.
- Asynchrony: promises, `await` scheduling, `Promise.all` and `isPromise`
  are not modelled. Every call is treated as awaited. The arguments of a
  plain call and of `new` are evaluated sequentially, left to right.
  `AwaitExpression` gives its argument's value.
- The root set-up in `executeAST` (host bindings for `document`, `window`,
  `console` and the like) and the content and background scripts are not
  part of this model. The evaluator starts from a given store and frame.
- Host objects: DOM nodes, `NodeList` iteration, `RegExp` literals,
  `String.prototype.includes`, function objects read off an array (which
  the source wraps), and members of the host prototypes give `Stuck`.
  Boxing of primitives is not modelled. Records made by object literals,
  by a nullish object-pattern source and by an object rest have no
  prototype object in the store, and a read of an `Object.prototype`
  member off them is `Stuck`.
- The root scope: the source's root scope is an ordinary object, so it
  inherits the members of `Object.prototype` (`toString`, `constructor`,
  `valueOf` and the rest). A name that no frame binds but that
  `Object.prototype` provides is `Stuck` when it is read or written as a
  variable. `++` and `--` on such a name throw the source's TypeError,
  whose message names the inherited value's type (`function`, or `object`
  for `__proto__`).
- Strings: Dafny strings are sequences of Unicode scalar values, whereas
  JavaScript strings are sequences of UTF-16 code units. For characters
  outside the Basic Multilingual Plane the model's `length`, indexing,
  array-pattern binding and rest of a string, the order of
  `<` on strings and `Object.keys` of a string differ from the source's.
- Thrown values: a thrown error or signal is modelled by its contents, with
  no object identity. `===`, `!==`, `==` and `!=` between two thrown
  values are therefore Unmodelled (`Stuck`).
- Numbers: only integers are modelled. `/` is defined only when it is
  exact; the floating-point cases, `NaN` and `instanceof` give `Stuck`.
  The results of `+`, `-`, `*`, `/`, `**=`, `++` and `--` beyond
  `Number.MAX_SAFE_INTEGER` (2^53 - 1) in magnitude give `Stuck`, since
  the source's double may be rounded there. An integer literal beyond it
  is kept as the integer the AST carries, and its string form is written
  out in full, where the source prints the shortest round-trip digits or
  exponent notation (from 10^21 on).
  The binary bit operators (`<<`, `>>`, `>>>`, `&`, `|`, `^`) are not in
  the source's operator switch and throw its unsupported-operator Error;
  their compound forms (`<<=` and the rest) are in its switch and are
  Unmodelled (`Stuck`). Loose equality between two objects is identity.
- Class members: in the module's strict-mode code, writing a static method
  named `name`, `length`, `caller`, `arguments` or `prototype` onto the
  class function, or one named `__proto__` onto the class or its
  prototype, throws or changes the prototype chain. A class declaration
  with such a method is `Stuck`.
- Property writes that do not create a plain own field: storing
  `__proto__` into a record (by assignment or as an object-literal key)
  runs the prototype setter, and storing `name`, `length`, `caller`,
  `arguments`, `prototype` or `__proto__` onto a class throws or relinks
  it. The model gives `Stuck` for these writes; no record or class in the
  model holds such an own field.
- Binding the name `__proto__` in a scope: every frame of the source is
  made by `Object.create` under the root scope, an ordinary object, so
  `scope.__proto__ = v` runs `Object.prototype`'s `__proto__` setter: an
  object relinks the frame's chain, a primitive is ignored, and no binding
  is made. This happens for a hoisted or nested function name
  (interpreter.js:191, 591), a parameter (194, 518, 594, 769, 804, 816), a
  class name (538), a catch parameter (623) and a `for...of` variable
  (854, 856). The model makes an ordinary own
  binding at each of these, so `Interp.HoistBinds`, `Interp.BindArgsKeys`,
  `Interp.BindArgsValues`, `Properties.ClassDeclared`,
  `Rules.FunctionDeclared`, `Properties.TryHandlerGetsThrown`,
  `Properties.ForOfStepNormal` and `Properties.CallFrameBindings` state a
  binding for that name where the source has none.
- ConstructRule: `new` on a plain function or arrow throws a TypeError
  whose message is "not a constructor"; the engine's message names the
  callee ("f is not a constructor"), which the model does not reproduce.
- MapOf: the indices of `map`'s `new Array(n)` that the walk never
  reached (when the callback shortens the array) are holes in the source,
  which `{...out}`, an object rest and `Object.keys` skip. The model
  stores `undefined` there, so those keys are present in the model.
- Array methods other than `find`, `findIndex`, `some`, `every`, `filter`,
  `map`, `reduce` and `forEach` give `Stuck`.
- The second `WhileStatement` case (interpreter.js:895-905) is unreachable
  in the source and is not modelled.
- `Ast.ContainsAwaitIff`: `containsAwait` skips `loc` and `range` and looks
  at every other own property of a node. The model's tree gives the node
  kinds it does not represent (`Other`) no children, so an `await` below
  such a node is not found.
- TryFinalizerAfterHandler: covers a handler whose parameter is a plain
  name and whose run is not `Stuck`. A handler without a parameter, or
  with a destructuring one (which both the source and the model leave
  unbound), is outside this lemma.
- ObjectRestOmitsPicked: states what the rest record holds;
  `Rules.ObjectPatternSource` states that the rest target is bound to a new
  record with exactly those fields.
- CompoundReadsFirst: a worked example; the rule for every operator and
  input is `Rules.CompoundAssignName` for names and
  `Rules.AssignMemberCompound` for members.
- Hoist: its own contract says only that each declared name is bound to a
  closure; `Interp.HoistBinds` states which closure.
- DeclareClass: its own contract states only that the store grows and the
  result is `undefined`; `Properties.ClassDeclared`,
  `Properties.ClassMethodsInstalled` and `Properties.ClassCtorInstalled`
  state the rest.

The functions of module `Interp` below carry only the store invariant in
their own contracts (tables grow, links are kept, thrown values are not
nullish). The lemmas named on each line state their behaviour.

- Exec: dispatches on the node type; each construct's rule is the lemma
  named for its helper below, with `Rules.LiteralValue`,
  `Rules.JumpsThrowSignals`, `Rules.FunctionDeclared`,
  `Rules.UnsupportedNode`, `Properties.IdentifierRead` and
  `Properties.LogicalShortCircuit` for the cases it handles itself.
- ExecStmts: `Rules.ProgramStep`.
- ExecBlock: `Rules.BlockStep`.
- ExecTry: `Rules.TryCompletedBlock`, `Rules.TryFinalizerAfterHandler`,
  `Rules.TryFinalizerAfterSwallow`, `Properties.TryHandlerGetsThrown`,
  `Properties.TryWithoutHandlerSwallows`, `Properties.TryFinalizerOutcome`.
- ExecTemplate: `Rules.TemplateValue`.
- ExecReturn: `Rules.ReturnThrowsSignal`.
- ExecCond: `Rules.CondPicksBranch`, `Rules.CondWithoutElse`.
- ExecBinary: `Rules.BinaryOperands`.
- ExecUnary: `Rules.UnaryOperand`.
- ExecLogical: `Properties.LogicalShortCircuit`.
- ExecArray: `Rules.ArrayLiteral`.
- ArrayElems: `Rules.ArrayHole`, `Rules.ArrayElemPlain`, `Rules.ArrayElemSpread`.
- ExecObject: `Rules.ObjectLiteral`.
- ObjectProps: `Rules.ObjectSpread`, `Rules.ObjectProperty`, `Rules.ObjectOtherEntry`.
- DeclareAll: `Rules.DeclareStep`.
- EvalList: `Rules.EvalListStep`, `Rules.EvalListInOrder`.
- EvalSpreadArgs: `Rules.SpreadArgsStep`.
- MemberKey: `Rules.MemberKeyRule`.
- ExecMember: `Rules.MemberObjectThrows`, `Rules.MemberOptionalNullish`,
  `Rules.MemberOfNullish`, `Rules.MemberKeyThrows`, `Rules.MemberValue`,
  `Rules.MemberBindsMethod`.
- ExecNew: `Rules.NewOperandsFirst`, `Rules.NewNotConstructor`, `Rules.NewConstructs`.
- Construct: `Rules.ConstructRule`.
- Instantiate: `Properties.ConstructorThrowLost`, `Properties.InstanceReadsPrototype`.
- Apply: `Properties.CallOutcome`, `Properties.CallPropagates`,
  `Properties.CallFrameBindings`, `Properties.BoundIgnoresReceiver`,
  `Rules.ApplyClass`.
- ExecCall: `Rules.CallOnMember`, `Rules.CallOperandsFirst`, `Rules.CallApplies`.
- ReceiverCall: `Rules.ReceiverDispatch`.
- MethodCall: `Rules.MethodOptionalNullish`, `Rules.MethodOfNullish`,
  `Rules.MethodNotFunction`, `Rules.MethodApplies`.
- ArrayCall: `Rules.ArrayOwnFunction`, `Rules.ArrayNotFunction`, `Rules.ArrayPrototypeCall`.
- Combinator: `Properties.CombinatorSearch`, `Properties.FilterCollect`,
  `Properties.MapCollect`, `Rules.ReduceStarts`, `Rules.ForEachStarts`.
- Reduce: `Rules.ReduceStep`, `Rules.ReduceFolds`.
- ForEach: `Rules.ForEachStep`, `Rules.ForEachInOrder`.
- WhileLoop: `Rules.WhileBodyRepeats`, `Properties.WhileBodyThrowEscapes`,
  `Properties.WhileFalsyTestEnds`.
- ExecFor: `Rules.ForInitFirst`.
- ForLoop: `Rules.ForTestEnds`, `Properties.ForBreakEnds`,
  `Properties.ForOtherSignalsEscape`, `Properties.ForCatchesByBreakFlag`,
  `Properties.ForNormalBodyContinues`.
- ExecForOf: `Rules.ForOfStarts`.
- ForOfLoop: the `Properties.ForOf...` lemmas.
- ExecAssign: `Rules.AssignToName`, `Rules.AssignToMember`, `Rules.AssignToPattern`.
- AssignName: `Properties.AssignNameEffect`, `Rules.CompoundAssignName`,
  `Rules.CompoundAssignNameOther`, `Properties.NullishAssignKeeps`.
- AssignMember: `Rules.AssignMemberPlain`, `Rules.AssignMemberOfNullish`,
  `Rules.AssignMemberCompound`, `Rules.AssignMemberCompoundOther`.
- StoreProp: `Rules.StoreIntoRecord`, `Rules.StoreIntoRecordProto`,
  `Rules.StoreIntoClass`, `Rules.StoreIntoArray`,
  `Rules.StoreIntoNullish`, `Rules.StoreIntoPrimitive`.
- BindPattern: `Rules.BindName`, `Rules.ArrayPatternSource`, `Rules.ObjectPatternSource`.
- BindElems: `Rules.BindElemsStep`.
- BindRest: `Rules.BindRestSlice`, `Rules.BindRestNoSlice`.
- BindElem: `Rules.BindElemDefault`, `Rules.BindElemPresent`,
  `Properties.DefaultSkippedWhenPresent`, `Properties.DefaultUsedWhenUndefined`.
- BindProps: `Rules.BindPropsStep`.
- BindProp: `Rules.BindPropKey`, `Rules.BindPropDefault`, `Rules.BindPropValue`.
