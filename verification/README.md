# cons-rs in Dafny

A model of the `cons!` macro from the cons-rs crate. The macro destructures
an iterator by prefix, in the style of ML's `x::y::rest`. For example,
`cons!(v as x::y::zs)` binds `x` and `y` to the first two elements of `v`.
It binds `zs` to a `Vec` of all the elements after them.

The macro has two arms:

- **Collector arm** (`src/lib.rs:3-6`). A single identifier collects the whole iterator, which may be empty.
- **Binder arm** (`src/lib.rs:7-13`). The head identifier takes `iter.next()`. If the iterator is exhausted it panics with `Iterator exhausted before reaching variable <name>`. Otherwise the macro recurses on the rest of the pattern with the same iterator.

In the model:

- The iterator is a finite `seq<T>`.
- The identifiers of the pattern are a non-empty `seq<string>`.
- Each `let` the expansion produces is a `Binding(name, One(elem) | Many(elems))`.
- The panic is `Failure(message)`. A panic aborts the caller's scope, so no partial binding is observable, and a `Result` captures that.

Files:

- `wrappers.dfy`: `Option` and `Result`.
- `cons.dfy` (module `ConsMacro`): the recursive macro `Cons`, the panic message, a closed-form description `Expected`, `Flatten` and the caller's `Scope`.
- `cons_lemmas.dfy` (module `ConsLemmas`): properties of `Cons`.
- `cons_expansion.dfy` (module `ConsExpansion`): the unrolled expansion, i.e. one shared iterator and one `let` per identifier, written as a loop. It is proved equal to both the closed form and the recursive macro.
- `cons_scenarios.dfy` (module `ConsScenarios`): the crate's three unit tests.

An identifier written `nil` is an ordinary identifier, because `$hd:ident` and `$tl:ident` accept any identifier. In the last position it is the collector; anywhere else it is a binder.

## Model

| member | source | states |
|---|---|---|
| ConsMacro.ExhaustedMessage | src/lib.rs:10 | the panic message is the fixed text "Iterator exhausted before reaching variable " followed by exactly the binder's name |
| ConsMacro.ExhaustedName | src/lib.rs:10 | the crate never reads a message back; this is the inverse of the message format built at line 10, used to state that the message names its binder: reading a message back yields a name exactly when the message starts with the fixed text, and re-rendering that name gives the message back |
| ConsMacro.ExhaustedMessageNamesBinder | src/lib.rs:10 | the binder's name is always recoverable from its panic message |
| ConsMacro.ExhaustedMessageInjective | src/lib.rs:10 | two binders with different names never produce the same panic message |
| ConsMacro.Cons | src/lib.rs:2-13 | the macro succeeds exactly when the iterator holds at least as many elements as there are binders; on success there is one binding per identifier, in pattern order; on a panic the message names the identifier at position len(s) |
| ConsLemmas.ConsIsExpected | src/lib.rs:2-13 | the recursive macro equals the closed form: binder i gets s[i] and the collector gets s[k..], or there is a panic naming the first unreached binder |
| ConsLemmas.ConsSingleCollectsAll | src/lib.rs:3-6 | a one-identifier pattern never panics and binds the whole iterator to that identifier, in original order |
| ConsLemmas.ConsBindsPrefix | src/lib.rs:7-12 | with k binders and at least k elements, binder i receives One(s[i]) for every i < k and the collector receives Many(s[k..]) |
| ConsLemmas.ConsExactSupplyCollectsNothing | src/lib.rs:5 | with exactly k elements the macro succeeds and the collector receives an empty vector |
| ConsLemmas.ConsUnderSupplyNamesFirstUnreached | src/lib.rs:9-10 | with fewer elements than binders the result is the panic whose message is the fixed text followed by names[len(s)], the first binder that found the iterator exhausted |
| ConsLemmas.ConsCollectorNeverFails | src/lib.rs:3-11 | whether the macro panics, and with which message, does not depend on the collector's name; a panic always names a binder |
| ConsLemmas.ConsConsumesInOrder | src/lib.rs:8-12 | on success, the binders' elements followed by the collector's vector are exactly the input, so each element is consumed once, left to right |
| ConsLemmas.ConsShape | src/lib.rs:5-12 | on success, binding i carries identifier i, and it is a single element exactly for the binders and a vector for the collector |
| ConsLemmas.ConsExtraGoesToCollector | src/lib.rs:5-12 | appending elements to a successful input keeps every binder's value and extends only the collector's vector |
| ConsMacro.Scope | src/lib.rs:5-9 | the identifiers visible after the expansion's `let`s are exactly the names of the bindings, and no other name becomes visible |
| ConsLemmas.ScopeLastWins | src/lib.rs:5-9 | after the expansion's `let`s run in order, each identifier is visible and shows the value of its last `let` |
| ConsLemmas.ConsScope | src/lib.rs:5-12 | after a successful `cons!`, the collector always holds the rest of the iterator, and a binder that no later identifier shadows holds its own element |
| ConsExpansion.Expand | src/lib.rs:2-13 | the unrolled expansion (one `next()` or panic per binder, then `collect()`) returns the closed-form result, binder i gets s[i] and the collector gets s[k..] or a panic names binder len(s), and it equals the recursive macro on every input |
| ConsScenarios.GetHead | src/lib.rs:20-27 | `x::xs` on [1, 2, 3] binds x = 1 and xs = [2, 3] |
| ConsScenarios.TripleCons | src/lib.rs:29-37 | `x::y::zs` on [1, 2, 3, 4, 5] binds x = 1, y = 2 and zs = [3, 4, 5] |
| ConsScenarios.IteratorTooShort | src/lib.rs:39-45 | `x::y::zs` on [1] panics with "Iterator exhausted before reaching variable y" |

## Left out

- Generic `IntoIterator` sources, and iterators that may be unbounded, are left out. Input is a finite sequence, and collecting an infinite iterator would diverge.
- Macro-expansion mechanics are left out: hygiene of the internal `iter` binding, `stringify!`, and the `$iter:ident as` call syntax. The model keeps only the resulting bindings and the message text.
- Panic unwinding is modelled as a `Failure` result carrying the message.
- Element types are left abstract. `Vec` is modelled as `seq`.
- A `nil` terminal marker, an overflow error for leftover elements and structural sub-patterns do not exist in the macro: its grammar accepts identifiers only.
- Patterns of any length are accepted. rustc rejects very long patterns at compile time, because each identifier costs one level of macro recursion and the default `recursion_limit` is 128. This is a compile-time limit only, so no runtime behaviour is lost.
