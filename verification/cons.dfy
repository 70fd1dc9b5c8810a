/**
  The `cons!` macro: destructure an iterator by prefix, ML style.

  `cons!(v as x::y::zs)` binds `x` and `y` to the first two elements of `v`
  and `zs` to a vector of everything after them. Every identifier but the
  last is a *binder* that takes one element; the last is the *collector*
  that takes the rest. A binder that finds the iterator exhausted panics
  with a message naming it.

  The iterator is a finite sequence; the panic is a `Failure` carrying the
  panic message, so no partial bindings are observable after it.
 */
module ConsMacro {
  import opened Wrappers

  /** What an identifier of the pattern is bound to: one element (a binder)
      or the collected vector of the remaining elements (the collector). */
  datatype Val<T> = One(elem: T) | Many(elems: seq<T>)

  /** One `let name = value;` produced by the expansion. */
  datatype Binding<T> = Binding(name: string, val: Val<T>)

  /** Fixed text of the exhaustion panic, before the binder's name. */
  const ExhaustedPrefix: string := "Iterator exhausted before reaching variable "

  /** The panic message for binder `name`. */
  function ExhaustedMessage(name: string): (msg: string)
    ensures |msg| == |ExhaustedPrefix| + |name|
    ensures msg[..|ExhaustedPrefix|] == ExhaustedPrefix
    ensures msg[|ExhaustedPrefix|..] == name
  {
    ExhaustedPrefix + name
  }

  /** Reads the binder name back out of an exhaustion message, if it is one. */
  function ExhaustedName(msg: string): (r: Option<string>)
    ensures r.Some? <==> |ExhaustedPrefix| <= |msg| && msg[..|ExhaustedPrefix|] == ExhaustedPrefix
    ensures r.Some? ==> ExhaustedMessage(r.value) == msg
  {
    if |ExhaustedPrefix| <= |msg| && msg[..|ExhaustedPrefix|] == ExhaustedPrefix
    then Some(msg[|ExhaustedPrefix|..])
    else None
  }

  /** The message names its binder: the name can always be recovered from it. */
  lemma ExhaustedMessageNamesBinder(name: string)
    ensures ExhaustedName(ExhaustedMessage(name)) == Some(name)
  {
    assert ExhaustedMessage(name)[|ExhaustedPrefix|..] == name;
  }

  /** Different binders give different messages. */
  lemma ExhaustedMessageInjective(a: string, b: string)
    requires ExhaustedMessage(a) == ExhaustedMessage(b)
    ensures a == b
  {
    ExhaustedMessageNamesBinder(a);
    ExhaustedMessageNamesBinder(b);
  }

  /** Number of binders in a pattern: every identifier but the collector. */
  function Binders(names: seq<string>): nat
    requires |names| >= 1
  {
    |names| - 1
  }

  /**
    `cons!(s as names[0]::...::names[k])`, following the two arms of the macro:
    a single identifier collects the whole iterator; otherwise the head
    identifier takes `next()` (panicking on exhaustion) and the macro recurses
    on the tail of the pattern with the same iterator.
   */
  function Cons<T>(s: seq<T>, names: seq<string>): (r: Result<seq<Binding<T>>, string>)
    requires |names| >= 1
    ensures r.Success? <==> |s| >= Binders(names)
    ensures r.Success? ==> |r.value| == |names|
    ensures r.Success? ==> forall i :: 0 <= i < |names| ==> r.value[i].name == names[i]
    ensures r.Failure? ==> r.error == ExhaustedMessage(names[|s|])
    decreases |names|
  {
    if |names| == 1 then
      Success([Binding(names[0], Many(s))])
    else if |s| == 0 then
      Failure(ExhaustedMessage(names[0]))
    else
      match Cons(s[1..], names[1..])
      case Success(rest) => Success([Binding(names[0], One(s[0]))] + rest)
      case Failure(e) => Failure(e)
  }

  /**
    What the macro promises, stated without recursion: with `k` binders and at
    least `k` elements, binder `i` gets `s[i]` and the collector gets `s[k..]`;
    with fewer, the first binder without an element, `names[|s|]`, is named.
   */
  function Expected<T>(s: seq<T>, names: seq<string>): Result<seq<Binding<T>>, string>
    requires |names| >= 1
  {
    var k := Binders(names);
    if |s| < k then
      Failure(ExhaustedMessage(names[|s|]))
    else
      Success(seq(|names|, i requires 0 <= i < |names| =>
        if i < k then Binding(names[i], One(s[i])) else Binding(names[k], Many(s[k..]))))
  }

  /** The values of a binding list laid end to end: a binder contributes its
      element, the collector its vector. */
  function Flatten<T>(bs: seq<Binding<T>>): seq<T>
  {
    if |bs| == 0 then []
    else
      (match bs[0].val
       case One(x) => [x]
       case Many(xs) => xs) + Flatten(bs[1..])
  }

  /** The variables visible to the caller after the expansion's `let`s run in
      order: a later `let` of the same name shadows an earlier one. */
  function Scope<T>(bs: seq<Binding<T>>): (scope: map<string, Val<T>>)
    ensures scope.Keys == set i | 0 <= i < |bs| :: bs[i].name
  {
    if |bs| == 0 then map[]
    else
      var init := bs[..|bs| - 1];
      assert forall i :: 0 <= i < |init| ==> init[i] == bs[i];
      Scope(init)[bs[|bs| - 1].name := bs[|bs| - 1].val]
  }
}
