/** The macro's unit tests, as facts about the model. */
module ConsScenarios {
  import opened Wrappers
  import opened ConsMacro
  import opened ConsLemmas

  /** `cons!(v as x::xs)` on `[1, 2, 3]`: `x == 1`, `xs == vec![2, 3]`. */
  lemma GetHead()
    ensures Cons([1, 2, 3], ["x", "xs"]) ==
      Success([Binding("x", One(1)), Binding("xs", Many([2, 3]))])
  {
    var s, names := [1, 2, 3], ["x", "xs"];
    ConsBindsPrefix(s, names);
    assert s[1..] == [2, 3];
    assert Cons(s, names).value == [Binding("x", One(1)), Binding("xs", Many([2, 3]))];
  }

  /** `cons!(v as x::y::zs)` on `[1, 2, 3, 4, 5]`: `x == 1`, `y == 2`,
      `zs == vec![3, 4, 5]`. */
  lemma TripleCons()
    ensures Cons([1, 2, 3, 4, 5], ["x", "y", "zs"]) ==
      Success([Binding("x", One(1)), Binding("y", One(2)), Binding("zs", Many([3, 4, 5]))])
  {
    var s, names := [1, 2, 3, 4, 5], ["x", "y", "zs"];
    ConsBindsPrefix(s, names);
    assert s[2..] == [3, 4, 5];
    assert Cons(s, names).value ==
      [Binding("x", One(1)), Binding("y", One(2)), Binding("zs", Many([3, 4, 5]))];
  }

  /** `cons!(v as x::y::zs)` on `[1]` panics with
      "Iterator exhausted before reaching variable y". */
  lemma IteratorTooShort()
    ensures Cons([1], ["x", "y", "zs"]) ==
      Failure("Iterator exhausted before reaching variable y")
  {
    ConsUnderSupplyNamesFirstUnreached([1], ["x", "y", "zs"]);
    assert ExhaustedPrefix + "y" == "Iterator exhausted before reaching variable y";
  }
}
