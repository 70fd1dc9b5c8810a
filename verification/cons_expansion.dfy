/**
  The code `cons!` expands to, once its recursion is unrolled: one shared
  iterator, one `let name = iter.next().unwrap_or_else(panic)` per binder in
  pattern order, then `let collector = iter.collect()`. Written here as a
  loop over the binders.
 */
module ConsExpansion {
  import opened Wrappers
  import opened ConsMacro
  import ConsLemmas

  /** Equal to the closed form and, through it, to the recursive macro. */
  method Expand<T>(s: seq<T>, names: seq<string>) returns (r: Result<seq<Binding<T>>, string>)
    requires |names| >= 1
    ensures r == Expected(s, names)
    ensures r == Cons(s, names)
  {
    var k := |names| - 1;
    var iter := s;
    var lets: seq<Binding<T>> := [];
    var i := 0;
    while i < k
      invariant 0 <= i <= k
      invariant i <= |s| && iter == s[i..]
      invariant |lets| == i
      invariant forall j :: 0 <= j < i ==> lets[j] == Binding(names[j], One(s[j]))
    {
      if |iter| == 0 {
        ConsLemmas.ConsIsExpected(s, names);
        return Failure(ExhaustedMessage(names[i]));
      }
      lets := lets + [Binding(names[i], One(iter[0]))];
      iter := iter[1..];
      i := i + 1;
    }
    lets := lets + [Binding(names[k], Many(iter))];
    r := Success(lets);
    assert lets == Expected(s, names).value;
    ConsLemmas.ConsIsExpected(s, names);
  }
}
