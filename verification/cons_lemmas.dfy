/** Properties of `cons!`: what each binder and the collector receive, when
    and how it panics, and what the caller's scope looks like afterwards. */
module ConsLemmas {
  import opened Wrappers
  import opened ConsMacro

  /** The recursive macro agrees with the closed-form description. */
  lemma {:induction false} ConsIsExpected<T>(s: seq<T>, names: seq<string>)
    requires |names| >= 1
    ensures Cons(s, names) == Expected(s, names)
    decreases |names|
  {
    if |names| == 1 {
      assert s[0..] == s;
      assert Expected(s, names).value == [Binding(names[0], Many(s))];
    } else if |s| == 0 {
    } else {
      ConsIsExpected(s[1..], names[1..]);
      var k := Binders(names);
      if |s| >= k {
        var rest := Cons(s[1..], names[1..]).value;
        var all := [Binding(names[0], One(s[0]))] + rest;
        assert Cons(s, names) == Success(all);
        assert s[1..][k - 1..] == s[k..];
        forall i | 0 <= i < |names|
          ensures all[i] == Expected(s, names).value[i]
        {
          if i > 0 {
            assert all[i] == rest[i - 1];
          }
        }
        assert all == Expected(s, names).value;
      }
    }
  }

  /** A one-identifier pattern never panics and binds the whole iterator, in
      order, to that identifier. */
  lemma ConsSingleCollectsAll<T>(s: seq<T>, name: string)
    ensures Cons(s, [name]) == Success([Binding(name, Many(s))])
  {
  }

  /** With at least as many elements as binders, binder `i` receives `s[i]`
      and the collector receives `s[k..]`, where `k` is the number of binders. */
  lemma {:induction false} ConsBindsPrefix<T>(s: seq<T>, names: seq<string>)
    requires |names| >= 1
    requires |s| >= Binders(names)
    ensures Cons(s, names).Success?
    ensures forall i :: 0 <= i < Binders(names) ==>
      Cons(s, names).value[i] == Binding(names[i], One(s[i]))
    ensures Cons(s, names).value[Binders(names)] ==
      Binding(names[Binders(names)], Many(s[Binders(names)..]))
  {
    ConsIsExpected(s, names);
  }

  /** Exactly as many elements as binders: success, and the collector gets an
      empty vector. */
  lemma {:induction false} ConsExactSupplyCollectsNothing<T>(s: seq<T>, names: seq<string>)
    requires |names| >= 1
    requires |s| == Binders(names)
    ensures Cons(s, names).Success?
    ensures Cons(s, names).value[|s|] == Binding(names[|s|], Many([]))
  {
    ConsBindsPrefix(s, names);
    assert s[|s|..] == [];
  }

  /** Fewer elements than binders: the macro panics, naming the first binder
      that found the iterator exhausted, and no binding survives. */
  lemma ConsUnderSupplyNamesFirstUnreached<T>(s: seq<T>, names: seq<string>)
    requires |names| >= 1
    requires |s| < Binders(names)
    ensures Cons(s, names) == Failure(ExhaustedPrefix + names[|s|])
    ensures ExhaustedName(Cons(s, names).error) == Some(names[|s|])
  {
    ExhaustedMessageNamesBinder(names[|s|]);
  }

  /** The collector never causes a panic: whether the macro panics, and with
      what message, does not depend on the collector's name, and the name in
      a panic message is always that of a binder. */
  lemma ConsCollectorNeverFails<T>(s: seq<T>, binders: seq<string>, c1: string, c2: string)
    ensures Cons(s, binders + [c1]).Failure? <==> Cons(s, binders + [c2]).Failure?
    ensures Cons(s, binders + [c1]).Failure? ==>
      |s| < |binders| && Cons(s, binders + [c1]) == Cons(s, binders + [c2])
    ensures Cons(s, binders + [c1]).Failure? ==>
      Cons(s, binders + [c1]).error == ExhaustedMessage(binders[|s|])
  {
    if |s| < |binders| {
      assert (binders + [c1])[|s|] == binders[|s|];
      assert (binders + [c2])[|s|] == binders[|s|];
    }
  }

  /** Elements are consumed left to right, each exactly once: on success the
      binders' elements followed by the collector's vector are the input. */
  lemma {:induction false} ConsConsumesInOrder<T>(s: seq<T>, names: seq<string>)
    requires |names| >= 1
    requires Cons(s, names).Success?
    ensures Flatten(Cons(s, names).value) == s
    decreases |names|
  {
    if |names| == 1 {
      assert Cons(s, names).value == [Binding(names[0], Many(s))];
      assert Cons(s, names).value[1..] == [];
    } else {
      var rest := Cons(s[1..], names[1..]).value;
      assert Cons(s, names).value == [Binding(names[0], One(s[0]))] + rest;
      assert Cons(s, names).value[1..] == rest;
      ConsConsumesInOrder(s[1..], names[1..]);
    }
  }

  /** One binding per identifier, in pattern order: `One` for every binder,
      `Many` for the collector. */
  lemma {:induction false} ConsShape<T>(s: seq<T>, names: seq<string>)
    requires |names| >= 1
    requires Cons(s, names).Success?
    ensures |Cons(s, names).value| == |names|
    ensures forall i :: 0 <= i < |names| ==>
      Cons(s, names).value[i].name == names[i] &&
      (Cons(s, names).value[i].val.One? <==> i < Binders(names))
  {
    ConsBindsPrefix(s, names);
  }

  /** Supplying more elements never turns success into a panic: the binders
      are unchanged and the extra elements go to the collector. */
  lemma {:induction false} ConsExtraGoesToCollector<T>(s: seq<T>, t: seq<T>, names: seq<string>)
    requires |names| >= 1
    requires Cons(s, names).Success?
    ensures Cons(s + t, names).Success?
    ensures var k := Binders(names);
      Cons(s + t, names).value[..k] == Cons(s, names).value[..k] &&
      Cons(s + t, names).value[k] == Binding(names[k], Many(s[k..] + t))
  {
    var k := Binders(names);
    ConsBindsPrefix(s, names);
    ConsBindsPrefix(s + t, names);
    assert (s + t)[k..] == s[k..] + t;
    forall i | 0 <= i < k
      ensures Cons(s + t, names).value[..k][i] == Cons(s, names).value[..k][i]
    {
      assert (s + t)[i] == s[i];
    }
  }

  /** Every identifier of a binding list is visible afterwards, and each
      identifier shows the value of its last `let`. */
  lemma {:induction false} ScopeLastWins<T>(bs: seq<Binding<T>>, j: nat)
    requires j < |bs|
    requires forall m :: j < m < |bs| ==> bs[m].name != bs[j].name
    ensures bs[j].name in Scope(bs)
    ensures Scope(bs)[bs[j].name] == bs[j].val
    decreases |bs|
  {
    if j < |bs| - 1 {
      var init := bs[..|bs| - 1];
      assert forall m :: j < m < |init| ==> init[m] == bs[m];
      ScopeLastWins(init, j);
    }
  }

  /** The caller's scope after `cons!`: the collector always holds the rest of
      the iterator, and a binder not shadowed by a later identifier of the
      same name holds its own element. */
  lemma {:induction false} ConsScope<T>(s: seq<T>, names: seq<string>, i: nat)
    requires |names| >= 1
    requires |s| >= Binders(names)
    requires i < |names|
    requires forall m :: i < m < |names| ==> names[m] != names[i]
    ensures names[i] in Scope(Cons(s, names).value)
    ensures Scope(Cons(s, names).value)[names[i]] ==
      if i < Binders(names) then One(s[i]) else Many(s[Binders(names)..])
  {
    ConsBindsPrefix(s, names);
    ScopeLastWins(Cons(s, names).value, i);
  }
}
