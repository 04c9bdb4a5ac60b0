/**
 Leaving elements out of a list.
 */
module Sequences {

  /** The list without the doomed elements, the others in their order. */
  function Without<T>(items: seq<T>, doomed: T -> bool): seq<T> {
    if items == [] then []
    else
      var rest := Without(items[1..], doomed);
      if doomed(items[0]) then rest else [items[0]] + rest
  }

  lemma {:induction false} WithoutThen<T>(first: T, items: seq<T>, doomed: T -> bool)
    ensures var rest := Without(items, doomed);
            Without([first] + items, doomed) == if doomed(first) then rest else [first] + rest
  {
    assert ([first] + items)[1..] == items;
  }

  lemma {:induction false} WithoutOne<T>(x: T, doomed: T -> bool)
    ensures Without([x], doomed) == if doomed(x) then [] else [x]
  {
    assert [x][1..] == [];
  }

  lemma {:induction false} WithoutMembers<T>(items: seq<T>, doomed: T -> bool, x: T)
    ensures x in Without(items, doomed) <==> x in items && !doomed(x)
  {
    if items == [] {
    } else {
      WithoutMembers(items[1..], doomed, x);
      assert items == [items[0]] + items[1..];
    }
  }

  /** Something is left out exactly if something is doomed. */
  lemma {:induction false} WithoutIsShorter<T>(items: seq<T>, doomed: T -> bool)
    ensures |Without(items, doomed)| <= |items|
    ensures |Without(items, doomed)| < |items| <==> exists i :: 0 <= i < |items| && doomed(items[i])
  {
    if items == [] {
    } else {
      WithoutIsShorter(items[1..], doomed);
      assert forall i :: 1 <= i < |items| ==> items[i] == items[1..][i - 1];
    }
  }

  lemma {:induction false} WithoutLast<T>(items: seq<T>, last: T, doomed: T -> bool)
    ensures var front := Without(items, doomed);
            Without(items + [last], doomed) == if doomed(last) then front else front + [last]
  {
    if items == [] {
      assert [] + [last] == [last] && [last][1..] == [];
    } else {
      WithoutLast(items[1..], last, doomed);
      assert (items + [last])[1..] == items[1..] + [last];
    }
  }

  /** The filtering loop. */
  method LeaveOut<T>(items: seq<T>, doomed: T -> bool) returns (left: seq<T>)
    ensures left == Without(items, doomed)
  {
    left := [];
    for i := 0 to |items|
      invariant left == Without(items[..i], doomed)
    {
      WithoutLast(items[..i], items[i], doomed);
      assert items[..i + 1] == items[..i] + [items[i]];
      if !doomed(items[i]) {
        left := left + [items[i]];
      }
    }
    assert items[..|items|] == items;
  }
}
