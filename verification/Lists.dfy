/** Sequences as lists that are searched and shortened. */
module Lists {
  /** The list without any element equal to x. */
  function Without<T(==, !new)>(list: seq<T>, x: T): (r: seq<T>)
    ensures forall y :: y in r <==> y in list && y != x
  {
    if list == [] then []
    else
      assert list == [list[0]] + list[1..];
      (if list[0] == x then [] else [list[0]]) + Without(list[1..], x)
  }

  lemma {:induction false} WithoutAppend<T(!new)>(list: seq<T>, last: T, x: T)
    ensures Without(list + [last], x) == Without(list, x) + if last == x then [] else [last]
  {
    if list == [] {
      assert Without([last][1..], x) == [];
    } else {
      assert (list + [last])[1..] == list[1..] + [last];
      WithoutAppend(list[1..], last, x);
    }
  }

  lemma Regroup<T>(a: seq<T>, b: seq<T>, c: seq<T>)
    ensures (a + b) + c == a + (b + c)
  {
  }
}
