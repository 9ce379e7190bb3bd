/** Machine integers, byte strings and the few sequence facts the other modules share. */
module Types {
  const TWO_TO_THE_63 := 0x8000_0000_0000_0000
  const TWO_TO_THE_64 := 0x1_0000_0000_0000_0000

  type byte = x: int | 0 <= x < 256
  type Bytes = seq<byte>
  type uint64 = x: int | 0 <= x < TWO_TO_THE_64
  type int64 = x: int | -TWO_TO_THE_63 <= x < TWO_TO_THE_63

  /** `common.Hash`: exactly 32 bytes. */
  type Hash = b: Bytes | |b| == 32 witness seq(32, _ => 0)

  datatype Option<+T> = None | Some(value: T)

  /** Unsigned addition wraps around, so the sum is the true one only below the limit. */
  function Add64(x: uint64, y: uint64): (r: uint64)
    ensures r == x + y <==> x + y < TWO_TO_THE_64
    ensures x + y >= TWO_TO_THE_64 ==> r == x + y - TWO_TO_THE_64
  {
    (x + y) % TWO_TO_THE_64
  }

  /** The conversion `int64(x)` reinterprets the bits; converting back loses nothing. */
  function ToInt64(x: uint64): (r: int64)
    ensures ToUint64(r) == x
    ensures (x - r) % TWO_TO_THE_64 == 0
  {
    if x < TWO_TO_THE_63 then x else x - TWO_TO_THE_64
  }

  function ToUint64(x: int64): (r: uint64)
    ensures (r - x) % TWO_TO_THE_64 == 0
  {
    if x >= 0 then x else x + TWO_TO_THE_64
  }

  predicate NoDuplicates<T(==)>(s: seq<T>) {
    forall i, j :: 0 <= i < j < |s| ==> s[i] != s[j]
  }

  /** `order` lists the elements of `elements`, each once: one iteration order of a map or set. */
  ghost predicate IsOrderOf<T(!new)>(order: seq<T>, elements: set<T>) {
    NoDuplicates(order) && forall x :: x in order <==> x in elements
  }

  lemma {:induction false} OrderMultiset<T(!new)>(order: seq<T>, elements: set<T>)
    requires IsOrderOf(order, elements)
    ensures multiset(order) == multiset(elements)
  {
    if order == [] {
      assert elements == {};
    } else {
      var last := |order| - 1;
      var rest := elements - {order[last]};
      assert order == order[..last] + [order[last]];
      OrderMultiset(order[..last], rest);
      assert elements == rest + {order[last]};
    }
  }

  /** Two iteration orders of the same set are permutations of each other. */
  lemma OrdersArePermutations<T(!new)>(a: seq<T>, b: seq<T>, elements: set<T>)
    requires IsOrderOf(a, elements) && IsOrderOf(b, elements)
    ensures multiset(a) == multiset(b)
  {
    OrderMultiset(a, elements);
    OrderMultiset(b, elements);
  }
}
