/** `arrayvec::ArrayVec<T, CAP>`: a vector that holds at most `CAP` elements,
    as used for mbuf bursts. Only what the wrapper code relies on is modelled:
    its length, its capacity and its elements. */
module ArrayVecs {

  class ArrayVec<T> {
    const cap: nat
    var items: seq<T>

    /** `ArrayVec::new()`. */
    constructor (cap: nat)
      ensures this.cap == cap && items == []
    {
      this.cap := cap;
      items := [];
    }

    predicate Valid()
      reads this
    {
      |items| <= cap
    }

    /** `remaining_capacity`. */
    function RemainingCapacity(): (n: nat)
      reads this
      requires Valid()
      ensures |items| + n == cap
    {
      cap - |items|
    }
  }
}
