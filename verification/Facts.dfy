/** Facts about lists and products that several modules use. */
module Facts {
  function SetOf<T(==)>(s: seq<T>): set<T> {
    set x | x in s
  }

  predicate AtMostOne<T(==)>(s: set<T>) {
    forall x, y :: x in s && y in s ==> x == y
  }

  lemma Regroup<T>(a: seq<T>, b: seq<T>, c: seq<T>)
    ensures a + b + c == a + (b + c)
  {
  }

  /** Multiplying by a positive factor keeps and reflects the order. */
  lemma Scale(m: int, a: int, b: int)
    requires m >= 1
    ensures a <= b <==> a * m <= b * m
    ensures a < b <==> a * m < b * m
  {
  }

  lemma OneMore(n: int, m: int)
    ensures (n + 1) * m == n * m + m && n * m == (n - 1) * m + m
    ensures n == 0 ==> n * m == 0
  {
  }
}
