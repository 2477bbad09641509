/** What every other module may use. */
module Common {
  datatype Option<T> = None | Some(value: T)

  function Min(a: nat, b: nat): nat { if a <= b then a else b }
  function Max(a: nat, b: nat): nat { if a <= b then b else a }

  /** The sum of the first `n` terms. */
  function SumTo(n: nat, term: nat -> int): int {
    if n == 0 then 0 else SumTo(n - 1, term) + term(n - 1)
  }

  lemma Regroup<T>(a: seq<T>, b: seq<T>, c: seq<T>)
    ensures (a + b) + c == a + (b + c)
  {
  }
}
