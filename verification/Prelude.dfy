/** Shared datatypes. */
module Prelude {

  datatype Option<+T> = None | Some(value: T)

  lemma AppendAssoc<T>(a: seq<T>, b: seq<T>, c: seq<T>)
    ensures a + b + c == a + (b + c)
  {
  }

  lemma NoMembers<T>(s: seq<T>)
    ensures s == [] <==> forall t :: t !in s
  {
    if s != [] {
      assert s[0] in s;
    }
  }

  function Pow(base: nat, n: nat): (r: nat)
    ensures base >= 1 ==> r >= 1
  {
    if n == 0 then 1 else base * Pow(base, n - 1)
  }

  lemma {:induction false} PowAdd(base: nat, a: nat, b: nat)
    ensures Pow(base, a + b) == Pow(base, a) * Pow(base, b)
  {
    if b > 0 {
      PowAdd(base, a, b - 1);
      Associate(base, Pow(base, a), Pow(base, b - 1));
    }
  }

  lemma Associate(x: int, y: int, z: int)
    ensures x * (y * z) == y * (x * z)
  {
  }

  lemma {:induction false} PowMonotone(base: nat, a: nat, b: nat)
    requires base >= 1 && a <= b
    ensures Pow(base, a) <= Pow(base, b)
    decreases b
  {
    if a < b {
      PowMonotone(base, a, b - 1);
      MulMonotone(Pow(base, b - 1), 1, base);
    }
  }

  lemma MulMonotone(x: int, a: int, b: int)
    requires 0 <= x && a <= b
    ensures x * a <= x * b
  {
  }
}
