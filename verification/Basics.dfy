/** What several of the models use. */
module Basics {

  datatype Option<T> = None | Some(value: T)

  const WORD := 0x1_0000_0000
  const INT_MAX := 0x7fff_ffff

  function Min(a: nat, b: nat): nat { if a < b then a else b }

  ghost predicate Distinct(l: seq<nat>)
  {
    forall i, k :: 0 <= i < k < |l| ==> l[i] != l[k]
  }

  lemma MulLe(a: int, b: int, c: int)
    requires a <= b && c >= 0
    ensures a * c <= b * c
  {
    assert b * c - a * c == (b - a) * c;
  }

  lemma ModUnique(x: int, m: int, c: int, r: int)
    requires m > 0 && x == c * m + r && 0 <= r < m
    ensures x / m == c && x % m == r
  {
    var c' := x / m;
    assert x == m * c' + x % m;
    if c' > c { MulLe(c + 1, c', m); }
    if c' < c { MulLe(c' + 1, c, m); }
  }
}
