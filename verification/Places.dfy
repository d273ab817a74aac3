/** Sums of multisets along a sequence, used to say where every thread is. */
module Places {

  type Bag = multiset<nat>

  function Sum(s: seq<Bag>): Bag
  {
    if |s| == 0 then multiset{} else Sum(s[..|s| - 1]) + s[|s| - 1]
  }

  lemma {:induction false} SumAppend(s: seq<Bag>, t: seq<Bag>)
    ensures Sum(s + t) == Sum(s) + Sum(t)
  {
    if |t| == 0 {
      assert s + t == s;
    } else {
      var n := |t| - 1;
      SumAppend(s, t[..n]);
      assert (s + t)[..|s| + n] == s + t[..n];
    }
  }

  /** One position stands out from the rest. */
  lemma {:induction false} SumSplit(s: seq<Bag>, i: nat)
    requires i < |s|
    ensures Sum(s) == Sum(s[..i] + s[i + 1..]) + s[i]
  {
    SumAppend(s[..i], s[i + 1..]);
    SumAppend(s[..i + 1], s[i + 1..]);
    assert s[..i + 1][..i] == s[..i];
    assert s == s[..i + 1] + s[i + 1..];
  }

  lemma {:induction false} SumUpdate(s: seq<Bag>, i: nat, x: Bag)
    requires i < |s|
    ensures Sum(s[i := x]) + s[i] == Sum(s) + x
  {
    SumSplit(s, i);
    SumSplit(s[i := x], i);
    assert s[i := x][..i] == s[..i] && s[i := x][i + 1..] == s[i + 1..];
    var r := Sum(s[..i] + s[i + 1..]);
    assert r + x + s[i] == r + s[i] + x;
  }

  /** Two different positions contribute separately. */
  lemma {:induction false} SumHasTwo(s: seq<Bag>, i: nat, j: nat)
    requires i < j < |s|
    ensures s[i] + s[j] <= Sum(s)
  {
    SumSplit(s, j);
    var r := s[..j] + s[j + 1..];
    SumSplit(r, i);
    assert r[i] == s[i];
  }

  /** Whatever the sum holds, some position holds. */
  lemma {:induction false} SumWitness(s: seq<Bag>, t: nat) returns (i: nat)
    requires t in Sum(s)
    ensures i < |s| && t in s[i]
  {
    var n := |s| - 1;
    if t in s[n] {
      i := n;
    } else {
      i := SumWitness(s[..n], t);
    }
  }

  /** If `a` plus the big bag is `b` plus the small one, `a` lost exactly the difference. */
  lemma Moved(a: Bag, big: Bag, b: Bag, small: Bag, m: Bag)
    requires a + big == b + small && big == small + m
    ensures a + m == b
  {
    forall t ensures (a + m)[t] == b[t] {
      assert (a + big)[t] == (b + small)[t];
    }
  }
}
