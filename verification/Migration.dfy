/** thread_consider_migration of thread.c: one CPU hands its surplus threads to the others while
    they keep running, which they can whenever it holds no run-queue lock. */
module Migration {
  import opened Basics
  import opened Places

  type Tid = nat

  // ---------------------------------------------------------------------------
  // Queues as a bag of threads
  // ---------------------------------------------------------------------------

  function Bags(qs: seq<seq<Tid>>): (r: seq<Bag>)
    ensures |r| == |qs| && forall i :: 0 <= i < |qs| ==> r[i] == multiset(qs[i])
  {
    seq(|qs|, i requires 0 <= i < |qs| => multiset(qs[i]))
  }

  /** Every queued thread, as often as it is queued. */
  function Queued(qs: seq<seq<Tid>>): Bag { Sum(Bags(qs)) }

  lemma Replace(qs: seq<seq<Tid>>, i: nat, q: seq<Tid>)
    requires i < |qs|
    ensures Queued(qs[i := q]) + multiset(qs[i]) == Queued(qs) + multiset(q)
  {
    assert Bags(qs[i := q]) == Bags(qs)[i := multiset(q)];
    SumUpdate(Bags(qs), i, multiset(q));
  }

  lemma AppendOne(qs: seq<seq<Tid>>, i: nat, t: Tid)
    requires i < |qs|
    ensures Queued(qs[i := qs[i] + [t]]) == Queued(qs) + multiset{t}
  {
    Replace(qs, i, qs[i] + [t]);
    assert multiset(qs[i] + [t]) == multiset(qs[i]) + multiset{t};
    var a, b, c := Queued(qs[i := qs[i] + [t]]), multiset(qs[i]), Queued(qs);
    assert a + b == c + (b + multiset{t});
    Cancel(a, c + multiset{t}, b);
  }

  lemma Cancel(a: Bag, b: Bag, c: Bag)
    requires a + c == b + c
    ensures a == b
  {
    forall t ensures a[t] == b[t] {
      assert (a + c)[t] == (b + c)[t];
    }
  }

  lemma DropFirst(qs: seq<seq<Tid>>, i: nat)
    requires i < |qs| && qs[i] != []
    ensures Queued(qs[i := qs[i][1..]]) + multiset{qs[i][0]} == Queued(qs)
  {
    Replace(qs, i, qs[i][1..]);
    assert qs[i] == [qs[i][0]] + qs[i][1..];
    Moved(Queued(qs[i := qs[i][1..]]), multiset(qs[i]), Queued(qs), multiset(qs[i][1..]), multiset{qs[i][0]});
  }

  lemma DropLast(qs: seq<seq<Tid>>, i: nat)
    requires i < |qs| && qs[i] != []
    ensures var n := |qs[i]| - 1; Queued(qs[i := qs[i][..n]]) + multiset{qs[i][n]} == Queued(qs)
  {
    var n := |qs[i]| - 1;
    Replace(qs, i, qs[i][..n]);
    assert qs[i] == qs[i][..n] + [qs[i][n]];
    Moved(Queued(qs[i := qs[i][..n]]), multiset(qs[i]), Queued(qs), multiset(qs[i][..n]), multiset{qs[i][n]});
  }

  lemma InQueue(qs: seq<seq<Tid>>, i: nat, t: Tid)
    requires i < |qs| && t in qs[i]
    ensures t in Queued(qs)
  {
    SumSplit(Bags(qs), i);
    assert t in Bags(qs)[i];
  }

  lemma NotInQueue(qs: seq<seq<Tid>>, t: Tid)
    requires forall i :: 0 <= i < |qs| ==> t !in qs[i]
    ensures t !in Queued(qs)
  {
    if t in Queued(qs) {
      var i := SumWitness(Bags(qs), t);
    }
  }

  // ---------------------------------------------------------------------------
  // State
  // ---------------------------------------------------------------------------

  /** t_cpu names the CPU whose queue a thread is on. */
  ghost predicate Placed(qs: seq<seq<Tid>>, tcpu: map<Tid, nat>)
  {
    forall c, k :: 0 <= c < |qs| && 0 <= k < |qs[c]| ==> qs[c][k] in tcpu && tcpu[qs[c][k]] == c
  }

  /** No thread is queued twice, nor queued and a victim. */
  ghost predicate Once(qs: seq<seq<Tid>>, victims: seq<Tid>)
  {
    forall t :: (Queued(qs) + multiset(victims))[t] <= 1
  }

  ghost predicate MineStill(victims: seq<Tid>, tcpu: map<Tid, nat>, me: nat)
  {
    forall t :: t in victims ==> t in tcpu && tcpu[t] == me
  }

  ghost predicate Ok(qs: seq<seq<Tid>>, victims: seq<Tid>, tcpu: map<Tid, nat>, me: nat)
  {
    Placed(qs, tcpu) && Once(qs, victims) && MineStill(victims, tcpu, me)
  }

  lemma OnceSame(qs: seq<seq<Tid>>, victims: seq<Tid>, qs': seq<seq<Tid>>, victims': seq<Tid>)
    requires Once(qs, victims) && Queued(qs') + multiset(victims') == Queued(qs) + multiset(victims)
    ensures Once(qs', victims')
  {
  }

  /** A victim is on no queue. */
  lemma VictimAway(qs: seq<seq<Tid>>, victims: seq<Tid>, c: nat, k: nat, t: Tid)
    requires Once(qs, victims) && t in victims && c < |qs| && k < |qs[c]|
    ensures qs[c][k] != t
  {
    assert (Queued(qs) + multiset(victims))[t] <= 1 && multiset(victims)[t] >= 1;
    if qs[c][k] == t {
      InQueue(qs, c, t);
    }
  }

  lemma {:induction false} TakeKeeps(qs: seq<seq<Tid>>, victims: seq<Tid>, tcpu: map<Tid, nat>, me: nat)
    requires Ok(qs, victims, tcpu, me) && me < |qs| && qs[me] != []
    ensures var n := |qs[me]| - 1;
            var qs', victims' := qs[me := qs[me][..n]], [qs[me][n]] + victims;
            Ok(qs', victims', tcpu, me) && Queued(qs') + multiset(victims') == Queued(qs) + multiset(victims)
  {
    var n := |qs[me]| - 1;
    var qs', t := qs[me := qs[me][..n]], qs[me][n];
    DropLast(qs, me);
    assert multiset([t] + victims) == multiset{t} + multiset(victims);
    OnceSame(qs, victims, qs', [t] + victims);
  }

  /** The first victim goes to the end of queue c; when c is not its own CPU, t_cpu changes too. */
  lemma SendKeeps(qs: seq<seq<Tid>>, victims: seq<Tid>, tcpu: map<Tid, nat>, me: nat, c: nat)
    requires Ok(qs, victims, tcpu, me) && c < |qs| && victims != []
    ensures var qs', tcpu' := qs[c := qs[c] + [victims[0]]], tcpu[victims[0] := c];
            Ok(qs', victims[1..], tcpu', me) && Queued(qs') + multiset(victims[1..]) == Queued(qs) + multiset(victims)
  {
    var t := victims[0];
    var qs', tcpu' := qs[c := qs[c] + [t]], tcpu[t := c];
    assert t in victims;
    AppendOne(qs, c, t);
    assert victims == [t] + victims[1..];
    assert multiset(victims) == multiset{t} + multiset(victims[1..]);
    OnceSame(qs, victims, qs', victims[1..]);
    forall d, k | 0 <= d < |qs'| && 0 <= k < |qs'[d]| ensures qs'[d][k] in tcpu' && tcpu'[qs'[d][k]] == d {
      if k < |qs[d]| {
        VictimAway(qs, victims, d, k, t);
        assert qs'[d][k] == qs[d][k];
      }
    }
    forall u | u in victims[1..] ensures u in tcpu' && tcpu'[u] == me {
      assert u in victims;
      NotTwice(qs, victims, t, u);
    }
  }

  lemma NotTwice(qs: seq<seq<Tid>>, victims: seq<Tid>, t: Tid, u: Tid)
    requires Once(qs, victims) && victims != [] && t == victims[0] && u in victims[1..]
    ensures u != t
  {
    assert victims == [t] + victims[1..];
    assert multiset(victims)[u] == multiset{t}[u] + multiset(victims[1..])[u];
    assert multiset(victims[1..])[u] >= 1;
    assert (Queued(qs) + multiset(victims))[u] <= 1;
  }

  /** The first victim goes to the end of the victims. */
  lemma RotateKeeps(qs: seq<seq<Tid>>, victims: seq<Tid>, tcpu: map<Tid, nat>, me: nat)
    requires Ok(qs, victims, tcpu, me) && victims != []
    ensures Ok(qs, victims[1..] + [victims[0]], tcpu, me)
    ensures multiset(victims[1..] + [victims[0]]) == multiset(victims)
  {
    assert victims == [victims[0]] + victims[1..];
    assert multiset(victims) == multiset{victims[0]} + multiset(victims[1..]);
    OnceSame(qs, victims, qs, victims[1..] + [victims[0]]);
    forall u | u in victims[1..] + [victims[0]] ensures u in victims {
    }
  }

  /** A thread from elsewhere joins a queue. */
  lemma JoinKeeps(qs: seq<seq<Tid>>, victims: seq<Tid>, tcpu: map<Tid, nat>, me: nat, c: nat, t: Tid)
    requires Ok(qs, victims, tcpu, me) && c < |qs| && t !in victims && forall d :: 0 <= d < |qs| ==> t !in qs[d]
    ensures Ok(qs[c := qs[c] + [t]], victims, tcpu[t := c], me)
    ensures Queued(qs[c := qs[c] + [t]]) == Queued(qs) + multiset{t}
  {
    AppendOne(qs, c, t);
    NotInQueue(qs, t);
    var qs' := qs[c := qs[c] + [t]];
    forall u ensures (Queued(qs') + multiset(victims))[u] <= 1 {
      assert (Queued(qs) + multiset(victims))[u] <= 1;
    }
    forall d, k | 0 <= d < |qs'| && 0 <= k < |qs'[d]|
      ensures qs'[d][k] in tcpu[t := c] && tcpu[t := c][qs'[d][k]] == d {
      if k < |qs[d]| {
        assert qs'[d][k] == qs[d][k] && qs[d][k] in qs[d];
      }
    }
  }

  /** A CPU takes the first thread of its queue. */
  lemma PopKeeps(qs: seq<seq<Tid>>, victims: seq<Tid>, tcpu: map<Tid, nat>, me: nat, c: nat)
    requires Ok(qs, victims, tcpu, me) && c < |qs| && qs[c] != []
    ensures Ok(qs[c := qs[c][1..]], victims, tcpu, me)
    ensures Queued(qs[c := qs[c][1..]]) + multiset{qs[c][0]} == Queued(qs)
  {
    DropFirst(qs, c);
    var qs' := qs[c := qs[c][1..]];
    forall u ensures (Queued(qs') + multiset(victims))[u] <= 1 {
      assert (Queued(qs) + multiset(victims))[u] <= 1;
      assert (Queued(qs') + multiset{qs[c][0]})[u] == Queued(qs)[u];
    }
  }

  /** A CPU takes the last thread of its queue. */
  lemma ShedKeeps(qs: seq<seq<Tid>>, victims: seq<Tid>, tcpu: map<Tid, nat>, me: nat, c: nat)
    requires Ok(qs, victims, tcpu, me) && c < |qs| && qs[c] != []
    ensures Ok(qs[c := qs[c][..|qs[c]| - 1]], victims, tcpu, me)
  {
    DropLast(qs, c);
    var n := |qs[c]| - 1;
    var qs' := qs[c := qs[c][..n]];
    forall u ensures (Queued(qs') + multiset(victims))[u] <= 1 {
      assert (Queued(qs) + multiset(victims))[u] <= 1;
      assert (Queued(qs') + multiset{qs[c][n]})[u] == Queued(qs)[u];
    }
  }

  // ---------------------------------------------------------------------------
  // Counting
  // ---------------------------------------------------------------------------

  function Total(qs: seq<seq<Tid>>): nat
  {
    if qs == [] then 0 else Total(qs[..|qs| - 1]) + |qs[|qs| - 1]|
  }

  lemma {:induction false} TotalQueued(qs: seq<seq<Tid>>)
    ensures |Queued(qs)| == Total(qs)
  {
    if qs != [] {
      var n := |qs| - 1;
      TotalQueued(qs[..n]);
      assert Bags(qs)[..n] == Bags(qs[..n]);
    }
  }

  lemma {:induction false} TotalAtLeast(qs: seq<seq<Tid>>, s: nat)
    requires forall c :: 0 <= c < |qs| ==> |qs[c]| >= s
    ensures Total(qs) >= |qs| * s
  {
    if qs != [] {
      TotalAtLeast(qs[..|qs| - 1], s);
      assert |qs| * s == (|qs| - 1) * s + s;
    }
  }

  /** Each CPU's share, rounded up. */
  function Share(total: nat, n: nat): (s: nat)
    requires n > 0
    ensures s * n >= total && (s > 0 ==> (s - 1) * n < total)
  {
    var s := (total + n - 1) / n;
    assert s * n + (total + n - 1) % n == total + n - 1;
    assert s > 0 ==> (s - 1) * n == s * n - n;
    s
  }

  // ---------------------------------------------------------------------------
  // What becomes of the victims
  // ---------------------------------------------------------------------------

  /** The threads other than cur, in order. */
  function Skip(l: seq<Tid>, cur: Tid): seq<Tid>
  {
    if l == [] then []
    else Skip(l[..|l| - 1], cur) + if l[|l| - 1] == cur then [] else [l[|l| - 1]]
  }

  /** The victims left after k of them have been dealt with: cur is shuffled to the end. */
  function Left(l: seq<Tid>, k: nat, cur: Tid): seq<Tid>
    requires k <= |l|
  {
    l[k..] + if cur in l[..k] then [cur] else []
  }

  /** What the queues of CPUs below i, other than mine, have gained, in order. */
  function Gained(before: seq<seq<Tid>>, after: seq<seq<Tid>>, me: nat, i: nat): seq<Tid>
    requires i <= |before| == |after| && forall c :: 0 <= c < i && c != me ==> |before[c]| <= |after[c]|
  {
    if i == 0 then []
    else Gained(before, after, me, i - 1) + if i - 1 == me then [] else after[i - 1][|before[i - 1]|..]
  }

  function Max(a: nat, b: nat): nat { if a < b then b else a }

  /** The next victim is dealt with: sent off, or shuffled to the end if it is cur. */
  lemma LeftStep(l: seq<Tid>, k: nat, cur: Tid)
    requires k < |l| && Distinct(l)
    ensures Left(l, k, cur) != [] && Left(l, k, cur)[0] == l[k]
    ensures Left(l, k + 1, cur) == Left(l, k, cur)[1..] + if l[k] == cur then [cur] else []
  {
    assert l[..k + 1] == l[..k] + [l[k]];
    assert l[k] !in l[..k];
  }

  lemma SkipStep(l: seq<Tid>, k: nat, cur: Tid)
    requires k < |l|
    ensures Skip(l[..k + 1], cur) == Skip(l[..k], cur) + if l[k] == cur then [] else [l[k]]
  {
    assert l[..k + 1][..k] == l[..k];
  }

  /** The own queue without its last i threads. */
  function Shortened(qs: seq<seq<Tid>>, me: nat, i: nat): seq<seq<Tid>>
    requires me < |qs| && i <= |qs[me]|
  {
    qs[me := qs[me][..|qs[me]| - i]]
  }

  lemma ShortenedNone(qs: seq<seq<Tid>>, me: nat)
    requires me < |qs|
    ensures Shortened(qs, me, 0) == qs
  {
    assert qs[me][..|qs[me]|] == qs[me];
  }

  lemma ShortenedStep(qs: seq<seq<Tid>>, me: nat, i: nat)
    requires me < |qs| && i < |qs[me]|
    ensures var q, last := Shortened(qs, me, i), |qs[me]| - i - 1;
            && |q| == |qs| && |q[me]| == last + 1 && q[me := q[me][..last]] == Shortened(qs, me, i + 1)
            && [q[me][last]] + qs[me][last + 1..] == qs[me][last..]
  {
    var q, last := Shortened(qs, me, i), |qs[me]| - i - 1;
    assert q[me][..last] == qs[me][..last];
  }

  /** One queue with more threads at its end. */
  function Longer(qs: seq<seq<Tid>>, c: nat, more: seq<Tid>): seq<seq<Tid>>
    requires c < |qs|
  {
    qs[c := qs[c] + more]
  }

  lemma LongerNone(qs: seq<seq<Tid>>, c: nat)
    requires c < |qs|
    ensures Longer(qs, c, []) == qs
  {
    assert qs[c] + [] == qs[c];
  }

  lemma LongerAt(qs: seq<seq<Tid>>, c: nat, more: seq<Tid>)
    requires c < |qs|
    ensures |Longer(qs, c, more)| == |qs| && Longer(qs, c, more)[c] == qs[c] + more
  {
  }

  lemma LongerStep(qs: seq<seq<Tid>>, c: nat, more: seq<Tid>, t: Tid)
    requires c < |qs|
    ensures var q := Longer(qs, c, more); |q| == |qs| && q[c := q[c] + [t]] == Longer(qs, c, more + [t])
  {
    assert qs[c] + more + [t] == qs[c] + (more + [t]);
  }

  lemma HomeAlready(qs: seq<seq<Tid>>, victims: seq<Tid>, tcpu: map<Tid, nat>, me: nat)
    requires MachineOk(Machine(qs, tcpu, victims), me) && victims != []
    ensures tcpu[victims[0] := me] == tcpu
  {
    assert victims[0] in victims;
  }

  lemma {:induction false} GainedSame(before: seq<seq<Tid>>, after: seq<seq<Tid>>, after': seq<seq<Tid>>, me: nat,
                                      i: nat)
    requires i <= |before| == |after| == |after'| && (forall c :: 0 <= c < i && c != me ==> |before[c]| <= |after[c]|)
    requires forall c :: 0 <= c < i && c != me ==> after'[c] == after[c]
    ensures Gained(before, after', me, i) == Gained(before, after, me, i)
  {
    if i > 0 {
      GainedSame(before, after, after', me, i - 1);
    }
  }

  lemma {:induction false} GainedNothing(before: seq<seq<Tid>>, after: seq<seq<Tid>>, me: nat, i: nat, j: nat)
    requires i <= j <= |before| == |after| && (forall c :: 0 <= c < j && c != me ==> |before[c]| <= |after[c]|)
    requires forall c :: i <= c < j && c != me ==> after[c] == before[c]
    ensures Gained(before, after, me, j) == Gained(before, after, me, i)
  {
    if i < j {
      GainedNothing(before, after, me, i, j - 1);
    }
  }

  // ---------------------------------------------------------------------------
  // Without interference
  // ---------------------------------------------------------------------------

  lemma OnceDistinct(qs: seq<seq<Tid>>, victims: seq<Tid>)
    requires Once(qs, victims)
    ensures Distinct(victims)
  {
    forall i, k | 0 <= i < k < |victims| ensures victims[i] != victims[k] {
      var t := victims[k];
      assert victims == victims[..k] + [t] + victims[k + 1..];
      assert multiset(victims)[t] == multiset(victims[..k])[t] + 1 + multiset(victims[k + 1..])[t];
      assert (Queued(qs) + multiset(victims))[t] <= 1;
      assert victims[i] in victims[..k];
    }
  }

  /** CPUs below i have been visited: nobody lost a thread or was raised above the share, the own
      queue is as it was after the victims left, and `sent` went out in order. */
  ghost predicate Spread(base: seq<seq<Tid>>, qs: seq<seq<Tid>>, me: nat, i: nat, s: nat, sent: seq<Tid>)
  {
    && i <= |base| == |qs| && me < |qs| && qs[me] == base[me]
    && (forall c :: 0 <= c < |qs| && c != me ==> base[c] <= qs[c] && |qs[c]| <= Max(|base[c]|, s))
    && (forall c :: i <= c < |qs| ==> qs[c] == base[c])
    && Gained(base, qs, me, i) == sent
  }

  lemma SpreadOn(base: seq<seq<Tid>>, qs: seq<seq<Tid>>, me: nat, i: nat, s: nat, sent: seq<Tid>, more: seq<Tid>)
    requires Spread(base, qs, me, i, s, sent) && i < |qs| && i != me
    requires |more| > 0 ==> |qs[i]| + |more| <= s
    ensures Spread(base, Longer(qs, i, more), me, i + 1, s, sent + more)
  {
    var qs' := Longer(qs, i, more);
    GainedSame(base, qs, qs', me, i);
    assert qs'[i][|base[i]|..] == more;
  }

  lemma SpreadPast(base: seq<seq<Tid>>, qs: seq<seq<Tid>>, me: nat, s: nat, sent: seq<Tid>)
    requires Spread(base, qs, me, me, s, sent)
    ensures Spread(base, qs, me, me + 1, s, sent)
  {
  }

  lemma SpreadEnd(base: seq<seq<Tid>>, qs: seq<seq<Tid>>, me: nat, i: nat, s: nat, sent: seq<Tid>)
    requires Spread(base, qs, me, i, s, sent)
    ensures Spread(base, qs, me, |qs|, s, sent)
  {
    GainedNothing(base, qs, me, i, |qs|);
  }

  /** The others have room for all victims: the total is at most n shares. */
  lemma AllSent(base: seq<seq<Tid>>, qs: seq<seq<Tid>>, s: nat, victims0: seq<Tid>, victims: seq<Tid>)
    requires |qs| == |base| && Queued(qs) + multiset(victims) == Queued(base) + multiset(victims0)
    requires s * |qs| >= Total(base) + |victims0| && forall c :: 0 <= c < |qs| ==> |qs[c]| >= s
    ensures victims == []
  {
    TotalQueued(qs);
    TotalQueued(base);
    TotalAtLeast(qs, s);
    assert |Queued(qs) + multiset(victims)| == |Queued(qs)| + |victims|;
    assert |Queued(base) + multiset(victims0)| == |Queued(base)| + |victims0|;
    assert |qs| * s == s * |qs|;
  }

  /** Taking the victims off leaves the total the same. */
  lemma ShortenedFacts(qs: seq<seq<Tid>>, me: nat, n: nat, base: seq<seq<Tid>>, victims: seq<Tid>)
    requires me < |qs| && n <= |qs[me]|
    ensures base == Shortened(qs, me, n) && victims == qs[me][|qs[me]| - n..] ==>
              |base| == |qs| && |base[me]| == |qs[me]| - n && Total(base) + |victims| == Total(qs)
  {
    if base == Shortened(qs, me, n) && victims == qs[me][|qs[me]| - n..] {
      var front := qs[me][..|qs[me]| - n];
      Replace(qs, me, front);
      TotalQueued(qs);
      TotalQueued(base);
      assert |Queued(base) + multiset(qs[me])| == |Queued(base)| + |qs[me]|;
      assert |Queued(qs) + multiset(front)| == |Queued(qs)| + |front|;
    }
  }

  lemma LeftStart(l: seq<Tid>, cur: Tid)
    ensures Left(l, 0, cur) == l && Skip(l[..0], cur) == []
  {
  }

  lemma LeftEnd(l: seq<Tid>, k: nat, cur: Tid)
    requires k <= |l|
    ensures k < |l| ==> Left(l, k, cur) != []
    ensures k == |l| ==> Left(l, k, cur) == (if cur in l then [cur] else []) && l[..k] == l
  {
    assert l[..|l|] == l;
  }

  lemma SpreadStart(qs: seq<seq<Tid>>, me: nat, s: nat)
    requires me < |qs|
    ensures Spread(qs, qs, me, 0, s, [])
  {
  }

  lemma SpreadOwn(base: seq<seq<Tid>>, qs: seq<seq<Tid>>, me: nat, i: nat, s: nat, sent: seq<Tid>)
    requires Spread(base, qs, me, i, s, sent)
    ensures me < |qs| == |base| && i <= |qs| && qs[me] == base[me]
  {
  }

  lemma LongerElsewhere(qs: seq<seq<Tid>>, c: nat, more: seq<Tid>)
    requires c < |qs|
    ensures |Longer(qs, c, more)| == |qs| && |Longer(qs, c, more)[c]| == |qs[c]| + |more|
    ensures forall d :: 0 <= d < |qs| && d != c ==> Longer(qs, c, more)[d] == qs[d]
  {
  }

  /** Nothing is left to send when the loop ends. */
  lemma Finish(base: seq<seq<Tid>>, qs: seq<seq<Tid>>, me: nat, i: nat, s: nat, victims0: seq<Tid>, k: nat, cur: Tid,
               victims: seq<Tid>)
    requires k <= |victims0| && Spread(base, qs, me, i, s, Skip(victims0[..k], cur))
             && victims == Left(victims0, k, cur)
    requires k < |victims0| ==> i == |qs| && forall c :: 0 <= c < |qs| && c != me ==> |qs[c]| >= s
    requires me < |base| && |base[me]| == s && s * |qs| >= Total(base) + |victims0|
    requires Queued(qs) + multiset(victims) == Queued(base) + multiset(victims0)
    ensures Spread(base, qs, me, |qs|, s, Skip(victims0, cur)) && victims == if cur in victims0 then [cur] else []
  {
    hide Spread, Skip, Left, Queued, Total;
    SpreadOwn(base, qs, me, i, s, Skip(victims0[..k], cur));
    LeftEnd(victims0, k, cur);
    if k < |victims0| {
      AllSent(base, qs, s, victims0, victims);
    }
    SpreadEnd(base, qs, me, i, s, Skip(victims0[..k], cur));
  }

  /** What one call leaves behind when nothing else happens: a CPU with less than its share does
      nothing; one with more keeps the front of its queue, and its current thread if that was
      among the rest; the rest go to the others in order, none of which is raised above the share. */
  ghost predicate Balanced(qs0: seq<seq<Tid>>, qs: seq<seq<Tid>>, me: nat, cur: Tid)
    requires me < |qs0|
  {
    var s := Share(Total(qs0), |qs0|);
    if |qs0[me]| < s then qs == qs0
    else
      && |qs| == |qs0| && qs[me] == qs0[me][..s] + (if cur in qs0[me][s..] then [cur] else [])
      && (forall c :: 0 <= c < |qs| && c != me ==> qs0[c] <= qs[c] && |qs[c]| <= Max(|qs0[c]|, s))
      && Gained(qs0, qs, me, |qs0|) == Skip(qs0[me][s..], cur)
  }

  lemma {:induction false} GainedBase(before: seq<seq<Tid>>, before': seq<seq<Tid>>, after: seq<seq<Tid>>, me: nat,
                                      i: nat)
    requires i <= |before| == |before'| == |after| && (forall c :: 0 <= c < i && c != me ==> |before[c]| <= |after[c]|)
    requires forall c :: 0 <= c < i && c != me ==> before'[c] == before[c]
    ensures Gained(before', after, me, i) == Gained(before, after, me, i)
  {
    if i > 0 {
      GainedBase(before, before', after, me, i - 1);
    }
  }

  lemma BalancedIntro(qs0: seq<seq<Tid>>, base: seq<seq<Tid>>, qs: seq<seq<Tid>>, qs': seq<seq<Tid>>, me: nat,
                      cur: Tid, s: nat)
    requires me < |qs0| && s == Share(Total(qs0), |qs0|) <= |qs0[me]| && base == Shortened(qs0, me, |qs0[me]| - s)
    requires Spread(base, qs, me, |base|, s, Skip(qs0[me][s..], cur))
    requires qs' == Longer(qs, me, if cur in qs0[me][s..] then [cur] else [])
    ensures Balanced(qs0, qs', me, cur)
  {
    GainedSame(base, qs, qs', me, |base|);
    GainedBase(base, qs0, qs', me, |base|);
  }

  // ---------------------------------------------------------------------------
  // Runs: this CPU's moves and the others', in the order they happen
  // ---------------------------------------------------------------------------

  /** What the others can do while no lock is held: a thread joins a queue, because of a wakeup, a
      fork or another CPU's migration; a CPU takes the first thread of its own queue to run it; a
      CPU that sheds threads itself takes the last of its own queue. */
  datatype EnvStep = Join(cpu: nat, thread: Tid) | Pop(cpu: nat) | Shed(cpu: nat)

  /** The others' steps, and this CPU's: take the lock that is the k-th in the order of the code, look
      at the length of a queue, take the last thread of the own queue as a victim, put the first victim
      on a queue, move the first victim to the end, be done with another CPU's queue. */
  datatype Event =
    | Others(step: EnvStep)
    | Lock(k: nat)
    | Look(cpu: nat)
    | Take
    | Send(cpu: nat)
    | Shuffle
    | Pass(cpu: nat)

  datatype Machine = Machine(queues: seq<seq<Tid>>, tcpu: map<Tid, nat>, victims: seq<Tid>)

  /** Nobody else takes threads off this CPU's queue, and only a thread that is nowhere joins. */
  ghost predicate CanDo(m: Machine, me: nat, e: EnvStep)
  {
    match e
    case Join(c, t) => c < |m.queues| && t !in m.victims && forall d :: 0 <= d < |m.queues| ==> t !in m.queues[d]
    case Pop(c) => c < |m.queues| && c != me && m.queues[c] != []
    case Shed(c) => c < |m.queues| && c != me && m.queues[c] != []
  }

  /** A step of the others that cannot happen leaves everything as it is. */
  ghost function DoOthers(m: Machine, me: nat, e: EnvStep): Machine
  {
    if !CanDo(m, me, e) then m
    else
      match e
      case Join(c, t) => m.(queues := m.queues[c := m.queues[c] + [t]], tcpu := m.tcpu[t := c])
      case Pop(c) => m.(queues := m.queues[c := m.queues[c][1..]])
      case Shed(c) => m.(queues := m.queues[c := m.queues[c][..|m.queues[c]| - 1]])
  }

  ghost function Do(m: Machine, me: nat, e: Event): Machine
  {
    match e
    case Others(step) => DoOthers(m, me, step)
    case Lock(k) => m
    case Look(c) => m
    case Take =>
      if me < |m.queues| && m.queues[me] != [] then
        var n := |m.queues[me]| - 1;
        m.(queues := m.queues[me := m.queues[me][..n]], victims := [m.queues[me][n]] + m.victims)
      else m
    case Send(c) =>
      if c < |m.queues| && m.victims != [] then
        var t := m.victims[0];
        Machine(m.queues[c := m.queues[c] + [t]], m.tcpu[t := c], m.victims[1..])
      else m
    case Shuffle => if m.victims != [] then m.(victims := m.victims[1..] + [m.victims[0]]) else m
    case Pass(c) => m
  }

  ghost function Replay(m: Machine, me: nat, es: seq<Event>): Machine
  {
    if es == [] then m else Do(Replay(m, me, es[..|es| - 1]), me, es[|es| - 1])
  }

  /** The threads an event brings in from elsewhere, and those it takes away to run or to move. */
  ghost function In(m: Machine, me: nat, e: Event): Bag
  {
    if e.Others? && e.step.Join? && CanDo(m, me, e.step) then multiset{e.step.thread} else multiset{}
  }

  ghost function Out(m: Machine, me: nat, e: Event): Bag
  {
    if e.Others? && !e.step.Join? && CanDo(m, me, e.step) then
      var q := m.queues[e.step.cpu];
      multiset{if e.step.Pop? then q[0] else q[|q| - 1]}
    else multiset{}
  }

  ghost function Came(m: Machine, me: nat, es: seq<Event>): Bag
  {
    if es == [] then multiset{}
    else Came(m, me, es[..|es| - 1]) + In(Replay(m, me, es[..|es| - 1]), me, es[|es| - 1])
  }

  ghost function Went(m: Machine, me: nat, es: seq<Event>): Bag
  {
    if es == [] then multiset{}
    else Went(m, me, es[..|es| - 1]) + Out(Replay(m, me, es[..|es| - 1]), me, es[|es| - 1])
  }

  ghost function All(m: Machine): Bag { Queued(m.queues) + multiset(m.victims) }

  lemma FirstApart(l: seq<Tid>)
    requires l != []
    ensures multiset(l) == multiset{l[0]} + multiset(l[1..]) && multiset(l[1..] + [l[0]]) == multiset(l)
  {
    assert l == [l[0]] + l[1..];
  }

  lemma TakeConserves(m: Machine, me: nat)
    requires me < |m.queues| && m.queues[me] != []
    ensures All(Do(m, me, Take)) == All(m)
  {
    var n := |m.queues[me]| - 1;
    var t, now := m.queues[me][n], Do(m, me, Take);
    assert multiset(now.victims) == multiset{t} + multiset(m.victims);
    DropLast(m.queues, me);
    hide Queued;
    TakeBag(Queued(now.queues), t, Queued(m.queues), multiset(m.victims));
  }

  lemma TakeBag(q': Bag, t: Tid, q: Bag, v: Bag)
    requires q' + multiset{t} == q
    ensures q' + (multiset{t} + v) == q + v
  {
  }

  lemma SendConserves(m: Machine, me: nat, c: nat)
    requires c < |m.queues| && m.victims != []
    ensures All(Do(m, me, Send(c))) == All(m)
  {
    var t, now := m.victims[0], Do(m, me, Send(c));
    AppendOne(m.queues, c, t);
    FirstApart(m.victims);
    hide Queued;
    SendBag(Queued(m.queues), t, multiset(m.victims), multiset(now.victims));
  }

  lemma SendBag(q: Bag, t: Tid, v: Bag, v': Bag)
    requires v == multiset{t} + v'
    ensures (q + multiset{t}) + v' == q + v
  {
  }

  lemma OwnConserves(m: Machine, me: nat, e: Event)
    requires !e.Others?
    ensures All(Do(m, me, e)) == All(m)
  {
    hide Queued;
    if e.Take? && me < |m.queues| && m.queues[me] != [] {
      TakeConserves(m, me);
    } else if e.Send? && e.cpu < |m.queues| && m.victims != [] {
      SendConserves(m, me, e.cpu);
    } else if e.Shuffle? && m.victims != [] {
      FirstApart(m.victims);
    }
  }

  lemma OthersConserve(m: Machine, me: nat, step: EnvStep)
    ensures var e := Others(step); All(Do(m, me, e)) + Out(m, me, e) == All(m) + In(m, me, e)
  {
    hide Queued;
    if CanDo(m, me, step) {
      match step {
        case Join(c, t) => AppendOne(m.queues, c, t);
        case Pop(c) => DropFirst(m.queues, c);
        case Shed(c) => DropLast(m.queues, c);
      }
    }
  }

  /** No thread is lost or made up, whatever happens in whatever order. */
  lemma {:induction false} Conserved(m: Machine, me: nat, es: seq<Event>)
    ensures All(Replay(m, me, es)) + Went(m, me, es) == All(m) + Came(m, me, es)
  {
    hide All, Do, In, Out;
    if es != [] {
      var n := |es| - 1;
      var before := Replay(m, me, es[..n]);
      Conserved(m, me, es[..n]);
      if es[n].Others? {
        OthersConserve(before, me, es[n].step);
      } else {
        OwnConserves(before, me, es[n]);
        OwnQuiet(before, me, es[n]);
      }
      Ledger(All(before), Went(m, me, es[..n]), All(m), Came(m, me, es[..n]),
             All(Do(before, me, es[n])), Out(before, me, es[n]), In(before, me, es[n]));
    }
  }

  lemma OwnQuiet(m: Machine, me: nat, e: Event)
    requires !e.Others?
    ensures In(m, me, e) == Out(m, me, e) == multiset{}
  {
  }

  lemma Ledger(now: Bag, went: Bag, start: Bag, came: Bag, now': Bag, out: Bag, in_: Bag)
    requires now + went == start + came && now' + out == now + in_
    ensures now' + (went + out) == start + (came + in_)
  {
    assert now' + (went + out) == (now' + out) + went;
    assert start + (came + in_) == (start + came) + in_;
  }

  ghost predicate MachineOk(m: Machine, me: nat) { me < |m.queues| && Ok(m.queues, m.victims, m.tcpu, me) }

  lemma DoKeeps(m: Machine, me: nat, e: Event)
    requires MachineOk(m, me)
    ensures MachineOk(Do(m, me, e), me) && |Do(m, me, e).queues| == |m.queues|
  {
    hide Ok;
    match e {
      case Others(step) =>
        if CanDo(m, me, step) {
          match step {
            case Join(c, t) => JoinKeeps(m.queues, m.victims, m.tcpu, me, c, t);
            case Pop(c) => PopKeeps(m.queues, m.victims, m.tcpu, me, c);
            case Shed(c) => ShedKeeps(m.queues, m.victims, m.tcpu, me, c);
          }
        }
      case Lock(k) =>
      case Look(c) =>
      case Take =>
        if m.queues[me] != [] {
          TakeKeeps(m.queues, m.victims, m.tcpu, me);
        }
      case Send(c) =>
        if c < |m.queues| && m.victims != [] {
          SendKeeps(m.queues, m.victims, m.tcpu, me, c);
        }
      case Shuffle =>
        if m.victims != [] {
          RotateKeeps(m.queues, m.victims, m.tcpu, me);
        }
      case Pass(c) =>
    }
  }

  /** Over every run no thread is in two places, and t_cpu names the queue a thread is on. */
  lemma {:induction false} RunKeeps(m: Machine, me: nat, es: seq<Event>)
    requires MachineOk(m, me)
    ensures MachineOk(Replay(m, me, es), me) && |Replay(m, me, es).queues| == |m.queues|
  {
    hide MachineOk, Do;
    if es != [] {
      RunKeeps(m, me, es[..|es| - 1]);
      DoKeeps(Replay(m, me, es[..|es| - 1]), me, es[|es| - 1]);
    }
  }

  // ---------------------------------------------------------------------------
  // What this CPU keeps to whatever the others do
  // ---------------------------------------------------------------------------

  predicate OnlyCurrent(victims: seq<Tid>, cur: Tid) { forall t :: t in victims ==> t == cur }

  /** The CPUs below n other than this one, in order. */
  function OthersBelow(me: nat, n: nat): seq<nat>
  {
    if n == 0 then [] else OthersBelow(me, n - 1) + if n - 1 == me then [] else [n - 1]
  }

  /** It puts threads on another queue only while that is below the share, and never its current
      thread. It is done with a queue only when that has its share, and puts threads back on its own
      only when it is done with all others; or else, in both cases, when only its current thread is left. */
  ghost predicate Allowed(m: Machine, passed: seq<nat>, me: nat, cur: Tid, share: nat, e: Event)
  {
    match e
    case Send(c) =>
      if c == me then OnlyCurrent(m.victims, cur) || passed == OthersBelow(me, |m.queues|)
      else c < |m.queues| && |m.queues[c]| < share && m.victims != [] && m.victims[0] != cur
    case Pass(c) => c < |m.queues| && c != me && (|m.queues[c]| >= share || OnlyCurrent(m.victims, cur))
    case _ => true
  }

  ghost predicate Careful(m: Machine, me: nat, cur: Tid, share: nat, es: seq<Event>)
  {
    es != [] ==>
      var init := es[..|es| - 1];
      && Careful(m, me, cur, share, init)
      && Allowed(Replay(m, me, init), TallyOf(m, me, init).passed, me, cur, share, es[|es| - 1])
  }

  ghost predicate AtHome(m: Machine, me: nat, cur: Tid)
  {
    me < |m.queues| && (cur in m.queues[me] || cur in m.victims)
  }

  lemma StepStaysHome(m: Machine, passed: seq<nat>, me: nat, cur: Tid, share: nat, e: Event)
    requires AtHome(m, me, cur) && Allowed(m, passed, me, cur, share, e)
    ensures AtHome(Do(m, me, e), me, cur)
  {
    if e.Take? && m.queues[me] != [] {
      var n := |m.queues[me]| - 1;
      assert m.queues[me] == m.queues[me][..n] + [m.queues[me][n]];
    } else if !e.Others? && m.victims != [] {
      assert m.victims == [m.victims[0]] + m.victims[1..];
    }
  }

  /** The current thread, once queued here, stays here: it can only be a victim meanwhile. */
  lemma {:induction false} CurrentStays(m: Machine, me: nat, cur: Tid, share: nat, es: seq<Event>)
    requires AtHome(m, me, cur) && Careful(m, me, cur, share, es)
    ensures AtHome(Replay(m, me, es), me, cur)
  {
    hide AtHome, Allowed, Do;
    if es != [] {
      var init := es[..|es| - 1];
      CurrentStays(m, me, cur, share, init);
      StepStaysHome(Replay(m, me, init), TallyOf(m, me, init).passed, me, cur, share, es[|es| - 1]);
    }
  }

  // ---------------------------------------------------------------------------
  // The program
  // ---------------------------------------------------------------------------

  /** Once no victim is left: every thread is accounted for, and the current one has not moved away. */
  lemma Outcome(m: Machine, me: nat, cur: Tid, share: nat, es: seq<Event>, queues: seq<seq<Tid>>, tcpu: map<Tid, nat>)
    requires m.victims == [] && me < |m.queues| && Careful(m, me, cur, share, es)
    requires Replay(m, me, es) == Machine(queues, tcpu, [])
    ensures Queued(queues) + Went(m, me, es) == Queued(m.queues) + Came(m, me, es)
    ensures cur in m.queues[me] ==> me < |queues| && cur in queues[me]
  {
    hide Queued, Replay, Careful, Went, Came;
    Conserved(m, me, es);
    assert All(m) == Queued(m.queues) && All(Machine(queues, tcpu, [])) == Queued(queues);
    if cur in m.queues[me] {
      CurrentStays(m, me, cur, share, es);
    }
  }

  /** What the others do before the k-th time a run-queue lock is taken. */
  function Noise(env: seq<seq<EnvStep>>, k: nat): seq<EnvStep> { if k < |env| then env[k] else [] }

  predicate Quiet(env: seq<seq<EnvStep>>) { forall k :: 0 <= k < |env| ==> env[k] == [] }

  /** The others' steps among the events. */
  function OthersIn(es: seq<Event>): seq<EnvStep>
  {
    if es == [] then []
    else OthersIn(es[..|es| - 1]) + if es[|es| - 1].Others? then [es[|es| - 1].step] else []
  }

  /** The queues looked at in order, the lengths seen there in all and on the own queue, the victims
      taken, the queues done with in order, the victims put back, the locks taken in order, and the
      others' steps since the last of them. */
  datatype Tally = Tally(looks: seq<nat>, total: nat, mine: nat, takes: nat, passed: seq<nat>, back: nat,
                         locks: seq<nat>, pending: seq<EnvStep>)

  const NOTHING := Tally([], 0, 0, 0, [], 0, [], [])

  ghost function Tallied(l: Tally, m: Machine, me: nat, e: Event): Tally
  {
    match e
    case Look(c) =>
      var seen := if c < |m.queues| then |m.queues[c]| else 0;
      l.(looks := l.looks + [c], total := l.total + seen, mine := if c == me then seen else l.mine)
    case Take => l.(takes := l.takes + 1)
    case Pass(c) => l.(passed := l.passed + [c])
    case Send(c) => if c == me then l.(back := l.back + 1) else l
    case Others(step) => l.(pending := l.pending + [step])
    case Lock(k) => l.(locks := l.locks + [k], pending := [])
    case Shuffle => l
  }

  ghost function TallyOf(m: Machine, me: nat, es: seq<Event>): Tally
  {
    if es == [] then NOTHING
    else Tallied(TallyOf(m, me, es[..|es| - 1]), Replay(m, me, es[..|es| - 1]), me, es[|es| - 1])
  }

  // The locks in the order of the code: every CPU's for counting, the own one for taking victims, the
  // others' for sending them, and the own one for putting the rest back.

  function CountLock(c: nat): nat { c }

  function TakeLock(n: nat): nat { n }

  function SendLock(n: nat, c: nat): nat { n + 1 + c }

  function BackLock(n: nat): nat { 2 * n + 1 }

  function SendLocks(n: nat, cs: seq<nat>): (r: seq<nat>)
    ensures |r| == |cs| && forall i :: 0 <= i < |cs| ==> r[i] == SendLock(n, cs[i])
  {
    seq(|cs|, i requires 0 <= i < |cs| => SendLock(n, cs[i]))
  }

  /** The locks a call takes, given the share: no more than those for counting when it has less than
      that; else also its own, those of the queues it is done with, and its own again if it puts threads
      back. */
  function LocksTaken(l: Tally, n: nat, share: nat): seq<nat>
  {
    Upto(n) +
    if l.mine < share then []
    else [TakeLock(n)] + SendLocks(n, l.passed) + if l.back > 0 then [BackLock(n)] else []
  }

  /** Every CPU's queue is looked at once, in order; the share is that of what was seen; the threads
      above the share on the own queue, as seen, are taken as victims; and exactly the locks for that
      are taken. */
  ghost predicate Fair(l: Tally, n: nat, share: nat)
  {
    && n > 0 && l.looks == Upto(n) && share == Share(l.total, n)
    && l.takes == (if l.mine < share then 0 else l.mine - share)
    && (l.mine < share ==> l.passed == [] && l.back == 0)
    && l.locks == LocksTaken(l, n, share) && l.pending == []
  }

  ghost predicate Holds(l: Tally, k: nat) { l.pending == [] && l.locks != [] && l.locks[|l.locks| - 1] == k }

  /** The others act only while no lock is held, and before a lock is taken they do exactly what env
      says; every access to a queue is under the lock taken for it. */
  ghost predicate OnTime(l: Tally, n: nat, me: nat, env: seq<seq<EnvStep>>, e: Event)
  {
    match e
    case Others(step) => true
    case Lock(k) => l.pending == Noise(env, k)
    case Look(c) => Holds(l, CountLock(c))
    case Take => Holds(l, TakeLock(n))
    case Send(c) => Holds(l, if c == me then BackLock(n) else SendLock(n, c))
    case Shuffle => exists c: nat :: c < n && Holds(l, SendLock(n, c))
    case Pass(c) => Holds(l, SendLock(n, c))
  }

  ghost predicate Paced(m: Machine, me: nat, env: seq<seq<EnvStep>>, es: seq<Event>)
  {
    es != [] ==>
      var init := es[..|es| - 1];
      Paced(m, me, env, init) && OnTime(TallyOf(m, me, init), |m.queues|, me, env, es[|es| - 1])
  }

  /** The first n CPUs. */
  function Upto(n: nat): (r: seq<nat>)
    ensures |r| == n && forall i :: 0 <= i < n ==> r[i] == i
  {
    seq(n, i => i)
  }

  lemma Happens(m: Machine, me: nat, cur: Tid, share: nat, env: seq<seq<EnvStep>>, es: seq<Event>, e: Event)
    ensures Replay(m, me, es + [e]) == Do(Replay(m, me, es), me, e)
    ensures TallyOf(m, me, es + [e]) == Tallied(TallyOf(m, me, es), Replay(m, me, es), me, e)
    ensures Careful(m, me, cur, share, es + [e]) <==>
              Careful(m, me, cur, share, es) && Allowed(Replay(m, me, es), TallyOf(m, me, es).passed, me, cur, share, e)
    ensures Paced(m, me, env, es + [e]) <==>
              Paced(m, me, env, es) && OnTime(TallyOf(m, me, es), |m.queues|, me, env, e)
  {
    hide Do, Allowed, Tallied, OnTime;
    assert (es + [e])[..|es|] == es;
  }

  /** What the others do before the locks that were taken. */
  function NoiseAt(env: seq<seq<EnvStep>>, locks: seq<nat>): seq<EnvStep>
  {
    if locks == [] then [] else NoiseAt(env, locks[..|locks| - 1]) + Noise(env, locks[|locks| - 1])
  }

  lemma LockTaken(env: seq<seq<EnvStep>>, locks: seq<nat>, k: nat)
    ensures NoiseAt(env, locks + [k]) == NoiseAt(env, locks) + Noise(env, k)
  {
    assert (locks + [k])[..|locks|] == locks;
  }

  /** So the others do what env says before the locks that are taken, and nothing else. */
  lemma {:induction false} OthersOnTime(m: Machine, me: nat, env: seq<seq<EnvStep>>, es: seq<Event>)
    requires Paced(m, me, env, es)
    ensures OthersIn(es) == NoiseAt(env, TallyOf(m, me, es).locks) + TallyOf(m, me, es).pending
  {
    hide Replay, NoiseAt, Noise;
    if es == [] {
      NoNoise(env);
    } else {
      var init, e := es[..|es| - 1], es[|es| - 1];
      OthersOnTime(m, me, env, init);
      if e.Lock? {
        LockTaken(env, TallyOf(m, me, init).locks, e.k);
      }
    }
  }

  lemma NoNoise(env: seq<seq<EnvStep>>)
    ensures NoiseAt(env, []) == []
  {
  }

  lemma {:induction false} QuietNobody(env: seq<seq<EnvStep>>, locks: seq<nat>)
    requires Quiet(env)
    ensures NoiseAt(env, locks) == []
  {
    if locks != [] {
      QuietNobody(env, locks[..|locks| - 1]);
    }
  }

  /** Where nobody else acts, nothing comes or goes. */
  lemma {:induction false} NobodyNothing(m: Machine, me: nat, es: seq<Event>)
    requires OthersIn(es) == []
    ensures Came(m, me, es) == Went(m, me, es) == multiset{}
  {
    hide Replay;
    if es != [] {
      NobodyNothing(m, me, es[..|es| - 1]);
    }
  }

  ghost predicate NoSends(es: seq<Event>) { forall i :: 0 <= i < |es| ==> !es[i].Send? && !es[i].Pass? }

  lemma {:induction false} NoSendsCareful(m: Machine, me: nat, cur: Tid, share: nat, es: seq<Event>)
    requires NoSends(es)
    ensures Careful(m, me, cur, share, es)
  {
    hide Replay;
    if es != [] {
      NoSendsCareful(m, me, cur, share, es[..|es| - 1]);
    }
  }

  lemma OkSize(queues: seq<seq<Tid>>, tcpu: map<Tid, nat>, victims: seq<Tid>, me: nat)
    requires MachineOk(Machine(queues, tcpu, victims), me)
    ensures me < |queues| && Distinct(victims)
  {
    OnceDistinct(queues, victims);
  }

  /** The state is m after es. */
  ghost predicate Reached(b: Machine, me: nat, cur: Tid, share: nat, env: seq<seq<EnvStep>>, es: seq<Event>, m: Machine)
  {
    && MachineOk(m, me) && m == Replay(b, me, es) && |m.queues| == |b.queues|
    && Careful(b, me, cur, share, es) && Paced(b, me, env, es)
  }

  lemma SendStep(b: Machine, me: nat, cur: Tid, share: nat, env: seq<seq<EnvStep>>, es: seq<Event>,
                 queues: seq<seq<Tid>>, tcpu: map<Tid, nat>, victims: seq<Tid>, c: nat)
    requires Reached(b, me, cur, share, env, es, Machine(queues, tcpu, victims)) && c < |queues| && victims != []
    requires if c == me then OnlyCurrent(victims, cur) || TallyOf(b, me, es).passed == OthersBelow(me, |queues|)
             else |queues[c]| < share && victims[0] != cur
    requires Holds(TallyOf(b, me, es), if c == me then BackLock(|queues|) else SendLock(|queues|, c))
    ensures var t := victims[0];
            var queues', tcpu', es' := queues[c := queues[c] + [t]], tcpu[t := c], es + [Send(c)];
            && Reached(b, me, cur, share, env, es', Machine(queues', tcpu', victims[1..]))
            && TallyOf(b, me, es') == TallyOf(b, me, es).(back := TallyOf(b, me, es).back + if c == me then 1 else 0)
            && Queued(queues') + multiset(victims[1..]) == Queued(queues) + multiset(victims)
  {
    hide MachineOk, Replay, TallyOf, Careful, Paced, Queued, Holds;
    var m := Machine(queues, tcpu, victims);
    Happens(b, me, cur, share, env, es, Send(c));
    DoKeeps(m, me, Send(c));
    OwnConserves(m, me, Send(c));
  }

  lemma PassStep(b: Machine, me: nat, cur: Tid, share: nat, env: seq<seq<EnvStep>>, es: seq<Event>,
                 queues: seq<seq<Tid>>, tcpu: map<Tid, nat>, victims: seq<Tid>, c: nat)
    requires Reached(b, me, cur, share, env, es, Machine(queues, tcpu, victims)) && c < |queues| && c != me
    requires |queues[c]| >= share || OnlyCurrent(victims, cur)
    requires TallyOf(b, me, es).passed == OthersBelow(me, c) && Holds(TallyOf(b, me, es), SendLock(|queues|, c))
    ensures var es' := es + [Pass(c)];
            && Reached(b, me, cur, share, env, es', Machine(queues, tcpu, victims))
            && TallyOf(b, me, es') == TallyOf(b, me, es).(passed := OthersBelow(me, c + 1))
  {
    hide MachineOk, Replay, TallyOf, Careful, Paced, Queued, Holds;
    Happens(b, me, cur, share, env, es, Pass(c));
  }

  lemma ShuffleStep(b: Machine, me: nat, cur: Tid, share: nat, env: seq<seq<EnvStep>>, es: seq<Event>,
                    queues: seq<seq<Tid>>, tcpu: map<Tid, nat>, victims: seq<Tid>, c: nat)
    requires Reached(b, me, cur, share, env, es, Machine(queues, tcpu, victims)) && victims != []
    requires c < |queues| && Holds(TallyOf(b, me, es), SendLock(|queues|, c))
    ensures var victims', es' := victims[1..] + [victims[0]], es + [Shuffle];
            && Reached(b, me, cur, share, env, es', Machine(queues, tcpu, victims'))
            && TallyOf(b, me, es') == TallyOf(b, me, es) && multiset(victims') == multiset(victims)
  {
    hide MachineOk, Replay, TallyOf, Careful, Paced, Queued, Holds;
    var m := Machine(queues, tcpu, victims);
    Happens(b, me, cur, share, env, es, Shuffle);
    DoKeeps(m, me, Shuffle);
    FirstApart(victims);
  }

  lemma LeftCurrent(l: seq<Tid>, k: nat, cur: Tid)
    requires k <= |l|
    ensures k == |l| ==> OnlyCurrent(Left(l, k, cur), cur)
  {
  }

  lemma StartOfRun(m: Machine, me: nat, env: seq<seq<EnvStep>>)
    ensures Replay(m, me, []) == m && TallyOf(m, me, []) == NOTHING && Paced(m, me, env, [])
  {
  }

  lemma FairLow(l: Tally, n: nat, share: nat)
    requires n > 0 && l == Tally(Upto(n), l.total, l.mine, 0, [], 0, Upto(n), [])
    requires share == Share(l.total, n) && l.mine < share
    ensures Fair(l, n, share)
  {
  }

  lemma FairHigh(l: Tally, n: nat, share: nat)
    requires n > 0 && share == Share(l.total, n) <= l.mine && l.looks == Upto(n) && l.takes == l.mine - share
    requires l.locks == Upto(n) + [TakeLock(n)] +
                        (SendLocks(n, l.passed) + if l.back > 0 then [BackLock(n)] else []) && l.pending == []
    ensures Fair(l, n, share)
  {
    hide Share, SendLocks, Upto;
  }

  lemma PassedNone(me: nat, n: nat)
    ensures OthersBelow(me, 0) == [] && SendLocks(n, []) == []
  {
  }

  lemma PassedMore(me: nat, n: nat, c: nat)
    ensures SendLocks(n, OthersBelow(me, c + 1)) ==
            SendLocks(n, OthersBelow(me, c)) + if c == me then [] else [SendLock(n, c)]
  {
  }

  class Cpus {
    var queues: seq<seq<Tid>>
    var tcpu: map<Tid, nat>
    /** The state when the call began, and what has happened since. */
    ghost var begin: Machine
    ghost var log: seq<Event>

    ghost function Tallies(me: nat): Tally
      reads this
    {
      TallyOf(begin, me, log)
    }

    /** The state is what the events make of the first one, and the others' events are those of env,
        each at its time. */
    ghost predicate Valid(victims: seq<Tid>, me: nat, env: seq<seq<EnvStep>>)
      reads this
    {
      && MachineOk(begin, me) && MachineOk(Machine(queues, tcpu, victims), me)
      && Machine(queues, tcpu, victims) == Replay(begin, me, log) && |queues| == |begin.queues|
      && Paced(begin, me, env, log) && Tallies(me).pending == []
    }

    constructor (qs: seq<seq<Tid>>, at: map<Tid, nat>)
      ensures queues == qs && tcpu == at
    {
      queues, tcpu := qs, at;
    }

    /** One step of the others. */
    method OtherStep(step: EnvStep, victims: seq<Tid>, me: nat)
      requires MachineOk(Machine(queues, tcpu, victims), me)
      modifies this`queues, this`tcpu
      ensures Machine(queues, tcpu, victims) == DoOthers(Machine(old(queues), old(tcpu), victims), me, step)
      ensures MachineOk(Machine(queues, tcpu, victims), me)
      ensures |queues| == |old(queues)| && old(queues[me]) <= queues[me]
    {
      hide Ok;
      DoKeeps(Machine(queues, tcpu, victims), me, Others(step));
      match step {
        case Join(c, t) =>
          if c < |queues| && t !in victims && forall d :: 0 <= d < |queues| ==> t !in queues[d] {
            queues, tcpu := queues[c := queues[c] + [t]], tcpu[t := c];
          }
        case Pop(c) =>
          if c < |queues| && c != me && queues[c] != [] {
            queues := queues[c := queues[c][1..]];
          }
        case Shed(c) =>
          if c < |queues| && c != me && queues[c] != [] {
            queues := queues[c := queues[c][..|queues[c]| - 1]];
          }
      }
    }

    /** The others act, and the k-th lock is taken. */
    method Acquire(env: seq<seq<EnvStep>>, k: nat, victims: seq<Tid>, me: nat, ghost cur: Tid, ghost share: nat)
      requires Valid(victims, me, env)
      modifies this
      ensures Valid(victims, me, env) && begin == old(begin)
      ensures Tallies(me) == old(Tallies(me)).(locks := old(Tallies(me)).locks + [k])
      ensures Careful(begin, me, cur, share, old(log)) ==> Careful(begin, me, cur, share, log)
      ensures NoSends(old(log)) ==> NoSends(log)
      ensures |queues| == |old(queues)| && old(queues[me]) <= queues[me]
      ensures Noise(env, k) == [] ==> queues == old(queues) && tcpu == old(tcpu)
    {
      hide MachineOk, Replay, TallyOf, Careful, Paced, DoOthers;
      var steps := Noise(env, k);
      OkSize(queues, tcpu, victims, me);
      var i := 0;
      while i < |steps|
        invariant 0 <= i <= |steps| && MachineOk(begin, me) && MachineOk(Machine(queues, tcpu, victims), me)
        invariant Machine(queues, tcpu, victims) == Replay(begin, me, log) && Paced(begin, me, env, log)
        invariant Careful(begin, me, cur, share, old(log)) ==> Careful(begin, me, cur, share, log)
        invariant NoSends(old(log)) ==> NoSends(log)
        invariant Tallies(me) == old(Tallies(me)).(pending := steps[..i]) && begin == old(begin)
        invariant me < |queues| == |old(queues)| && old(queues[me]) <= queues[me]
        invariant i == 0 ==> queues == old(queues) && tcpu == old(tcpu)
      {
        Happens(begin, me, cur, share, env, log, Others(steps[i]));
        OtherStep(steps[i], victims, me);
        log := log + [Others(steps[i])];
        assert steps[..i + 1] == steps[..i] + [steps[i]];
        i := i + 1;
      }
      assert steps[..i] == steps;
      Happens(begin, me, cur, share, env, log, Lock(k));
      log := log + [Lock(k)];
    }

    /** Adds up the queue lengths, one lock at a time. */
    method CountAll(me: nat, env: seq<seq<EnvStep>>) returns (my: nat, total: nat)
      requires Valid([], me, env) && NoSends(log) && Tallies(me) == NOTHING
      modifies this
      ensures Valid([], me, env) && NoSends(log)
      ensures begin == old(begin) && |queues| == |old(queues)| && my <= |queues[me]|
      ensures Tallies(me) == Tally(Upto(|queues|), total, my, 0, [], 0, Upto(|queues|), [])
      ensures Quiet(env) ==> queues == old(queues) && tcpu == old(tcpu) && my == |queues[me]| && total == Total(queues)
    {
      hide MachineOk, Replay, TallyOf, Careful, Paced;
      my, total := 0, 0;
      OkSize(queues, tcpu, [], me);
      var i := 0;
      while i < |queues|
        invariant 0 <= i <= |queues| == |old(queues)| && Valid([], me, env) && begin == old(begin) && me < |queues|
        invariant NoSends(log) && my <= |queues[me]| && Tallies(me) == Tally(Upto(i), total, my, 0, [], 0, Upto(i), [])
        invariant Quiet(env) ==> queues == old(queues) && tcpu == old(tcpu)
        invariant Quiet(env) ==> total == Total(queues[..i]) && (me < i ==> my == |queues[me]|)
        decreases |queues| - i
      {
        Acquire(env, CountLock(i), [], me, 0, 0);
        assert Upto(i + 1) == Upto(i) + [i];
        Happens(begin, me, 0, 0, env, log, Look(i));
        log := log + [Look(i)];
        total := total + |queues[i]|;
        if i == me {
          my := |queues[i]|;
        }
        assert queues[..i + 1][..i] == queues[..i];
        i := i + 1;
      }
      assert queues[..i] == queues;
    }

    /** Takes the last n threads of the own queue, keeping their order. */
    method TakeVictims(me: nat, n: nat, ghost env: seq<seq<EnvStep>>, ghost cur: Tid, ghost share: nat)
      returns (victims: seq<Tid>)
      requires Valid([], me, env) && n <= |queues[me]| && Careful(begin, me, cur, share, log)
      requires Holds(Tallies(me), TakeLock(|queues|))
      modifies this`queues, this`log
      ensures Valid(victims, me, env) && Careful(begin, me, cur, share, log)
      ensures victims == old(queues[me])[|old(queues[me])| - n..]
      ensures Tallies(me) == old(Tallies(me)).(takes := old(Tallies(me)).takes + n)
      ensures queues == Shortened(old(queues), me, n) && |queues| == |old(queues)|
    {
      hide MachineOk, Replay, TallyOf, Careful, Paced, Shortened;
      victims := [];
      OkSize(queues, tcpu, victims, me);
      ghost var qs := queues;
      ShortenedNone(qs, me);
      var i := 0;
      while i < n
        invariant Tallies(me) == old(Tallies(me)).(takes := old(Tallies(me)).takes + i)
        invariant 0 <= i <= n && Valid(victims, me, env) && victims == qs[me][|qs[me]| - i..]
        invariant queues == Shortened(qs, me, i) && |queues| == |qs| && Careful(begin, me, cur, share, log)
      {
        ShortenedStep(qs, me, i);
        Happens(begin, me, cur, share, env, log, Take);
        DoKeeps(Machine(queues, tcpu, victims), me, Take);
        var last := |queues[me]| - 1;
        var t := queues[me][last];
        queues := queues[me := queues[me][..last]];
        victims := [t] + victims;
        log := log + [Take];
        i := i + 1;
      }
    }

    /** Fills queue c up to the share; all under its lock. `orig` are the victims as first taken,
        of which k have been dealt with; `more` are those sent here. */
    method SendTo(c: nat, share: nat, cur: Tid, me: nat, victims0: seq<Tid>, toSend0: nat,
                  ghost env: seq<seq<EnvStep>>, ghost orig: seq<Tid>, ghost k: nat)
      returns (victims: seq<Tid>, toSend: nat, ghost k': nat, ghost more: seq<Tid>)
      requires Valid(victims0, me, env) && Careful(begin, me, cur, share, log)
      requires c < |queues| && c != me && Distinct(orig) && Holds(Tallies(me), SendLock(|queues|, c))
      requires k <= |orig| && victims0 == Left(orig, k, cur) && toSend0 == |orig| - k
      modifies this`queues, this`tcpu, this`log
      ensures Valid(victims, me, env) && Careful(begin, me, cur, share, log)
      ensures Tallies(me) == old(Tallies(me))
      ensures k <= k' <= |orig| && victims == Left(orig, k', cur) && toSend == |orig| - k'
      ensures queues == Longer(old(queues), c, more) && Skip(orig[..k'], cur) == Skip(orig[..k], cur) + more
      ensures Queued(queues) + multiset(victims) == Queued(old(queues)) + multiset(victims0)
      ensures toSend == 0 || |old(queues[c])| + |more| >= share
      ensures |more| > 0 ==> |old(queues[c])| + |more| <= share
    {
      hide MachineOk, Replay, TallyOf, Careful, Paced, Queued, Distinct, Longer, Left, Skip;
      victims, toSend, k', more := victims0, toSend0, k, [];
      ghost var qs := queues;
      LongerNone(qs, c);
      LongerAt(qs, c, more);
      while |queues[c]| < share && toSend > 0
        invariant Valid(victims, me, env) && Careful(begin, me, cur, share, log)
        invariant Tallies(me) == old(Tallies(me))
        invariant k <= k' <= |orig| && victims == Left(orig, k', cur) && toSend == |orig| - k'
        invariant queues == Longer(qs, c, more) && |queues| == |qs| && |queues[c]| == |qs[c]| + |more|
        invariant Skip(orig[..k'], cur) == Skip(orig[..k], cur) + more
        invariant Queued(queues) + multiset(victims) == Queued(qs) + multiset(victims0)
        invariant |more| > 0 ==> |qs[c]| + |more| <= share
        decreases toSend
      {
        LeftStep(orig, k', cur);
        SkipStep(orig, k', cur);
        var t := victims[0];
        if t == cur {
          ShuffleStep(begin, me, cur, share, env, log, queues, tcpu, victims, c);
          log := log + [Shuffle];
          victims := victims[1..] + [t];
          toSend := toSend - 1;
        } else {
          SendStep(begin, me, cur, share, env, log, queues, tcpu, victims, c);
          log := log + [Send(c)];
          LongerStep(qs, c, more, t);
          LongerAt(qs, c, more + [t]);
          assert Skip(orig[..k' + 1], cur) == Skip(orig[..k], cur) + (more + [t]);
          victims := victims[1..];
          tcpu := tcpu[t := c];
          queues := queues[c := queues[c] + [t]];
          toSend := toSend - 1;
          more := more + [t];
        }
        k' := k' + 1;
      }
    }

    /** Puts the victims that are left back on the own queue, in order. */
    method PutBack(me: nat, victims0: seq<Tid>, ghost env: seq<seq<EnvStep>>, ghost cur: Tid, ghost share: nat)
      requires Valid(victims0, me, env) && Careful(begin, me, cur, share, log)
      requires OnlyCurrent(victims0, cur) || Tallies(me).passed == OthersBelow(me, |queues|)
      requires Holds(Tallies(me), BackLock(|queues|))
      modifies this`queues, this`log
      ensures Valid([], me, env) && Careful(begin, me, cur, share, log)
      ensures Tallies(me) == old(Tallies(me)).(back := old(Tallies(me)).back + |victims0|)
      ensures queues == Longer(old(queues), me, victims0) && |queues| == |old(queues)|
    {
      hide MachineOk, Replay, TallyOf, Careful, Paced, Longer, OthersBelow;
      var victims := victims0;
      OkSize(queues, tcpu, victims, me);
      ghost var i, qs := 0, queues;
      LongerNone(qs, me);
      while victims != []
        invariant 0 <= i <= |victims0| && victims == victims0[i..] && Valid(victims, me, env)
        invariant Tallies(me) == old(Tallies(me)).(back := old(Tallies(me)).back + i)
        invariant queues == Longer(qs, me, victims0[..i]) && |queues| == |qs| && Careful(begin, me, cur, share, log)
        decreases victims
      {
        assert forall t :: t in victims ==> t in victims0;
        SendStep(begin, me, cur, share, env, log, queues, tcpu, victims, me);
        HomeAlready(queues, victims, tcpu, me);
        var t := victims[0];
        LongerStep(qs, me, victims0[..i], t);
        assert victims0[..i] + [t] == victims0[..i + 1];
        victims := victims[1..];
        queues := queues[me := queues[me] + [t]];
        log := log + [Send(me)];
        i := i + 1;
      }
      assert victims0[..i] == victims0;
    }

    /** The sending loop: visits the other CPUs in order until nothing is left to send. */
    method SendAll(me: nat, cur: Tid, share: nat, victims0: seq<Tid>, env: seq<seq<EnvStep>>)
      returns (victims: seq<Tid>)
      requires Valid(victims0, me, env) && Careful(begin, me, cur, share, log)
      requires Tallies(me).passed == []
      modifies this
      ensures Valid(victims, me, env) && Careful(begin, me, cur, share, log)
      ensures |queues| == |old(queues)| && begin == old(begin)
      ensures var l, l' := old(Tallies(me)), Tallies(me);
              l' == l.(passed := l'.passed, locks := l.locks + SendLocks(|queues|, l'.passed))
      ensures OnlyCurrent(victims, cur) || Tallies(me).passed == OthersBelow(me, |queues|)
      ensures Quiet(env) && |old(queues[me])| == share && share * |queues| >= Total(old(queues)) + |victims0| ==>
                && Spread(old(queues), queues, me, |queues|, share, Skip(victims0, cur))
                && victims == if cur in victims0 then [cur] else []
    {
      hide MachineOk, Replay, TallyOf, Careful, Paced, Queued, Distinct, Longer, Left, Skip, Spread, SendLocks,
           OthersBelow;
      ghost var qs, k, quiet, tally := queues, 0, Quiet(env), Tallies(me);
      var toSend := |victims0|;
      victims := victims0;
      OkSize(queues, tcpu, victims, me);
      LeftStart(victims0, cur);
      SpreadStart(qs, me, share);
      LeftCurrent(victims0, 0, cur);
      PassedNone(me, |qs|);
      var i := 0;
      while i < |queues| && toSend > 0
        invariant 0 <= i <= |queues| == |qs| && Valid(victims, me, env) && begin == old(begin)
        invariant Careful(begin, me, cur, share, log)
        invariant Tallies(me) == tally.(passed := OthersBelow(me, i),
                                        locks := tally.locks + SendLocks(|qs|, OthersBelow(me, i)))
        invariant toSend == 0 ==> OnlyCurrent(victims, cur)
        invariant k <= |victims0| && victims == Left(victims0, k, cur) && toSend == |victims0| - k
        invariant quiet ==> Queued(queues) + multiset(victims) == Queued(qs) + multiset(victims0)
        invariant quiet ==> Spread(qs, queues, me, i, share, Skip(victims0[..k], cur))
        invariant quiet && toSend > 0 ==> forall c :: 0 <= c < i && c != me ==> |queues[c]| >= share
        decreases |queues| - i
      {
        PassedMore(me, |qs|, i);
        if i == me {
          if quiet {
            SpreadPast(qs, queues, me, share, Skip(victims0[..k], cur));
          }
        } else {
          Acquire(env, SendLock(|queues|, i), victims, me, cur, share);
          ghost var before, more, sent := queues, [], Skip(victims0[..k], cur);
          victims, toSend, k, more := SendTo(i, share, cur, me, victims, toSend, env, victims0, k);
          LongerElsewhere(before, i, more);
          LeftCurrent(victims0, k, cur);
          PassStep(begin, me, cur, share, env, log, queues, tcpu, victims, i);
          log := log + [Pass(i)];
          if quiet {
            SpreadOn(qs, before, me, i, share, sent, more);
          }
        }
        i := i + 1;
      }
      if quiet && |qs[me]| == share && share * |queues| >= Total(qs) + |victims0| {
        Finish(qs, queues, me, i, share, victims0, k, cur, victims);
      }
    }

    /** The part after the shares are known: `toSend` threads are to leave. */
    method SendSurplus(me: nat, cur: Tid, share: nat, toSend: nat, env: seq<seq<EnvStep>>)
      requires Valid([], me, env) && toSend <= |queues[me]| && Careful(begin, me, cur, share, log)
      requires Tallies(me).passed == [] && Tallies(me).back == 0 && Holds(Tallies(me), TakeLock(|queues|))
      modifies this
      ensures Valid([], me, env) && Careful(begin, me, cur, share, log)
      ensures |queues| == |old(queues)| && begin == old(begin)
      ensures var l, l' := old(Tallies(me)), Tallies(me);
              l' == l.(takes := l.takes + toSend, passed := l'.passed, back := l'.back,
                       locks := l.locks + (SendLocks(|queues|, l'.passed) +
                                           if l'.back > 0 then [BackLock(|queues|)] else []))
      ensures Quiet(env) && share == Share(Total(old(queues)), |queues|) && toSend == |old(queues[me])| - share ==>
                Balanced(old(queues), queues, me, cur)
    {
      hide MachineOk, Replay, TallyOf, Careful, Paced, Queued, Distinct, Longer, Skip, Spread, Total, Share,
           Shortened, Balanced;
      ghost var qs := queues;
      OkSize(queues, tcpu, [], me);
      var victims := TakeVictims(me, toSend, env, cur, share);
      ghost var base := queues;
      ShortenedFacts(qs, me, toSend, queues, victims);
      victims := SendAll(me, cur, share, victims, env);
      ghost var spread, left := queues, victims;
      LongerNone(queues, me);
      if victims != [] {
        Acquire(env, BackLock(|queues|), victims, me, cur, share);
        PutBack(me, victims, env, cur, share);
      }
      if Quiet(env) && share == Share(Total(qs), |queues|) && toSend == |qs[me]| - share {
        BalancedIntro(qs, base, spread, queues, me, cur, share);
      }
    }

    /** thread_consider_migration on CPU `me`, whose current thread is `cur`. Afterwards `begin` is
        the state at the call and `log` what happened during it; `share` is the share it worked out. */
    method ConsiderMigration(me: nat, cur: Tid, env: seq<seq<EnvStep>>) returns (ghost share: nat)
      requires MachineOk(Machine(queues, tcpu, []), me)
      modifies this
      ensures begin == Machine(old(queues), old(tcpu), []) && Valid([], me, env)
      ensures Careful(begin, me, cur, share, log) && Fair(Tallies(me), |queues|, share)
      ensures Queued(queues) + Went(begin, me, log) == Queued(old(queues)) + Came(begin, me, log)
      ensures cur in old(queues[me]) ==> cur in queues[me]
      ensures Quiet(env) ==> share == Share(Total(old(queues)), |old(queues)|) && Balanced(old(queues), queues, me, cur)
    {
      hide MachineOk, Replay, TallyOf, Careful, Paced, Queued, Total, Gained, Skip, Fair, SendLocks, Upto, LocksTaken;
      begin, log := Machine(queues, tcpu, []), [];
      OkSize(queues, tcpu, [], me);
      StartOfRun(begin, me, env);
      var my, total := CountAll(me, env);
      var oneShare := Share(total, |queues|);
      share := oneShare;
      NoSendsCareful(begin, me, cur, share, log);
      if my < oneShare {
        FairLow(Tallies(me), |queues|, share);
        Outcome(begin, me, cur, share, log, queues, tcpu);
        return;
      }
      hide Share, Balanced;
      Acquire(env, TakeLock(|queues|), [], me, cur, share);
      SendSurplus(me, cur, oneShare, my - oneShare, env);
      FairHigh(Tallies(me), |queues|, share);
      Outcome(begin, me, cur, share, log, queues, tcpu);
    }
  }
}
