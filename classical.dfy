/** What X, multi-controlled X, SWAP and barrier gates do to a classical assignment
    of bits to qubits (a computational basis state). These gates map basis states to
    basis states, so this is enough to state what the address sandwiches, the NEQR
    intensity writes, the flips and the reflections do, without simulating
    amplitudes. */
module Classical {
  import opened Circuits

  predicate IsClassical(g: Gate)
  {
    g.X? || g.MCX? || g.Swap? || g.Barrier?
  }

  /** Every control qubit holds 1. */
  predicate AllSet(s: seq<bool>, cs: seq<nat>)
    requires forall i :: 0 <= i < |cs| ==> cs[i] < |s|
  {
    forall i :: 0 <= i < |cs| ==> s[cs[i]]
  }

  predicate Runnable(gs: seq<Gate>, n: nat)
  {
    forall i :: 0 <= i < |gs| ==> IsClassical(gs[i]) && InRange(gs[i], n)
  }

  function Step(g: Gate, s: seq<bool>): (t: seq<bool>)
    requires IsClassical(g) && InRange(g, |s|)
    ensures |t| == |s|
  {
    match g
    case X(q) =>
      assert q in Qubits(g);
      s[q := !s[q]]
    case MCX(cs, t) =>
      assert t in Qubits(g);
      assert forall i :: 0 <= i < |cs| ==> cs[i] in Qubits(g);
      s[t := s[t] != AllSet(s, cs)]
    case Swap(a, b) =>
      assert a in Qubits(g) && b in Qubits(g);
      s[a := s[b]][b := s[a]]
    case Barrier => s
  }

  /** The basis state reached from `s` by applying `gs` in order. */
  function Run(gs: seq<Gate>, s: seq<bool>): (t: seq<bool>)
    requires Runnable(gs, |s|)
    ensures |t| == |s|
    decreases |gs|
  {
    if |gs| == 0 then s else Run(gs[1..], Step(gs[0], s))
  }

  /** Running a single gate is one step. */
  lemma RunSingle(g: Gate, s: seq<bool>)
    requires IsClassical(g) && InRange(g, |s|)
    ensures Runnable([g], |s|) && Run([g], s) == Step(g, s)
  {
    assert [g][1..] == [];
  }

  predicate Odd(k: nat)
  {
    k > 0 && !Odd(k - 1)
  }

  lemma {:induction false} RunAppend(a: seq<Gate>, b: seq<Gate>, s: seq<bool>)
    requires Runnable(a, |s|) && Runnable(b, |s|)
    ensures Runnable(a + b, |s|)
    ensures Run(a + b, s) == Run(b, Run(a, s))
    decreases |a|
  {
    assert forall i :: 0 <= i < |a + b| ==> (a + b)[i] == if i < |a| then a[i] else b[i - |a|];
    if |a| == 0 {
      assert a + b == b;
    } else {
      assert (a + b)[1..] == a[1..] + b;
      RunAppend(a[1..], b, Step(a[0], s));
    }
  }

  lemma FlipsRunnable(qs: seq<nat>, n: nat)
    requires forall i :: 0 <= i < |qs| ==> qs[i] < n
    ensures Runnable(Flips(qs), n)
  {
    forall i | 0 <= i < |qs| ensures IsClassical(Flips(qs)[i]) && InRange(Flips(qs)[i], n) {
      assert Qubits(Flips(qs)[i]) == [qs[i]];
    }
  }

  /** Running a non-empty list of flips is flipping its first qubit and then
      running the rest. */
  lemma FlipsUnfold(qs: seq<nat>, s: seq<bool>)
    requires |qs| > 0 && forall i :: 0 <= i < |qs| ==> qs[i] < |s|
    ensures Runnable(Flips(qs), |s|) && Runnable(Flips(qs[1..]), |s|)
    ensures Run(Flips(qs), s) == Run(Flips(qs[1..]), s[qs[0] := !s[qs[0]]])
  {
    FlipsRunnable(qs, |s|);
    FlipsRunnable(qs[1..], |s|);
    assert Flips(qs)[1..] == Flips(qs[1..]);
    assert Step(Flips(qs)[0], s) == s[qs[0] := !s[qs[0]]];
  }

  lemma MultisetHead(qs: seq<nat>, q: nat)
    requires |qs| > 0
    ensures multiset(qs)[q] == (if q == qs[0] then 1 else 0) + multiset(qs[1..])[q]
  {
    assert qs == [qs[0]] + qs[1..];
  }

  /** Applying `[X(q) for q in qs]` complements bit q exactly when q occurs an odd
      number of times in qs, and leaves every other bit as it was. */
  lemma {:induction false} FlipsEffect(qs: seq<nat>, s: seq<bool>)
    requires forall i :: 0 <= i < |qs| ==> qs[i] < |s|
    ensures Runnable(Flips(qs), |s|)
    ensures forall q :: 0 <= q < |s| ==> Run(Flips(qs), s)[q] == (s[q] != Odd(multiset(qs)[q]))
    decreases |qs|
  {
    FlipsRunnable(qs, |s|);
    if |qs| == 0 {
      assert Run(Flips(qs), s) == s;
    } else {
      var t := s[qs[0] := !s[qs[0]]];
      FlipsUnfold(qs, s);
      FlipsEffect(qs[1..], t);
      var u := Run(Flips(qs[1..]), t);
      assert Run(Flips(qs), s) == u;
      forall q | 0 <= q < |s|
        ensures u[q] == (s[q] != Odd(multiset(qs)[q]))
      {
        MultisetHead(qs, q);
        assert u[q] == (t[q] != Odd(multiset(qs[1..])[q]));
      }
    }
  }

  /** Repeating a list of flips restores every bit. */
  lemma FlipsTwice(qs: seq<nat>, s: seq<bool>)
    requires forall i :: 0 <= i < |qs| ==> qs[i] < |s|
    ensures Runnable(Flips(qs) + Flips(qs), |s|)
    ensures Run(Flips(qs) + Flips(qs), s) == s
  {
    FlipsEffect(qs, s);
    RunAppend(Flips(qs), Flips(qs), s);
    var t := Run(Flips(qs), s);
    FlipsEffect(qs, t);
    assert Run(Flips(qs), t) == s;
  }

  /** The order of a list of flips does not matter: only how often each qubit occurs. */
  lemma FlipsPermutation(qs: seq<nat>, rs: seq<nat>, s: seq<bool>)
    requires multiset(qs) == multiset(rs)
    requires forall i :: 0 <= i < |qs| ==> qs[i] < |s|
    ensures Runnable(Flips(rs), |s|)
    ensures Run(Flips(qs), s) == Run(Flips(rs), s)
  {
    forall i | 0 <= i < |rs| ensures rs[i] < |s| {
      assert rs[i] in multiset(qs);
    }
    FlipsEffect(qs, s);
    FlipsEffect(rs, s);
  }
}
