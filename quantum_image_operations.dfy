/** Geometric operations on an encoded image, each appending gates to the circuit it
    is given and returning that same circuit: a flip is a layer of X gates on the
    position qubits, a reflection a SWAP, the filter an H-Z-H sandwich. */
module ImageOperations {
  import opened Circuits
  import opened Classical

  /** `list(reversed(qs))`. */
  function Reverse(qs: seq<nat>): (r: seq<nat>)
    ensures |r| == |qs|
    ensures forall i :: 0 <= i < |qs| ==> r[i] == qs[|qs| - 1 - i]
  {
    if |qs| == 0 then [] else [qs[|qs| - 1]] + Reverse(qs[..|qs| - 1])
  }

  predicate AllBelow(qs: seq<nat>, n: nat)
  {
    forall i :: 0 <= i < |qs| ==> qs[i] < n
  }

  /** `quantum_horizontal_flip(qc, position_qubits)`: one X per listed qubit, in list
      order. */
  method HorizontalFlip(qc: Circuit, positions: seq<nat>) returns (out: Circuit)
    requires qc.Valid() && AllBelow(positions, qc.numQubits)
    modifies qc
    ensures out == qc && qc.Valid() && qc.gates == old(qc.gates) + Flips(positions)
  {
    for i := 0 to |positions|
      invariant qc.Valid() && qc.gates == old(qc.gates) + Flips(positions[..i])
    {
      assert Qubits(X(positions[i])) == [positions[i]];
      qc.Append(X(positions[i]));
      assert positions[..i + 1] == positions[..i] + [positions[i]];
      FlipsAppend(positions[..i], [positions[i]]);
    }
    assert positions[..|positions|] == positions;
    return qc;
  }

  /** `quantum_vertical_flip(qc, position_qubits)`: a barrier, then one X per listed
      qubit in reverse list order. */
  method VerticalFlip(qc: Circuit, positions: seq<nat>) returns (out: Circuit)
    requires qc.Valid() && AllBelow(positions, qc.numQubits)
    modifies qc
    ensures out == qc && qc.Valid() && qc.gates == old(qc.gates) + [Barrier] + Flips(Reverse(positions))
  {
    assert Qubits(Barrier) == [];
    qc.Append(Barrier);
    var rev := Reverse(positions);
    for i := 0 to |rev|
      invariant qc.Valid() && qc.gates == old(qc.gates) + [Barrier] + Flips(rev[..i])
    {
      assert Qubits(X(rev[i])) == [rev[i]];
      qc.Append(X(rev[i]));
      assert rev[..i + 1] == rev[..i] + [rev[i]];
      FlipsAppend(rev[..i], [rev[i]]);
    }
    assert rev[..|rev|] == rev;
    return qc;
  }

  /** `quantum_reflection(qc, q1, q2)`: a barrier, then a SWAP of the two qubits
      (the library refuses a SWAP of a qubit with itself). */
  method Reflection(qc: Circuit, q1: nat, q2: nat) returns (out: Circuit)
    requires qc.Valid() && q1 < qc.numQubits && q2 < qc.numQubits && q1 != q2
    modifies qc
    ensures out == qc && qc.Valid() && qc.gates == old(qc.gates) + [Barrier, Swap(q1, q2)]
  {
    assert Qubits(Barrier) == [] && Qubits(Swap(q1, q2)) == [q1, q2];
    qc.Append(Barrier);
    qc.Append(Swap(q1, q2));
    return qc;
  }

  /** `quantum_image_filter(qc, target_qubit)`: a barrier, then H, Z, H on the
      target. */
  method Filter(qc: Circuit, target: nat) returns (out: Circuit)
    requires qc.Valid() && target < qc.numQubits
    modifies qc
    ensures out == qc && qc.Valid() && qc.gates == old(qc.gates) + [Barrier, H(target), Z(target), H(target)]
  {
    assert Qubits(Barrier) == [] && Qubits(H(target)) == [target] && Qubits(Z(target)) == [target];
    qc.Append(Barrier);
    qc.Append(H(target));
    qc.Append(Z(target));
    qc.Append(H(target));
    return qc;
  }

  /** The gates of `apply_operations()`. */
  function OperationsGates(): seq<Gate>
  {
    [H(0), H(1), H(2), X(0), X(1), Barrier, X(1), X(0), Barrier, Swap(0, 1), Barrier, H(2), Z(2), H(2)]
  }

  /** `apply_operations()` up to the drawing: a 3-qubit circuit with a Hadamard on
      every qubit, then the horizontal flip and the vertical flip of position qubits
      [0, 1], the reflection of qubits 0 and 1, and the filter on qubit 2. */
  method ApplyOperations() returns (qc: Circuit)
    ensures fresh(qc) && qc.Valid() && qc.numQubits == 3 && qc.gates == OperationsGates()
  {
    qc := new Circuit(3);
    qc.AppendHadamardLayer(3);
    HadamardsOfThree();
    ApplyToExample(qc);
  }

  /** The four operations of `apply_operations()`, in order: both flips of position
      qubits [0, 1], the reflection of qubits 0 and 1, the filter on qubit 2. */
  method ApplyToExample(qc: Circuit)
    requires qc.Valid() && qc.numQubits == 3
    modifies qc
    ensures qc.Valid() && qc.gates == old(qc.gates) + OperationsGates()[3..]
  {
    var positions: seq<nat> := [0, 1];
    ghost var g0 := qc.gates;
    var c := HorizontalFlip(qc, positions);
    c := VerticalFlip(qc, positions);
    c := Reflection(qc, 0, 1);
    c := Filter(qc, 2);
    OperationsTail();
    Concat5(g0, Flips(positions), [Barrier] + Flips(Reverse(positions)), [Barrier, Swap(0, 1)], [Barrier, H(2), Z(2), H(2)]);
  }

  lemma Concat5<T>(a: seq<T>, b: seq<T>, c: seq<T>, d: seq<T>, e: seq<T>)
    ensures a + b + c + d + e == a + (b + c + d + e)
  {
  }

  /** After the Hadamards come the two flips, the reflection and the filter. */
  lemma OperationsTail()
    ensures OperationsGates()[3..] == Flips([0, 1]) + ([Barrier] + Flips(Reverse([0, 1])))
      + [Barrier, Swap(0, 1)] + [Barrier, H(2), Z(2), H(2)]
  {
    ReverseOfPair();
    assert Flips([0, 1]) == [X(0), X(1)];
  }

  lemma HadamardsOfThree()
    ensures HadamardLayer(3) == [H(0), H(1), H(2)]
  {
  }

  lemma ReverseOfPair()
    ensures Flips(Reverse([0, 1])) == [X(1), X(0)]
  {
  }

  /** 14 gates, of which the library counts the 11 that are not barriers. */
  lemma OperationsCount()
    ensures |OperationsGates()| == 14 && GateCount(OperationsGates()) == 11
  {
    var a, b, c, d := [H(0), H(1), H(2), X(0), X(1)], [X(1), X(0)], [Swap(0, 1)], [H(2), Z(2), H(2)];
    var bar := [Barrier];
    assert OperationsGates() == a + bar + b + bar + c + bar + d;
    assert GateCount(bar) == 0 by {
      assert bar[..0] == [];
    }
    NoBarrierCount(a);
    NoBarrierCount(b);
    NoBarrierCount(c);
    NoBarrierCount(d);
    GateCountAppend(a, bar);
    GateCountAppend(a + bar, b);
    GateCountAppend(a + bar + b, bar);
    GateCountAppend(a + bar + b + bar, c);
    GateCountAppend(a + bar + b + bar + c, bar);
    GateCountAppend(a + bar + b + bar + c + bar, d);
  }

  /** Each qubit occurs at most once in a list without repetitions. */
  lemma {:induction false} DistinctCount(qs: seq<nat>, q: nat)
    requires Distinct(qs)
    ensures multiset(qs)[q] == if q in qs then 1 else 0
  {
    if |qs| > 0 {
      DistinctCount(qs[1..], q);
      MultisetHead(qs, q);
      if q == qs[0] {
        assert q !in qs[1..];
      }
    }
  }

  /** On a basis state, the horizontal flip of distinct qubits complements exactly the
      listed bits and leaves every other bit alone. */
  lemma HorizontalFlipEffect(positions: seq<nat>, s: seq<bool>)
    requires AllBelow(positions, |s|) && Distinct(positions)
    ensures Runnable(Flips(positions), |s|)
    ensures forall q :: 0 <= q < |s| ==> Run(Flips(positions), s)[q] == if q in positions then !s[q] else s[q]
  {
    FlipsEffect(positions, s);
    var m: multiset<nat> := multiset(positions);
    forall q: nat | q < |s| ensures Odd(m[q]) == (q in positions) {
      DistinctCount(positions, q);
    }
  }

  /** Flipping horizontally twice restores every basis state. */
  lemma HorizontalFlipTwice(positions: seq<nat>, s: seq<bool>)
    requires AllBelow(positions, |s|)
    ensures Runnable(Flips(positions) + Flips(positions), |s|)
    ensures Run(Flips(positions) + Flips(positions), s) == s
  {
    FlipsTwice(positions, s);
  }

  lemma {:induction false} ReverseMultiset(qs: seq<nat>)
    ensures multiset(Reverse(qs)) == multiset(qs)
  {
    if |qs| > 0 {
      ReverseMultiset(qs[..|qs| - 1]);
      assert qs == qs[..|qs| - 1] + [qs[|qs| - 1]];
    }
  }

  /** On basis states the vertical flip does exactly what the horizontal flip does:
      the barrier is inert and the order of the X gates does not matter. */
  lemma VerticalFlipIsHorizontal(positions: seq<nat>, s: seq<bool>)
    requires AllBelow(positions, |s|)
    ensures Runnable([Barrier] + Flips(Reverse(positions)), |s|)
    ensures Run([Barrier] + Flips(Reverse(positions)), s) == Run(Flips(positions), s)
  {
    ReverseMultiset(positions);
    FlipsPermutation(positions, Reverse(positions), s);
    FlipsRunnable(positions, |s|);
    assert Runnable([Barrier], |s|) by {
      assert Qubits(Barrier) == [];
    }
    RunAppend([Barrier], Flips(Reverse(positions)), s);
  }

  /** On a basis state the reflection exchanges bits q1 and q2 and changes nothing
      else. */
  lemma ReflectionEffect(q1: nat, q2: nat, s: seq<bool>)
    requires q1 < |s| && q2 < |s| && q1 != q2
    ensures Runnable([Barrier, Swap(q1, q2)], |s|)
    ensures var t := Run([Barrier, Swap(q1, q2)], s);
      t[q1] == s[q2] && t[q2] == s[q1] && forall q :: 0 <= q < |s| && q != q1 && q != q2 ==> t[q] == s[q]
  {
    ReflectionStep(q1, q2, s);
  }

  /** The reflection runs as one SWAP step: the barrier is inert. */
  lemma ReflectionStep(q1: nat, q2: nat, s: seq<bool>)
    requires q1 < |s| && q2 < |s| && q1 != q2
    ensures Runnable([Barrier, Swap(q1, q2)], |s|)
    ensures Run([Barrier, Swap(q1, q2)], s) == s[q1 := s[q2]][q2 := s[q1]]
  {
    assert Qubits(Barrier) == [] && Qubits(Swap(q1, q2)) == [q1, q2];
    RunSingle(Barrier, s);
    RunSingle(Swap(q1, q2), s);
    RunAppend([Barrier], [Swap(q1, q2)], s);
    assert [Barrier] + [Swap(q1, q2)] == [Barrier, Swap(q1, q2)];
  }

  /** Reflecting twice restores every basis state. */
  lemma ReflectionTwice(q1: nat, q2: nat, s: seq<bool>)
    requires q1 < |s| && q2 < |s| && q1 != q2
    ensures Runnable([Barrier, Swap(q1, q2)] + [Barrier, Swap(q1, q2)], |s|)
    ensures Run([Barrier, Swap(q1, q2)] + [Barrier, Swap(q1, q2)], s) == s
  {
    var r := [Barrier, Swap(q1, q2)];
    ReflectionStep(q1, q2, s);
    var t := Run(r, s);
    ReflectionStep(q1, q2, t);
    assert Run(r, t) == s;
    RunAppend(r, r, s);
  }
}
