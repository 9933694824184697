/** Quantum circuits as the encoders build them: a declared number of qubits and an
    append-only list of gates. Gates are atomic (the library's decompositions of
    multi-controlled rotations, multi-controlled X and state initialisation are not
    modelled) and rotation angles are kept symbolic. */
module Circuits {
  import opened Binary
  import opened Numerics

  /** The Python exceptions an encoder can raise before returning its circuit:
      `int()` of an infinite logarithm, a modulo by zero, indexing an empty array,
      and the circuit library refusing a gate. */
  datatype Error = OverflowError | ZeroDivisionError | IndexError | QiskitError | CircuitError

  /** An encoder's outcome: the circuit it returns, or the exception it raises. */
  datatype Result<T> = Ok(value: T) | Err(error: Error)

  /** Rotation angles as the sources write them: `v * pi`, `2 * (v * pi)` and
      `2 * np.arcsin(v)`. */
  datatype Angle = PiTimes(v: real) | TwoPiTimes(v: real) | TwoArcsin(v: real)

  datatype Gate =
    | H(q: nat)
    | X(q: nat)
    | Z(q: nat)
    | RY(q: nat, angle: Angle)
    | CRY(control: nat, target: nat, angle: Angle)
    | MCRY(controls: seq<nat>, target: nat, angle: Angle)
    | MCX(controls: seq<nat>, target: nat)
    | Swap(a: nat, b: nat)
    | Barrier
    | Init(amplitudes: seq<real>, qubits: seq<nat>)

  /** The qubits a gate acts on; a barrier without arguments spans every qubit and
      names none. */
  function Qubits(g: Gate): seq<nat>
  {
    match g
    case H(q) => [q]
    case X(q) => [q]
    case Z(q) => [q]
    case RY(q, _) => [q]
    case CRY(c, t, _) => [c, t]
    case MCRY(cs, t, _) => cs + [t]
    case MCX(cs, t) => cs + [t]
    case Swap(a, b) => [a, b]
    case Barrier => []
    case Init(_, qs) => qs
  }

  predicate Distinct(xs: seq<nat>)
  {
    forall i, j :: 0 <= i < j < |xs| ==> xs[i] != xs[j]
  }

  predicate InRange(g: Gate, n: nat)
  {
    forall q :: q in Qubits(g) ==> q < n
  }

  /** What the circuit library checks when a gate is appended to an n-qubit circuit:
      every qubit index exists, no qubit is named twice, and a state to initialise
      has 2^k amplitudes for k qubits and unit norm. */
  predicate Admissible(g: Gate, n: nat)
  {
    && InRange(g, n)
    && Distinct(Qubits(g))
    && (g.Init? ==> |g.amplitudes| == Pow2(|g.qubits|) && SumSq(g.amplitudes) == 1.0)
  }

  predicate AllAdmissible(gs: seq<Gate>, n: nat)
  {
    forall i :: 0 <= i < |gs| ==> Admissible(gs[i], n)
  }

  /** `list(range(n))`. */
  function Range(n: nat): (r: seq<nat>)
    ensures |r| == n
    ensures forall i :: 0 <= i < n ==> r[i] == i
  {
    if n == 0 then [] else Range(n - 1) + [n - 1]
  }

  /** All n position qubits controlling a gate on a target at or above n. */
  lemma AllControlsAdmissible(n: nat, t: nat, size: nat)
    requires n <= t < size
    ensures forall a :: Admissible(MCRY(Range(n), t, a), size)
    ensures Admissible(MCX(Range(n), t), size)
  {
    var qs := Range(n) + [t];
    assert forall i :: 0 <= i < n ==> qs[i] == i;
    assert qs[n] == t;
    assert forall q :: q in qs ==> q < size;
  }

  /** `[X(q) for q in qs]`, in list order. */
  function Flips(qs: seq<nat>): (gs: seq<Gate>)
    ensures |gs| == |qs|
    ensures forall i :: 0 <= i < |qs| ==> gs[i] == X(qs[i])
  {
    seq(|qs|, i requires 0 <= i < |qs| => X(qs[i]))
  }

  lemma FlipsAppend(a: seq<nat>, b: seq<nat>)
    ensures Flips(a + b) == Flips(a) + Flips(b)
  {
  }

  /** X(q) occurs among the flips of qs exactly as often as q occurs in qs. */
  lemma {:induction false} FlipsMultiset(qs: seq<nat>, q: nat)
    ensures multiset(Flips(qs))[X(q)] == multiset(qs)[q]
  {
    if |qs| > 0 {
      var init, last := qs[..|qs| - 1], qs[|qs| - 1];
      FlipsMultiset(init, q);
      assert qs == init + [last];
      FlipsAppend(init, [last]);
      var mi: multiset<Gate>, ml: multiset<Gate> := multiset(Flips(init)), multiset(Flips([last]));
      assert multiset(Flips(init) + Flips([last])) == mi + ml;
      assert Flips([last]) == [X(last)];
      var ni: multiset<nat>, nl: multiset<nat> := multiset(init), multiset([last]);
      assert multiset(init + [last]) == ni + nl;
    }
  }

  /** `for i in range(n): qc.h(i)`. */
  function HadamardLayer(n: nat): (gs: seq<Gate>)
    ensures |gs| == n
    ensures forall i :: 0 <= i < n ==> gs[i] == H(i)
  {
    if n == 0 then [] else HadamardLayer(n - 1) + [H(n - 1)]
  }

  /** The angles of the rotation gates (RY, CRY, multi-controlled RY), in circuit
      order: what a reader of the circuit recovers of the encoded intensities. */
  function Rotations(gs: seq<Gate>): seq<Angle>
  {
    if |gs| == 0 then []
    else
      var g := gs[|gs| - 1];
      Rotations(gs[..|gs| - 1]) + (if g.RY? || g.CRY? || g.MCRY? then [g.angle] else [])
  }

  lemma {:induction false} RotationsAppend(a: seq<Gate>, b: seq<Gate>)
    ensures Rotations(a + b) == Rotations(a) + Rotations(b)
    decreases |b|
  {
    if |b| == 0 {
      assert a + b == a;
    } else {
      assert (a + b)[..|a + b| - 1] == a + b[..|b| - 1];
      RotationsAppend(a, b[..|b| - 1]);
    }
  }

  /** Gates that rotate nothing contribute no angle. */
  lemma {:induction false} NoRotations(gs: seq<Gate>)
    requires forall i :: 0 <= i < |gs| ==> gs[i].H? || gs[i].X? || gs[i].Z? || gs[i].MCX? || gs[i].Swap? || gs[i].Barrier? || gs[i].Init?
    ensures Rotations(gs) == []
  {
    if |gs| > 0 {
      NoRotations(gs[..|gs| - 1]);
    }
  }

  /** The number of gates other than barriers (what the circuit library counts as a
      circuit's size). */
  function GateCount(gs: seq<Gate>): (c: nat)
    ensures c <= |gs|
  {
    if |gs| == 0 then 0 else GateCount(gs[..|gs| - 1]) + (if gs[|gs| - 1].Barrier? then 0 else 1)
  }

  lemma {:induction false} GateCountAppend(a: seq<Gate>, b: seq<Gate>)
    ensures GateCount(a + b) == GateCount(a) + GateCount(b)
    decreases |b|
  {
    if |b| == 0 {
      assert a + b == a;
    } else {
      assert (a + b)[..|a + b| - 1] == a + b[..|b| - 1];
      GateCountAppend(a, b[..|b| - 1]);
    }
  }

  lemma {:induction false} NoBarrierCount(gs: seq<Gate>)
    requires forall i :: 0 <= i < |gs| ==> !gs[i].Barrier?
    ensures GateCount(gs) == |gs|
  {
    if |gs| > 0 {
      NoBarrierCount(gs[..|gs| - 1]);
    }
  }

  /** A circuit under construction: its qubit count is fixed when it is created and
      its gate list only ever grows at the end. */
  class Circuit {
    const numQubits: nat
    var gates: seq<Gate>

    ghost predicate Valid()
      reads this
    {
      AllAdmissible(gates, numQubits)
    }

    /** `QuantumCircuit(n)`. */
    constructor (n: nat)
      ensures Valid() && numQubits == n && gates == []
    {
      numQubits := n;
      gates := [];
    }

    /** `qc.h(q)`, `qc.x(q)`, `qc.ry(angle, q)`, `qc.mcx(controls, target)`, ... :
        the library refuses a gate that is not admissible; otherwise it is added
        after every gate already present. */
    method Append(g: Gate)
      requires Valid() && Admissible(g, numQubits)
      modifies this
      ensures Valid() && gates == old(gates) + [g]
    {
      gates := gates + [g];
    }

    /** `for i in range(n): qc.h(i)`. */
    method AppendHadamardLayer(n: nat)
      requires Valid() && n <= numQubits
      modifies this
      ensures Valid() && gates == old(gates) + HadamardLayer(n)
    {
      for i := 0 to n
        invariant Valid() && gates == old(gates) + HadamardLayer(i)
      {
        assert Qubits(H(i)) == [i];
        Append(H(i));
      }
    }
  }
}
