/** Conditioning a gate on a pixel address: before and after the gate, an X on every
    position qubit whose address character is '0', so that a gate controlled on all
    position qubits being 1 acts exactly on the basis state that spells the address
    (character 0, the most significant bit, on qubit 0). */
module AddressConditioning {
  import opened Binary
  import opened Circuits
  import opened Classical

  /** The positions q < k whose address character is '0', in ascending order. */
  function ZeroPositions(address: string, k: nat): (qs: seq<nat>)
    requires k <= |address|
  {
    if k == 0 then []
    else ZeroPositions(address, k - 1) + (if address[k - 1] == '0' then [k - 1] else [])
  }

  /** The gates of the first k iterations of
      `for q, bit in enumerate(address): if bit == '0': qc.x(q)`. */
  function ZeroFlipsUpTo(address: string, k: nat): seq<Gate>
    requires k <= |address|
  {
    if k == 0 then []
    else ZeroFlipsUpTo(address, k - 1) + (if address[k - 1] == '0' then [X(k - 1)] else [])
  }

  /** The gates of the whole loop. */
  function ZeroFlips(address: string): seq<Gate>
  {
    ZeroFlipsUpTo(address, |address|)
  }

  /** The loop emits one X per zero position, in ascending order. */
  lemma {:induction false} ZeroFlipsArePositionFlips(address: string, k: nat)
    requires k <= |address|
    ensures ZeroFlipsUpTo(address, k) == Flips(ZeroPositions(address, k))
  {
    if k > 0 {
      ZeroFlipsArePositionFlips(address, k - 1);
      FlipsAppend(ZeroPositions(address, k - 1), if address[k - 1] == '0' then [k - 1] else []);
    }
  }

  /** Each position below k occurs once when its character is '0' and not at all
      otherwise; nothing at or above k occurs. */
  lemma {:induction false} ZeroPositionsCount(address: string, k: nat, q: nat)
    requires k <= |address|
    ensures multiset(ZeroPositions(address, k))[q] == if q < k && address[q] == '0' then 1 else 0
  {
    if k > 0 {
      ZeroPositionsCount(address, k - 1, q);
      var prev := ZeroPositions(address, k - 1);
      var last: seq<nat> := if address[k - 1] == '0' then [k - 1] else [];
      assert ZeroPositions(address, k) == prev + last;
      var mp: multiset<nat>, ml: multiset<nat> := multiset(prev), multiset(last);
      assert multiset(prev + last) == mp + ml;
      assert ml[q] == if q == k - 1 && address[k - 1] == '0' then 1 else 0;
    }
  }

  /** The flips of an address are X gates on the address's '0' positions, one each. */
  lemma ZeroFlipsShape(address: string)
    ensures |ZeroFlips(address)| == CountChar(address, '0', |address|)
    ensures forall i :: 0 <= i < |ZeroFlips(address)| ==>
      ZeroFlips(address)[i].X? && ZeroFlips(address)[i].q < |address| && address[ZeroFlips(address)[i].q] == '0'
  {
    ZeroFlipsArePositionFlips(address, |address|);
    ZeroPositionsSpec(address, |address|);
    var zs := ZeroPositions(address, |address|);
    forall i | 0 <= i < |zs| ensures address[zs[i]] == '0' {
      assert zs[i] in zs;
    }
  }

  /** The zero positions are strictly ascending, are exactly the '0' characters, and
      there are as many of them as '0' characters. */
  lemma {:induction false} ZeroPositionsSpec(address: string, k: nat)
    requires k <= |address|
    ensures |ZeroPositions(address, k)| == CountChar(address, '0', k)
    ensures forall i :: 0 <= i < |ZeroPositions(address, k)| ==> ZeroPositions(address, k)[i] < k
    ensures forall i, j :: 0 <= i < j < |ZeroPositions(address, k)| ==>
      ZeroPositions(address, k)[i] < ZeroPositions(address, k)[j]
    ensures forall q :: 0 <= q < k ==> (q in ZeroPositions(address, k) <==> address[q] == '0')
  {
    if k > 0 {
      ZeroPositionsSpec(address, k - 1);
    }
  }

  /** The flips of an address complement exactly the qubits whose character is '0'. */
  lemma ZeroFlipsEffect(address: string, s: seq<bool>)
    requires |address| <= |s|
    ensures Runnable(ZeroFlips(address), |s|)
    ensures forall q :: 0 <= q < |s| ==>
      Run(ZeroFlips(address), s)[q] == if q < |address| && address[q] == '0' then !s[q] else s[q]
  {
    var zs := ZeroPositions(address, |address|);
    ZeroPositionsSpec(address, |address|);
    ZeroFlipsArePositionFlips(address, |address|);
    FlipsEffect(zs, s);
    var m: multiset<nat> := multiset(zs);
    forall q: nat | q < |s|
      ensures Odd(m[q]) == (q < |address| && address[q] == '0')
    {
      ZeroPositionsCount(address, |address|, q);
      if q < |address| && address[q] == '0' {
        assert m[q] == 1;
      } else {
        assert m[q] == 0;
      }
    }
  }

  /** The position qubits 0..n-1 of basis state s spell pixel index idx, qubit 0
      holding the most significant bit. */
  predicate Spells(s: seq<bool>, idx: nat, n: nat)
    requires n <= |s|
  {
    forall q :: 0 <= q < n ==> s[q] == BitSet(idx, n - 1 - q)
  }

  /** A basis state spells at most one pixel index. */
  lemma SpellsUnique(s: seq<bool>, i: nat, j: nat, n: nat)
    requires n <= |s| && i < Pow2(n) && j < Pow2(n)
    requires Spells(s, i, n) && Spells(s, j, n)
    ensures i == j
  {
    forall b | 0 <= b < n
      ensures BitSet(i, b) == BitSet(j, b)
    {
      assert s[n - 1 - b] == BitSet(i, b);
    }
    BitsDetermine(i, j, n);
  }

  /** A basis state that spells pixel j spells pixel i exactly when i is j. */
  lemma SpellsExactly(s: seq<bool>, j: nat, i: nat, n: nat)
    requires n <= |s| && j < Pow2(n) && i < Pow2(n) && Spells(s, j, n)
    ensures Spells(s, i, n) <==> i == j
  {
    if Spells(s, i, n) {
      SpellsUnique(s, i, j, n);
    }
  }

  /** Run on a basis state, the flips of the address of pixel `idx` (n >= 1 bits)
      set every position qubit to 1 exactly when the state spells `idx`, and leave
      the qubits at and above n untouched. So a gate controlled on all position
      qubits between two such flip lists acts on pixel `idx` alone. */
  lemma AddressSelects(idx: nat, n: nat, s: seq<bool>)
    requires n >= 1 && idx < Pow2(n) && |s| >= n
    ensures Runnable(ZeroFlips(FormatBinary(idx, n)), |s|)
    ensures var f := Run(ZeroFlips(FormatBinary(idx, n)), s);
      && (forall q :: n <= q < |s| ==> f[q] == s[q])
      && (AllSet(f, Range(n)) <==> Spells(s, idx, n))
  {
    var address := FormatBinary(idx, n);
    FormatBinaryBits(idx, n);
    ZeroFlipsEffect(address, s);
    var f := Run(ZeroFlips(address), s);
    AllSetRange(f, n);
    forall q | 0 <= q < n
      ensures f[q] == (s[q] == BitSet(idx, n - 1 - q))
    {
      assert (address[q] == '0') == !BitSet(idx, n - 1 - q);
    }
    SpellsIff(f, s, idx, n);
  }

  lemma AllSetRange(f: seq<bool>, n: nat)
    requires n <= |f|
    ensures AllSet(f, Range(n)) <==> forall q :: 0 <= q < n ==> f[q]
  {
    var r := Range(n);
    if forall q :: 0 <= q < n ==> f[q] {
      forall i | 0 <= i < n ensures f[r[i]] {
        assert r[i] == i;
      }
    }
    if AllSet(f, r) {
      forall q | 0 <= q < n ensures f[q] {
        assert f[r[q]];
      }
    }
  }

  lemma SpellsIff(f: seq<bool>, s: seq<bool>, idx: nat, n: nat)
    requires n <= |f| && n <= |s|
    requires forall q :: 0 <= q < n ==> f[q] == (s[q] == BitSet(idx, n - 1 - q))
    ensures (forall q :: 0 <= q < n ==> f[q]) <==> Spells(s, idx, n)
  {
    if forall q :: 0 <= q < n ==> f[q] {
      forall q | 0 <= q < n ensures s[q] == BitSet(idx, n - 1 - q) {
        assert f[q];
      }
    }
  }

  /** The second flip list undoes the first: the sandwich leaves the basis state of
      the position qubits as it found it. */
  lemma SandwichRestores(address: string, s: seq<bool>)
    requires |address| <= |s|
    ensures Runnable(ZeroFlips(address) + ZeroFlips(address), |s|)
    ensures Run(ZeroFlips(address) + ZeroFlips(address), s) == s
  {
    ZeroPositionsSpec(address, |address|);
    ZeroFlipsArePositionFlips(address, |address|);
    FlipsTwice(ZeroPositions(address, |address|), s);
  }

  /** Pixel 0's address is all '0's: every position qubit is flipped. */
  lemma ZeroAddressFlipsAll(w: nat)
    requires w >= 1
    ensures ZeroFlips(FormatBinary(0, w)) == Flips(Range(w))
  {
    FormatBinaryBits(0, w);
    forall q | 0 <= q < w ensures FormatBinary(0, w)[q] == '0' {
      ZeroNoBits(w - 1 - q);
    }
    ZeroAddressPositions(FormatBinary(0, w), w);
    ZeroFlipsArePositionFlips(FormatBinary(0, w), w);
  }

  lemma {:induction false} ZeroAddressPositions(address: string, k: nat)
    requires k <= |address| && forall q :: 0 <= q < k ==> address[q] == '0'
    ensures ZeroPositions(address, k) == Range(k)
  {
    if k > 0 {
      ZeroAddressPositions(address, k - 1);
    }
  }

  /** Appends the flips of `address`, the loop
      `for q, bit in enumerate(address): if bit == '0': qc.x(q)`. */
  method AppendZeroFlips(qc: Circuit, address: string)
    requires qc.Valid()
    requires forall q :: 0 <= q < |address| && address[q] == '0' ==> q < qc.numQubits
    modifies qc
    ensures qc.Valid() && qc.gates == old(qc.gates) + ZeroFlips(address)
  {
    for q := 0 to |address|
      invariant qc.Valid() && qc.gates == old(qc.gates) + ZeroFlipsUpTo(address, q)
    {
      if address[q] == '0' {
        assert Qubits(X(q)) == [q];
        qc.Append(X(q));
      }
    }
  }
}
