# Quantum image encoders as gate-list builders

This project models the circuit-building core of a small quantum image-processing
repository in Dafny. Each encoder takes a small normalised image and appends gates to a
`QuantumCircuit`. The model keeps those circuits as append-only gate lists (`Circuits.Circuit`)
and proves what each encoder emits and what the emitted gates do.

- **FRQI** (`simulate.py`). Hadamards on the position qubits. Then, per pixel, X on the
  zero bits of the pixel's address, a rotation by `intensity * pi` controlled by every
  position qubit, and the same X again.
- **Simplified FRQI** (`frqi_encoding.py`). One `cry(2 * angle, idx % n, n)` per pixel,
  with no address conditioning.
- **NEQR** (`simulate.py`). Intensities are scaled by 3 and truncated to integers. Each set
  bit becomes a multi-controlled X onto an intensity qubit, inside the same address
  sandwich.
- **QRAM, MCQI and amplitude encoding** (`metrics_evaluation.py`, the copies in
  `simulate_qram_mcqi_amplitude.py`, and the demo scripts `qram.py`, `mcqi.py`,
  `amplitude_encoding.py`).
- **Geometric operations on a circuit** (`quantum_image_operations.py`): flips, a
  reflection and a filter.
- **Classical array models of `generate_outputs.py`**: the rotate/flip transform, the
  lossless "qram" copy, the zero-guarded "amplitude" normalisation, and the model table.
- **The HA-QIR hybrid demo** (`ha_qir_demo.py`): threshold split, per-part normalisation,
  concatenation and masked reconstruction.

How the model is organised:

- **Gates and angles.** Gates are a datatype. Angles are kept symbolic
  (`PiTimes(v)`, `TwoPiTimes(v)`, `TwoArcsin(v)`), so no floating-point trigonometry enters
  the model.
- **Basis-state semantics.** The classical gates (X, multi-controlled X, SWAP, barrier)
  get a semantics on basis states (`Classical.Run`). With it, the address sandwich,
  the NEQR writes, the flips and the reflection are proved to do what the source's
  comments say.
- **Angle round trips.** The rotation-bearing encoders have a round trip: reading the
  rotation angles back off the gate list gives one angle per pixel, in pixel order.
- **NEQR truncates.** `(image.flatten() * 3).astype(int)` cuts toward zero; it does not
  round (`Simulate.Trunc`, `Simulate.NeqrTruncates`).
- **QRAM addressing.** QRAM's rotation is not controlled by the address qubits, as in the
  source. QRAM flips the address bits that are '1', where FRQI and NEQR flip those
  that are '0'.

## Model

| member | source | states |
|---|---|---|
| Binary.FloorLog2 | simulate.py:41 | `int(np.log2(n))` for n >= 1: the exponent k with 2^k <= n < 2^(k+1) |
| Binary.FormatBinaryBits | simulate.py:52 | `format(i, '0wb')` for i < 2^w has exactly w characters, and character q is '1' exactly when bit w-1-q of i is set, '0' exactly when it is clear |
| Binary.FormatBinaryWidth | simulate.py:52 | a value below 2^w is written in exactly w characters |
| Binary.FormatBinaryWidens | metrics_evaluation.py:40 | a value of at least 2^w is written in more than w characters (the zero-padding width is only a minimum) |
| Binary.BitSetIsShift | simulate.py:89 | the bit test used throughout is `(v >> b) & 1`, i.e. (v / 2^b) mod 2 == 1 |
| Binary.ZeroNoBits | simulate.py:52 | index 0 has no bit set |
| Binary.BitsDetermine | simulate.py:52 | two indices below 2^n with the same n low bits are equal |
| Circuits.Range | simulate.py:58 | `list(range(n))`: n entries, entry i is i |
| Circuits.Flips | quantum_image_operations.py:11-12 | one X per listed qubit, in list order |
| Circuits.HadamardLayer | simulate.py:45-46 | `for i in range(n): qc.h(i)`: n gates, gate i is H on qubit i |
| Circuits.Circuit.constructor | simulate.py:42 | a fresh circuit of n qubits has no gates |
| Circuits.Circuit.Append | simulate.py:56 | appending an admissible gate (qubit indices in range, distinct, unit initialisation vector) adds exactly that gate at the end and keeps every gate admissible |
| Circuits.Circuit.AppendHadamardLayer | simulate.py:45-46 | appends the Hadamard layer and nothing else |
| Circuits.AllControlsAdmissible | simulate.py:58 | a rotation or X controlled by qubits 0..n-1 onto qubit t >= n is admissible on any circuit wider than t |
| Circuits.FlipsAppend | quantum_image_operations.py:11-12 | flipping a concatenated list is flipping each part in turn |
| Circuits.FlipsMultiset | quantum_image_operations.py:11-12 | X(q) occurs among the flips of a list exactly as often as q occurs in the list |
| Circuits.RotationsAppend | simulate.py:50-63 | the rotation angles of a concatenation are those of the parts, in order |
| Circuits.NoRotations | simulate.py:45-46 | a list of H, X, Z, multi-controlled X, SWAP, barrier or initialisation gates has no rotation angle |
| Circuits.GateCount | metrics_evaluation.py:96 | `qc.size()`: counts at most the gates present |
| Circuits.GateCountAppend | metrics_evaluation.py:96 | gate counts add over concatenation |
| Circuits.NoBarrierCount | metrics_evaluation.py:96 | without barriers, `size()` is the list length |
| Classical.RunSingle | quantum_image_operations.py:31 | running one classical gate is one step of its basis-state action |
| Classical.RunAppend | quantum_image_operations.py:58-62 | running a concatenation runs the parts in order |
| Classical.FlipsRunnable | quantum_image_operations.py:11-12 | flips on qubits in range can be run |
| Classical.FlipsUnfold | quantum_image_operations.py:11-12 | running flips is flipping the first qubit, then the rest |
| Classical.FlipsEffect | quantum_image_operations.py:11-12 | after a list of flips, qubit q is complemented exactly when it occurs an odd number of times in the list |
| Classical.FlipsTwice | quantum_image_operations.py:11-12 | the same flips twice restore every basis state |
| Classical.FlipsPermutation | quantum_image_operations.py:21-22 | flips in any order (same multiset of qubits) have the same effect |
| Images.FlattenLength | simulate.py:48 | `image.flatten()` of a rows x cols grid has rows * cols entries |
| Images.FlattenAt | simulate.py:48 | entry (i, j) is at flattened position i * cols + j (row-major) |
| Numerics.SumSq | metrics_evaluation.py:65 | the squared norm is never negative |
| Numerics.SumSqAppend | ha_qir_demo.py:51 | squared norms add over concatenation |
| Numerics.SumSqZero | metrics_evaluation.py:65 | the squared norm is 0 exactly when every entry is 0 |
| Numerics.NormZeroIffAllZero | generate_outputs.py:28-29 | `np.linalg.norm(v) == 0` exactly when v is all zeros |
| Numerics.ScaleSumSq | metrics_evaluation.py:65 | dividing by n divides the squared norm by n^2 |
| Numerics.ScaleByNormIsUnit | metrics_evaluation.py:65 | `v / np.linalg.norm(v)` for a nonzero v has squared entries summing to 1 |
| Numerics.NormaliseMeaning | ha_qir_demo.py:34 | `pixels / norm`: entrywise quotients of unit norm when v is nonzero; NaN everywhere (0/0) when v is all zeros |
| Numerics.Scale | metrics_evaluation.py:65 | division by a nonzero scalar keeps the length |
| AddressConditioning.ZeroFlipsArePositionFlips | simulate.py:54-56 | the loop over the address's characters emits exactly the flips of the positions holding '0', in order |
| AddressConditioning.ZeroPositionsSpec | simulate.py:54-56 | the zero positions are increasing, each below the address length, and q is among them exactly when character q is '0'; there are as many as '0' characters |
| AddressConditioning.ZeroPositionsCount | simulate.py:54-56 | each position occurs once among the zero positions when its character is '0', otherwise never |
| AddressConditioning.ZeroFlipsShape | simulate.py:54-56 | the flips number the '0' characters and each is an X on a position holding '0' |
| AddressConditioning.ZeroFlipsEffect | simulate.py:54-56 | on a basis state the flips complement exactly the qubits whose address character is '0' |
| AddressConditioning.AddressSelects | simulate.py:52-58 | after pixel idx's flips, all position qubits hold 1 exactly when the state spelled idx, and the other qubits are untouched |
| AddressConditioning.AllSetRange | simulate.py:58 | every control in `list(range(n))` is set exactly when qubits 0..n-1 all hold 1 |
| AddressConditioning.SpellsIff | simulate.py:52-58 | the post-flip state is all ones on positions exactly when the state spelled idx |
| AddressConditioning.SpellsUnique | simulate.py:52 | a basis state spells at most one index below 2^n |
| AddressConditioning.SpellsExactly | simulate.py:52 | a state spelling j spells i exactly when i == j |
| AddressConditioning.SandwichRestores | simulate.py:54-62 | the address flips before and after a block cancel: together they restore every basis state |
| AddressConditioning.ZeroAddressFlipsAll | simulate.py:52-56 | pixel 0's address is all zeros, so its flips are X on every position qubit |
| AddressConditioning.ZeroAddressPositions | simulate.py:54-56 | an all-'0' address has every position as a zero position |
| AddressConditioning.AppendZeroFlips | simulate.py:54-56 | the loop appends exactly the flips of the address's '0' positions |
| Simulate.PositionQubits | simulate.py:20-41 | a 2 x 2 image has `int(log2(4)) == 2` position qubits |
| Simulate.FrqiCircuit | simulate.py:39-64 | `frqi_circuit(image)` on a 2 x 2 image: 3 qubits, the Hadamard layer and then one FRQI block per pixel in row-major order |
| Simulate.AppendFrqiBlocks | simulate.py:50-63 | the pixel loop appends exactly the blocks of every pixel, in order |
| Simulate.AppendFrqiBlock | simulate.py:51-62 | one iteration appends the zero-bit flips, the rotation by `intensity * pi` controlled by all position qubits, the same flips |
| Simulate.FrqiRoundTrip | simulate.py:39-64 | reading the rotations back gives `intensity * pi` for each pixel, in pixel order: no pixel lost or reordered |
| Simulate.FrqiBlockRotations | simulate.py:51-62 | each block holds exactly one rotation, by its own pixel's angle |
| Simulate.FrqiBlocksRotations | simulate.py:50-63 | the first k blocks hold the angles of the first k pixels |
| Simulate.FrqiAngles | simulate.py:51 | one angle per pixel |
| Simulate.FrqiBlockSize | simulate.py:52-62 | a block has one rotation and two X per '0' address character |
| Simulate.FrqiTwoByTwo | simulate.py:39-64 | on a 2 x 2 image the circuit has 3 qubits and 14 gates (2 H, 8 X, 4 rotations), the model's own gate count (no barriers), with `mcry` one gate |
| Simulate.FrqiFourBlocks | simulate.py:50-63 | the four pixel blocks have 12 gates together |
| Simulate.AddressZeroCounts | simulate.py:52 | the addresses 00, 01, 10, 11 have 2, 1, 1 and 0 zero characters |
| Simulate.FrqiBlocksNoBarrier | simulate.py:50-63 | the blocks contain no barrier |
| Simulate.Trunc | simulate.py:79 | `astype(int)` truncates toward zero: the result is within 1 of x on the side of 0 |
| Simulate.Intensities | simulate.py:79 | one integer intensity per pixel |
| Simulate.IntensityBounds | simulate.py:79 | an intensity in [0, 1] becomes an integer in 0..3 |
| Simulate.NeqrTruncates | simulate.py:79 | 0.5 maps to 1 and 0.9 to 2: truncation, not rounding |
| Simulate.IntensityWritesShape | simulate.py:88-90 | the bit loop emits one multi-controlled X per set bit of val among bits 0 and 1, each onto an intensity qubit, and no X or barrier |
| Simulate.NeqrBlockSize | simulate.py:81-94 | a block has 2 X per '0' address character plus one MCX per set bit of val; the address sandwich is emitted even when val is 0 |
| Simulate.NeqrBlockEvenFlips | simulate.py:81-94 | in one block, position qubit q gets two X when its address character is '0' and none otherwise; no other qubit gets an X |
| Simulate.NeqrBlocksNoBarrier | simulate.py:81-94 | the NEQR blocks contain no barrier |
| Simulate.NeqrFourBlocks | simulate.py:81-94 | the four blocks of a 2 x 2 image have 8 X plus one MCX per set intensity bit |
| Simulate.NeqrTwoByTwo | simulate.py:70-96 | on a 2 x 2 image NEQR uses 4 qubits and 10 gates plus one per set intensity bit (2 H, 8 X, the writes), all counted by `size()` |
| Simulate.NeqrCircuit | simulate.py:69-96 | `neqr_circuit(image)` on a 2 x 2 image: 4 qubits, the Hadamard layer, then one NEQR block per pixel |
| Simulate.AppendNeqrBlocks | simulate.py:81-94 | the pixel loop appends exactly every pixel's block, in order |
| Simulate.AppendNeqrBlock | simulate.py:82-94 | one iteration appends the zero-bit flips, the intensity writes, the same flips |
| Simulate.AppendIntensityWrites | simulate.py:88-90 | the bit loop appends a multi-controlled X onto qubit n + b for each set bit b of val, b = 0, 1 |
| Simulate.WriteRunnable | simulate.py:90 | the multi-controlled X onto an intensity qubit is runnable |
| Simulate.WriteEffect | simulate.py:90 | it complements its target exactly when all position qubits hold 1 |
| Simulate.IntensityWritesEffect | simulate.py:88-90 | the writes complement intensity qubit n + b exactly when every position qubit is 1 and bit b of val is set; nothing else changes |
| Simulate.NeqrBlockEffect | simulate.py:82-94 | a pixel's block XORs the bits of its intensity into the intensity qubits exactly when the position qubits spell its index, and leaves every other qubit as it was |
| Simulate.NeqrBlocksEffect | simulate.py:81-94 | on a state spelling pixel j, all blocks together XOR exactly pixel j's bits into the intensity qubits (only block j fires) and change nothing else; an address past the last pixel gets nothing |
| Simulate.NeqrBlocksLoad | simulate.py:81-94 | from zeroed intensity qubits, the blocks keep the position qubits and load the two low bits of pixel j's intensity |
| Simulate.NeqrEncodes | simulate.py:69-96 | NEQR's encoding theorem on basis states: afterwards the position qubits still spell j, and the intensity qubits read back `int(3 * intensity_j)` for intensities in [0, 1] |
| Simulate.IntensityDecodes | simulate.py:79-90 | the two written bits of an intensity in [0, 1] read back as the whole integer intensity |
| Simulate.TwoBits | simulate.py:88-89 | the integers 0..3 are determined by their bits 0 and 1 |
| FrqiEncoding.FrqiCircuit | frqi_encoding.py:5-19 | an empty image raises OverflowError, a one-pixel image ZeroDivisionError (n = 0); otherwise n + 1 qubits, n = int(log2(size)), n Hadamards then one controlled rotation per pixel |
| FrqiEncoding.AppendPixelRotations | frqi_encoding.py:14-17 | the pixel loop appends exactly one rotation per pixel, in flattened order |
| FrqiEncoding.PositionCount | frqi_encoding.py:6 | with at least two pixels there is at least one position qubit and 2^n <= size < 2^(n+1) |
| FrqiEncoding.PixelRotationsAt | frqi_encoding.py:15-17 | rotation i belongs to pixel i: controlled by qubit i % n, target n, angle `2 * (pixel * pi)` |
| FrqiEncoding.EncodingLayout | frqi_encoding.py:5-19 | the whole list: n + size gates, H(i) first for each position qubit, then pixel i's rotation at position n + i |
| FrqiEncoding.SharedControl | frqi_encoding.py:17 | pixels idx and idx + n are rotated under the same single control qubit (no address conditioning) |
| FrqiEncoding.EncodingGateCount | frqi_encoding.py:5-19 | `size()` is n + number of pixels |
| FrqiEncoding.EncodingAngles | frqi_encoding.py:16-17 | one angle per pixel |
| FrqiEncoding.PixelRotationsAngles | frqi_encoding.py:15-17 | the first k rotations hold the first k pixels' angles |
| FrqiEncoding.EncodingRoundTrip | frqi_encoding.py:5-19 | reading the rotations back gives `2 * (pixel * pi)` for every pixel, in flattened order |
| MetricsEvaluation.BuildQram | metrics_evaluation.py:35-47 | `build_qram(image)`: 3 qubits and one block per pixel in flattened order, whatever the image size |
| MetricsEvaluation.AppendQramBlocks | metrics_evaluation.py:39-46 | the pixel loop appends exactly every pixel's block, in order |
| MetricsEvaluation.AppendQramBlock | metrics_evaluation.py:40-45 | one iteration appends the address flips, `ry(2 * arcsin(v), 2)`, the same flips |
| MetricsEvaluation.AppendAddressFlips | metrics_evaluation.py:40-42 | X(0) when character 0 of `format(i, "02b")` is '1', then X(1) when character 1 is |
| MetricsEvaluation.QramAddressIsIndex | metrics_evaluation.py:40-42 | for pixels 0..3, qubit 0 is flipped when bit 1 of i is set and qubit 1 when bit 0 is |
| MetricsEvaluation.QramAddressAliases | metrics_evaluation.py:40-42 | past four pixels addresses repeat: pixel 4 ("100") is flipped like pixel 2 |
| MetricsEvaluation.QramRoles | metrics_evaluation.py:39-46 | every gate is either the rotation of data qubit 2 or an X on address qubit 0 or 1 |
| MetricsEvaluation.QramAddressShape | metrics_evaluation.py:40-42 | an address flips nothing, qubit 0, qubit 1, or qubit 0 then qubit 1 |
| MetricsEvaluation.QramBlockEvenFlips | metrics_evaluation.py:41-45 | each address qubit gets two X or none in a block |
| MetricsEvaluation.QramFlipsOnce | metrics_evaluation.py:41-42 | no address flips a qubit twice |
| MetricsEvaluation.SandwichCount | metrics_evaluation.py:41-45 | a gate other than the rotation occurs twice as often in the block as in the flips |
| MetricsEvaluation.QramFlipsRestore | metrics_evaluation.py:41-45 | the flips after the rotation undo those before it on every basis state |
| MetricsEvaluation.QramAngles | metrics_evaluation.py:43 | one angle per pixel |
| MetricsEvaluation.QramBlockRotations | metrics_evaluation.py:40-45 | each block holds exactly its own pixel's rotation |
| MetricsEvaluation.QramGatesRotations | metrics_evaluation.py:39-46 | the first k blocks hold the first k pixels' angles |
| MetricsEvaluation.QramRoundTrip | metrics_evaluation.py:35-47 | reading the rotations back gives `2 * arcsin(v)` for every pixel, in order |
| MetricsEvaluation.QramFirstAddresses | metrics_evaluation.py:40-42 | pixels 0..3 flip nothing, qubit 1, qubit 0, and qubits 0 and 1 |
| MetricsEvaluation.QramFirstBlocks | metrics_evaluation.py:40-45 | the four blocks written out gate by gate |
| MetricsEvaluation.QramGatesFour | metrics_evaluation.py:39-46 | four pixels give blocks 0, 1, 2, 3 in order |
| MetricsEvaluation.QramFourPixels | metrics_evaluation.py:35-47 | the exact gate list for a 2 x 2 image |
| MetricsEvaluation.QramFourPixelsCount | metrics_evaluation.py:35-47 | a 2 x 2 image gives 12 gates by `size()`, 4 of them rotations |
| MetricsEvaluation.BuildMcqi | metrics_evaluation.py:52-58 | an image without pixel [0, 0] raises IndexError; otherwise 3 qubits and the three channel rotations of pixel [0, 0] |
| MetricsEvaluation.AppendMcqiRotations | metrics_evaluation.py:55-57 | appends the red, green and blue rotations in that order |
| MetricsEvaluation.McqiLayout | metrics_evaluation.py:52-58 | 3 gates, all counted; gate i is an RY on qubit i (distinct qubits); the angles are `2 * arcsin` of r, g, b in order |
| MetricsEvaluation.BuildAmplitude | metrics_evaluation.py:63-68 | the initialisation is refused exactly when the image does not have 4 entries or is all zeros (0/0 gives NaN): QiskitError for a length that is not a positive power of two or a vector without unit norm, CircuitError for a legal state of another size than 4 on qubits [0, 1]; otherwise 2 qubits and one initialisation with the image divided by its norm |
| MetricsEvaluation.AmplitudeAdmissible | metrics_evaluation.py:64-67 | the normalised 4-vector is an admissible initialisation of qubits [0, 1], entry i being `vec[i] / norm` |
| SimulateQramMcqiAmplitude.QramEncode | simulate_qram_mcqi_amplitude.py:40-57 | the same circuit as `build_qram` |
| SimulateQramMcqiAmplitude.McqiEncode | simulate_qram_mcqi_amplitude.py:66-72 | the same outcomes as `build_mcqi` |
| SimulateQramMcqiAmplitude.AmplitudeEncode | simulate_qram_mcqi_amplitude.py:81-86 | the same outcomes as `build_amplitude` |
| SimulateQramMcqiAmplitude.QramEncodeShape | simulate_qram_mcqi_amplitude.py:40-57 | for a 2 x 2 image: 12 gates, the pixel angles in order, and each address qubit flipped an even number of times per block |
| QramScript.Encode | qram.py:6-27 | the demo circuit for [0.2, 0.5, 0.7, 0.9], block by block, 12 gates |
| QramScript.EncodedAngles | qram.py:11-21 | its rotations are `2 * arcsin` of 0.2, 0.5, 0.7, 0.9 in order |
| McqiScript.Encode | mcqi.py:6-14 | the demo circuit for (0.6, 0.3, 0.8): RY on qubits 0, 1, 2 |
| McqiScript.EncodedAngles | mcqi.py:12-14 | 3 gates, angles in channel order |
| AmplitudeScript.Encode | amplitude_encoding.py:6-15 | the demo circuit: one initialisation of qubits [0, 1] with the image divided by its (nonzero) norm, 1 gate |
| AmplitudeScript.NotZero | amplitude_encoding.py:6-9 | the demo image's norm is not zero and it has 4 entries |
| ImageOperations.Reverse | quantum_image_operations.py:21 | `reversed(qs)`: entry i is entry len-1-i |
| ImageOperations.HorizontalFlip | quantum_image_operations.py:7-13 | appends one X per listed qubit and returns the same circuit |
| ImageOperations.VerticalFlip | quantum_image_operations.py:16-23 | appends a barrier and the X gates in reversed list order; returns the same circuit |
| ImageOperations.Reflection | quantum_image_operations.py:26-32 | appends a barrier and a SWAP of two distinct qubits; returns the same circuit |
| ImageOperations.Filter | quantum_image_operations.py:35-43 | appends a barrier and H, Z, H on the target; returns the same circuit |
| ImageOperations.ApplyOperations | quantum_image_operations.py:48-62 | `apply_operations()` builds exactly the 14-gate list |
| ImageOperations.ApplyToExample | quantum_image_operations.py:56-62 | the four operations on positions [0, 1], qubits 0 and 1, and qubit 2 append the last 11 gates of that list |
| ImageOperations.OperationsTail | quantum_image_operations.py:56-62 | the list after the Hadamards is the two flips, the reflection and the filter |
| ImageOperations.HadamardsOfThree | quantum_image_operations.py:53 | `qc.h([0, 1, 2])` is H on 0, 1, 2 |
| ImageOperations.ReverseOfPair | quantum_image_operations.py:21-22 | the vertical flip of [0, 1] is X(1), X(0) |
| ImageOperations.OperationsCount | quantum_image_operations.py:48-62 | 14 gates, of which `size()` counts the 11 that are not barriers |
| ImageOperations.HorizontalFlipEffect | quantum_image_operations.py:7-13 | with distinct positions, exactly the listed qubits are complemented |
| ImageOperations.HorizontalFlipTwice | quantum_image_operations.py:7-13 | the horizontal flip is an involution |
| ImageOperations.ReverseMultiset | quantum_image_operations.py:21 | reversing keeps every qubit's multiplicity |
| ImageOperations.VerticalFlipIsHorizontal | quantum_image_operations.py:16-23 | on basis states the vertical flip acts exactly like the horizontal one (the reversal and the barrier change nothing) |
| ImageOperations.ReflectionEffect | quantum_image_operations.py:26-32 | the reflection exchanges qubits q1 and q2 and leaves the rest |
| ImageOperations.ReflectionStep | quantum_image_operations.py:30-31 | its basis-state action is the swap of the two entries |
| ImageOperations.ReflectionTwice | quantum_image_operations.py:26-32 | the reflection is an involution |
| GenerateOutputs.Rot90 | generate_outputs.py:42 | `np.rot90` turns a rows x cols array into a cols x rows one |
| GenerateOutputs.FlipLR | generate_outputs.py:44 | `np.fliplr` keeps the shape |
| GenerateOutputs.GeometricTransform | generate_outputs.py:36-45 | "rotate" turns, "flip" keeps the shape, any other tag returns the image itself |
| GenerateOutputs.DefaultIsRotate | generate_outputs.py:36-42 | without a tag the transform is the quarter turn: entry (i, j) is image[j][cols-1-i] |
| GenerateOutputs.FlipTwice | generate_outputs.py:44 | mirroring twice gives the array back |
| GenerateOutputs.HalfTurn | generate_outputs.py:42 | two quarter turns send (i, j) to (rows-1-i, cols-1-j) |
| GenerateOutputs.RotateFour | generate_outputs.py:42 | four quarter turns give the array back |
| GenerateOutputs.QramModel | generate_outputs.py:18-20 | `img.copy()` is lossless: every entry is kept |
| GenerateOutputs.ScaleGrid | generate_outputs.py:29 | `img / norm` divides every row entrywise |
| GenerateOutputs.AmplitudeModel | generate_outputs.py:26-29 | the shape is kept, and an all-zero image is returned unchanged |
| GenerateOutputs.ScaleAppend | generate_outputs.py:29 | division distributes over concatenation |
| GenerateOutputs.FlattenScale | generate_outputs.py:29 | dividing the grid then flattening is flattening then dividing |
| GenerateOutputs.AmplitudeModelUnit | generate_outputs.py:26-29 | a nonzero image comes out with unit norm, entry (i, j) being img[i][j] / norm |
| GenerateOutputs.ModelsTable | generate_outputs.py:48-54 | the table has exactly the five names, each bound to a distinct model |
| HaQir.Select | ha_qir_demo.py:22-26 | a boolean-mask selection is no longer than the image |
| HaQir.Partition | ha_qir_demo.py:23-26 | region of interest and background together hold every pixel exactly as often as the image, and their sizes add up to the pixel count |
| HaQir.PartitionMultiset | ha_qir_demo.py:23-26 | the two parts' multisets add up to the image's |
| HaQir.PartitionStep | ha_qir_demo.py:23-26 | the last pixel goes to exactly one part |
| HaQir.SelectSide | ha_qir_demo.py:23-26 | every selected pixel is on the selected side of the threshold, and every pixel on that side is selected |
| HaQir.SelectPrefix | ha_qir_demo.py:25-26 | the selection of a prefix is a prefix of the selection (order is kept) |
| HaQir.SelectStep | ha_qir_demo.py:25-26 | one more pixel extends the selection by itself or by nothing |
| HaQir.SelectNext | ha_qir_demo.py:64-65 | the next pixel on the selected side is the next entry of the selection |
| HaQir.EncodePart | ha_qir_demo.py:31-44 | the encoded part has one entry per pixel |
| HaQir.EncodePartMeaning | ha_qir_demo.py:31-44 | an empty part encodes to an empty vector; a nonzero part to the part divided by its norm, of unit norm; an all-zero part to NaN entries |
| HaQir.Hybrid | ha_qir_demo.py:51 | the concatenation's length is the sum of the parts' |
| HaQir.HybridLength | ha_qir_demo.py:13-59 | for the 8 x 8 demo image the hybrid state has 64 entries, one per pixel |
| HaQir.Reconstruct | ha_qir_demo.py:63-65 | writing the two parts back through the mask rebuilds the image exactly |
| HaQir.WriteMasked | ha_qir_demo.py:64-65 | one masked write: the selected positions get the selected pixels in order, the others keep their value |

## Left out

- Image loading, resizing, grayscale conversion and the `/ 255.0` normalisation (cv2 I/O). Encoders take the already normalised image. The channel order in which cv2 loads a colour image (BGR) is not modelled; MCQI takes a pixel as (r, g, b).
- Simulation (`AerSimulator().run`), `depth()`, drawing and saving circuits, timing, printing: I/O or library internals with no bearing on the gate lists.
- What qiskit decomposes `mcry`, `mcx`, `cry` and `initialize` into. Each is one gate of the model's list. qiskit may expand `mcry` in place when it is appended (for two controls and no ancilla it appends ry and mcx gates), so the model's FRQI gate count in `simulate.py` is the count of its own list, not qiskit's `size()` of the built circuit.
- The floating-point model functions `frqi` (square root), `neqr` (rounding to 15 levels) and `mcqi` (power 1.2) of `generate_outputs.py`: real square roots and powers have no exact counterpart in the model. Only their names appear in `GenerateOutputs.MODELS`.
- The arcsine and pi of the angles are kept symbolic, so no trigonometric fact is proved.
- The norm `np.linalg.norm` is a parameter constrained by `IsNorm` (norm >= 0 and norm^2 is the sum of squares), because the model has no real square root.
- Intensities, norms and thresholds are exact reals, where the source computes in float64: `Simulate.Trunc(3.0 * v)`, `Numerics.Scale` and the `>` of `HaQir.Select` are exact, whereas `astype(int)` of a rounded float product can land one below the exact truncation. Rounding error is not modelled.
- MetricsEvaluation.BuildAmplitude, SimulateQramMcqiAmplitude.AmplitudeEncode: an empty image is labelled QiskitError like any other length that is not a positive power of two; the exact exception the library raises for an empty vector is not modelled.
- qiskit's tolerance when checking that an initialisation vector has unit norm is modelled as an exact check.
- Simulate.FrqiCircuit, Simulate.NeqrCircuit: require a 2 x 2 image. The position count is computed from `IMAGE_SIZE` rather than from the image, and the only call site (simulate.py:107-124) passes the 2 x 2 output of `load_and_preprocess`; other image sizes are not modelled.
- Circuits.Circuit.Append: an out-of-range or repeated qubit index is a precondition rather than a modelled `CircuitError`. The source's own callers never pass one.
- HaQir: the image is taken in row-major flattened form, the order in which boolean-mask indexing visits it. The `N x N` resize and the plotting are left out.
- ImageOperations.Reflection: requires q1 != q2 (qiskit refuses a SWAP of a qubit with itself); the error path is not modelled.
- The NEQR and FRQI basis-state theorems speak of classical basis states only: amplitudes, superposition and the rotations' effect on the state vector are not modelled.
