# Kopis: a verified model

Kopis is a lattice key-encapsulation mechanism in the style of Saber. Its ring arithmetic is lazy by
design: 16-bit lanes wrap, residues stay centred instead of canonical, Montgomery factors are left to
cancel later, and bits above a value's width are carried along and masked at the end. Each such part
has a simple description it has to agree with on every input. This project models the code with its
machine arithmetic and proves those agreements.

## What is modelled

- **Ring multiplication.** The portable two-prime transform in place on arrays, level by level with its
  table counter, its Barrett schedule, the unreduced accumulator, the signed Montgomery reduction and
  the Garner lift. The result equals schoolbook multiplication in Z[X]/(X^256+1) modulo 2^16. The ψ
  tables are literals in `Tables`; nothing about them is trusted, `TableFacts` and `Params` derive that
  entry k is ψ^brv8(k).
- **The NEON and AVX2 transforms.** Registers are fixed-length sequences, instructions are functions of
  lanes taken from the line of documentation above each wrapper. Loop interchange, transposes, per-lane
  tables and the different schedules are shown to compute the same levels in the same order.
- **Encryption and encapsulation.** Methods over a `Backend` parameter, each proved against a
  description in terms of schoolbook products, so that keys made by one backend work on another. On
  those descriptions: the exact condition under which decryption succeeds, the noise identity, the
  equivalence of cached and re-parsed keys, and the behaviour of the re-encryption check.
- **Bits and bytes.** Packing and unpacking as a change of base of one number; the sliding-window,
  unrolled and shuffle-plan routines; the binomial sampler; TurboSHAKE on one sponge or several at
  once, with the fused round proved equal to the round of FIPS 202 section 3.3, and the batched
  samplers.

## How it is laid out

`Words`, `Congruence`, `Bits` and `Positional` hold the integers of the source and the little number
theory the rest uses. `Tables`, `TableFacts`, `Params`, `Lane`, `Levels`, `Polynomial`, `Transform` and
`Schedules` are the transform as functions and its theory; `NttCrt` is the portable code, `NeonLanes`
and `NeonNtt`, `Avx2Lanes` and `Avx2Ntt` the vector code; `RingMul`, `Schoolbook` and `NttArith` put
them together. `Ser`, `SerFast`, `Fields`, `VecSer` and `PlainArith` are serialization; `Cbd`, `VecCbd`,
`Sample` and `VecSample` sampling; `Keccak`, `TurboShake`, `SpongeFacts`, `KeccakTables`, `FusedKeccak`,
`VecKeccak` and `Xof` hashing; `Pke`, `PkeCorrect`, `WireFormat`, `Ring`, `Noise` and `Kem` the scheme.

Code that updates blocks, accumulators, buffers or sponge states in place is a method on arrays, or a
class for the stateful reader, and its postcondition equates the final contents with a function of the
initial ones; the properties are lemmas about those functions. `Repr(s, x, second, bound)` is the
invariant that carries the lazy arithmetic: lanes `s` are at most `bound` and congruent to the integers
`x` modulo the prime (`second` chooses between 7681 and 10753). `Cong` is congruence stated with a
witness.

`Keccak` is section 3.2 and 3.3 of FIPS 202 bit by bit and `TurboShake` is section 2 of RFC 9861, so
equality with them is equality with the standards. `SpongeFacts` and `WireFormat` then say in bytes and
numbers, with every constant written out, what the sponge does and what keys and ciphertexts hold.
Proofs about the scheme hide both standards: nothing there depends on what the hash computes.

## Where two comments differ

`src/backend/avx2/ntt.rs:30-35` says a run of four forward levels is beyond the general growth bound
and relies on the magnitudes of particular table entries; `src/arithmetic/ntt_crt.rs:36-40` says the
general bound covers four. It does: `Schedules.ForwardBudget` shows four levels fit for both primes and
a fifth does not fit for 10753, so all three schedules use the one bound.

## Model

| member | source | states |
|---|---|---|
| Words.WrapsKeepLowBits | src/arithmetic/ntt_crt.rs:199-204 | every wrapping operation keeps its operand's low 16 or 32 bits, in range or not |
| Lane.MontMulExact | src/arithmetic/ntt_crt.rs:199-204 | a Montgomery product is exactly (a·z − t·q)/2^16 for an i16 t: the halves' subtraction drops nothing |
| Lane.MontMulCorrect | src/arithmetic/ntt_crt.rs:199-204 | the product is a·z·2^-16 modulo the prime, and 2^16 times it is at most the factors' magnitudes multiplied, plus 2^15·q |
| Lane.MontMulCentred | src/arithmetic/ntt_crt.rs:34-44 | with a centred multiplier the result keeps the growth bound b·q/2^17 + q/2, for operands up to b, that the schedules are budgeted with |
| Lane.BarrettCorrect | src/arithmetic/ntt_crt.rs:212-216 | for every i16 the Barrett pass returns the centred representative of the same residue |
| Lane.MontReduceCorrect | src/arithmetic/ntt_crt.rs:381-390 | an accumulator of at most four centred products reduces to a·2^-16 modulo the prime with magnitude at most 7141 |
| Lane.CanonicalCorrect | src/arithmetic/ntt_crt.rs:412-417 | one conditional addition turns any representative smaller than the prime into the canonical one |
| Lane.GarnerDigit | src/arithmetic/ntt_crt.rs:416-417 | the mixed-radix digit t satisfies q1·t ≡ a2 − a1 modulo q2 and is canonical |
| Lane.GarnerCorrect | src/arithmetic/ntt_crt.rs:403-426 | for every X of magnitude up to half of q1·q2 and any representatives of X below the primes, the lifted word is X modulo 2^16 |
| Params.Constants | src/arithmetic/ntt_crt.rs:57-81 | the named constants are what they are used as: q's inverse modulo 2^16, the final scaling that undoes the factor 256 and one Montgomery factor, and the odd product of the primes with its half |
| Params.PowerEntry | src/arithmetic/ntt_crt.rs:83-126 | the table's entries at powers of two: 1 squares to −R², and each is the square of the next, up to ψ itself at 128 |
| Params.RootIsPower | src/arithmetic/ntt_crt.rs:83-126 | table entry k, out of Montgomery form, is ψ to the power brv8(k), for all 255 entries used and both primes |
| Params.Centred | src/arithmetic/ntt_crt.rs:36-40 | every table entry is a centred residue |
| Params.PsiTo256 | src/arithmetic/ntt_crt.rs:432-435 | ψ^256 ≡ −1, so ψ has order 512 and X^256 + 1 splits |
| Params.BrvMirror | src/arithmetic/ntt_crt.rs:250-270 | bit-reversals at mirrored positions of a level add up to 2^w, which is why walking the table downwards inverts |
| Transform.NodeSquare | src/arithmetic/ntt_crt.rs:232-246 | the square of a node's root is the (signed) root of its parent: even children take +, odd children − |
| Transform.MirrorRoots | src/arithmetic/ntt_crt.rs:250-270 | the roots at k and 3·2^l − 1 − k multiply to −1, so the inverse walk's negated entries are inverses |
| Transform.LeafIsOddPower | src/arithmetic/ntt_crt.rs:83-126 | leaf p of the tree is ψ^(2·brv8(p)+1) |
| Transform.EvaluatesStep | src/arithmetic/ntt_crt.rs:232-246 | a forward level keeps the CRT-tree invariant: each block of the next length still evaluates, at every leaf below it, to the input's value there |
| Transform.NttIsEval | src/arithmetic/ntt_crt.rs:273-288 | entry p of eight forward levels is the input polynomial's value at ψ^(2·brv8(p)+1), modulo the prime |
| Transform.NttOfProduct | src/arithmetic/ntt_arith.rs:22-30 | the pointwise product of two transforms is the transform of the product in Z[X]/(X^256+1) |
| Transform.InverseOfNtt | src/arithmetic/ntt_crt.rs:250-270 | eight inverse levels of c times a transform give 256·c times the polynomial |
| Polynomial.EvalProduct | src/arithmetic/ntt_arith.rs:22-30 | at any x with x^256 ≡ −1, evaluation turns the negacyclic product into a product of numbers |
| Levels.LevelCorrect | src/arithmetic/ntt_crt.rs:232-270 | a machine level, wrapping i16 arithmetic and all, is the integer level modulo the prime whenever the entry bound fits, and its lanes stay within the grown bound |
| Levels.FlyCorrect | src/arithmetic/ntt_crt.rs:232-270 | one butterfly within the bound: both outputs are the integer butterfly's residues and nothing wraps |
| Levels.BarrettBlockCorrect | src/arithmetic/ntt_crt.rs:219-225 | a Barrett pass changes no residue and re-centres every lane |
| Schedules.ForwardBudget | src/backend/neon/ntt.rs:850-890 | from a centred start four forward levels fit an i16 lane for both primes, and a fifth would not fit for q2 |
| Schedules.ForwardBounds | src/backend/neon/ntt.rs:864-870 | the worst lane after one, two, three and four levels, in numbers: 31 666 of 32 767 after four for q2 |
| Schedules.InverseBudget | src/arithmetic/ntt_crt.rs:455-478 | from lanes up to 8191, or from a centred block, two inverse levels fit a lane |
| Schedules.PortableNttCorrect | src/arithmetic/ntt_crt.rs:273-288 | the 3, 3, 2 schedule computes the transform, ends centred and never wraps |
| Schedules.NeonNttCorrect | src/backend/neon/ntt.rs:336-353 | so does the 4, 4 schedule |
| Schedules.Avx2NttCorrect | src/backend/avx2/ntt.rs:28-36 | so does the 3, 4, 1 schedule, on the general growth bound alone |
| Schedules.InvLevelsCorrect | src/arithmetic/ntt_crt.rs:291-314 | the inverse, with a Barrett pass every second level and from any lanes up to 8191, is the integer inverse and never wraps |
| Schedules.InvBlockCorrect | src/arithmetic/ntt_crt.rs:291-314 | from a block that stands for c times a transform, the scaled inverse is 2^16·c times the polynomial, in representatives smaller than the prime |
| Schedules.InvBlockRange | src/arithmetic/ntt_crt.rs:311-314 | whatever goes in, what comes out of the scaling is smaller than the prime in magnitude |
| NttCrt.BarrettBlock | src/arithmetic/ntt_crt.rs:219-225 | the in-place pass is the Barrett reduction of every lane |
| NttCrt.CtLevel | src/arithmetic/ntt_crt.rs:232-246 | the nested loops with the counter k perform exactly one forward level, reading entries 2^l .. 2^(l+1) − 1 of the table in order, and leave k at the level's last entry |
| NttCrt.GsLevel | src/arithmetic/ntt_crt.rs:250-270 | the same for an inverse level with k counting down |
| NttCrt.NttBlock | src/arithmetic/ntt_crt.rs:273-288 | the block ends as eight levels with Barrett passes after the third, sixth and eighth |
| NttCrt.InvNttBlock | src/arithmetic/ntt_crt.rs:291-314 | the block ends as eight inverse levels, a Barrett pass every second one, and the final scaling |
| NttCrt.FromRingElem | src/arithmetic/ntt_crt.rs:323-359 | both residue blocks of the element, split and transformed |
| NttCrt.PointwiseMulAcc | src/arithmetic/ntt_crt.rs:366-374 | every lane of the accumulator gains the product of its two factors, as wrapping i32 arithmetic |
| NttCrt.ReduceBlock | src/arithmetic/ntt_crt.rs:381-390 | the signed Montgomery reduction of one half of the accumulator |
| NttCrt.ReduceInvNtt | src/arithmetic/ntt_crt.rs:394-427 | reduction, inverse transform and Garner lift, lane by lane |
| RingMul.BackendsAgree | src/backend/avx2/ntt.rs:291-386 | for every centred block and any two backends the forward transforms agree modulo the prime in every entry and are centred |
| RingMul.InverseUndoesForward | src/arithmetic/ntt_crt.rs:250-314 | for every centred block the inverse of any backend's forward transform is 2^16 times the block, in representatives smaller than the prime |
| RingMul.FromElemCorrect | src/arithmetic/ntt_arith.rs:57-101 | every backend's transform of an element, uniform or small, represents the element's signed value |
| RingMul.DotLaneCorrect | src/arithmetic/ntt_arith.rs:119-137 | an accumulated lane is the sum of products' value at that leaf, within n·(q/2)² |
| RingMul.DotPolyBound | src/arithmetic/ntt_arith.rs:10-16 | the integer coefficients of an ℓ-term product are at most ℓ·256·l·m |
| RingMul.ResidueCorrect | src/arithmetic/ntt_crt.rs:381-427 | reduction's 2^-16 cancels the inverse's 2^16: each half yields the product's coefficients modulo its prime |
| RingMul.ReduceInvCorrect | src/arithmetic/ntt_crt.rs:394-427 | an accumulator whose lanes represent c lifts to c modulo 2^16 wherever c is within half of q1·q2 |
| RingMul.PipelineCorrect | src/arithmetic/ntt_arith.rs:8-30 | transform, accumulate, reduce and lift gives the exact product modulo 2^16 for all operands within the bound |
| Schoolbook.DotIsSigned | src/arithmetic/ntt_arith.rs:296-309 | multiplying the u16 words gives the same words as multiplying the signed values they stand for |
| Schoolbook.SchoolbookRingMulAcc | src/arithmetic/ntt_arith.rs:264-277 | the double loop over wrapping words adds the negacyclic product of its operands, coefficient by coefficient |
| Schoolbook.SchoolbookEntry | src/arithmetic/ntt_arith.rs:280-293 | one entry of the schoolbook matrix product is the sum of the negacyclic products |
| NttArith.ParameterSetsAreExact | src/impls.rs:30-35 | each parameter set meets ℓ·256·8191·(μ/2) ≤ half of q1·q2, and the largest left side is 25 162 752 |
| NttArith.TransformMatrix | src/arithmetic/ntt_arith.rs:161-180 | every entry of the matrix is transformed in place of its original, by whichever backend runs |
| NttArith.PointwiseMulAcc | src/arithmetic/ntt_arith.rs:119-137 | the dispatched accumulation gains every lane's product, whichever backend runs |
| NttArith.ReduceInvNtt | src/arithmetic/ntt_arith.rs:141-157 | the dispatched reduction is the same function of the accumulator on every backend |
| NttArith.AccNeverWraps | src/arithmetic/ntt_crt.rs:361-374 | at most four accumulated products never leave an i32: the wrapping sum is the integer sum |
| NttArith.Line | src/arithmetic/ntt_arith.rs:184-218 | the inner accumulation loop computes one entry of the product from two lines of operands |
| NttArith.Mul | src/arithmetic/ntt_arith.rs:184-199 | the loop nest fills entry (i, k) from row i and column k |
| NttArith.MulTranspose | src/arithmetic/ntt_arith.rs:203-218 | the loop nest fills entry (j, k) from columns j and k |
| NttArith.EntryIsSchoolbook | src/arithmetic/ntt_arith.rs:8-20 | for every uniform vector and every secret vector within the exactness bound, transformed by any mixture of backends, the entry equals the schoolbook sum of products modulo 2^16 |
| NttArith.MulIsSchoolbook | src/arithmetic/ntt_arith.rs:184-199 | matrix form: every entry of the transformed product is the schoolbook entry |
| NttArith.MulTransposeIsSchoolbook | src/arithmetic/ntt_arith.rs:203-218 | the same for the transpose product |
| NeonLanes.NoSaturation | src/backend/neon/intrinsics.rs:185-200 | the doubled high product is exact for all operands but one pair, both −2^15 |
| NeonLanes.NeonMontMulIsMontMul | src/backend/neon/ntt.rs:223-245 | away from that pair, halving the difference of two doubled products is exactly the portable Montgomery product |
| NeonLanes.NeonBarrettIsBarrett | src/backend/neon/ntt.rs:247-256 | the doubled product halved and rounded in 16 bits is the portable Barrett pass, for every lane value |
| NeonLanes.Transposes8 | src/backend/neon/ntt.rs:277-315 | three stages of trn1/trn2 at widths 1, 2 and 4 swap row and column of the register group |
| NeonLanes.NeonReduceIsMontReduce | src/backend/neon/ntt.rs:752-779 | the narrowing reduction of two i32 registers is the portable one, lane by lane |
| NeonLanes.NeonGarnerIsGarner | src/backend/neon/ntt.rs:781-838 | the vector Garner lift is the portable one, lane by lane, for representatives below the primes |
| NeonNtt.TableIsFlatWalk | src/backend/neon/ntt.rs:53-96 | the per-lane table entry a register pair uses is the entry the portable counter k would have reached at that coefficient, in both directions and both orientations |
| NeonNtt.TransposeHolds | src/backend/neon/ntt.rs:354-490 | transposing a register group swaps which of its two layouts it holds the block in |
| NeonNtt.GroupLevel | src/backend/neon/ntt.rs:354-490 | a level run inside one register group is that level of the whole block, restricted to the group |
| NeonNtt.BroadcastLevel | src/backend/neon/ntt.rs:354-380 | the two wide levels over whole vectors are levels of the block, with the counter k left where the portable walk has it |
| NeonNtt.NttBlock | src/backend/neon/ntt.rs:354-490 | running six levels per group with two transposes gives, word for word, eight levels with Barrett passes after the fourth and eighth |
| NeonNtt.InvNttBlock | src/backend/neon/ntt.rs:504-639 | the interchanged inverse equals the portable inverse word for word |
| NeonNtt.FromRingElem | src/backend/neon/ntt.rs:656-714 | both residue blocks, split and transformed eight lanes at a time |
| NeonNtt.PointwiseMulAcc | src/backend/neon/ntt.rs:727-750 | widening multiply and add gives the same accumulator as the portable loop |
| NeonNtt.ReduceBlock | src/backend/neon/ntt.rs:761-779 | the vector reduction equals the portable one |
| NeonNtt.ReduceInvNtt | src/backend/neon/ntt.rs:788-838 | the NEON back end of a product equals the portable one word for word |
| Avx2Lanes.InlaneTransposes | src/backend/avx2/ntt.rs:208-241 | the unpack network transposes an 8×8 block inside each 128-bit half |
| Avx2Lanes.ProductsInOrder | src/backend/avx2/ntt.rs:577-605 | low and high halves interleaved give the exact 32-bit products, in an order the permutation repairs |
| Avx2Lanes.PacksOrder | src/backend/avx2/ntt.rs:607-639 | the saturating pack followed by the quarter permutation restores coefficient order and saturates nothing it is given |
| Avx2Lanes.Avx2ReduceIsMontReduce | src/backend/avx2/ntt.rs:607-639 | shift-left, shift-right and pack give the portable reduction, lane by lane |
| Avx2Lanes.Avx2GarnerIsGarner | src/backend/avx2/ntt.rs:641-708 | the vector Garner lift is the portable one, lane by lane, for representatives below the primes |
| Avx2Ntt.T16At | src/backend/avx2/ntt.rs:254-279 | entry (k, m) of the transposed block is entry (m, k) of the block |
| Avx2Ntt.T16Twice | src/backend/avx2/ntt.rs:254-279 | transposing twice restores the block |
| Avx2Ntt.Transpose16 | src/backend/avx2/ntt.rs:254-279 | two in-lane passes through the scratch array and one half-swap pass transpose the block in place |
| Avx2Ntt.TableIsFlatWalk | src/backend/avx2/ntt.rs:57-102 | the per-lane ψ table entry is the one the portable counter would have reached at that coefficient |
| Avx2Ntt.BroadcastLevel | src/backend/avx2/ntt.rs:291-330 | the four wide levels over whole vectors are levels of the block |
| Avx2Ntt.VerticalLevel | src/backend/avx2/ntt.rs:330-386 | a level run down the columns of the transposed block is the level of the block itself, transposed |
| Avx2Ntt.NttBlock | src/backend/avx2/ntt.rs:291-386 | broadcast levels, transpose, vertical levels and transpose back give eight levels with Barrett passes after the third, seventh and eighth |
| Avx2Ntt.InvNttBlock | src/backend/avx2/ntt.rs:396-480 | the transposed inverse equals the portable inverse word for word |
| Avx2Ntt.FromRingElem | src/backend/avx2/ntt.rs:498-564 | both residue blocks, split and transformed sixteen lanes at a time |
| Avx2Ntt.PointwiseMulAcc | src/backend/avx2/ntt.rs:577-605 | the AVX2 accumulation gives the same accumulator as the portable loop |
| Avx2Ntt.ReduceBlock | src/backend/avx2/ntt.rs:616-639 | the vector reduction equals the portable one |
| Avx2Ntt.ReduceInvNtt | src/backend/avx2/ntt.rs:648-708 | the AVX2 back end of a product equals the portable one word for word |
| Ser.UnpackAfterPack | src/ser.rs:45-123 | unpacking what packing wrote gives each value masked to the width |
| Ser.PackAfterUnpack | src/ser.rs:45-123 | packing what unpacking read gives the bytes back |
| Ser.DeserializeGeneric | src/ser.rs:45-76 | the sliding window yields the fields of the little-endian bit string; every read and 32-bit shift is in range |
| Ser.SerializeGeneric | src/ser.rs:96-123 | the sliding window writes the packed bits into every byte of the buffer, and w·n mod 8 bits are left over: none when that is 0 |
| SerFast.Deserialize13 | src/ser.rs:5-23 | the unrolled 13-bit unpacker agrees with the sliding window on all inputs |
| SerFast.Deserialize10 | src/ser.rs:27-40 | the unrolled 10-bit unpacker agrees with the sliding window on all inputs |
| SerFast.Serialize10 | src/ser.rs:79-93 | the unrolled 10-bit packer agrees with the sliding window on all inputs, high bits ignored |
| VecSer.MakePlan | src/backend/avx2/ser.rs:46-64 | each control byte points into its coefficient's four-byte window, and each shift is the coefficient's bit offset there, negated for NEON |
| VecSer.PlanInBounds | src/backend/neon/ser.rs:31-63 | no plan of width up to 13 names a byte beyond the 15th |
| VecSer.LoadGroup | src/backend/avx2/ser.rs:95-140 | every 16-byte load is in bounds, from the buffer or from the zero-padded tail copy, and reads the group's bytes followed by zeros |
| VecSer.LaneIsField | src/backend/avx2/ser.rs:95-140 | a lane's window, shifted and masked, is its coefficient's field |
| VecSer.Avx2Deserialize | src/backend/avx2/ser.rs:95-140 | for every width 1 to 13 the AVX2 unpacker agrees with the sliding window |
| VecSer.NeonDeserialize | src/backend/neon/ser.rs:94-136 | for every width 1 to 13 the NEON unpacker agrees with the sliding window |
| PlainArith.Deserialize | src/arithmetic/plain_arith.rs:45-90 | whichever routine the dispatch picks, the element is the unpacked bit string |
| PlainArith.Serialize | src/arithmetic/plain_arith.rs:95-113 | whichever routine the width picks, the buffer is the packed element |
| PlainArith.SerializeVector | src/arithmetic/plain_arith.rs:187-208 | the elements are packed one after another at 10 bits |
| PlainArith.DeserializeVector | src/arithmetic/plain_arith.rs:211-237 | element i is unpacked from the i-th 320 bytes |
| Cbd.Popcount8IsWeight | src/sample.rs:12-20 | summing adjacent bit fields three times counts the set bits of every byte |
| Cbd.Popcount16IsWeight | src/sample.rs:22-25 | the same for a 16-bit word |
| Cbd.CbdDiffIs | src/sample.rs:34-39 | the difference samples the low 2·h bits of its argument, whatever lies above them |
| Cbd.CbdIsBitCount | src/sample.rs:187-200 | coefficient c is the number of set bits of [cμ, cμ+μ/2) less that of the next μ/2 bits, as a wrapping word |
| Cbd.CbdRange | src/sample.rs:41-95 | read as signed, every coefficient is within [−μ/2, μ/2], which is what the transform of a secret requires |
| Cbd.Cbd | src/sample.rs:42-95 | for μ = 6, 8 and 10 the specialised loops fill the array with those samples |
| VecCbd.NibbleCount | src/backend/avx2/sample.rs:29-37 | the lookup table counts the bits of every nibble, in both halves |
| VecCbd.PopcountSmallIsWeight | src/backend/avx2/sample.rs:39-50 | each backend's lane count is the number of set bits for every value its callers hold: below 32 on AVX2, below 256 on NEON |
| VecCbd.ShiftDownIs | src/backend/neon/sample.rs:67-75 | the register shift, negated from the low byte on NEON, is the logical right shift |
| VecCbd.SampleLaneIs | src/backend/neon/sample.rs:64-80 | one lane of the loop body samples its field |
| VecCbd.VecCbd | src/backend/avx2/sample.rs:62-96 | both vector samplers produce the bit-count samples for every buffer and every μ they accept |
| Sample.GenMatrixFromSeed | src/sample.rs:158-178 | the serial double loop: entry (i, j) is 13-bit fields of TurboSHAKE128(seed ‖ i ‖ j) |
| Sample.GenSecretFromSeed | src/sample.rs:118-136 | the serial loop: entry i samples TurboSHAKE256(seed ‖ i) |
| Sample.MatrixEntryPacks | src/sample.rs:163-175 | entry (i, j), packed at 13 bits, is the first 416 bytes of the stream with rate 168 and separator 2 over seed, i, j |
| Sample.SecretEntryCounts | src/sample.rs:126-134 | coefficient c of entry i is the set bits of half a field less those of the other half, in the stream with rate 136 and separator 3 over seed, i |
| Sample.MatrixIsUniform | src/arithmetic/ntt_arith.rs:57-60 | every coefficient of the matrix is below 2^13, as the transform requires |
| Sample.SecretIsSmall | src/arithmetic/ntt_arith.rs:80-85 | every coefficient of the secret is within μ/2, as the transform requires |
| VecSample.Batch | src/backend/avx2/sample.rs:125-126 | each lane of a batch holds the bytes the serial reader would have read for its index |
| VecSample.GenMatrixBatched | src/backend/avx2/sample.rs:110-140 | filling entries in row-major batches, the last batch repeating an index and dropping the surplus, gives the serial matrix |
| VecSample.GenSecretBatched | src/backend/neon/sample.rs:158-194 | one batch on AVX2, as many as needed on NEON, gives the serial secret |
| VecSample.SampleMatrix | src/sample.rs:141-179 | whichever path the dispatch takes, the matrix is the same |
| VecSample.SampleSecret | src/sample.rs:99-137 | whichever path the dispatch takes, the secret is the same |
| KeccakTables.TableIsRhoPi | src/backend/avx2/keccak.rs:160-171 | the lanes and rotations written out in the rows are those of pi and rho of FIPS 202, for all 25 lanes |
| KeccakTables.ConstantsAreGenerated | src/backend/avx2/keccak.rs:31-58 | the twelve constants in use are the bits the LFSR of FIPS 202 generates for rounds 12 to 23 |
| FusedKeccak.ThetaRhoAt | src/backend/neon/keccak.rs:58-70 | on both instruction sets the fused xor and rotation is the rotation of the xor, bit by bit |
| FusedKeccak.ChiAt | src/backend/neon/keccak.rs:83-98 | so is the row's nonlinear step |
| FusedKeccak.MixIsD | src/backend/avx2/keccak.rs:128-160 | the folded and mixed columns are theta's D |
| FusedKeccak.FusedLaneIs | src/backend/avx2/keccak.rs:104-119 | lane (x, y) of the fused row is lane (x, y) of chi∘pi∘rho∘theta, for every state |
| FusedKeccak.FusedRoundIsRound | src/backend/avx2/keccak.rs:121-175 | the fused round is the Keccak-p round, for every state and round index |
| VecKeccak.ChiRow | src/backend/avx2/keccak.rs:104-119 | one row of the destination is written and nothing else |
| VecKeccak.Round | src/backend/avx2/keccak.rs:128-175 | every sponge of the register file goes through the fused round, iota included |
| VecKeccak.Permute | src/backend/avx2/keccak.rs:179-195 | alternating between state and scratch leaves, in the state, twelve rounds of Keccak-p in every sponge |
| SpongeFacts.LoadIsLittleEndian | src/backend/avx2/keccak.rs:77-82 | a lane loaded from eight bytes, its bits read in base 2, is the number the bytes spell in base 256, first byte lowest |
| SpongeFacts.StoreIsLittleEndian | src/backend/avx2/keccak.rs:315-318 | the eight bytes a lane is stored as spell in base 256 the number its bits are in base 2, for every lane |
| SpongeFacts.StoreUndoesLoad | src/backend/avx2/keccak.rs:279-290 | storing what was loaded gives the eight bytes back, both being digits of one number |
| SpongeFacts.PaddedBytes | src/backend/avx2/keccak.rs:197-214 | for messages of any length: the message, the separator, zeros, the high bit of the last byte, up to the least multiple of the rate above the message |
| SpongeFacts.AbsorbBlockBit | src/backend/avx2/keccak.rs:257-291 | absorbing a block flips exactly the state bits at which the block has ones and leaves the capacity alone, in every state |
| SpongeFacts.AbsorbOnce | src/pke.rs:96-108 | absorbing one block, into any state, is the xor and then the permutation |
| SpongeFacts.AbsorbConcat | src/pke.rs:96-108 | absorbing two runs of blocks is absorbing the first and then the second, so no block of a long message is left out |
| SpongeFacts.StreamIsSqueezed | src/backend/avx2/keccak.rs:293-341 | the stream is the first rate bytes of the absorbed state, those of the next permutation, and so on, for messages and outputs of any length |
| SpongeFacts.StreamConcat | src/kem.rs:125-136 | a read that takes up where another stopped continues the same stream |
| Xof.PadBlock | src/backend/avx2/keccak.rs:197-214 | the block is the message, the separator, zeros and the high bit of the last byte: TurboSHAKE's padding of RFC 9861 |
| Xof.TransposeAt | src/backend/avx2/keccak.rs:55-75 | the shuffles swap word index and sponge index |
| Xof.PlaceBlocks | src/backend/avx2/keccak.rs:257-291 | wide and narrow placement together leave in each sponge its own block absorbed into the zero state |
| Xof.SqueezeGroup | src/backend/avx2/keccak.rs:305-320 | the wide path writes the next whole words of every sponge's stream and nothing else |
| Xof.SqueezeWord | src/backend/avx2/keccak.rs:322-337 | the narrow path writes one word of every stream, or the part of it the output still wants |
| Xof.SqueezeBlock | src/backend/neon/keccak.rs:262-298 | one pass writes the rate's worth of every stream, or what is left of the output, in bounds |
| Xof.Xof | src/backend/avx2/keccak.rs:216-341 | for every output length, both rates and every suffix that fits one block, row l of the output is TurboSHAKE of prefix ‖ suffix l as RFC 9861 defines it |
| TurboShake.Reader.Read | src/kem.rs:125-136 | successive reads return successive stretches of one TurboSHAKE stream |
| Pke.ParameterSetsAreAccepted | src/consts.rs:4-16 | the three named parameter sets meet everything the scheme's methods ask of their parameters, exactness included |
| Pke.RowProduct | src/pke.rs:217-250 | a row of the cached matrix times a transformed secret is the schoolbook row product |
| Pke.ReadSeeds | src/pke.rs:134-150 | the three values read, put together, are the first 96 bytes of the stream with rate 136 and separator 1 over seed and rank |
| Pke.SeedsAre | src/pke.rs:134-150 | matrix seed, secret seed and rejection value are bytes 0 to 31, 32 to 63 and 64 to 95 of that stream |
| Pke.ExpandSecretKey | src/pke.rs:134-183 | of 96 bytes of the stream with rate 136 and separator 1 over seed and rank, the first 32 are the matrix seed, the next 32 seed the secret, the last 32 are the rejection value; the public key is that of the rounded transpose product, and pkh hashes its serialization |
| Pke.Hash | src/pke.rs:96-108 | pkh is the first 32 bytes of the stream with rate 136 and separator 4 over all chunks and then the seed |
| Pke.Serialize | src/pke.rs:47-57 | the buffer is the packed vector followed by the seed |
| Pke.FromBytes | src/pke.rs:61-88 | the parsed key is a key for the unpacked vector and seed, and serializes to the very bytes it was read from |
| Pke.ChunkIsCanonical | src/pke.rs:61-88 | any 320 bytes are what packing their own unpacking gives, and unpack to a uniform element |
| Pke.Encrypt | src/pke.rs:217-250 | whatever backend runs and whichever made the key, the bytes are those of the schoolbook description, for any key vector, reduced or not |
| Pke.Decrypt | src/pke.rs:187-213 | the message is that of the schoolbook description, for every ciphertext of the right length |
| WireFormat.KeyCoefficient | src/pke.rs:157-171 | in the bytes of a generated key, coefficient k of entry j is (x + 4) / 8 modulo 2^10 for x coefficient k of the schoolbook product of column j with the secret, and the seed follows |
| WireFormat.CiphertextVectorAt | src/pke.rs:217-250 | in a ciphertext, coefficient k of entry i is (x + 4) / 8 modulo 2^10 for x that of row i with the encryption secret |
| WireFormat.CiphertextMessageAt | src/pke.rs:217-250 | coefficient k of the message part is the top T of the low ten bits of x + 4 - 512·m, m being bit k of the message and x the inner product's coefficient |
| WireFormat.PlaintextBitAt | src/pke.rs:187-213 | bit k of what decryption returns is bit 9 of x - 2^(10-T)·c + 2^8 - 2^(9-T) + 4, from the two parts the ciphertext carries |
| WireFormat.Sizes | src/pke.rs:118-123 | public keys are 672, 992 and 1312 bytes long and ciphertexts 736, 1088 and 1472 |
| PkeCorrect.LowVectorEncryptsAlike | src/pke.rs:235-249 | bits 10 and up of the public vector never reach a ciphertext |
| PkeCorrect.ReparsedVector | src/pke.rs:157-171 | what a serialized key parses to is the cached vector with only its low 10 bits |
| PkeCorrect.ReparsedKeyAgrees | src/pke.rs:61-88 | a cached key and the key rebuilt from its bytes have the same hash and encrypt every message under all randomness to identical bytes |
| PkeCorrect.BitDecrypts | src/pke.rs:187-213 | one decrypted bit is the message's exactly when its coefficient survives |
| PkeCorrect.DecryptsIff | src/pke.rs:187-250 | decryption undoes encryption if and only if every coefficient of v − v', plus the truncation and the constants, lies in the lower half of 2^10 |
| PkeCorrect.SmallNoiseSurvives | src/pke.rs:187-213 | a coefficient of v − v' within ±(2^8 − 2^(9−T)) modulo 2^10 survives |
| Ring.MulComm | src/arithmetic/ntt_arith.rs:264-277 | the negacyclic product commutes |
| Ring.MulExchange | src/arithmetic/ntt_arith.rs:264-277 | its right factors may be exchanged |
| Noise.Adjoint | src/pke.rs:157-250 | (A·t)ᵀs = (Aᵀs)ᵀt over the negacyclic ring, for every matrix and vectors |
| Noise.NoiseIdentity | src/pke.rs:157-250 | 8·(v − v') ≡ (4−e')ᵀs − (4−e)ᵀs' modulo 2^13, e and e' the rounding remainders of the two products |
| Noise.SignedNoise | src/pke.rs:157-250 | the same with the secrets read as signed, so that the right side is a small integer |
| Noise.SmallNoiseDecrypts | src/pke.rs:187-250 | whenever that integer is within ±8·(2^8 − 2^(9−T)) in every coefficient, decryption returns the message |
| Kem.ExpandFromSeed | src/kem.rs:82-95 | the expanded key is consistent: secret, matrix seed and rejection value are the stated bytes of one stream over the seed, and the public key carries the hash of its own bytes |
| Kem.FromBytesInner | src/kem.rs:35-43 | a parsed public key is a key for the vector its bytes hold, and carries the first 32 bytes of the stream with rate 136 and separator 4 over them |
| Kem.ReadFo | src/kem.rs:125-136 | secret and randomness, put together, are the first 64 bytes of the stream with rate 136 and separator 5 over message and key hash |
| Kem.DerivedAre | src/kem.rs:125-136 | the shared secret is bytes 0 to 31 of that stream and the randomness bytes 32 to 63 |
| Kem.RejectionIs | src/kem.rs:179-180 | the rejection value is 32 bytes of the stream with rate 136 and separator 6 over z and the whole ciphertext |
| Kem.Encap | src/kem.rs:115-142 | of 64 bytes of the stream with rate 136 and separator 5 over randomness and key hash, the first half is the secret and the second encrypts the randomness |
| Kem.Decap | src/kem.rs:147-186 | with m what decryption returns and 64 bytes derived from m and the key hash: the first half if encrypting m under the second half gives the ciphertext back, and otherwise 32 bytes of the stream with rate 136 and separator 6 over z and the ciphertext |
| Kem.HonestDecap | src/kem.rs:144-186 | if decryption recovers the randomness of an encapsulation, decapsulation returns its secret |
| Kem.AcceptedExactly | src/kem.rs:179-185 | a ciphertext that re-encryption does not reproduce is always rejected, and the derived secret comes out exactly when it is reproduced, unless the two hashes collide |
| Kem.ReparsedEncap | src/kem.rs:35-43 | encapsulating to the re-parsed key gives the same ciphertext and secret as to the cached one |
| Kem.Exchange | src/kem.rs:211-249 | a whole exchange through serialized bytes, each side on its own backend, ends in equal secrets whenever decryption recovers the randomness |
| Kem.SmallNoiseAgrees | src/kem.rs:144-186 | whenever the noise of the derived encryption secret is small, decapsulation of the encapsulation returns the encapsulated secret |

## Left out

- Intrinsics: their bodies (inline assembly and foreign calls) are not part of this model; each is the lane function its documentation states.
- Register storage: the const tables of plans and of per-lane twiddles are recomputed where they are used; the 128-bit registers of a transform are values, so aliasing between them is not modelled.
- NEON's `base` offset into the shared block (`src/backend/neon/ntt.rs:654-668`) becomes one array per prime that is joined afterwards.
- Nested fixed arrays (matrices, batches of buffers) are two-dimensional arrays or sequences of sequences; matrix generics are run-time sizes.
- Elementwise operations of `src/arithmetic/plain_arith.rs` (shifts, constant addition, subtraction) are functions on whole elements instead of in-place loops; alone they would give only easy members.
- `xof4` and `xof2` are one method over the number of sponges and the instruction set; the narrow paths of both gather and spread bytes the AVX2 way.
- The scalar TurboSHAKE of the `turboshake` crate is not part of this model; `Reader` stands for it with the definition of RFC 9861.
- Parameters outside what the code accepts: μ other than 6, 8 and 10 in `cbd`, which the source refuses at run time, and T = 0 or above 9, where the shifts of decryption leave no message.
- `ct_eq` and `conditional_select` are equality and choice; zeroization, random number generators, CPU detection and constant-time behaviour have no counterpart.
- Kem.AcceptedExactly: distinguishes acceptance from rejection by the returned value, so it sets aside the case in which the two hashes are equal.
- The probability that decryption fails, and security notions, are not stated; only the deterministic condition is.
- The wrapper types and methods generated in `src/impls.rs`, which add names and random seeds only.
