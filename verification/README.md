# A model of hatrack's hashing, its epoch-managed tables, and con4m's style runs

This project models three parts of the con4m / hatrack code base and proves what they promise.

**The xxHash engine** (`include/hatrack/xxhash.h`). XXH32, XXH64 and XXH3 (64 and 128 bits) each exist
twice in the source: as a one-shot function and as a streaming state machine. For each of them one
reference function says what the hash of an input is, and both forms are proved against it, for every
input, every way to cut it into pieces, every key, and digests taken at any time in between.

| file | contents |
|---|---|
| `Words.dfy` | fixed-width words as bounded integers with C's wrap-around; shifts, rotations and exclusive or, with their laws; bytes |
| `Mult128.dfy` | the 64 x 64 to 128-bit multiply, native and portable |
| `Xxh3Kernel.dfy` | the stripe kernels: what they compute, the scalar loops, the SSE2 loops |
| `Xxh3Short.dfy` | XXH3 up to 240 bytes |
| `Xxh3Secret.dfy` | the secret derived from a seed, scalar and SSE2 |
| `Xxh3Long.dfy` | XXH3 beyond 240 bytes: the fold over stripes and the block loop |
| `Xxh3OneShot.dfy` | the one-shot functions |
| `Xxh3Stream.dfy` | the streaming state: resets, update, digests, whole runs |
| `Xxh3Inverse.dfy` | the 128-bit hash of up to 16 bytes is undone step by step |
| `Xxh3Null.dfy` | the keys of up to 16 bytes whose hash is all zero |
| `Xxh3Short64.dfy` | the 64-bit hash of up to 8 bytes loses nothing |
| `Xxh64.dfy`, `Xxh32.dfy` | the two older algorithms, one-shot and streaming |
| `ChangesXxh.dfy` | what a changed byte changes in XXH32 and XXH64 |
| `ChangesXxh3.dfy` | what a changed byte changes in XXH3 beyond 16 bytes |
| `Literals.dfy` | evaluating the bitwise operations on given numbers |
| `KnownHashes.dfy`, `KnownLongHash.dfy` | the hashes of given inputs, in every length class |
| `Canonical.dfy` | the canonical form of a 128-bit hash and the order of hashes |
| `GenerateSecret.dfy` | the secret generated from a custom seed |
| `Chunks.dfy` | input in pieces |
| `Options.dfy` | optional values, for the tables and the styles |

**The lohat table over the mmm memory manager** (`src/hatrack/hash/lohat.c`,
`src/hatrack/support/mmm.c` and their headers). This is a state machine: every load, store,
fetch-and-add and compare-and-swap on shared memory is one step of one thread, any number of threads
take steps in any order, and new threads may join at any time. What is proved comes in three layers: what
holds of all runs (the order of epochs), of all runs whose pushes are *linked* (reclamation) and of all runs
whose pushes are *clean* (snapshots). That linked and clean pushes are also needed is proved, too.

| file | contents |
|---|---|
| `LohatModel.dfy` | states, program counters and steps |
| `LohatBasic.dfy` | what every step of every run keeps; runs and their continuations |
| `LohatEpochs.dfy`, `LohatReplay.dfy` | all runs: epochs, retire epochs, the table of an epoch and when it is settled |
| `LohatInvariant.dfy` | linked runs: the reclamation invariant |
| `LohatFrames.dfy` | what a change of memory by one thread leaves true of the others |
| `LohatMover.dfy`, `LohatEffects.dfy`, `LohatReclaim.dfy`, `LohatProof.dfy` | that invariant, step by step |
| `LohatSafety.dfy`, `LohatCreate.dfy` | linked runs: memory safety, creation epochs |
| `LohatSnapshot.dfy`, `LohatTheorems.dfy` | clean runs: the snapshot invariant, chains and views |
| `LohatTable.dfy` | the table as items: what operations do to it and return, in the order of pushes and of epochs |
| `LohatAlone.dfy`, `LohatLoneView.dfy` | a thread that runs alone finishes; after an unclean push its view goes wrong |
| `LohatUnlinked.dfy` | after an unlinked push, linked pushes alone lead to freed memory |
| `LohatCounterexamples.dfy` | concrete runs that show each failure |

**Cleaning style runs** (`include/util/style.h`), in `Styles.dfy`: an in-place compaction loop.

## What was found

Four promises of the documentation do not hold of the code in general. In each case the code was kept as it
is; a counterexample is given, and the condition under which the promise holds is proved, as described.

* *Records are not traversed after they are freed* (`include/hatrack/lohat.h:202-238`). A replace that lost a
  race starts over but keeps the `next` field of its first attempt (`src/hatrack/hash/lohat.c:782-814`), so its
  record leads past the one that beat it, to a record that may be retired and freed while the new one is
  still in the table. A push is called *linked* if the new record leads to the head it replaces, which a
  thread can check just before its compare-and-swap; all pushes of put, add and remove are
  (`LinkedPushExactly`). In runs whose pushes are linked nothing that has been freed is touched
  (`NothingFreedIsTouched`). Conversely, after any linked run and one push that is not linked, linked pushes
  alone lead to a step that touches a freed record (`UnlinkedPushFreesTooEarly`). So the pushes of a run are
  all linked if and only if, from each of its states, memory stays safe as long as all further pushes are
  linked (`SafeExactlyInLinkedRuns`). `ReplaceRetryFreesTooEarly` is a run in which the failure happens.
* *Views are snapshots, and only the head of a bucket lacks a write epoch*
  (`include/hatrack/lohat.h:126-145`, `181-197`). The headers say that a writer makes sure the record below has
  its epoch before it overwrites the bucket. Put does. Add and remove swap the head first and help
  afterwards (`src/hatrack/hash/lohat.c:897-915`, `990-1017`), so that a removal can be committed while the put
  below it is not; and a replace may push an unlinked record. In both cases a view can return a table that
  never existed (`RemoveOverPutBreaksView`, `ReplaceRetryBreaksView`). A push is called *clean* if it is linked
  and the head it replaces has its epoch. The pushes of a run are all clean if and only if the chains are
  right in all its states (`ChainsHoldExactlyInCleanRuns`), and if and only if in all its states a view that a
  new thread runs alone returns the table of its epoch (`ViewsAreSnapshotsExactlyInCleanRuns`). In clean runs
  every view does, however it interleaves (`ViewsAreLinearizable`), and the items it shows are those that the
  operations leave, carried out in the order of their epochs (`ViewShowsOutcome`). `CleanPushExactly` says what clean means for
  each operation, and runs of puts, gets and views are clean (`PlainRunsAreClean`).
* *The all-zero hash can safely stand for an unreserved bucket*
  (`src/hatrack/hatrack-internal.h:77-80`). Of the keys of up to 16 bytes exactly two have that hash, one of 8
  bytes and one of 16 (`NullHashExactly`): `ac94c94d3423f0c4` and `91e873c807b90e59d8cb45fb078659f1`, as bytes in
  hexadecimal (`NullKeyIs`, `NullKey16Is`).
* *The retire epoch of a record is the commit epoch of the record on top of it*
  (`include/hatrack/lohat_common.h:105-115`). `mmm_retire` stores the current epoch
  (`src/hatrack/support/mmm.c:268`), which may be later (`RetireEpochIsLate`). It is the commit epoch if and only
  if no thread has drawn an epoch after that one was drawn, and it is never earlier (`RetireEpochExactly`).

Cleaning style runs keeps the style of every codepoint if the entries are sorted by start, and in general if
and only if no entry reaches back into a gap between earlier ones (`CleanKeepsStylesExactly`).

## Conventions

Words are integers with explicit wrap-around. `fed`, `key`, `flushed` and `stripes` are ghost fields that
record the history of a streaming state. A method is specified by a function of its input or of the old
state, and the lemmas beside it say what that function promises. `hide` statements only keep proofs quick. The
bitwise operations are defined on integers; machine words serve in `Literals.dfy` only, to evaluate exclusive or
on given numbers.

## Model

| member | source | states |
|---|---|---|
| Mult128.PortableMultiplyIsExact | include/hatrack/xxhash.h:3666-3787 | the portable 32-bit multiply and the native one are the same function, and their two halves are exactly the product, for all operands |
| Mult128.SumsDoNotOverflow | include/hatrack/xxhash.h:3771-3785 | with partial products of 32-bit values no intermediate sum wraps and no carry is lost |
| Words.Rotl64IsShifts | include/hatrack/xxhash.h:1848-1848 | for every word and amount below 64 the rotation is the sum of the two shifts of the macro, the left one wrapping and the right one by the rest of 64 |
| Words.Rotl32IsShifts | include/hatrack/xxhash.h:1847-1847 | the same for 32 bits |
| Xxh3Kernel.RoundsByPairs | include/hatrack/xxhash.h:4742-4747 | after 2k rounds of the scalar kernel, each of which writes two lanes, the first k pairs of lanes are final and the others untouched |
| Xxh3Kernel.Accumulate512Scalar | include/hatrack/xxhash.h:4731-4748 | the in-place loop with its cross-lane updates adds to every lane its neighbour's data and its own keyed product |
| Xxh3Kernel.Accumulate512Sse2 | include/hatrack/xxhash.h:4442-4481 | the SSE2 loop computes the same accumulators as the scalar one |
| Xxh3Kernel.AccumulateVecLanes | include/hatrack/xxhash.h:4460-4479 | one register's shuffles and even-element multiply are two lanes of the lane form |
| Xxh3Kernel.ScrambleScalar | include/hatrack/xxhash.h:4751-4766 | the in-place loop scrambles every lane with its own word of the secret |
| Xxh3Kernel.ScrambleSse2 | include/hatrack/xxhash.h:4484-4513 | the SSE2 loop, with 32-bit multiplies only, computes the same accumulators |
| Xxh3Kernel.ScrambleVecLanes | include/hatrack/xxhash.h:4496-4511 | one register's shift, exclusive or and split multiply are two lanes of the lane form |
| Xxh3Kernel.SplitMultiply | include/hatrack/xxhash.h:4504-4510 | two 32-bit products, one shifted by 32, add up to the wrapped 64-bit product |
| Xxh3Secret.InitCustomSecretScalar | include/hatrack/xxhash.h:4769-4832 | the loop writes the secret derived from the seed |
| Xxh3Secret.InitCustomSecretSse2 | include/hatrack/xxhash.h:4516-4552 | adding one register of seed and negated seed writes the same secret |
| Xxh3Secret.SeedZeroDerivesDefault | include/hatrack/xxhash.h:5098-5109 | seed zero derives the default secret, so the branch that skips the derivation is only a shortcut |
| Xxh3Secret.SeedFromSecret | include/hatrack/xxhash.h:4769-4832 | every pair of words of a derived secret gives the seed back twice: as what the first gained and as what the second lost |
| Xxh3Short.Len129To240Loop64 | include/hatrack/xxhash.h:4064-4124 | the two loops compute the sum of mixes, for every length from 129 to 240 |
| Xxh3Short.Len129To240Loop128 | include/hatrack/xxhash.h:5934-5987 | the same for 128 bits, including the swapped last piece under the negated seed |
| Xxh3Long.FoldOfPrefix | include/hatrack/xxhash.h:4896-4908 | a fold of n stripes depends on those stripes only, so that more input never changes what was consumed |
| Xxh3Long.PositionAfter | include/hatrack/xxhash.h:5393-5433 | the position in the block after n more stripes: it starts again exactly at a block boundary |
| Xxh3Long.RunContinuesFold | include/hatrack/xxhash.h:4896-4908 | a run of stripes within a block continues the fold, with a scramble exactly when it completes the block |
| Xxh3Long.AccumulateLoop | include/hatrack/xxhash.h:4896-4908 | the loop over stripes is the run of kernels on consecutive secret positions |
| Xxh3Long.LastBlock | include/hatrack/xxhash.h:4919-4946 | whole blocks and the partial block together are (len-1)/64 stripes, and the partial block is shorter than a block |
| Xxh3Long.EveryByteIsRead | include/hatrack/xxhash.h:4936-4959 | every input byte is in a consumed stripe or in the last 64 bytes |
| Xxh3Long.HashLongLoop | include/hatrack/xxhash.h:4911-4960 | the loop over blocks equals a flat fold over (len-1)/64 stripes and one last, overlapping stripe, with all reads in bounds |
| Xxh3Long.MergeAccsLoop | include/hatrack/xxhash.h:4971-4997 | the merge loop is the avalanche of the sum of the four pairs |
| Xxh3OneShot.OneShot64 | include/hatrack/xxhash.h:5145-5219 | each 64-bit entry point returns the reference hash for its key, in all length classes |
| Xxh3OneShot.OneShot128 | include/hatrack/xxhash.h:6119-6192 | each 128-bit entry point returns the reference hash for its key |
| Xxh3OneShot.HashLong64 | include/hatrack/xxhash.h:5006-5033 | the long branch merges the accumulators of the whole input |
| Xxh3OneShot.HashLong128 | include/hatrack/xxhash.h:5990-6022 | the same for 128 bits, with the second merge from the end of the secret |
| Xxh3OneShot.EquivalentKeys | include/hatrack/xxhash.h:5091-5136 | no key, seed zero and the default secret given explicitly are the same hash |
| ChangesXxh3.Mix32Changes | include/hatrack/xxhash.h:5869-5881 | a changed byte in one of the two pieces of a mix always changes the accumulator, whatever the products lose |
| ChangesXxh3.OneByteChangesAcc | include/hatrack/xxhash.h:5883-5917 | 17 to 128 bytes, 128 bits: changing a byte that is read once changes the accumulator, for every secret and seed; with 32, 64, 96 or 128 bytes that is every byte |
| ChangesXxh3.OneByteChangesMidAcc | include/hatrack/xxhash.h:5934-5980 | the same for 129 to 240 bytes, through the avalanche between the two runs and the swapped last pair |
| ChangesXxh3.FinishMid128Exactly | include/hatrack/xxhash.h:5918-5927 | two accumulators of inputs of one length and seed have the same hash if and only if they are equal or their halves are moved against each other by one, two or three quarters of the range |
| ChangesXxh3.OneByteChanges17To128 | include/hatrack/xxhash.h:4030-4059 | 64 bits: changing a byte that is read once changes the hash if its word is multiplied by one |
| ChangesXxh3.OneByteChanges129To240 | include/hatrack/xxhash.h:4064-4124 | the same for 129 to 240 bytes |
| ChangesXxh3.LaneChanges | include/hatrack/xxhash.h:4731-4748 | a changed byte of a stripe always changes the neighbour of its lane |
| ChangesXxh3.OneByteChangesLongAcc | include/hatrack/xxhash.h:4911-4960 | beyond 240 bytes, changing any byte that is read once changes an accumulator, whatever the secret and however many stripes and scrambles follow |
| ChangesXxh3.EveryLaneCounts | include/hatrack/xxhash.h:4971-4997 | changing any one of the eight accumulators changes the merge if the secret makes its partner one, for every secret, place in it and start |
| KnownHashes.HashesOfNothing | include/hatrack/xxhash.h:3949-3965 | the 64- and 128-bit hashes of the empty input with seed 1 |
| KnownHashes.HashesOf1Byte | include/hatrack/xxhash.h:3879-3903 | those of one byte with seed 1 |
| KnownHashes.HashesOf5Bytes | include/hatrack/xxhash.h:3906-3924 | those of five bytes with seed 1 |
| KnownHashes.Hash64Of9Bytes | include/hatrack/xxhash.h:3927-3946 | the 64-bit hash of nine bytes with seed 1 |
| KnownHashes.Hash128Of9Bytes | include/hatrack/xxhash.h:5750-5834 | the 128-bit hash of nine bytes with seed 1 |
| KnownHashes.SeededHashOf32Zeros | include/hatrack/xxhash.h:5883-5930 | the 128-bit hash of 32 zero bytes with seed 1 |
| KnownHashes.HashesOf128Zeros | include/hatrack/xxhash.h:4030-4059 | the hashes of 128 zero bytes: 093c29f27ecfcf21 in 64 bits, which is also the low word in 128 |
| KnownHashes.Hash64Of160Zeros | include/hatrack/xxhash.h:4064-4124 | the 64-bit hash of 160 zero bytes |
| KnownHashes.Hash128Of160Zeros | include/hatrack/xxhash.h:5934-5987 | the 128-bit hash of 160 zero bytes |
| KnownHashes.HashesOf256Zeros | include/hatrack/xxhash.h:4971-5033 | the hashes of 256 zero bytes: a68dfbb1d75c6e8d in 64 bits, which is also the low word in 128, above bb039d71e9630a91 |
| KnownLongHash.HashesOf1025Bytes | include/hatrack/xxhash.h:4911-4960 | the hashes of 1024 zero bytes and a one: a whole block, its scramble, and a last stripe with data in it |
| Xxh3Stream.ConsumeStripes | include/hatrack/xxhash.h:5393-5433 | one call advances accumulators and position by the given stripes exactly as the flat fold does, whether or not it crosses a block boundary |
| Xxh3Stream.State.constructor | include/hatrack/xxhash.h:5293-5301 | a new state satisfies the condition that every reset needs |
| Xxh3Stream.State.ResetInternal | include/hatrack/xxhash.h:5319-5345 | all fields after a reset, with the wrap of a secret size below 64 |
| Xxh3Stream.State.Reset | include/hatrack/xxhash.h:5349-5355 | the state is empty and unkeyed, whatever it was used for |
| Xxh3Stream.State.ResetWithSecret | include/hatrack/xxhash.h:5359-5371 | succeeds exactly for a secret of at least 136 bytes; a refused secret leaves no seed behind |
| Xxh3Stream.State.ResetWithSeed | include/hatrack/xxhash.h:5375-5385 | the cached secret is the one of the seed even when the derivation is skipped |
| Xxh3Stream.State.Update | include/hatrack/xxhash.h:5439-5524 | keeps the invariant and appends the input to the bytes fed, for every state and every input |
| Xxh3Stream.State.ConsumeBuffers | include/hatrack/xxhash.h:5475-5517 | whole buffers are consumed, at least one byte stays, and the last 64 bytes of the buffer are the last consumed stripe |
| Xxh3Stream.BufferMore | include/hatrack/xxhash.h:5461-5467 | input that fits keeps the invariant, including the stripe at the end of the buffer as long as it may be needed |
| Xxh3Stream.BufferRest | include/hatrack/xxhash.h:5519-5521 | storing the rest of the input keeps the last consumed stripe unless at least 193 bytes are buffered |
| Xxh3Stream.LastStripe | include/hatrack/xxhash.h:5566-5578 | with less than a stripe buffered, the end of the old buffer and what is buffered are the last 64 bytes fed |
| Xxh3Stream.State.DigestLong | include/hatrack/xxhash.h:5538-5579 | the digest works on a copy, changes nothing, and has the accumulators of the one-shot hash of everything fed |
| Xxh3Stream.State.Digest64 | include/hatrack/xxhash.h:5583-5604 | the 64-bit digest is the one-shot hash of the bytes fed, under the key of the last reset |
| Xxh3Stream.State.Digest128 | include/hatrack/xxhash.h:6261-6294 | the same for 128 bits |
| Xxh3Stream.DigestEveryPrefix | include/hatrack/xxhash.h:5439-5604 | for every key and every way to cut the input, with digests after each piece, every digest is the one-shot hash of the bytes so far |
| Xxh3Stream.ReuseState | include/hatrack/xxhash.h:5349-5385 | over any mix of plain, secret, seeded and refused resets of one state, no session shows in the digests of a later one |
| Xxh3Inverse.XorShiftInverse | include/hatrack/xxhash.h:3809-3813 | a shift-and-xor by at least 22 bits can be undone |
| Xxh3Inverse.AvalancheInverse | include/hatrack/xxhash.h:3820-3826 | the XXH3 avalanche can be undone |
| Xxh3Inverse.Xxh64AvalancheInverse | include/hatrack/xxhash.h:2610-2618 | the XXH64 avalanche can be undone |
| Xxh3Inverse.Unhash1To3OfHash | include/hatrack/xxhash.h:5682-5714 | the input of 1 to 3 bytes is computed back from its hash |
| Xxh3Inverse.Unhash4To8OfHash | include/hatrack/xxhash.h:5717-5747 | the input of 4 to 8 bytes is computed back from its hash |
| Xxh3Inverse.Unhash9To16OfHash | include/hatrack/xxhash.h:5750-5834 | the input of 9 to 16 bytes is computed back from its hash |
| Xxh3Inverse.HiTermForms | include/hatrack/xxhash.h:5775-5815 | the 32-bit and the 64-bit way to mix in the upper word agree |
| Xxh3Inverse.UnhashOfHash | include/hatrack/xxhash.h:5840-5864 | for every secret, seed and length up to 16 the 128-bit hash loses nothing |
| Xxh3Inverse.ShortInputsDoNotCollide | include/hatrack/xxhash.h:6119-6151 | inputs of equal length up to 16 have the same 128-bit hash exactly if they are equal, under every key |
| Xxh3Inverse.SeedsDoNotCollide | include/hatrack/xxhash.h:5750-5834 | an input of 9 to 16 bytes has the same 128-bit hash under two seeds only if the seeds are the same |
| Xxh3Short64.ShortInputsDoNotCollide64 | include/hatrack/xxhash.h:3949-3965 | inputs of equal length up to 8 have the same 64-bit hash exactly if they are equal, for every key |
| Xxh3Short64.RrmxmxInjective | include/hatrack/xxhash.h:3834-3842 | the mix of 4 to 8 bytes loses nothing, although it shifts and adds the length in between |
| Xxh3Short64.TripleInjective | include/hatrack/xxhash.h:3837-3837 | a word xored with two of its rotations determines the word |
| Xxh3Inverse.WordHashIsIdentity | include/hatrack/hash.h:53-82 | hash_int, hash_double (on bit patterns) and hash_pointer give two keys the same hash exactly if they are the same key, on either byte order |
| Xxh3Null.OneKeyHashesToNull | src/hatrack/hatrack-internal.h:77-97 | exactly one 8-byte key has the hash that the tables take for an unreserved bucket |
| Xxh3Null.NullHashExactly | src/hatrack/hatrack-internal.h:77-97 | of all keys of up to 16 bytes exactly two have that hash, one of 8 bytes and one of 16; no key of another length up to 16 has it |
| Xxh3Null.NullKeyIs | src/hatrack/hatrack-internal.h:77-97 | the 8-byte key, byte by byte |
| Xxh3Null.NullKey16Is | src/hatrack/hatrack-internal.h:77-97 | the 16-byte key, byte by byte |
| Xxh64.FoldOfPrefix | include/hatrack/xxhash.h:2775-2840 | lanes folded over n stripes depend on those stripes only |
| Xxh64.Finalize | include/hatrack/xxhash.h:2623-2645 | the loops over words, half words and bytes consume the rest as specified, from the low five bits of any length |
| Xxh64.OneShot | include/hatrack/xxhash.h:2658-2706 | the one-shot function is the fold over 32-byte stripes of the algorithm description |
| Xxh64.State.Update | include/hatrack/xxhash.h:2775-2840 | keeps the lanes equal to the fold of all whole stripes and the memory equal to the rest, for every cut |
| Xxh64.State.Digest | include/hatrack/xxhash.h:2844-2871 | the digest is the one-shot hash of everything fed, also past 2^64 bytes unless the counter has just wrapped |
| Xxh64.MemsizeOfLength | include/hatrack/xxhash.h:2844-2871 | the wrapped length still tells how many bytes are in the memory |
| Xxh64.DigestEveryPrefix | include/hatrack/xxhash.h:2758-2871 | over any run of updates and digests every digest is the one-shot hash of the bytes so far |
| ChangesXxh.RoundExactly | include/hatrack/xxhash.h:2592-2598 | a round loses neither its word nor its lane: with one of them fixed the results are equal exactly if the other is |
| ChangesXxh.StripeExactly | include/hatrack/xxhash.h:2681-2690 | from the same lanes, two stripes leave the same lanes if and only if their 32 bytes are the same |
| ChangesXxh.FoldChanges | include/hatrack/xxhash.h:2681-2690 | changing one byte of the whole stripes changes exactly one of the four lanes they leave, however many stripes follow |
| ChangesXxh.OneByteChanges64 | include/hatrack/xxhash.h:2623-2645 | changing one byte after the last whole stripe always changes the hash; below 32 bytes that is any byte |
| KnownHashes.Hash64Of32Zeros | include/hatrack/xxhash.h:2658-2706 | the hash of 32 zero bytes is f6e9be5d70632cf5 |
| KnownHashes.Hash64Of13Bytes | include/hatrack/xxhash.h:2623-2645 | the hash of the bytes 1 to 13 with seed 1 is 79879b55415b33cf |
| Xxh32.FinalizeRolled | include/hatrack/xxhash.h:2066-2153 | the rolled loops consume the rest as specified |
| Xxh32.FinalizeSwitch | include/hatrack/xxhash.h:2066-2153 | the switch with its fall-through cases computes the same, for each of the 16 lengths |
| Xxh32.ChainConsumes | include/hatrack/xxhash.h:2066-2153 | n steps of four bytes that fall through consume 4n bytes of the rest |
| Xxh32.OneShot32 | include/hatrack/xxhash.h:2172-2216 | the one-shot function is the fold over 16-byte stripes of the algorithm description |
| Xxh32.LengthCounter | include/hatrack/xxhash.h:2295-2302 | the counter is the length modulo 2^32 and the large flag tells if the true length has reached 16, although the counter wraps |
| Xxh32.State32.Update | include/hatrack/xxhash.h:2285-2358 | keeps lanes, rest, wrapped length and large flag right for streams of every length |
| Xxh32.State32.Digest | include/hatrack/xxhash.h:2362-2380 | the digest is the one-shot hash of everything fed, of any length |
| Xxh32.DigestEveryPrefix32 | include/hatrack/xxhash.h:2268-2380 | over any run of updates and digests of any total length every digest is the one-shot hash of the bytes so far |
| ChangesXxh.Round32Exactly | include/hatrack/xxhash.h:1981-1986 | a round loses neither its word nor its lane |
| ChangesXxh.Stripe32Exactly | include/hatrack/xxhash.h:2195-2204 | from the same lanes, two stripes leave the same lanes if and only if their 16 bytes are the same |
| ChangesXxh.OneByteChanges32 | include/hatrack/xxhash.h:2172-2216 | changing one byte always changes the hash, for inputs of every length and every seed |
| KnownHashes.Hash32Of16Zeros | include/hatrack/xxhash.h:2172-2216 | the hash of 16 zero bytes is 8e022b3a |
| KnownHashes.Hash32Of16Bytes | include/hatrack/xxhash.h:2195-2204 | with byte 12 set to one it is 19931248 |
| KnownHashes.Hash32Of5Bytes | include/hatrack/xxhash.h:2066-2153 | the hash of the bytes 1 to 5 with seed 1 is c00210b0 |
| Canonical.CanonicalIsPortable | include/hatrack/xxhash.h:6329-6338 | the canonical form is big-endian, high word first, on machines of either byte order |
| Canonical.CanonicalRoundTrip | include/hatrack/xxhash.h:6329-6348 | a hash written on one machine is read back on any other |
| Canonical.HashRoundTrip | include/hatrack/xxhash.h:6329-6348 | every 16 bytes are the canonical form of the hash read from them |
| Canonical.CompareIsMemCmp | include/hatrack/xxhash.h:6315-6324 | comparing hashes is comparing their canonical forms byte by byte |
| Canonical.CompareIsTotalOrder | include/hatrack/xxhash.h:6315-6324 | the comparison is a total order, that of the 128-bit values |
| Canonical.MemCmpComparesNumbers | include/hatrack/xxhash.h:6309-6324 | the first differing byte decides as the big-endian numbers do |
| GenerateSecret.FillSeeds | include/hatrack/xxhash.h:5636-5645 | the self-copying loop ends with byte j equal to byte j mod size of the custom seed, for every size |
| GenerateSecret.Generate | include/hatrack/xxhash.h:5610-5662 | the buffer gets the twelve segments, on machines of either byte order, and nothing else changes |
| GenerateSecret.SegmentDependsOn | include/hatrack/xxhash.h:5647-5661 | custom seeds with the same eight bytes, taken cyclically, at the position of a segment have the same segment there if and only if they have the same 128-bit hash |
| GenerateSecret.SegmentsExactly | include/hatrack/xxhash.h:5647-5661 | segments made by the same scrambler are the same if and only if their words of the custom seed are, each increased by the number of its segment |
| GenerateSecret.GeneratedSecretIsUsable | include/hatrack/xxhash.h:5616-5619 | a generated secret is long enough for every keyed hash, and no seed gives the unkeyed hash |
| LohatBasic.Exec | src/hatrack/hash/lohat.c:531-1027 | in every state of every run indices are in range, chains lead to older records, and each head is the record pushed last to its bucket |
| LohatEpochs.EpochsAreUnique | include/hatrack/mmm.h:196-212 | in every run, no two records share a write epoch |
| LohatEpochs.StepKeepsEpochs | src/hatrack/support/mmm.c:469-513 | in every run, a drawn epoch is current or past, unused and pending with one thread only, and no record is retired before the one on top of it has an epoch |
| LohatEpochs.RetireEpochExactly | src/hatrack/support/mmm.c:237-280 | in every run, retiring stores an epoch no earlier than the commit on top, and just that epoch if and only if no move after the one that drew it drew another |
| LohatEpochs.ViewsSeeEarlierWrites | include/hatrack/mmm.h:366-416 | in every run, the epoch of a view is no earlier than that of any write committed before the view began |
| LohatReplay.ReplayIsNewest | src/hatrack/hash/lohat.c:398-417 | the newest write of a bucket up to an epoch is what the replay leaves there |
| LohatReplay.SettledStays | include/hatrack/mmm.h:408-415 | in every run, no later step changes the table of a settled epoch |
| LohatReplay.SettledExactly | include/hatrack/mmm.h:408-415 | an epoch is settled if and only if nothing that can still happen gives a record an epoch up to it |
| LohatReplay.LaterPushesAreNotSeen | include/hatrack/mmm.h:408-415 | in every run, whatever is pushed from now on gets an epoch later than the current one |
| LohatTable.CurrentFollows | src/hatrack/hash/lohat.c:580-1027 | in every run, a push does to the table of items what its operation means (put sets, add sets if nothing is there, replace if something is, remove deletes), and no other step changes it |
| LohatTable.CurrentIsHistory | src/hatrack/hash/lohat.c:580-1027 | in every run the current table is the empty one after the operations that have pushed, in the order of their pushes |
| LohatTable.RunsAreMade | src/hatrack/hash/lohat.c:632-1018 | in every run each record holds what its operation left in its bucket |
| LohatTable.LoneOpTakesEffect | src/hatrack/hash/lohat.c:580-1027 | from every state an operation that a new thread runs alone ends and has done what it means: an add on an empty or deleted bucket leaves its item there |
| LohatTable.GetReturnsCurrent | src/hatrack/hash/lohat.c:530-576 | however a get interleaves, the record it reads its result from holds the item that was in the bucket when it loaded the head |
| LohatTable.GetFindsExactly | src/hatrack/hash/lohat.c:556-576 | a get finds nothing if and only if the bucket was empty or deleted then |
| LohatTable.StoreReturnsReplaced | src/hatrack/hash/lohat.c:690-730 | the record a store operation reads its result from holds the item that its push replaced |
| LohatModel.Cut | src/hatrack/support/mmm.c:328-364 | what mmm_empty frees begins at the first cell below the lowest reservation |
| LohatReclaim.CutIsBelow | src/hatrack/support/mmm.c:328-380 | everything from there on is below it, because retire lists are sorted |
| LohatEffects.BumpInv | src/hatrack/support/mmm.c:469-513 | drawing an epoch keeps the reclamation invariant: it is later than every reservation and every view |
| LohatEffects.SwapInv | src/hatrack/support/mmm.c:469-513 | committing, by the pusher or by any helper, keeps it |
| LohatEffects.PushInv | src/hatrack/hash/lohat.c:632-684 | a linked push keeps it, also onto a head without an epoch |
| LohatEffects.RetireInv | src/hatrack/support/mmm.c:237-280 | retiring the overwritten record keeps it: nobody else retires it |
| LohatReclaim.ScanInv | src/hatrack/support/mmm.c:293-326 | reading one reservation at a time keeps it, although threads post and drop theirs in between |
| LohatReclaim.FreeInv | src/hatrack/support/mmm.c:366-380 | freeing keeps it: no other thread holds or will reach the record |
| LohatProof.StepKeepsInv | src/hatrack/hash/lohat.c:360-1027 | every linked step of every operation keeps it |
| LohatProof.RegisterKeepsInv | src/hatrack/support/mmm.c:168-201 | a thread may join at any time |
| LohatSafety.LinkedPushExactly | src/hatrack/hash/lohat.c:580-1027 | put, add and remove always push linked records; replace exactly if the head it expects is still the one of its first attempt |
| LohatSafety.ChainedExactlyInLinkedRuns | include/hatrack/lohat.h:152-158 | each record leads to the one pushed before it, in all states of a run, if and only if every push of the run was linked |
| LohatSafety.RunsWithoutReplaceAreLinked | src/hatrack/hash/lohat.c:360-1027 | runs of any operations but replace are linked, however they interleave |
| LohatSafety.SafeWithoutReplace | src/hatrack/hash/lohat.c:360-1027 | after a linked run with no replace before its push, nothing that has been freed is touched as long as no replace is started |
| LohatSafety.NothingFreedIsTouched | include/hatrack/lohat.h:202-238 | in linked runs no step reads, writes or frees a record that has been freed, with slot-by-slot scans racing against readers that stall before they post |
| LohatSafety.ExpectedHeadIsLive | src/hatrack/hash/lohat.c:652-652 | in linked runs the head that a compare-and-swap expects has not been freed, so its address cannot have come back |
| LohatCreate.CreateEpochIsOldest | include/hatrack/lohat.h:250-253 | in linked runs the creation epoch of a live record is the write epoch of the oldest record in the chain of overwrites that ends in it |
| LohatCreate.StepKeepsCreate | src/hatrack/hash/lohat.c:632-650 | every linked step keeps it: a put or replace over a live record inherits that record's creation epoch, and any other store starts afresh |
| LohatUnlinked.LinkedRunsAccount | src/hatrack/support/mmm.c:237-383 | in linked runs an overwritten record is retired or its overwriter is about to; a retired one is freed or in some thread's garbage; an idle thread has no reservation |
| LohatAlone.ComesNearer | src/hatrack/hash/lohat.c:360-1027 | a thread that is not idle can always step, and comes nearer to the end of its operation by it if no other moves |
| LohatUnlinked.UnlinkedPushFreesTooEarly | src/hatrack/hash/lohat.c:782-817 | after any linked run and a push that is not linked, linked pushes alone lead to a step that touches a freed record |
| LohatUnlinked.LinkedMoveExactly | src/hatrack/hash/lohat.c:580-1027 | after a linked run, a move is linked if and only if no schedule of linked pushes that follows it leads to a step that touches a freed record |
| LohatUnlinked.SafeExactlyInLinkedRuns | include/hatrack/lohat.h:202-238 | every push of a run is linked if and only if, from each of its states, no schedule of linked pushes leads to a step that touches a freed record |
| LohatUnlinked.RunsThatAreNotLinkedEndanger | src/hatrack/hash/lohat.c:782-817 | a run that is not linked has a first push that is not, and from there linked pushes alone lead to a step that touches a freed record |
| LohatCounterexamples.ReplaceRetryFreesTooEarly | src/hatrack/hash/lohat.c:782-817 | such a run exists: a replace that lost a race starts over, and a view steps onto a freed record |
| LohatCounterexamples.RetireEpochIsLate | include/hatrack/lohat_common.h:105-115 | a clean run in which the record on top committed at epoch 3 and the one below is retired at epoch 4 |
| LohatTheorems.ChainsHoldExactlyInCleanRuns | include/hatrack/lohat.h:175-200 | chains are complete and only heads lack an epoch, in all states of a run, if and only if every push of the run was clean |
| LohatTheorems.UncleanMoveBreaksChain | src/hatrack/hash/lohat.c:782-1018 | an unclean push breaks a chain in the very next state |
| LohatTheorems.CleanPushExactly | src/hatrack/hash/lohat.c:580-1027 | put is always clean; add and remove are clean exactly if the head they replace has its epoch; replace exactly if it still leads to the head |
| LohatTheorems.PlainRunsAreClean | src/hatrack/hash/lohat.c:360-726 | runs of puts, gets and views are clean however they interleave |
| LohatTheorems.CommitOrder | include/hatrack/mmm.h:196-212 | in clean runs write epochs strictly decrease down a chain, and only the top may lack one |
| LohatSnapshot.StepKeepsSnap | src/hatrack/hash/lohat.c:360-1027 | every clean step keeps the snapshot invariant: what a view has passed over is later than its epoch, and what can still be committed there will be |
| LohatTheorems.ViewIsSnapshot | src/hatrack/hash/lohat.c:360-461 | a finished view has exactly the table made by the writes up to its epoch, replayed one after the other, as records; `LohatTable.ViewShowsOutcome` says which items these are |
| LohatTheorems.ViewIsSettled | include/hatrack/mmm.h:408-415 | when a view has finished, no record can still get an epoch up to the view's |
| LohatTheorems.ViewsAreLinearizable | include/hatrack/lohat.h:126-145 | what a view returned is the table of its epoch in that state and in every state that can follow |
| LohatTable.ViewShowsOutcome | src/hatrack/hash/lohat.c:360-461 | in every clean run a finished view shows, as items, the empty table after the operations with write epochs up to its own, carried out in the order of those epochs |
| LohatTable.OrdersAgree | include/hatrack/mmm.h:196-212 | once every record of a clean run has its epoch, the order of the epochs and the order of the pushes lead to the same table |
| LohatTheorems.LaterCommitsAreNotSeen | include/hatrack/mmm.h:408-415 | a record without an epoch when a view finishes gets one later than the view's |
| LohatLoneView.LoneViewFinishes | src/hatrack/hash/lohat.c:360-461 | a new thread can run a view alone to its end, from every state |
| LohatLoneView.UncleanPushSpoilsView | src/hatrack/hash/lohat.c:782-1018 | after any unclean push from a good state, the view that a new thread runs alone returns a table other than that of its epoch |
| LohatLoneView.CleanMoveExactly | src/hatrack/hash/lohat.c:580-1027 | a move from a good state is clean if and only if lone views are right after it |
| LohatLoneView.ViewsAreSnapshotsExactlyInCleanRuns | include/hatrack/lohat.h:126-200 | every push of a run is clean if and only if lone views are right in all its states |
| LohatCounterexamples.RemoveOverPutBreaksView | src/hatrack/hash/lohat.c:985-1018 | a reachable state in which a view found a put where nothing had been written by its epoch, after a remove went over an uncommitted put |
| LohatCounterexamples.ReplaceRetryBreaksView | src/hatrack/hash/lohat.c:782-816 | a reachable state in which a view found an overwritten record, after a replace linked past the record that beat it |
| Styles.CleanStyles | include/util/style.h:312-348 | the in-place compaction leaves the cleaned runs, the entries behind the count unchanged, and a string without styling alone |
| Styles.CleanIsDisjoint | include/util/style.h:312-348 | the runs are disjoint and increasing, whatever the entries were |
| Styles.CleanIsIdempotent | include/util/style.h:312-348 | cleaning again changes nothing, and exactly the disjoint lists are fixed |
| Styles.CleanKeepsStylesExactly | include/util/style.h:329-346 | every codepoint keeps the style of the first entry that covers it if and only if no entry reaches back into a gap |
| Styles.SortedKeepsStyles | include/util/style.h:329-346 | on entries sorted by start every codepoint keeps its style |
| Styles.UnsortedLosesStyle | include/util/style.h:329-346 | two entries out of order of which one is lost |

## Left out

* The tables are modelled on values, as a state machine whose steps are single accesses to shared memory, and
  not as classes: what matters about them is how the steps of different threads interleave.
* Sequentially consistent memory is assumed for the tables: every shared access is atomic and takes effect at
  once. Compiler and memory fences are not modelled.
* Bucket lookup and acquisition (`hv`, probing, `used_count`), table migration and its flag bits, the item
  count, and the flags by which operations report success: the model starts at the record chain of a bucket and
  ends at the record that a result is read from. The other tables (witchhat, woolhat, crown, hihat and so on) are not part of this model.
* Thread ids are never given back, and there is no limit to their number (`mmm_thread_release`,
  `mmm_reset_tids`); cleanup handlers and `mmm_retire_fast` are left out.
* The epoch counter does not wrap at 2^64.
* A record's address is never given out again. In linked runs this loses nothing for the compare-and-swaps on
  heads, because an expected head is in memory until the swap (`ExpectedHeadIsLive`).
* The fields of a record that never change once it is pushed (item, deleted flag, create epoch, next) are read
  together in one step where the code reads them one after the other.
- LohatSafety.NothingFreedIsTouched: holds of linked runs only. `SafeExactlyInLinkedRuns` is exact about what can follow a run; whether a given run with an unlinked push has itself touched freed memory depends on its schedule and is not characterised.
- LohatSafety.ExpectedHeadIsLive: holds of linked runs only, as above.
- LohatTheorems.ViewIsSnapshot: holds of clean runs only; that clean pushes are needed is `ViewsAreSnapshotsExactlyInCleanRuns`. Which of the views that overlap with other operations are right in an unclean run is not characterised.
- LohatTheorems.LaterCommitsAreNotSeen: holds of clean runs only; `LohatReplay.LaterPushesAreNotSeen` and `LohatReplay.SettledExactly` hold of all runs.
- Xxh3Null.NullHashExactly: keys of more than 16 bytes are not covered, because their hash cannot be undone.
- Xxh64.State.Digest: once more than 2^64 bytes have been fed and the 64-bit length counter has wrapped to less than 32, the code takes the short branch; no statement is made about the digest then, which could agree with the one-shot hash only by accident. Lengths of one-shot inputs are below 2^64 anyway.
- Xxh3Stream.State.Digest64: stated for fewer than 2^64 bytes, the longest input the one-shot function takes.
- Xxh3Stream.State.Digest128: stated for fewer than 2^64 bytes, as above.
- Xxh3Stream.State.ResetWithSecret: the secret is taken as a value; that a caller must keep the buffer of an external secret unchanged until the last digest is not modelled.
- ChangesXxh.OneByteChanges64: a byte in a whole stripe changes one lane (`ChangesXxh.FoldChanges`), but the four lanes are joined by a sum of rotations and by rounds of the lanes, after which a change may in principle be lost.
- ChangesXxh3.OneByteChangesAcc: stated for the accumulator; `ChangesXxh3.FinishMid128Exactly` says which accumulators have the same hash. Bytes in two overlapping pieces are not covered, because they change the accumulator twice.
- ChangesXxh3.OneByteChangesMidAcc: as above.
- ChangesXxh3.OneByteChanges17To128: asks that the other word of the piece, with the secret, is one, because the fold of a product may lose a change of a factor.
- ChangesXxh3.OneByteChanges129To240: as above.
- ChangesXxh3.EveryLaneCounts: asks that the partner is one, for the same reason.
- ChangesXxh3.OneByteChangesLongAcc: stated for the accumulators; what of them reaches the hash is `ChangesXxh3.EveryLaneCounts`. Bytes in both the last stripe of the loop and the overlapping last 64 bytes are not covered.
* Null pointers for the state or the input and the error codes for them; memory allocation of states, copies
  of states, and `XXH_alignedMalloc` / `XXH_alignedFree`, whose address arithmetic is easy.
* The AVX2, AVX-512, NEON and VSX kernels: the scalar and the SSE2 kernels are proved equal to one lane form,
  the other kernels are not modelled.
* XXH_swap64 is byte reversal by definition; its mask-and-shift fallback is not modelled. Reads are
  little-endian loads; alignment and the choice among the ways to load do not matter to them.
* Inputs, secrets and buffers of `XXH_FORCE_INLINE` helpers are values rather than pointers; aliasing between
  input and state is excluded by `restrict` or by the contract in the source.
* Collision behaviour in general, where collisions exist: beyond 16 bytes in 128 bits, and beyond 8 bytes in the
  64-bit XXH3. What a changed byte is certain to change there is in `ChangesXxh.dfy` and `ChangesXxh3.dfy`.
* The other functions of `style.h` (copying, offsets, bit masks), which are easy. Entries have unbounded
  positions: cleaning only compares them. That `num_entries` is narrowed to an `int` for one test is left out.
