# vsclib in Dafny

This project models the parts of vsclib that carry invariants, and proves them:

- **Hash map** (`HashTable`, `BackShift`, `LoadFactor`, `HashMap`, `HashMapRuns`, `AutoResize`,
  `KeyProcs`): open
  addressing with linear probing, back-shift deletion, growth by redistribution and load-factor arithmetic
  on 16-bit fractions. A map stands for a finite map from keys to entries; one invariant (every bucket from an
  entry's home to its place is occupied, keys are unique, `size` is the number of occupied buckets) carries
  the proofs.
- **xxHash** (`Stripes`, `XxhStriped`, `Xxh32`, `Xxh64`, `XxhAnswers`, `Xxh3Engine`, `Xxh3State`, `Xxh3Kernel`,
  `Multiply`, `Xxh3Reads`, `Xxh3ShortAnswers`, `Xxh3LongAnswers`, `Xxh3Answers`): streaming equals one-shot for every
  way of cutting the input, for XXH32, XXH64 and the 64-bit XXH3. The streaming proofs hold for any stripe and round
  functions; the concrete ones are then plugged in. Every read of input and secret is proved to be in range. Known
  answers tie the arithmetic to the published algorithms: every length class, seeds, the default secret and another.
- **Allocator** (`Memory`, `AllocatorBlock`, `Allocator`, `SystemAllocator`, `AllocatorLaws`,
  `AllocatorBounds`, `AllocatorShifts`, `AllocatorRuns`): headers, back-links and payloads in a byte-addressed memory.
- **Block layout** (`BlockLayout`): the two passes of `vsc_block_xalloc`.
- **CRC-32 and CRC-32C** (`BitDivision`, `Crc32Words`, `Crc32Tables`, `Crc32`, `Crc32Laws`, `Crc32Answers`): the table loop
  against long division of polynomials over GF(2) (section C.3 of RFC 1662, section 12.1 of RFC 3720).
- **Text** (`GetDelim`, `DelimText`, `Uuid`): the record reader (getdelim() in the System Interfaces volume of
  POSIX.1-2017), delimiter splitting and joining, UUID printing and parsing (section 3 of RFC 4122).

`dafny verify dfyconfig.toml` checks everything.

## How the code is read

- The target has 64-bit `size_t`. Words whose wrap-around matters are written out (`SizeT`, `WrapMul`, bit
  vectors); where the code adds or multiplies sizes without a guard, a precondition says that the sum or product fits.
- Allocation is a parameter: a yes or no, an address, or for the system allocator an address together with the
  memory the system leaves. `Allocator.Granted` says what the system promises: 8-aligned, apart from the blocks it
  still has out, and with reallocation the common prefix. Nothing is assumed of the other bytes.
- `vsc_assert` is taken to be off, as in a release build: what the code then does is modelled.
- User callbacks are functions of everything they have been shown so far.
- Keys and values are pointers (natural numbers, `NULL` is 0). The user's hash never yields the invalid hash in the
  laws a map asks for; the code's own test for it is modelled all the same.

## Where the code and its comments differ

- `vsc_hashmap_update` is documented to return 1 when the key is found; the code returns 0, and so does the model.
- `vsc_hashmap_string_compare` answers 0 for two equal pointers, so that no key equals itself
  (`KeyProcs.StringCompareUnlawful`).
- Back-shift deletion compares indices without regard to the end of the array. `BackShift.RemoveExact` gives the exact
  condition on the occupied buckets under which it is right, and `BackShift.TestMissesEntry` the state the repository's own
  test pins, in which a lookup misses an entry.
- A shrinking `vsc_hashmap_resize` drops the tail; if its second allocation fails the array is already cut while
  `num_buckets` is not. `HashMap.VscHashMap.Resize` describes it.
- The overflow guard of `maybe_resize` uses the maximum denominator, the request the minimum one. The guard is enough
  for every table exactly when `min_den <= max_den` or `min_den <= 24` (`LoadFactor.CoversExact`). Otherwise a request
  can wrap: to fewer buckets than entries, which is refused; to a lossy shrink (`AutoResize.InsertionLosesEntries`); or
  to nothing to do (`AutoResize.FullTableRefuses`). `HashMap.VscHashMap.Insert` says what happens in every case.
- `vsc_block_xalloc` calls a failure of its second pass impossible; `BlockLayout.UnalignedBaseMisses` has one, and
  `BlockLayout.BlockAlloc` says exactly when it happens.
- A reallocation writes the back-link before it moves the payload. `AllocatorBlock.UnderLink` is what is left,
  `AllocatorBlock.SurvivesIffClear` says for which shifts that is everything, `AllocatorShifts.SurvivesExact` what a
  caller can check beforehand, and `AllocatorBounds.LinkDestroysPayload` shows a heap in which a payload changes.
- The move copies the old size. `AllocatorBounds.ContainedExact` says exactly when it writes outside the new block,
  `AllocatorShifts.SafeExact` what a caller can check beforehand, and `AllocatorBounds.ShrinkingDestroysNeighbour`
  shows a heap that does not survive it. A reallocation that passes both checks keeps everything
  (`AllocatorLaws.CheckedReallocKeeps`).
- When `vsc_block_xalloc` finds that a block does not fit it clears the array of addresses, but not the `out` cells it
  has already filled (`BlockLayout.BlockAlloc`).

## Model

| member | source | states |
|---|---|---|
| `HashTable.LawfulHasView` | vsclib/hashmap.c:67-77 | the hash and compare procedures are lawful (compare is an equivalence the hash respects) exactly when keys can be named so that compare is equality of names |
| `HashTable.LandsComplete` | vsclib/hashmap.c:179-209 | where the circular scan stops, no other bucket holds an equal key |
| `HashTable.LandsKeepsSound` | vsclib/hashmap.c:179-209 | storing where the scan stops keeps unique keys, right hashes and the probe invariant |
| `HashTable.LandsEntries` | vsclib/hashmap.c:179-209 | storing where the scan stops sets exactly that key in the map, and counts it as new exactly when it was not mapped |
| `HashMap.AddOrReplaceBucket` | vsclib/hashmap.c:179-209 | stores into the bucket with an equal key or the first empty one on the circular path, or refuses a full table without the key and then changes nothing |
| `HashMap.PlaceMeaning` | vsclib/hashmap.c:179-209 | storing a bucket sets one key of the map and keeps the invariant; it is refused exactly when the table is full and the key not mapped |
| `HashMap.Redistribute` | vsclib/hashmap.c:211-285 | every entry is rehashed once into the new array, no inner insertion fails, and the entries are the same |
| `HashMap.VscHashMap.Resize` | vsclib/hashmap.c:211-285 | the returned status for every size and either allocation failing; after success the entries of the kept prefix, rehashed; after failure nothing has changed, but that a failed second allocation of a shrinking call has cut the bucket array |
| `HashMap.ResizedMeaning` | vsclib/hashmap.c:211-285 | a resize keeps the whole map exactly when no dropped bucket was occupied, as is always so when the array does not shrink |
| `HashMap.ResizeOutcomeExact` | vsclib/hashmap.c:211-262 | EINVAL, ERANGE and ENOMEM each by its exact condition |
| `HashMap.VscHashMap.Configure` | vsclib/hashmap.c:130-161 | takes exactly the positive fractions below 1 whose minimum is at most the maximum, stores them, and otherwise changes nothing |
| `LoadFactor.CeilBounds` | vsclib/hashmap.c:287-299 | intceil is the least integer not below the quotient |
| `LoadFactor.GuardPreventsWrap` | vsclib/hashmap.c:301-345 | the guards before the products rule out wrap-around |
| `LoadFactor.GuardCoversRequest` | vsclib/hashmap.c:301-345 | the second guard, made with the maximum denominator, covers the request when the minimum denominator is not larger, or at most 24, the size of a bucket |
| `LoadFactor.CoversExact` | vsclib/hashmap.c:301-345 | that test on the fractions is exact: without it some table of allowed size passes both guards and its request wraps |
| `LoadFactor.RequestExact` | vsclib/hashmap.c:337-344 | the request meets the minimum load exactly when its product does not wrap |
| `LoadFactor.GuardMissesRequest` | vsclib/hashmap.c:301-345 | an input where it wraps to fewer buckets than there are entries |
| `AutoResize.RequestShrinks` | vsclib/hashmap.c:301-345 | an input where it wraps to more than the entries and fewer than the buckets, so that the automatic resize is a shrink and succeeds |
| `AutoResize.InsertionLosesEntries` | vsclib/hashmap.c:347-381 | an insertion into any such table answers Ok; an entry beyond the new length is lost and size is wrong |
| `AutoResize.FullTableRefuses` | vsclib/hashmap.c:347-381 | an input where it wraps to the very number of entries, and a full table under the load-factor policy refuses a new key |
| `LoadFactor.RequestGrows` | vsclib/hashmap.c:301-345 | a triggered request whose product does not wrap is for strictly more buckets than there are and for at least (size + 1) * min_den / min_num |
| `LoadFactor.BelowThresholdHasRoom` | vsclib/hashmap.c:301-345 | when no resize is triggered a bucket is free |
| `LoadFactor.DecideSound` | vsclib/hashmap.c:301-345 | what maybe_resize decides: refuse with a status that fits the policy, enough when a bucket is free, or grow, by a request that meets the minimum load exactly when it does not wrap, and then really grows |
| `LoadFactor.ThresholdExact` | vsclib/hashmap.c:319-324 | a resize is due exactly when size * max_den >= buckets * max_num |
| `LoadFactor.DecideExact` | vsclib/hashmap.c:301-345 | every decision by its exact condition in those products, the two guards as bounds on products |
| `LoadFactor.RequestLeast` | vsclib/hashmap.c:337-344 | the request is the least count of at least 16 buckets at which the product, as computed, meets the minimum load |
| `LoadFactor.DefaultGrowth` | vsclib/hashmap.c:301-345 | with the fractions a map starts with: 16 buckets for the first entry, nothing up to the twelfth, 26 for the thirteenth |
| `HashMap.LoadFactorFullExact` | vsclib/hashmap.c:347-381 | under the load-factor policy insertion reports a full table exactly when it is full, the key is new and the request has wrapped to the number of entries |
| `HashMap.LoadFactorNeverFull` | vsclib/hashmap.c:347-381 | so never when the request does not wrap |
| `HashMap.InsertedMeaning` | vsclib/hashmap.c:347-381 | after any insertion the map is the one of the buckets the resize kept, with the key set; nothing is lost, and size is right, exactly when no dropped bucket was occupied |
| `HashMap.VscHashMap.Insert` | vsclib/hashmap.c:347-381 | for every request, wrapped or not, the exact status, table and size; the bucket count changes only when size * max_den >= buckets * max_num and the policy allows it; for those that do not wrap, the map with the key set when it is Ok and unchanged when it is not |
| `HashMap.InsertStatusExact` | vsclib/hashmap.c:301-381 | for a request that does not wrap, ERANGE, ENOMEM and ENOSPC each by its exact condition in plain numbers |
| `HashTable.LookupsExact` | vsclib/hashmap.c:407-447 | lookups are right for every key exactly when every bucket from an entry's home to its place is occupied; otherwise a mapped key is missed |
| `HashMap.VscHashMap.FindBucket` | vsclib/hashmap.c:407-447 | on any table with right hashes and unique keys, damaged or not: the first match from the key's home with no empty bucket before it; on a sound one that is the bucket of an equal key exactly when the key is mapped |
| `HashMap.AbsentAtGap` | vsclib/hashmap.c:407-447 | a scan that reaches an empty bucket without a match proves the key is not mapped |
| `HashMap.VscHashMap.Find` | vsclib/hashmap.c:449-457 | the mapped value when the scan finds it, NULL otherwise; on a sound table NULL exactly for what is not mapped or mapped to NULL |
| `HashMap.VscHashMap.FindByHash` | vsclib/hashmap.c:383-405 | answers with the value of an entry with that hash exactly when there is one |
| `HashMap.HashAbsent` | vsclib/hashmap.c:383-405 | a scan for a hash that reaches an empty bucket, or goes all round, proves no entry has it |
| `HashMap.VscHashMap.Update` | vsclib/hashmap.c:459-469 | replaces the value of a mapped key and answers 0; answers 1 and changes nothing for others |
| `HashMap.VscHashMap.Clear` | vsclib/hashmap.c:120-128 | the empty map, in the same buckets |
| `HashMap.VscHashMap.Enumerate` | vsclib/hashmap.c:547-564 | the callback sees the occupied buckets in order up to its first nonzero answer, which is returned |
| `HashMap.InOrderShowsAll` | vsclib/hashmap.c:547-564 | enumeration shows every entry once |
| `HashMap.VscHashMap.SizeIsCardinality` | vsclib/hashmap.c:508-512 | size is the number of keys in the map |
| `HashMap.VscHashMap.SetPolicy` | vsclib/hashmap.c:526-534 | sets the policy and returns the old one |
| `HashMap.VscHashMap.Remove` | vsclib/hashmap.c:471-506 | the old map minus the key and the removed value, always; the probe invariant too when the run of occupied buckets does not cross the end of the array |
| `HashMap.VscHashMap.FillGap` | vsclib/hashmap.c:482-503 | the back-shift loop, on the array, is the function its theorems are about |
| `BackShift.RemoveKeepsOthers` | vsclib/hashmap.c:471-506 | in every case, full and wrapped tables included, removal keeps the multiset of all other entries and the count |
| `BackShift.RemoveRestores` | vsclib/hashmap.c:471-506 | removal restores the probe invariant when the run does not cross the end |
| `BackShift.RemoveExact` | vsclib/hashmap.c:490-503 | for every pattern of occupied buckets, removal is right whatever the entries' homes exactly when the run does not cross the end |
| `BackShift.TestStrandsEntry` | tests/hashmap.cpp:98-136 | the state the repository's own test pins: it is well formed, and after the removal an entry sits behind an empty bucket |
| `BackShift.TestMissesEntry` | tests/hashmap.cpp:98-136 | after that removal "e" is still mapped to its value, and a lookup does not find it |
| `HashMapRuns.Step` | vsclib/hashmap.c:347-506 | one call of the object gives the answer and the table of a state machine that knows only the state, the call and the allocator's answers |
| `HashMapRuns.Run` | vsclib/hashmap.c:347-506 | so does every sequence of insertions, updates, lookups, removals, clears, resizes and changes of policy or fractions |
| `HashMapRuns.AnswerMeaning` | vsclib/hashmap.c:347-506 | what the answers are in terms of the finite map |
| `HashMapRuns.RunMeaning` | vsclib/hashmap.c:347-506 | over every run, whatever the fractions, the state machine's table is well formed and stands for the map the calls describe; passed over are only insertions whose request wraps, shrinking resizes and removals whose run crosses the end |
| `HashMapRuns.RunInsertsAll` | vsclib/hashmap.c:301-345 | when the fractions a run starts with and those it configures pass the exact test, no insertion of the run is passed over |
| `HashMapRuns.RunNeverFull` | vsclib/hashmap.c:347-506 | under the load-factor policy no call of a run reports a full table |
| `HashMapRuns.FirstGrowth` | vsclib/hashmap.c:301-381 | a run of insertions of different keys into a new map leaves 16 buckets from the first on and 26 at the thirteenth |
| `KeyProcs.DefaultLawful` | vsclib/hashmap.c:566-574 | the default procedures are lawful |
| `KeyProcs.DefaultExact` | vsclib/hashmap.c:566-574 | a pointer is its own hash and only equal to itself |
| `KeyProcs.StringCompareExact` | vsclib/hashmap.c:581-590 | string comparison is right exactly when the pointers differ or there is no string |
| `KeyProcs.StringCompareUnlawful` | vsclib/hashmap.c:581-590 | no key compares equal to itself, so with any hash the string procedures are not lawful |
| `Stripes.FoldAppend` | vsclib/xxhash.h:2438-2484 | hashing the stripes of a concatenation is hashing those of the first part, then those of its tail followed by the second |
| `XxhStriped.OneShot` | vsclib/xxhash.h:2338-2380 | the one-shot stripe loop computes the hash defined by folding whole stripes and finishing the tail |
| `XxhStriped.Absorb` | vsclib/xxhash.h:2438-2484 | buffering a partial stripe, completing it, and consuming the whole ones is folding over the buffered bytes followed by the input |
| `Xxh32State.State.Update` | vsclib/xxhash.h:2438-2484 | the state invariant that ties lanes, buffer and counters to the bytes consumed, for inputs of any length |
| `Xxh32State.LargeUpdate` | vsclib/xxhash.h:2446-2449 | the large flag records that 16 bytes were seen although the 32-bit length wraps |
| `Xxh32State.Stream` | vsclib/xxhash.h:2424-2508 | reset, any updates, digest: the hash of the concatenation |
| `Xxh32.FinalizeLoop` | vsclib/xxhash.h:2260-2340 | the tail loops by fours and then ones |
| `Xxh32Api.Xxh32BothWays` | vsclib/xxhash.h:2379-2395 | XXH32 streamed in any chunks and in one call agree, whatever the length |
| `Xxh64State.State.Update` | vsclib/xxhash.h:2879-2925 | the same invariant for 32-byte stripes |
| `Xxh64State.Stream` | vsclib/xxhash.h:2866-2947 | reset, any updates, digest: the hash of the concatenation, below 2^64 bytes |
| `Xxh64Api.Xxh64BothWays` | vsclib/xxhash.h:2788-2835 | XXH64 streamed in any chunks and in one call agree |
| `XxhAnswers.Xxh32Answers` | vsclib/xxhash.h:2258-2385 | known answers of XXH32: no bytes, 11 bytes, and with a seed 27, so that every step and constant takes part |
| `XxhAnswers.Xxh64Answers` | vsclib/xxhash.h:2742-2825 | known answers of XXH64: no bytes, 15 bytes, and with a seed 47 |
| `Xxh3Engine.AbsorbAppend` | vsclib/xxhash.h:5225-5246 | absorbing stripes with scrambles at block ends splits at any stripe |
| `Xxh3Engine.AccAbsorbs` | vsclib/xxhash.h:4826-4841 | accumulating a run of stripes inside a block is absorbing them one at a time |
| `Xxh3Engine.ConsumeStripes` | vsclib/xxhash.h:5224-5246 | XXH3_consumeStripes absorbs its stripes from any position in a block, scrambling exactly when a block ends |
| `Xxh3Engine.HashLong` | vsclib/xxhash.h:4843-4874 | the one-shot block loop computes the accumulators defined stripe by stripe, last overlapping stripe included |
| `Xxh3Engine.OneShot` | vsclib/xxhash.h:5006-5026 | the one-shot hash with its short and long paths |
| `Xxh3State.ConsumeBlocks` | vsclib/xxhash.h:5289-5331 | the branch that finishes the current block and takes whole blocks leaves at least one byte and absorbs exactly what it passes |
| `Xxh3State.UpdateStream` | vsclib/xxhash.h:5256-5369 | one update keeps the streaming invariant: accumulators absorbed a prefix, the buffer holds the rest, and its last 64 bytes are the ones before it when it holds less than a stripe |
| `Xxh3State.DigestLong` | vsclib/xxhash.h:5380-5412 | digest rebuilds the overlapping last stripe from the buffer and gives the accumulators of the whole input without changing the state |
| `Xxh3State.State.ResetWithSeed` | vsclib/xxhash.h:5198-5208 | after every reset a cached derived secret belongs to the stored seed, so skipping the derivation is sound |
| `Xxh3State.State.Update` | vsclib/xxhash.h:5256-5369 | the bytes consumed grow by the input and the state stays ready |
| `Xxh3State.State.Digest` | vsclib/xxhash.h:5415-5430 | the one-shot hash of the bytes consumed |
| `Xxh3State.Stream` | vsclib/xxhash.h:5178-5430 | any reset on a state with any history, any updates, digest: the reference hash of the concatenation |
| `Xxh3Kernel.Xxh3Proper` | vsclib/xxhash.h:4692-4758 | the default and the derived secret are long enough for the streaming theorem |
| `Xxh3Kernel.InitCustomSecret` | vsclib/xxhash.h:4692-4758 | the secret derived in place is the one defined word by word from the seed |
| `Xxh3Kernel.ScalarRounds` | vsclib/xxhash.h:4612-4651 | eight sequential scalar rounds give the lane-parallel update of every lane from itself and its neighbour |
| `Xxh3Kernel.Accumulate512Scalar` | vsclib/xxhash.h:4635-4651 | so does the accumulation of a stripe with the real lane arithmetic |
| `Xxh3Api.Xxh3BothWays` | vsclib/xxhash.h:5029-5057 | XXH3 64-bit, default, seeded, with a secret of 136 bytes or more, or with both: streamed in any chunks and in one call agree |
| `Xxh3Answers.ZeroAnswersTo33` | vsclib/xxhash.h:3823-3980 | known answers of XXH3 for inputs of zeros of 0, 1, 3, 4, 8, 9, 16, 17, 32 and 33 bytes, the ends of the length classes |
| `Xxh3Answers.ZeroAnswersFrom64` | vsclib/xxhash.h:3948-4010 | and of 64, 65, 96, 97, 128, 129, 240 and 241 |
| `Xxh3Answers.TextAnswers` | vsclib/xxhash.h:3823-3890 | known answers for the text ab, and with a seed for 0, 3 and 7 bytes |
| `Xxh3Answers.SampleAnswers` | vsclib/xxhash.h:3855-3980 | with a seed, for 13 and 120 bytes that vary |
| `Xxh3Answers.LongerSampleAnswers` | vsclib/xxhash.h:3986-4025 | with a seed, for 144 bytes that vary |
| `Xxh3Answers.LongSampleAnswer` | vsclib/xxhash.h:4880-4935 | for 248 bytes that vary: three stripes and the last |
| `Xxh3Answers.OwnSecretAnswers` | vsclib/xxhash.h:4880-5057 | with a secret of 136 bytes, and with one and a seed: a block, its scramble and one byte more, and short inputs |
| `Xxh3Answers.DerivedWords` | vsclib/xxhash.h:4692-4758 | word by word, the secret of a seed is the default one with the seed added and subtracted by turns, for every seed |
| `Xxh3Api.VscHash` | vsclib/hash.c:27-43 | the library's hash is XXH3 with seed 0, and the invalid hash for NULL data of positive size |
| `Multiply.Mult64to128Exact` | vsclib/xxhash.h:3719-3733 | the portable multiply gives the exact 128-bit product |
| `Multiply.CombineExact` | vsclib/xxhash.h:3719-3733 | and no intermediate sum wraps |
| `Multiply.OrIsSum` | vsclib/xxhash.h:3729-3733 | the OR of the two halves is their sum |
| `Multiply.SplitEqualsScalar` | vsclib/xxhash.h:4258-4262 | the split multiply of the vector code is the scalar 64-bit multiply |
| `AllocatorBlock.FormatWorks` | vsclib/allocator.cpp:128-140 | after the writes the block has its header and, with padding, its back-link |
| `AllocatorBlock.Mem2HdrFinds` | vsclib/allocator.cpp:53-67 | from the data pointer the signature or the back-link leads to the block's own header |
| `AllocatorBlock.FormatLeaves` | vsclib/allocator.cpp:128-148 | the old payload once the link is written: itself, but for the eight bytes of the link where they fall on it |
| `AllocatorBlock.SurvivesIffClear` | vsclib/allocator.cpp:128-148 | for each link: every payload of n bytes survives the link of a reallocation from shift s to shift t exactly when t <= s or t >= s + n + 8 |
| `AllocatorBlock.UnderLinkAt` | vsclib/allocator.cpp:128-148 | which byte of the link or the payload each byte is |
| `AllocatorBlock.PlacedIsLaid` | vsclib/allocator.cpp:122-154 | everything malloc_ writes: layout, kept payload, cleared tail, and nothing outside the block, when the move stays inside it |
| `AllocatorBlock.WriteInData` | vsclib/allocator.cpp:42-67 | a write from the data on keeps header and link and stays in the block |
| `Allocator.LivePointer` | vsclib/allocator.cpp:53-73 | of every live pointer: the payload is inside its raw block and clear of header and link |
| `Allocator.LiveAligned` | vsclib/allocator.cpp:69-73 | every live pointer is a multiple of its alignment |
| `Allocator.LiveHeader` | vsclib/allocator.cpp:53-67 | mem2hdr returns exactly its own header, which holds its size and alignment |
| `Allocator.LiveApart` | vsclib/allocator.cpp:82-154 | raw blocks, and so payloads, headers and links, of two live pointers never meet |
| `Allocator.PlacedKeeps` | vsclib/allocator.cpp:82-154 | an allocation or reallocation that writes nothing outside its block keeps the heap invariant, every other payload and every other system block; its own payload is the old one under the link, and its tail is zero on request |
| `AllocatorBounds.ContainedExact` | vsclib/allocator.cpp:142-148 | a reallocation leaves every byte outside the new block alone, whatever memory holds, exactly when the shift is unchanged or the old size fits behind the new one |
| `AllocatorBounds.ShrinkingDestroysNeighbour` | vsclib/allocator.cpp:142-148 | a sound heap of two blocks in which shrinking the first writes over the header of the second, which the allocator then no longer finds |
| `AllocatorBounds.ReadsOutsideOnlyShrinking` | vsclib/allocator.cpp:142-148 | a contained move reads past the new block only when size and shift both shrink; the heap does not depend on it |
| `AllocatorBounds.LinkDestroysPayload` | vsclib/allocator.cpp:121-148 | a sound heap in which a reallocation in place to the same size at alignment 64 writes nothing outside its block, and byte 32 of a payload of zeros comes out as 64 |
| `AllocatorShifts.ShiftPossible` | vsclib/allocator.cpp:118-131 | whatever address the system returns, a multiple of g, the shift is a multiple of the smaller of alignment and g, from the header's size on and less than the alignment above it |
| `AllocatorShifts.ShiftReached` | vsclib/allocator.cpp:118-131 | every such number is the shift of some address |
| `AllocatorShifts.SafeExact` | vsclib/allocator.cpp:97-148 | before the call: the reallocation writes inside its block at every address a system that aligns to g may return exactly when the old size fits behind the largest shift that is not the old one |
| `AllocatorShifts.SurvivesExact` | vsclib/allocator.cpp:97-148 | before the call: every payload's common bytes survive the link at every such address exactly when no possible shift is above the old one, or the link of the next one starts behind them |
| `AllocatorShifts.EightSafe` | vsclib/allocator.cpp:97-148 | for a system that aligns to 8 the first test says: the alignment is the minimum, or the block loses at most 8 bytes, 16 if the old shift is the largest |
| `AllocatorShifts.EightSurvives` | vsclib/allocator.cpp:97-148 | and the second: there is nothing to keep, or the old shift is the largest |
| `AllocatorShifts.CoarseKeeps` | vsclib/allocator.cpp:97-148 | on a system that aligns at least as far as is asked, a block with the one shift there is passes both, growing or shrinking |
| `Allocator.StoreKeeps` | vsclib/allocator.cpp:82-154 | a write inside a payload changes that payload alone |
| `Allocator.FreeKeeps` | vsclib/allocator.cpp:158-166 | giving a block back leaves the others alone |
| `SystemAllocator.Heap.Malloc` | vsclib/allocator.cpp:82-154 | EINVAL exactly when a reallocation lowers the alignment (at least 8), ENOMEM exactly when the system has nothing, both without effect; otherwise all that is written, and the new heap when that stays inside the block |
| `SystemAllocator.AlignmentInForce` | vsclib/allocator.cpp:91-124 | from the alignment as given: 8 is the least in force, the request is 24 bytes, the size and the alignment in force, and the data is its first multiple behind the header |
| `SystemAllocator.Heap.Place` | vsclib/allocator.cpp:128-151 | the writes in the order of the code |
| `SystemAllocator.Heap.Free` | vsclib/allocator.cpp:158-166 | the pointer is no longer live, the rest is as before |
| `SystemAllocator.Heap.Size` | vsclib/allocator.cpp:168-176 | the size asked for, 0 for NULL |
| `SystemAllocator.Heap.Emulate` | vsclib/memory.c:54-72 | the emulated reallocation keeps a block that is large enough, and otherwise the new payload starts with the whole old one, at any alignment |
| `AllocatorRuns.RunKeeps` | vsclib/allocator.cpp:82-176 | over every run of allocations, reallocations, frees and payload writes that write nothing outside their blocks the invariant holds, and allocations the run does not touch keep place and payload |
| `AllocatorLaws.GrowingIsContained` | vsclib/allocator.cpp:118-148 | a reallocation that does not shrink moves inside the new block |
| `AllocatorLaws.SameShiftIsContained` | vsclib/allocator.cpp:142-148 | so does one that keeps its shift |
| `AllocatorLaws.ReallocKeeps` | vsclib/allocator.cpp:106-154 | the bytes both sizes reach survive when the link is clear of them |
| `AllocatorLaws.FixedAlignmentKeepsPayload` | vsclib/allocator.cpp:106-154 | at a fixed alignment that divides the raw addresses they always survive, growing or shrinking |
| `AllocatorLaws.CheckedReallocKeeps` | vsclib/allocator.cpp:106-154 | a reallocation that passes both tests beforehand leaves a sound heap with every byte both sizes reach |
| `BlockLayout.Align` | vsclib/memory.c:155-172 | the least aligned address with room behind it, or nothing and no change |
| `BlockLayout.ComputeSize` | vsclib/memory.c:187-211 | pass 1 computes the size of the layout from offset 0, empty blocks' padding included, when no sum or product reaches 2^64 |
| `BlockLayout.BumpBreaksAlignment` | vsclib/memory.c:191-195 | after the first block the size is never a multiple of twice the first alignment |
| `BlockLayout.BumpUnaligned` | vsclib/memory.c:191-195 | a first size that is not a multiple of its alignment is kept |
| `BlockLayout.BumpLeast` | vsclib/memory.c:191-195 | one that is becomes the least multiple from itself on that is not a multiple of twice the alignment |
| `BlockLayout.TotalExact` | vsclib/memory.c:187-210 | the size asked for is exactly the least that a layout of all blocks from offset 0 needs, empty ones included |
| `BlockLayout.NextClosest` | tests/memory.cpp:194-254 | 64 bytes at 8, then 1024 at 16: 1104 bytes are asked for, and the second block is at the next multiple of 16 |
| `BlockLayout.BumpNeeded` | vsclib/memory.c:187-262 | 16 bytes at 8, 12 at 4 and 8 at 16 ask for 56 bytes and fit a base that is 8 past a multiple of 16 |
| `BlockLayout.CountsAndDefaults` | vsclib/memory.c:187-262 | counts, an empty block and the allocator's own alignment, in an example |
| `BlockLayout.BlockAlloc` | vsclib/memory.c:174-265 | asks for the size of pass 1 at the first block's alignment; succeeds exactly when the layout fits, with exactly its addresses, NULL for empty blocks; otherwise ENOSPC and all NULL, or the allocator's failure; the out cells of the blocks placed, all or those before the first that ends too late, hold their addresses even then, the others are untouched |
| `BlockLayout.PointersLayout` | vsclib/memory.c:228-262 | the addresses are aligned and in order |
| `BlockLayout.BlocksApart` | vsclib/memory.c:228-262 | blocks that are not empty do not meet |
| `BlockLayout.BlockInside` | vsclib/memory.c:228-262 | and are inside the allocation |
| `BlockLayout.EndLeast` | vsclib/memory.c:228-262 | no in-order layout from the base ends earlier |
| `BlockLayout.FitsIffLayout` | vsclib/memory.c:228-262 | so the call succeeds exactly when some in-order layout fits what pass 1 asked for |
| `BlockLayout.AlignedBaseFits` | vsclib/memory.c:187-262 | from a base that every requested alignment divides it always succeeds, by monotonicity of pass 1 over pass 2 |
| `BlockLayout.FitsModulo` | vsclib/memory.c:187-262 | whether it succeeds depends only on the base modulo a common multiple of the alignments |
| `BlockLayout.FitsEverywhere` | vsclib/memory.c:187-262 | so it succeeds at every base the allocator can return exactly when it does at the finitely many below that multiple |
| `BlockLayout.UnalignedBaseMisses` | vsclib/memory.c:244-254 | from others the failure the comment calls impossible happens: 24 bytes, then any at 4096, from a base 16 short of a multiple of 4096 |
| `BitDivision.FeedDivides` | vsclib/crc32.c:158-167 | a shift register fed bit by bit holds the remainder of polynomial long division |
| `BitDivision.FeedLinear` | vsclib/crc32.c:158-167 | the register is linear in its start and its input |
| `BitDivision.FeedSplit` | vsclib/crc32.c:163-164 | eight steps are a function of the low byte, plus a shift |
| `BitDivision.WindowInjective` | vsclib/crc32.c:158-167 | two strings of at most 32 bits leave the same register exactly when they are equal |
| `BitDivision.Residue` | vsclib/crc32.c:169-189 | a register fed 32 bits ends at the residue exactly when they are its complement |
| `Crc32Words.StepsAlike` | vsclib/crc32.c:158-167 | a step on a word is a step on its register |
| `Crc32Words.RegisterInjective` | vsclib/crc32.c:158-167 | different words are different registers |
| `Crc32Tables.Crc32Steps` | vsclib/crc32.c:23-88 | all 256 entries of the first table are eight bit-steps of their index |
| `Crc32Tables.Crc32cSteps` | vsclib/crc32.c:90-155 | and of the second |
| `Crc32Tables.Crc32Select` | vsclib/crc32.c:23-88 | looking an index up gives its entry |
| `Crc32.ByteStep` | vsclib/crc32.c:163-164 | a table entry and a shift do what the eight bits of a byte do |
| `Crc32.Crc32x` | vsclib/crc32.c:158-167 | for every message, and any table generated by a polynomial, the loop computes the CRC defined by long division |
| `Crc32.VscCrc32` | vsclib/crc32.c:175-178 | with the CRC-32 table |
| `Crc32.VscCrc32c` | vsclib/crc32.c:186-189 | with the CRC-32C table |
| `Crc32Answers.Crc32Check` | vsclib/crc32.c:169-184 | the check value of CRC-32: the checksum of 123456789 is 0xcbf43926 |
| `Crc32Answers.Crc32cCheck` | vsclib/crc32.c:186-189 | and of CRC-32C: 0xe3069283 |
| `Crc32.AfterIsChecksum` | vsclib/crc32.c:158-167 | the bit-serial register and the long division agree |
| `Crc32Laws.PolynomialsRight` | vsclib/crc32.c:169-189 | the two polynomials are 0x04c11db7 and 0x1edc6f41 |
| `Crc32Laws.ResidueExact` | vsclib/crc32.c:169-189 | a message followed by a little-endian word leaves 0xdebb20e3 or 0xb798b438 exactly when the word is its CRC |
| `Crc32Laws.Affine` | vsclib/crc32.c:158-189 | the CRC of the exclusive or of three messages of one length is the exclusive or of their CRCs |
| `Crc32Laws.BurstDetected` | vsclib/crc32.c:158-189 | messages that differ only in a window of at most 32 bits have different CRCs |
| `GetDelim.GetDelimA` | vsclib/getline.c:29-80 | the exact outcome for any stream, buffer and allocation answers: the first record with a terminator behind it in a buffer grown by doubling, or the one error that applies |
| `GetDelim.ReadRecord` | vsclib/getline.c:44-79 | the loop: the record, the bytes consumed, the capacity |
| `GetDelim.ReadRecords` | vsclib/getline.c:29-80 | calls with one buffer until one fails return the records in order, and then the outcome, of a function of the stream, the buffer and the allocation answers |
| `GetDelim.ReadIsPrefix` | vsclib/getline.c:29-80 | which are always the first records of the stream |
| `GetDelim.ReadAllExact` | vsclib/getline.c:29-80 | and all of them exactly when the buffer can grow for the longest and a broken stream breaks after a delimiter |
| `GetDelim.RecordsWhole` | vsclib/getline.c:44-79 | the records of a stream concatenate to it, none empty, each with its delimiter at its end only, but that the last may have none |
| `GetDelim.OneDoubling` | vsclib/getline.c:54-70 | one doubling makes room for the next byte and the terminator, or fails as doubling for the whole record would |
| `GetDelim.GrownAlways` | vsclib/getline.c:54-70 | with memory to be had every capacity of at least 1 grows far enough, and no further than twice the need |
| `GetDelim.GrownExact` | vsclib/getline.c:54-70 | the capacity reached is the first of n, 2n, 4n and so on that is enough, every step allowed and granted |
| `GetDelim.OutcomeExact` | vsclib/getline.c:44-80 | a record that fits with its terminator is read without growing; otherwise EOVERFLOW and ENOMEM by the first doubling, or as from the doubled buffer |
| `GetDelim.ReadingEnds` | vsclib/getline.c:44-79 | where the loop stops, what it read is the record |
| `DelimText.ForEachDelim` | vsclib/for_each.c:26-53 | the callback sees the pieces in order up to its first nonzero answer; an inverted range is refused |
| `DelimText.JoinPieces` | vsclib/for_each.c:26-53 | joining the pieces of any string restores it |
| `DelimText.PiecesJoinExact` | vsclib/strjoin.c:100-136 | splitting a join gives the list back exactly when no element has the delimiter and the list is not the single empty string |
| `DelimText.PiecesExamples` | vsclib/for_each.c:26-52 | an empty piece between two delimiters, no piece in nothing |
| `DelimText.PiecesAtEnds` | vsclib/for_each.c:26-52 | empty pieces in front and behind |
| `DelimText.LeftInIsSplit` | vsclib/for_each.c:34-51 | the cursor loop with its special case for a trailing delimiter visits the pieces |
| `DelimText.StrNJoin` | vsclib/strjoin.c:100-136 | when the result fits a size_t: a buffer of exactly the computed size holding the join and its terminator, or NULL exactly for a NULL delimiter or element or a failed allocation |
| `DelimText.JoinSize` | vsclib/strjoin.c:108-119 | the sizing pass computes the length of the join |
| `DelimText.WrittenIsJoin` | vsclib/strjoin.c:124-133 | what the writing pass writes is the join |
| `DelimText.JoinExamples` | vsclib/strjoin.c:100-136 | the delimiter stands between elements, empty ones too |
| `Uuid.Format` | vsclib/uuid.c:48-74 | the text for the flags and a terminator, nothing behind it touched |
| `Uuid.Lengths` | vsclib/uuid.c:48-74 | 32, 36, 34 or 38 characters |
| `Uuid.TextCase` | vsclib/uuid.c:48-74 | no small letter a to f with the upper-case flag, no capital A to F without |
| `Uuid.TextChars` | vsclib/uuid.c:48-74 | every character: braces, dashes, and the two digits of each byte in the listed places, the high one first |
| `Uuid.Digits` | vsclib/uuid.c:26-27 | the digits are read back |
| `Uuid.DigitsBack` | vsclib/uuid.c:76-87 | denibble and the lower-case alphabet are inverse up to case |
| `Uuid.Parse` | vsclib/uuid.c:89-140 | Ok exactly for accepted texts, with all 16 bytes written; otherwise EINVAL |
| `Uuid.ParsedGrammar` | vsclib/uuid.c:89-140 | accepted are exactly 32 digits or 36 characters with dashes in their places, with both braces or none |
| `Uuid.RoundTrip` | vsclib/uuid.c:48-140 | every UUID printed with any flags is parsed back |
| `Uuid.Reformat` | vsclib/uuid.c:48-140 | every accepted text is its UUID printed again, up to letter case |

## Left out

- HashMapRuns.Run: passes over insertions whose request wraps (none when the fractions pass `LoadFactor.CoversExact`'s test) and shrinking resizes, both of which can lose entries, and removals whose run of occupied buckets crosses the end of the array, after which lookups may miss entries. `HashMap.VscHashMap.Insert`, `Resize` and `Remove` say what those calls do.
- SystemAllocator.Heap.Malloc: reallocating a block whose alignment is 2^32 or more, for which the 32-bit shift in the comparison with the old alignment is not defined in C; and what a move that reads past its block copies from there, which in C is not defined.
- BlockLayout.BlockAlloc: two blocks whose `out` pointers are the same, or point into the array of addresses.
- GetDelim.GetDelimA: NULL arguments, which are refused first; a buffer of capacity 0 is freed by the failed growth in C, here it is only reported.
- Xxh64Api.Xxh64BothWays: inputs of 2^64 bytes and more, whose length the state cannot hold.
- Xxh3Api.Xxh3BothWays: as for XXH64; the 128-bit variants, whose digest selects its path differently, `XXH3_generateSecret`, prefetching and the vector code as such (its lane arithmetic is in `Multiply` and `Xxh3Kernel`).
- Xxh32Api.Xxh32BothWays: NULL input, which is the empty input here.
- `vsc_hashmap_reset` and `vsc_hashmap_free`: reset leaves `size` stale. The assertion that compares fractions another way than configure does is off.
- Hash quality, and what user procedures do beyond being lawful.
- The failure flag that makes `vsc_xalloc_ex` abort, and the allocators other than the system one.
- Operating-system memory, files and platform calls: `sysmem.c`, `freadall.c`, `stdio.c`, `fopena.c`, `chdir.c`, `fnullify.c`, `searchpath.c`, `time.c`, `error.c`, `vsprintfa.c`.
- `colour.c`, `wav.c`, `ctz.c`, `string.c`, the `strdup` family, byte swapping and `vscpplib`: one-liners and aliases.
- The variadic forms of string joining, which collect their arguments and then do the same.
