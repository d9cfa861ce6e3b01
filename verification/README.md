# Verified model of an Ethash miner

This project models the parts of the miner where being wrong is easy and costly, and proves what they promise:

- **Keccak and Ethash** (`ethash/lib`). The optimised Keccak-f[1600] and the hash built on it compute exactly what
  FIPS 202 says. The dataset items, the kernel over a dataset that is filled in on demand, verification, nonce search,
  the epoch search with its memory, the in-place light cache and the prime search stand on top of that; the hash and
  the cache are proved equal to the Ethash specification written on lists of numbers.
- **Concurrent protocols.** The worker thread's life cycle (`Worker`) and the two-level cache of epoch contexts
  (`ContextCache`) are state machines with one step per atomic access; the theorems hold for every interleaving.
- **Nonce scheduling.** How the 64-bit nonces are divided among miners and pool (`NonceSegments`), and how the CUDA
  miner walks them with several launches in flight (`CudaSearch`).
- **Pool failover** (`PoolManager`) and the **stratum client** (`StratumLines` to `StratumHandlers`):
  rotation over a shrinking list, detection of the stratum mode, sessions, and which job of a read is dispatched.

Code that changes things in place is modelled by methods and classes that do the same, each proved against a
specification function; the theorems are about those functions, over all inputs or all runs. Machine words are
sequences of bits, least significant first, so that bit-level and number-level statements are about the same object.
Little-endian hardware is assumed.

## Layout

| file | content |
|---|---|
| `Bits.dfy` | words as bits, and the bitwise operators |
| `Fips202.dfy` | Keccak-f, the sponge and pad10*1 as sections 3.2, 3.3, 4 and 5.1 of FIPS 202 define them |
| `KeccakLanes.dfy`, `KeccakPermutation.dfy`, `KeccakSponge.dfy` | keccak.c, bottom up |
| `EthashKeccak.dfy`, `EthashWords.dfy`, `EthashDataset.dfy`, `EthashSearch.dfy`, `EthashEpochs.dfy`, `Primes.dfy` | ethash.cpp and its helpers |
| `EthashSpec.dfy`, `EthashCacheSpec.dfy` | the algorithms as the Ethash specification writes them, on lists of numbers, and that ethash.cpp computes them |
| `Worker.dfy`, `ContextCache.dfy` | the concurrent protocols |
| `CommonData.dfy`, `NonceSegments.dfy`, `CudaSearch.dfy` | numbers and text, division of the nonces, the CUDA loop |
| `PoolManager.dfy` | pool failover |
| `StratumLines.dfy`, `StratumFields.dfy`, `StratumClient.dfy`, `StratumHandlers.dfy` | the stratum client: lines, conversions, what messages and events mean, the handlers |
| `StratumDetection.dfy`, `StratumJobs.dfy`, `StratumWork.dfy` | which mode is found, which job is dispatched, and what is in it |
| `Prelude.dfy` | what several modules share |

## What turned out not to hold

Each of these has its exact condition proved.

- A search over a range that runs past 2^64 tests no nonce at all, so it misses solutions
  (`EthashSearch.CompleteUnlessWrapped`).
- `startWorking` called while a stop is still under way returns without effect, and the start is lost
  (`Worker.StartGranted`, `Worker.StartIsLost`).
- The CUDA miner multiplies batch size and stream count in 32 bits. When that overflows, every nonce it submits is
  wrong (`CudaSearch.NonceExact`, `CudaSearch.NonceWrong`). It also numbers the threads of a launch in 32 bits, and
  steps from launch to launch by a 32-bit product, so that nonces repeat when a launch has too many threads, and of
  course when all launches need more than 2^64 nonces (`CudaSearch.NoNonceTwice`, `CudaSearch.NonceTwice`).
- `--nonce` together with a pool's extranonce: when the option has at least as many digits, every submission is
  useless unless the option begins with the extranonce (`NonceSegments.UserPrefix`, `NonceSegments.PrefixBreaks`);
  with fewer digits it depends on the nonce (`NonceSegments.RebuiltExactly`).
- A comment in the stratum client says that the last job of a transmission is dispatched. In modes 0 to 2 it is the
  first that can be read to its end (`StratumJobs.FirstJobWins`). In mode 3 it is the last, but name, block number and
  header come from any later notification that was read that far before it failed (`StratumJobs.LastJobWins`,
  `StratumJobs.UnmixedIff`, `StratumJobs.JobsAreMixed`), and the session may have been started over in between
  (`StratumJobs.GateAtDispatch`).
- Too large a block number in mode 1 is meant to be caught and ignored. What is thrown is a pointer, which no handler
  matches, and the process ends (`StratumJobs.EndedIff`).

One promise is conditional: the epoch search compares only the first word of a seed, so it is right in every remembered
state exactly when first words tell epochs apart (`EthashEpochs.FoundIffTelling`).

## Model

| member | source | states |
|---|---|---|
| KeccakLanes.RolBits | ethash/lib/keccak/keccak.c:34-37 | the shift-and-or rotation moves every bit up by s positions, cyclically |
| KeccakLanes.ConstantTable | ethash/lib/keccak/keccak.c:39-45 | the 24 literal constants are the ones that the shift register of section 3.2.5 of FIPS 202 generates |
| KeccakLanes.ThetaLane | ethash/lib/keccak/keccak.c:106-118 | theta, defined bit by bit, is the lane XOR with the column effect |
| KeccakLanes.RhoLane | ethash/lib/keccak/keccak.c:118-122 | rho, defined bit by bit with Table 2, is a rotation of each lane |
| Fips202.OffsetTable | ethash/lib/keccak/keccak.c:118-167 | the table of rotations is what the walk of Algorithm 2 of FIPS 202 computes |
| KeccakLanes.RoundLane | ethash/lib/keccak/keccak.c:104-171 | every lane of theta, rho, pi, chi and iota composed, in terms of the lanes before the round |
| KeccakPermutation.Round | ethash/lib/keccak/keccak.c:104-171 | one half of the loop body, on 25 named locals, is one round of FIPS 202 on the packed state, for every state and round number |
| KeccakPermutation.Permute | ethash/lib/keccak/keccak.c:58-269 | the whole function, twelve passes A to E to A over an array in place, is Keccak-f[1600] |
| KeccakSponge.AbsorbBlock | ethash/lib/keccak/keccak.c:317-321 | the word loop XORs exactly the block's bits into the flat state |
| KeccakSponge.AbsorbTail | ethash/lib/keccak/keccak.c:328-348 | word loop, byte loop, 0x01 byte and last bit together XOR the rest of the message followed by pad10*1, for every length of the rest |
| KeccakSponge.Keccak | ethash/lib/keccak/keccak.c:301-354 | for every byte string and both digest sizes, the result is the sponge of FIPS 202 on the message without domain bits; no lane index leaves the state |
| EthashKeccak.HashTo256 | ethash/lib/keccak/keccak.c:356-361 | the 256-bit hash that Ethash uses is the streaming hash of keccak.c on the same bytes |
| EthashKeccak.HashTo512 | ethash/lib/keccak/keccak.c:370-375 | the same for 512 bits |
| EthashWords.FnvUnions | ethash/lib/ethash/ethash.cpp:41-47 | the loop over word pairs is fnv1 word by word |
| EthashSpec.FnvIs | ethash/lib/ethash/bit_manipulation.h:63-66 | the word operation, as numbers: multiply by the prime modulo 2^32, then exclusive or |
| EthashDataset.ItemState.constructor | ethash/lib/ethash/ethash.cpp:191-199 | the state starts as the mix of the item after no parents |
| EthashDataset.ItemState.Update | ethash/lib/ethash/ethash.cpp:201-207 | one update is the mix after one more parent |
| EthashDataset.CalculateItem512 | ethash/lib/ethash/ethash.cpp:212-218 | the loop gives the mix over 256 parents, hashed |
| EthashDataset.CalculateItem1024 | ethash/lib/ethash/ethash.cpp:224-236 | the interleaved loop gives the two 512-bit items one after the other |
| EthashSpec.ItemIs | ethash/lib/ethash/ethash.cpp:183-218 | a dataset item is the one that the Ethash specification computes on lists of numbers |
| EthashDataset.FullContext.constructor | ethash/lib/ethash/ethash.cpp:152-172 | a zeroed dataset is valid: no slot claims to be filled |
| EthashSpec.UnsetIs | ethash/lib/ethash/ethash.cpp:315 | a slot counts as empty exactly when its first 64-bit word is zero |
| EthashDataset.FullContext.LazyLookup | ethash/lib/ethash/ethash.cpp:311-322 | returns the computed item whatever is filled in, and keeps the invariant that a slot with a non-zero first word holds its item |
| EthashDataset.HashKernel | ethash/lib/ethash/ethash.cpp:278-306 | the same mix hash for direct and for lazy lookup; every dataset index is in range |
| EthashSpec.HashIs | ethash/lib/ethash/ethash.cpp:260-306 | the hash over items of 1024 bits is the hashimoto of the Ethash specification over items of 512 bits |
| EthashSearch.SwappedValue | ethash/lib/ethash/ethash-internal.hpp:34-37 | a byte-swapped word has the value that its bytes spell in big-endian order |
| EthashSearch.IsLessOrEqual | ethash/lib/ethash/ethash-internal.hpp:30-40 | the early-exit loop over swapped words compares the hashes as 256-bit big-endian numbers |
| EthashSearch.HashLight | ethash/lib/ethash/ethash.cpp:419-425 | is the Ethash of header and nonce over the light cache |
| EthashSearch.HashFull | ethash/lib/ethash/ethash.cpp:309-327 | is that same hash after any earlier calls on the context |
| EthashSearch.VerifyFinalHash | ethash/lib/ethash/ethash.cpp:427-432 | tells whether the hash of the claimed mix is within the boundary |
| EthashSearch.Verify | ethash/lib/ethash/ethash.cpp:434-443 | accepts exactly when hashing yields that mix and a final hash within the boundary |
| EthashSearch.AcceptedIffSolves | ethash/lib/ethash/ethash.cpp:434-443 | whatever mix is claimed, what is accepted solves with its own mix, and what solves is accepted with it |
| EthashSearch.SearchLight | ethash/lib/ethash/ethash.cpp:329-340 | returns the first solution from the start nonce up to the wrapped end |
| EthashSearch.SearchFull | ethash/lib/ethash/ethash.cpp:342-353 | returns the same result as the light search, whatever is filled in |
| EthashSearch.SearchFindsLeast | ethash/lib/ethash/ethash.cpp:329-353 | that result is the least solving nonce of the range and verifies, or nothing when none solves |
| EthashSearch.CompleteUnlessWrapped | ethash/lib/ethash/ethash.cpp:332-333 | a search finds something whenever its range holds a solution, for every boundary, if and only if start plus iterations stays below 2^64 |
| EthashEpochs.CalculateEpochSeed | ethash/lib/ethash/ethash.cpp:360-366 | the loop applies the hash epoch times to zero |
| EthashEpochs.EpochFinder.FindEpochNumber | ethash/lib/ethash/ethash.cpp:58-98 | answer and remembered epoch as functions of the remembered epoch and the seed's first word; the remembered seed stays that epoch's seed |
| EthashEpochs.AnswerMatches | ethash/lib/ethash/ethash.cpp:71-97 | in every remembered state a non-negative answer names an epoch whose seed has that first word, and -1 means none below 30000 has it |
| EthashEpochs.FoundIffTelling | ethash/lib/ethash/ethash.cpp:58-98 | every epoch below 30000 is found from its seed in every remembered state if and only if first words tell epochs apart |
| EthashEpochs.FoundAfterAnyHistory | ethash/lib/ethash/ethash.cpp:58-98 | the same after any history of calls with any seeds |
| EthashEpochs.SequentialAccess | ethash/lib/ethash/ethash.cpp:74-81 | epochs asked for one after the other are found from memory, even beyond the 30000 that are searched |
| EthashEpochs.MixRound | ethash/lib/ethash/ethash.cpp:115-128 | a round in place computes each item from an item below it already new or an item from it on still old |
| EthashEpochs.MixedUnique | ethash/lib/ethash/ethash.cpp:115-128 | that relation has exactly one outcome |
| EthashEpochs.BuildLightCache | ethash/lib/ethash/ethash.cpp:102-130 | the cache is the seed's hash chain followed by three such rounds |
| EthashCacheSpec.CacheIs | ethash/lib/ethash/ethash.cpp:102-130 | the cache built in place is the one that the Ethash specification computes by list updates |
| Primes.IsOddPrime | ethash/lib/ethash/primes.c:9-22 | trial division up to the square root decides primality of every odd number above 2, without overflow |
| Primes.FindLargestPrime | ethash/lib/ethash/primes.c:24-43 | terminates with the greatest prime not above the bound, or 0 when there is none |
| Primes.BoundsInBytes | ethash/lib/ethash/ethash.cpp:370-393 | the item bounds are the sizes in bytes, and their growth per epoch, divided by the item sizes |
| Primes.CountsFit | ethash/lib/ethash/ethash.cpp:378-394 | both item bounds fit into an int exactly up to epoch 32639 |
| Primes.LightCacheNumItems | ethash/lib/ethash/ethash.cpp:368-381 | the greatest prime not above the epoch's light cache bound |
| Primes.FullDatasetNumItems | ethash/lib/ethash/ethash.cpp:383-396 | the greatest prime not above the epoch's dataset bound |
| Primes.CountsGrow | ethash/lib/ethash/ethash.cpp:368-396 | neither count ever decreases in the epoch, and from epoch 0 on both are primes |
| Worker.InvRun | libdev/Worker.cpp:20-93 | the invariant tying state, thread position and mutex holder holds in every interleaving of any number of callers |
| Worker.Safety | libdev/Worker.cpp:32-59 | in every run the exchange of Starting for Started succeeds, Stopped means workLoop is not running, and granted starts are entries into workLoop plus at most one pending |
| Worker.StartServed | libdev/Worker.cpp:24-64 | a granted start is served after at most four accesses of the thread, whatever the callers do |
| Worker.KillServed | libdev/Worker.cpp:86-93 | a kill is never undone, workLoop is not entered again, and at most five accesses bring the thread to its end |
| Worker.StartWaits | libdev/Worker.cpp:20-65 | startWorking gives up the mutex only when no start is pending, and after workLoop was entered for it if it was granted |
| Worker.StopWaits | libdev/Worker.cpp:75-84 | with a thread present, stopWorking gives up the mutex only after it saw Stopped, with workLoop not running and not entered since |
| Worker.DestructorWaits | libdev/Worker.cpp:86-93 | with a thread present, the destructor lets no other call in, and ends only with a kill in force and the thread at its end |
| Worker.StopIsTold | libdev/Worker.cpp:67-79 | after a trigger or stop, a running workLoop finds itself told to stop until it returns |
| Worker.StopReturns | libdev/Worker.cpp:75-84 | in every run stopWorking goes on waiting until the state is Stopped, and returns exactly then, with workLoop not running |
| Worker.StopServed | libdev/Worker.cpp:52-83 | a stop takes effect after at most two accesses of the thread, whatever else is tried, with the call still waiting |
| Worker.StartGranted | libdev/Worker.cpp:20-27 | a start is granted exactly when there is no thread or it has stopped; otherwise workLoop is never entered again without a further start |
| Worker.StartIsLost | libdev/Worker.cpp:20-84 | a run in which that happens |
| ContextCache.InvRun | ethash/lib/ethash/managed.cpp:24-99 | pointers, counts, mutex and answers stay consistent over every interleaving of any number of threads |
| ContextCache.KeptStep | ethash/lib/ethash/managed.cpp:43-58 | no step changes a context's epoch; it is alive after the step exactly if still referenced, with the right count |
| ContextCache.Safety | ethash/lib/ethash/managed.cpp:41-90 | mutual exclusion; a context is alive exactly while referenced, and counted exactly |
| ContextCache.LookupAnswers | ethash/lib/ethash/managed.cpp:83-90 | a finished lookup for epoch e, whatever others do during and after it, has left its thread a live context for e, or none exactly when its own attempt to build one failed |
| ContextCache.NeverNull | ethash/lib/ethash/managed.cpp:49-90 | a lookup for e whose own build does not fail leaves a context for e, whatever fails for others |
| ContextCache.OwnerLeaves | ethash/lib/ethash/managed.cpp:46-59 | the owner of the mutex finishes its lookup and leaves after at most three steps of its own |
| ContextCache.LookupEnds | ethash/lib/ethash/managed.cpp:41-59 | a waiting thread, once the mutex is free, gets through to a context for its epoch |
| ContextCache.StaysAlive | ethash/lib/ethash/managed.cpp:83-99 | a returned context is neither freed nor replaced before its thread asks for another epoch or ends |
| ContextCache.Memory | ethash/lib/ethash/managed.cpp:41-80 | at most threads plus one contexts are alive |
| ContextCache.SharedByAll | ethash/lib/ethash/managed.cpp:49-58 | while all lookups are for one epoch there is at most one context, and it is not rebuilt |
| CommonData.ToBigEndian | libdev/CommonData.h:79-86 | the buffer holds the value's low bytes, most significant first |
| CommonData.FromBigEndian | libdev/CommonData.h:92-97 | the value of the bytes modulo the width of the word |
| CommonData.RoundTrip | libdev/CommonData.h:79-97 | writing and reading back gives the value if and only if it fits buffer and word |
| CommonData.DigitTable | libdev/CommonData.cpp:19-25 | the value of a digit in either case is its place in the list of digits |
| CommonData.HexRoundTrip | libdev/CommonData.h:130-137 | a 64-bit word is written with exactly 16 digits, which parse to it |
| NonceSegments.CeilLog2 | libeth/Farm.cpp:153 | the least k with n <= 2^k |
| NonceSegments.DividesIff | libeth/Farm.cpp:153-161 | bits are left for the segments exactly when there are as many nonces behind the taken digits as miners |
| NonceSegments.Farm.SetWork | libeth/Farm.cpp:146-170 | miner i gets the package with the i-th segment's start, in all three modes |
| NonceSegments.RandomStart | libeth/Farm.cpp:162-163 | without digits from user or pool the first miner starts at the number drawn |
| NonceSegments.Disjoint | libeth/Farm.cpp:153-169 | whatever the base, no nonce is in two segments, or twice in one, modulo 2^64 |
| NonceSegments.WithinPrefix | libeth/Farm.cpp:154-169 | with a prefix, every nonce of every segment has exactly those leading digits |
| NonceSegments.RebuiltExactly | libpool/stratum/EthStratumClient.cpp:1391-1397 | the pool rebuilds a nonce from its submission if and only if the nonce starts with the extranonce |
| NonceSegments.ExtranonceKept | libpool/stratum/EthStratumClient.cpp:589-594 | every nonce of every segment starts with the extranonce digit by digit, and its submission rebuilds it |
| NonceSegments.UserPrefix | libeth/Farm.cpp:154-161 | with --nonce of at least as many digits, a submission rebuilds its nonce if and only if the option begins with the extranonce |
| NonceSegments.PrefixBreaks | libeth/Farm.cpp:154-157 | a --nonce and an extranonce with which the pool rebuilds another nonce |
| CudaSearch.Submit | libcuda/CUDAMiner.cpp:331-339 | at most four nonces per launch, each going back by the 32-bit product from the current nonce |
| CudaSearch.FourSubmitted | libcuda/CUDAMiner.cpp:331-335 | up to four solutions of a launch are all submitted, in order; of more, the first four |
| CudaSearch.Miner.constructor | libcuda/CUDAMiner.cpp:276-291 | priming makes the first launches, one per stream, all streams busy |
| CudaSearch.Miner.Visit | libcuda/CUDAMiner.cpp:304-345 | one visit collects the stream's last launch and makes the next unless done is seen |
| CudaSearch.Miner.Search | libcuda/CUDAMiner.cpp:295-347 | whatever the moment done is seen: launch n starts at start + n * batch, none is made after that, each is collected exactly once in order, all its solutions are submitted, and the loop ends within two passes |
| CudaSearch.NonceExact | libcuda/CUDAMiner.cpp:276-277 | a submitted nonce is the hashed one if and only if batch size times streams is below 2^32 |
| CudaSearch.NonceWrong | libcuda/CUDAMiner.cpp:277-336 | a batch size and a number of streams at which a submitted nonce is not the hashed one |
| CudaSearch.NoNonceTwice | libcuda/CUDAMiner.cpp:276-328 | no nonce is given to two threads if and only if, for the true number of threads per launch, one launch has at most 2^32 of them, or several have fewer each and at most 2^64 together |
| CudaSearch.NonceTwice | libcuda/CUDAMiner.cpp:276-286 | a block multiple and a block size whose product is cut to 32 bits so that two launches repeat a nonce |
| PoolManager.Manager.RemoveConnection | libpool/PoolManager.cpp:222-239 | the three errors in their order, or the list without that entry |
| PoolManager.RemoveKeepsActive | libpool/PoolManager.cpp:235-238 | the same connection stays active, and every other entry stays in order |
| PoolManager.Manager.SetActiveConnection | libpool/PoolManager.cpp:241-268 | errors, no effect on the active entry, or a switch with the attempts reset |
| PoolManager.Manager.Settle | libpool/PoolManager.cpp:315-336 | the erase and rotate statements make the choice of the specification: drop, exhaust, advance or stay |
| PoolManager.Manager.RotateConnect | libpool/PoolManager.cpp:307-385 | new state and outcome, connect, exit or an empty list, as specified |
| PoolManager.AlwaysInBounds | libpool/PoolManager.cpp:222-409 | from a non-empty list under any mix of operations, the active index is in bounds while running and no rotation finds the list empty |
| PoolManager.Cycle | libpool/PoolManager.cpp:307-369 | with every attempt failing, attempt k goes to the (k / R)-th entry after the first, cyclically, and is the (k mod R + 1)-th in a row there |
| PoolManager.SingleConnection | libpool/PoolManager.cpp:322-327 | a single connection is tried exactly R times, then the program exits |
| PoolManager.NoLimit | libpool/PoolManager.cpp:325-330 | with R = 0 the active connection is tried for ever |
| PoolManager.UnrecoverableDropped | libpool/PoolManager.cpp:315-321 | an unrecoverable entry is dropped, its successor is tried next for the first time, and no other entry is lost |
| PoolManager.SwitchIsTried | libpool/PoolManager.cpp:247-251 | after a switch by hand the chosen connection is tried next, for the first time |
| PoolManager.PrimaryIsTried | libpool/PoolManager.cpp:400-405 | after the failover timer the primary connection is tried next, for the first time |
| PoolManager.LostIsRetried | libpool/PoolManager.cpp:56-59 | a connection that stood and is lost is tried R times again before the next one |
| PoolManager.EditsWhileConnected | libpool/PoolManager.cpp:222-268 | in every run, while running, edits succeed only while connected, and are not refused as outstanding once connected |
| PoolManager.SwitchesCounted | libpool/PoolManager.cpp:248-403 | the switch counter goes up by one exactly when the manager turns to another entry or drops one and goes on |
| PoolManager.RotationSpares | libpool/PoolManager.cpp:308-309 | rotations posted too late leave a standing connection alone |
| PoolManager.StopTakesEffect | libpool/PoolManager.cpp:105-110 | a requested stop ends the running state when the connection is gone |
| StratumLines.TrimCuts | libpool/stratum/EthStratumClient.cpp:1459 | trimming cuts white space, from the two ends only |
| StratumLines.CleanedLines | libpool/stratum/EthStratumClient.cpp:1457-1480 | as many lines reach the parser as are not blank, and each begins and ends with something |
| StratumLines.Reader.Receive | libpool/stratum/EthStratumClient.cpp:1446-1485 | the find-and-erase loop hands over the trimmed non-blank lines and keeps the text after the last newline |
| StratumLines.CutAnywhere | libpool/stratum/EthStratumClient.cpp:1446-1485 | however the stream is cut into reads, the same lines in the same order, and the same buffer |
| StratumClient.InvRun | libpool/stratum/EthStratumClient.cpp:102-563 | the invariant on mode, confirmation, session and phase holds in every run |
| StratumClient.ModeStable | libpool/stratum/EthStratumClient.cpp:205-221 | in every run a confirmed mode never changes again, across reconnects, and a session exists only in a confirmed mode |
| StratumClient.DetectStep | libpool/stratum/EthStratumClient.cpp:205-298 | every event of the connection lowers the rank made of endpoints and modes left, or ends the detection |
| StratumClient.AutodetectionEnds | libpool/stratum/EthStratumClient.cpp:205-493 | with n addresses at most n + 3 connection attempts and 3n + 15 events before a mode is confirmed, the connection is given up, or the disconnection is reported |
| StratumDetection.DetectionFinds | libpool/stratum/EthStratumClient.cpp:205-221 | whatever mode the pool speaks, if it refuses those above, detection reaches it after one connection in each, confirms it and starts a session |
| StratumDetection.EachModeIsFound | libpool/stratum/EthStratumClient.cpp:474-841 | the same for a fresh connection and a pool of each kind, with its replies written out |
| StratumDetection.DetectionGivesUp | libpool/stratum/EthStratumClient.cpp:216-220 | a pool that refuses all modes is given up after a connection in each of 3, 2, 1 and 0 |
| StratumDetection.UnreachableStaysRecoverable | libpool/stratum/EthStratumClient.cpp:208-235 | a host none of whose addresses answers is reported, keeps its mode and is not given up |
| StratumDetection.FixedMode | libpool/stratum/EthStratumClient.cpp:488-489 | a given version opens confirmed in its mode; a first reply that does not speak it gives the connection up |
| StratumDetection.BadCertificate | libpool/stratum/EthStratumClient.cpp:432-464 | a failed handshake gives the connection up at once |
| StratumDetection.AuthorizationAwaited | libpool/stratum/EthStratumClient.cpp:730-824 | the first reply leaves an authorization to be awaited exactly in modes 0 and 2, unless its extranonce throws |
| StratumDetection.LoggedIn | libpool/stratum/EthStratumClient.cpp:691-931 | in each mode the replies to the login leave a subscribed and authorized session |
| StratumDetection.Unauthorized | libpool/stratum/EthStratumClient.cpp:868-1501 | a refused authorization, a missing session id, or a connection lost while authorization is awaited gives the connection up |
| StratumWork.ShareTargetValue | libpool/stratum/EthStratumClient.cpp:1141-1148 | a share target of at most 64 digits becomes the boundary of that value |
| StratumWork.PaddedValue | libpool/stratum/EthStratumClient.cpp:1187-1272 | up to 64 digits padded to a hash keep their value |
| StratumWork.LongExtranonce | libpool/stratum/EthStratumClient.cpp:589-594 | of more than 16 digits the first 16 are the number, but all count as the size |
| StratumWork.PlainJob | libpool/stratum/EthStratumClient.cpp:1086-1157 | the package dispatched for name, header, seed and target in modes 0 and 1, field by field |
| StratumWork.ProxyJob | libpool/stratum/EthStratumClient.cpp:1082-1157 | the package dispatched for a reply in mode 1, with and without a block number |
| StratumWork.LargeBlockEnds | libpool/stratum/EthStratumClient.cpp:1134-1138 | a block number above 0x9660180 ends the process |
| StratumWork.ZeroTargetFails | libpool/stratum/EthStratumClient.cpp:1148-1153 | a zero target without a difficulty is not dispatched |
| StratumWork.NiceJob | libpool/stratum/EthStratumClient.cpp:1093-1112 | the package dispatched for name, seed and header in mode 2, with target and extranonce of the session |
| StratumWork.FirstExtranonce | libpool/stratum/EthStratumClient.cpp:744-746 | the extranonce that the first reply of mode 2 leaves in the session |
| StratumWork.ExtranonceSet | libpool/stratum/EthStratumClient.cpp:1234-1240 | what mining.set_extranonce leaves in the session |
| StratumWork.TargetIsSet | libpool/stratum/EthStratumClient.cpp:1203-1211 | what mining.set_target leaves in the session |
| StratumWork.DifficultyIsSet | libpool/stratum/EthStratumClient.cpp:1212-1219 | mining.set_difficulty is never below 0.0001, so that it is the one jobs get |
| StratumWork.TwoSession | libpool/stratum/EthStratumClient.cpp:1253-1278 | what mining.set leaves in the session |
| StratumWork.BadTimeout | libpool/stratum/EthStratumClient.cpp:1258-1265 | a timeout that is no number keeps everything after it from being read |
| StratumWork.TwoJob | libpool/stratum/EthStratumClient.cpp:1183-1202 | the package dispatched for name, block number and header in mode 3 |
| StratumWork.Ignored | libpool/stratum/EthStratumClient.cpp:1160-1241 | parameters that are not four are ignored in mode 3, and notifications of one mode in the others |
| StratumClient.ExtranonceStored | libpool/stratum/EthStratumClient.cpp:589-594 | an extranonce of at most 16 digits is stored as the division of the nonces takes it |
| StratumFields.FromHex | libdev/CommonData.cpp:32-57 | throws exactly when something after an optional 0x is not a digit; otherwise the bytes have the value of the digits |
| StratumFields.ToHash | libdev/FixedHash.h:56-89 | throws, or the value of 32 bytes, or zero for any other number of bytes |
| StratumFields.StoulDigits | libpool/stratum/EthStratumClient.cpp:593 | on at most 16 digits the library number is the value of the digits |
| StratumFields.StoulDecorated | libpool/stratum/EthStratumClient.cpp:593 | signs and 0x before digits, as the library reads them |
| StratumFields.Ranges | libpool/stratum/EthStratumClient.cpp:1265-1268 | digits are a number exactly within the range of the type |
| StratumFields.ToIntIs | libpool/stratum/EthStratumClient.cpp:1185-1191 | conversion to int keeps the value modulo 2^32 |
| StratumJobs.DispatchedIff | libpool/stratum/EthStratumClient.cpp:1453-1490 | a read dispatches a job if and only if one of its messages passes the gate and can be read to its end |
| StratumJobs.FirstJobWins | libpool/stratum/EthStratumClient.cpp:1070-1158 | in modes 0 to 2 the one job taken is dispatched as its message describes it, without a trace of notifications given up on before, with a subscribed session when taken and when dispatched |
| StratumJobs.Overwritten | libpool/stratum/EthStratumClient.cpp:1091-1157 | a notification that is taken determines every field that notifications of its mode ever write |
| StratumJobs.LastJobWins | libpool/stratum/EthStratumClient.cpp:1160-1202 | in mode 3, after mining.set, the dispatched package has the difficulty of the last job taken, and name, block number and header each from the last notification that was read that far |
| StratumJobs.UnmixedIff | libpool/stratum/EthStratumClient.cpp:1184-1202 | that package is all of one message if and only if no later notification is read to its name, and then it is what that message describes |
| StratumJobs.JobsAreMixed | libpool/stratum/EthStratumClient.cpp:1184-1189 | a notification with a bad header leaves its name and block number on the job before it |
| StratumJobs.EndedIff | libpool/stratum/EthStratumClient.cpp:1122-1139 | the process ends in a read if and only if a mode 1 notification with readable texts, before any job is taken, has a block number above the limit |
| StratumJobs.GateAtDispatch | libpool/stratum/EthStratumClient.cpp:691-703 | at dispatch in mode 3 the session lacks mining.set if and only if a hello reply came after the job with no mining.set after it |
| StratumHandlers.EthStratumClient.DisconnectFinalize | libpool/stratum/EthStratumClient.cpp:180-236 | lowers the mode and reconnects, gives the connection up, or reports |
| StratumHandlers.EthStratumClient.HandleConnect | libpool/stratum/EthStratumClient.cpp:387-493 | drops an endpoint, gives up after a failed handshake, or opens with the mode to try |
| StratumHandlers.ReadBlock | libpool/stratum/EthStratumClient.cpp:1121-1139 | the optional block number: absent, a number, a throw that is caught, or one that nothing catches |
| StratumHandlers.ReadPlain | libpool/stratum/EthStratumClient.cpp:1090-1158 | in modes 0 and 1 a field is stored exactly when everything read before it can be read, and the job is taken exactly when all can |
| StratumHandlers.ReadNice | libpool/stratum/EthStratumClient.cpp:1090-1113 | the same in mode 2 |
| StratumHandlers.ReadTwo | libpool/stratum/EthStratumClient.cpp:1177-1202 | the same in mode 3 |
| StratumHandlers.ProcessExtranonce | libpool/stratum/EthStratumClient.cpp:589-594 | the size is stored in any case, the number unless it throws |
| StratumHandlers.StartSession | libpool/stratum/EthStratumClient.cpp:691-841 | the session that a first reply starts in each mode, and whether its extranonce threw |
| StratumHandlers.ReadSet | libpool/stratum/EthStratumClient.cpp:1253-1278 | mining.set up to the first conversion that throws |
| StratumHandlers.EthStratumClient.HandleFirstReply | libpool/stratum/EthStratumClient.cpp:643-849 | the branches per mode confirm and start a session exactly when the pool speaks the mode |
| StratumHandlers.EthStratumClient.HandleNotice | libpool/stratum/EthStratumClient.cpp:1064-1202 | notifications are looked at exactly behind the gate, and leave package, job flag and process as specified |
| StratumHandlers.EthStratumClient.ProcessResponse | libpool/stratum/EthStratumClient.cpp:596-1306 | the effect of every kind of message, thrown exceptions included, on mode, session and job |
| StratumHandlers.EthStratumClient.OnRecvSocketDataCompleted | libpool/stratum/EthStratumClient.cpp:1420-1494 | one read processes exactly its complete lines in order, then dispatches at most one job |

## Left out

- EthashEpochs.EpochFinder.FindEpochNumber: the remembered epoch is unbounded; the 32-bit int overflows only after 2^31 sequential calls.
- EthashDataset.FullContext.LazyLookup: one thread at a time; torn writes of a dataset slot by concurrent threads are not modelled.
- NonceSegments.Farm.SetWork: says nothing where fewer than zero bits are left, which shifts by a negative count, nor about the start nonce kept in the farm after the last miner, which is dead.
- NonceSegments.CeilLog2: is the integer logarithm; the rounding of the floating-point one is not modelled.
- NonceSegments.ExtranonceKept: for extranonces made of hexadecimal digits; for other text the stored number is modelled, as the C library with a 64-bit long reads it, but nothing is claimed about the nonces.
- CudaSearch.Miner.Search: a kick that arrives before the search has reset the flag is lost and not modelled; `m_done` is a number saying at which reading it is first seen.
- PoolManager.Manager.SetActiveConnection: selection by text, which looks the entry up first and then does the same, is left out.
- StratumHandlers.EthStratumClient.ProcessResponse: messages that use the session are taken to arrive only while there is one, since the code dereferences it unchecked; share results are left out; the boundary that mode 2 computes from a difficulty in floating point is a number in the message.
- StratumClient.AutodetectionEnds: at most one disconnect is posted per failure.
- Stratum timers and response timing; a timeout during detection is the same event as an error reply.
- Sockets, TLS, name resolution and JSON parsing, which appear as events and messages.
- PoolURI's regular expressions; only its mode, confirmed, unrecoverable and responds flags are modelled.
- OpenCL, CUDA, NVML, ADL and sysfs wrappers, and the OpenCL work loop.
- Floating point: hash rates, telemetry, difficulty to target.
- The choice of the seed after the ECIP-1099 activation epoch; only item counts are claimed.
- Pausing of miners against new work, which two different mutexes guard.
- `calculate_dataset_item_2048` and the BMI build of the permutation, which are the same code again.
- The API server, command line, logging, getwork and simulation clients.
