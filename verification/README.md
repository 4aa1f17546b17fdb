# Verified models of QEMU's block layer, migration, AES, bitmaps and bottom halves

This project models the parts of QEMU 1.2.0 whose correctness is hardest to see from the code, and proves what
they promise. Each module follows one source file or one component of it.

- **Words, Bitops, Bitmap** (`src/bitops.c`, `src/bitops.h`, `src/bitmap.c`, `src/bitmap.h`): machine words are
  sequences of 64 bits; the searches and range updates keep the source's partial first word, full words and
  partial last word, with each label a method of its own. They are proved against plain sets of bit numbers.
- **AesBits, AesField, AesRounds, AesCipher, AesKeys, AesCbc** (`src/aes.c`): the tables are the functions that
  the comment over them defines. The table rounds are proved equal to the rounds of FIPS 197 (sections 5.1, 5.2,
  5.3 and 5.3.5), the key schedules to its key expansion, decryption is the inverse of encryption for every key,
  and CBC (section 6.2 of NIST SP 800-38A) is proved over buffers that are written in place.
- **CopyOnRead** (`src/block.c`): tracked requests and copy-on-read as a step system. Every piece of a coroutine
  between two yields is a step, driver reads, writes and allocation queries are steps of their own, and any of
  them can fail. The results hold for every interleaving.
- **ImageChain** (`src/block.c`): allocation queries over chains of images, and commit.
- **Multiwrite** (`src/block.c`, `src/cutils.c`): merging of write requests in place, and the callbacks of a batch.
- **ByteIo** (`src/block.c`): byte reads and writes over sectors, with failing and torn sector I/O.
- **DirtyBitmap** (`src/block.c`): the dirty bitmap with its cached count.
- **BlockMigration** (`src/block-migration.c`): the sender racing the guest as a step system, then the last phase
  and the receiver as objects.
- **RamMigration** (`src/arch_init.c`): the same for RAM, with the encoding of pages in the stream.
- **BufferedFile** (`src/buffered_file.c`): the rate-limited queue in front of a backend that takes what it likes.
- **BottomHalves** (`src/async.c`): the list of bottom halves under polls that nest.
- **Arith**, **Options**: a few facts about division, and values that may be missing.

What is outside the models comes in as a choice or a parameter: driver I/O succeeds or fails as it likes, the
backend of a buffered file answers from an arbitrary script, callbacks of bottom halves do the actions of an
arbitrary script, `qsort` returns any sorted order, and clocks and bandwidths do not appear.

## Where the code does less than it seems to

These are properties that fail on some inputs. The models keep the code as it is and state the exact condition.

- The fast paths of `bitmap_empty`, `bitmap_full`, `bitmap_equal` and `bitmap_intersects` look at the whole first
  word when `nbits` is 0, while the slow functions look at nothing (`Bitmap.Empty`, `Bitmap.Full`, `Bitmap.Equal`,
  `Bitmap.Intersects`).
- `multiwrite_merge` drops the tail of a request when the next one ends before it. Merging preserves a byte exactly
  when each tail that is cut off there is written by a later request (`Multiwrite.MergeExact`).
- `bdrv_set_dirty_tracking(bs, 1)` on a device that is tracked already sets the count to 0 and keeps the bits
  (`DirtyBitmap.Tracker.SetDirtyTracking`). A write of no sectors marks a chunk except at chunk boundaries other
  than 0 (`DirtyBitmap.TouchedByNothing`).
- The product in `bdrv_check_request` wraps around, so a sector that is 2^55 beyond a good one passes, and its dirty
  bit is out of bounds (`DirtyBitmap.FarSectorPasses`); so is that of an empty write on an empty device. The exact
  condition is `DirtyBitmap.Inside` (`DirtyBitmap.InBounds`).
- `bdrv_co_is_allocated_above` does not look at the base image, although its comment says that it does; the model
  follows the code. It returns an empty run exactly when an image above the base ends at or before the sector
  (`ImageChain.IsAllocatedAbove`).
- `bdrv_commit` takes a failed allocation query for an allocated run, of a length that nobody set. It still succeeds
  exactly when every run that it copies fits and no read, write or `make_empty` fails (`ImageChain.Commit`).
- After a partial last block, `AES_cbc_encrypt` leaves the vector at the last ciphertext block when it encrypts and
  at the decrypted block when it decrypts; both leave the last ciphertext block exactly on whole blocks
  (`AesCbc.LastVector`, `AesCbc.LastVectorExact`).
- A bulk read does not set its bit in `aio_bitmap`, so two reads of a chunk can be in flight; block migration needs
  them to complete in the order of issue (`BlockMigration.OvertakingLoses`, `BlockMigration.OvertakingHappens`). Blocks
  that the rate limit leaves on `blk_list` at the end are lost (`BlockMigration.LeftoverIsLost`). A read of the last
  phase that fails fails the migration, and one that keeps failing keeps `block_save_complete` in its loop
  (`BlockMigration.LastLoopEnds`).
- A backend that answers 0 in the direct loop of a put loses its bytes, and one whose answer of 0 or error ends the
  flush lets later bytes overtake; the buffered file records a 0 as no error. Exactly when it happens is `BufferedFile.KeepsOrder`
  (`BufferedFile.PutExact`, `BufferedFile.RunExact`).
- `ram_save_block` would search for ever with no last block and no dirty page (`RamMigration.Sender.SearchNeverEnds`);
  `RamMigration.LastPhaseStarts` shows that a migration never gets there.

## Model

| member | source | states |
|---|---|---|
| Bitops.Ffsl | src/bitops.h:31-60 | the number of the lowest set bit of a word that is not 0 |
| Bitops.Flsl | src/bitops.h:69-99 | the number of the highest set bit of a word that is not 0 |
| Bitops.Ffz | src/bitops.h:107-110 | the number of the lowest clear bit of a word that has one |
| Bitops.FindNextBit | src/bitops.c:21-64 | the least set bit number in [offset, size), or size when there is none |
| Bitops.FindNextZeroBit | src/bitops.c:70-113 | the least clear bit number in [offset, size), or size when there is none |
| Bitops.FindLastBit | src/bitops.c:115-142 | the greatest set bit number below size, or size when there is none |
| Bitops.SetBit | src/bitops.h:117-123 | sets one bit and leaves all others |
| Bitops.ClearBit | src/bitops.h:130-136 | clears one bit and leaves all others |
| Bitops.TestBit | src/bitops.h:201-204 | the value of a bit |
| Bitmap.LastWordMaskBits | src/bitmap.h:58-62 | which bits the mask of the last word has |
| Bitmap.BitmapSet | src/bitmap.c:160-178 | sets exactly the bits [start, start + nr), across partial words |
| Bitmap.BitmapClear | src/bitmap.c:180-198 | clears exactly the bits [start, start + nr), across partial words |
| Bitmap.AlignMaskRoundsUp | src/bitmap.c:200 | the alignment macro, with its 64-bit wrap-around, gives the least multiple at or above its argument |
| Bitmap.FindNextZeroArea | src/bitmap.c:214-237 | where no sum wraps around it ends, with the least aligned index from start on whose nr bits are clear and within size, or a value beyond size when there is no such area |
| Bitmap.HalfNoWrap | src/bitmap.c:200-228 | no sum wraps around for bitmaps of up to 2^63 bits, whatever the area and the alignment |
| Bitmap.AreaExists | src/bitmap.c:202-213 | the search reports failure if and only if no area exists |
| Bitmap.SlowEmpty | src/bitmap.c:39-55 | whether all bits below nbits are clear |
| Bitmap.SlowFull | src/bitmap.c:57-74 | whether all bits below nbits are set |
| Bitmap.SlowEqual | src/bitmap.c:76-94 | whether two bitmaps agree below nbits |
| Bitmap.SlowIntersects | src/bitmap.c:239-256 | whether two bitmaps share a set bit below nbits |
| Bitmap.Empty | src/bitmap.h:186-193 | the fast path agrees with the slow one except for nbits 0, where it tests the whole word |
| Bitmap.Full | src/bitmap.h:195-202 | the same for full |
| Bitmap.Equal | src/bitmap.h:176-184 | the same for equal |
| Bitmap.Intersects | src/bitmap.h:204-212 | the same for intersects |
| AesField.InvSboxOfSbox | src/aes.c:325-721 | the inverse S-box undoes the S-box on all bytes |
| AesField.SboxIsSubBytes | src/aes.c:325-390 | the S-box is the inverse in the field followed by the affine transformation of section 5.1.1 of FIPS 197 |
| AesField.InvMixRowOfMixRow | src/aes.c:46-58 | the rows of inverse MixColumns undo MixColumns, for all bytes |
| AesField.InvMixRowOfSum | src/aes.c:853-876 | inverse MixColumns is linear, which is why it can be applied to round keys |
| AesRounds.TableRoundIsRound | src/aes.c:980-1036 | a round through Te0..Te3 is SubBytes, ShiftRows, MixColumns and AddRoundKey |
| AesRounds.InvTableRoundIsInvRound | src/aes.c:1171-1227 | a round through Td0..Td3 is the round of the equivalent inverse cipher |
| AesRounds.TableFinalRoundIsFinalRound | src/aes.c:1042-1069 | the masked Te4 round is the final round |
| AesRounds.InvTableFinalRoundIsInvFinalRound | src/aes.c:1233-1260 | the masked Td4 round is the final round of the inverse |
| AesRounds.TableInvMixIsInvMix | src/aes.c:853-876 | the key transformation through Td and Te4 is inverse MixColumns |
| AesRounds.InvRoundUndoesRound | src/aes.c:1076-1261 | a round of the equivalent inverse cipher undoes a round, under the transformed round key |
| AesRounds.ShiftRowsMoves | src/aes.c:980-1003 | ShiftRows by row and column: row r moves r columns to the left, and the inverse moves it back |
| AesRounds.MixColumnsMixes | src/aes.c:980-1003 | MixColumns by row and column: the circulant matrix of section 5.1.3 of FIPS 197 |
| AesCipher.StateBytes | src/aes.c:43 | byte r + 4c of a block is read into row r and column c of the state |
| AesCipher.BlockBytes | src/aes.c:44 | and written back from there |
| AesCipher.RotWordMoves | src/aes.c:760-763 | byte r of the rotated word is the next byte of the word |
| AesCipher.InvRoundsUndoRounds | src/aes.c:1076-1261 | any number of inverse rounds under the reversed schedule undo the rounds |
| AesCipher.InvCipherUndoesCipher | src/aes.c:1076-1261 | the equivalent inverse cipher under the reversed, transformed schedule undoes the cipher, for every schedule, number of rounds and block |
| AesCipher.RconTable | src/aes.c:722-726 | the round constants are the powers of x in the field |
| AesCipher.KeyCoreIsExpansion | src/aes.c:758-764 | the masked Te4 expression is RotWord, SubWord and Rcon of the key expansion |
| AesCipher.KeySubIsExpansion | src/aes.c:814-819 | the second masked expression of the 256-bit schedule is SubWord |
| AesKeys.AesKey.Expand128 | src/aes.c:752-772 | the words of the 128-bit key expansion of FIPS 197 |
| AesKeys.AesKey.Expand192 | src/aes.c:773-794 | the words of the 192-bit key expansion |
| AesKeys.AesKey.Expand256 | src/aes.c:795-826 | the words of the 256-bit key expansion |
| AesKeys.AesKey.SetEncryptKey | src/aes.c:731-828 | rejects other key lengths; otherwise the rounds and the whole expanded key |
| AesKeys.AesKey.Reverse | src/aes.c:846-852 | the round keys in reverse order, in place |
| AesKeys.AesKey.SetDecryptKey | src/aes.c:832-878 | the reversed schedule with inverse MixColumns on all round keys but the first and last |
| AesKeys.AesKey.Encrypt | src/aes.c:885-1070 | computes the cipher of FIPS 197 under the key's schedule |
| AesKeys.AesKey.Decrypt | src/aes.c:1076-1261 | computes the equivalent inverse cipher under the key's schedule |
| AesKeys.RoundTrip | src/aes.c:731-1261 | for every 128, 192 or 256-bit key and every block, decryption under its decryption key returns what was encrypted |
| AesCbc.CbcRoundTrip | src/aes.c:1265-1314 | CBC decryption from the original vector recovers all bytes, for every length, whatever inverse pair of block functions |
| AesCbc.CbcEncIs | src/aes.c:1276-1295 | each block of ciphertext encrypts the plaintext bytes xored with the block before, or with the vector for the first; past the end of the plaintext it encrypts the block before alone |
| AesCbc.CbcDecIs | src/aes.c:1296-1313 | each byte of plaintext is that of the decrypted block xored with the block of ciphertext before |
| AesCbc.EncIvIs | src/aes.c:1276-1295 | encryption leaves the last block of ciphertext in the vector, whatever the length |
| AesCbc.CbcEncSplit | src/aes.c:1265-1314 | encryption split at a block boundary, with the vector carried over, is one encryption |
| AesCbc.CbcDecSplit | src/aes.c:1265-1314 | the same for decryption |
| AesCbc.LastVector | src/aes.c:1265-1314 | on whole blocks both directions leave the last ciphertext block in the vector |
| AesCbc.LastVectorExact | src/aes.c:1296-1313 | decryption leaves the last ciphertext block in the vector, whatever the block function, if and only if the length is in whole blocks |
| AesCbc.CbcEncLength | src/aes.c:1265-1314 | the ciphertext is the length rounded up to whole blocks |
| AesCbc.AesIsInverse | src/aes.c:731-1261 | the functions that AES computes under the two schedules are an inverse pair |
| AesCbc.Encrypt | src/aes.c:1276-1295 | in place or into another buffer: the output is the CBC encryption and the rest of the buffer is as it was |
| AesCbc.Decrypt | src/aes.c:1296-1313 | in place or into another buffer: the output is the CBC decryption and the rest of the buffer is as it was |
| AesCbc.RoundTrip | src/aes.c:1265-1314 | a buffer encrypted in place and decrypted in place holds what it held, for every key, vector and length |
| CopyOnRead.OneSideRounded | src/block.c:1432-1461 | runs that the one-sided overlap test finds apart share no cluster |
| CopyOnRead.OverlapSharesCluster | src/block.c:1432-1461 | and it stops only runs that do share one |
| CopyOnRead.RoundedCovers | src/block.c:1432-1448 | the rounded run covers the run |
| CopyOnRead.FirstOverlap | src/block.c:1480-1496 | the walk over the list finds the first tracked request that shares a cluster, if any |
| CopyOnRead.KeepsExclusive | src/block.c:1402-1497 | every step keeps the clusters of tracked copy-on-read requests free of other tracked requests |
| CopyOnRead.StepKeepsInv | src/block.c:1879-2049 | every step keeps the in-flight count, exclusiveness, who waits on whom, and the currency of what copy-on-read has buffered |
| CopyOnRead.RunKeepsClustersApart | src/block.c:1463-1497 | in every interleaving no other tracked request touches a cluster of a tracked copy-on-read request |
| CopyOnRead.RunHasNoWaitCycle | src/block.c:1463-1497 | in every interleaving requests wait only on tracked ones, which do not wait |
| CopyOnRead.OnlyGuestWritesShow | src/block.c:1810-1874 | a step changes what the guest sees only if it is a guest write, and then to the guest's data |
| CopyOnRead.RunIsTransparent | src/block.c:1810-1936 | after any run every sector shows the last guest write that reached it, or what it showed before |
| CopyOnRead.CopyOnReadReturnsTheView | src/block.c:1867-1869 | a copy-on-read request hands back the requested slice of what the guest's writes say |
| CopyOnRead.TopGrows | src/block.c:1810-1874 | no step takes a sector out of the image or changes the backing file; what is new lies in copied clusters or guest writes |
| CopyOnRead.CopyOnReadPopulates | src/block.c:1810-1874 | in every interleaving, when a copy-on-read request has its data, the image holds every sector asked for, and all that it held |
| CopyOnRead.RunCopiesClusters | src/block.c:1847-1858 | after a copy that succeeds the image itself holds, for every sector of the clusters, the last guest write |
| CopyOnRead.ReadReturnsTheView | src/block.c:1898-1932 | a read returns, at the moment of the driver's answer, the last guest writes |
| CopyOnRead.WriteIsDone | src/block.c:1995-2049 | a write that succeeds is done, and the image itself holds its data |
| CopyOnRead.ErrorsAreTheDrivers | src/block.c:1810-2049 | a request ends in an error exactly when the driver answers with one |
| CopyOnRead.EveryStepAdvances | src/block.c:1402-1497 | every step but an arrival brings the end nearer, so no run without arrivals is infinite |
| CopyOnRead.SomeoneCanMove | src/block.c:1463-1497 | as long as there is a request, one can move |
| CopyOnRead.Drains | src/block.c:1402-1497 | from every reachable state all requests can be brought to their end |
| ImageChain.Image.IsAllocated | src/block.c:2309-2330 | without an error an accurate run inside the image, nothing beyond its end, everything without a driver query; an error exactly when the driver is asked and fails |
| ImageChain.IsAllocatedAbove | src/block.c:2380-2415 | 0: none of the run is allocated above the base; 1: all of it is, in one image; exact for the first sector; exactly when the run is empty; an error exactly when a query fails before an image with the sector is found |
| ImageChain.UnallocatedReadsBase | src/block.c:2380-2415 | where the answer is 0, the chain reads as the chain from the base on, for chains of any length |
| ImageChain.CopyRun | src/block.c:1327-1335 | copying any run down, held by the top or not, leaves what the chain reads as it was, also when the write fails half way; it succeeds exactly when the run fits both images and neither access fails |
| ImageChain.CopyDown | src/block.c:1324-1337 | what the chain reads stays, even where queries fail; it succeeds exactly when every run fits and is read and written; then all that the top holds is in the backing file, and otherwise all before the run where it stopped; without failed queries, sectors that the top does not hold keep their backing data |
| ImageChain.Commit | src/block.c:1321-1342 | the guest reads what it read before, on every exit; it succeeds if and only if no read, write or make_empty fails and every run fits, which without failed queries is when all that the top holds lies inside the backing file; then the backing file holds all that the top held |
| Multiwrite.Concat | src/cutils.c:191-210 | appends the pieces of the requested bytes |
| Multiwrite.FlatCut | src/cutils.c:191-210 | those pieces hold exactly the requested bytes, and are no more than the source's |
| Multiwrite.Join | src/block.c:2957-2977 | one merge: a new vector with the first request up to the second, then the second |
| Multiwrite.Merge | src/block.c:2943-2986 | the array holds the merged requests, opaque and error are untouched, and each vector made by a merge stands in one free_qiov |
| Multiwrite.MergePreserves | src/block.c:2929-2987 | the merged requests do to each byte what the sorted ones do, where nothing is lost, whatever the limit on vectors keeps apart |
| Multiwrite.LeavesGaps | src/block.c:2943-2986 | where the vectors fit, requests that touch or overlap have become one: consecutive requests of the result have a gap |
| Multiwrite.KeptApart | src/block.c:2943-2986 | for any limit: consecutive requests of the result have a gap, or the second started with a request whose vector did not fit with the first |
| Multiwrite.PiecesFit | src/block.c:2953-2955 | a request of the result is one of the originals or has fewer pieces than the limit |
| Multiwrite.SimplerSuffices | src/block.c:2963-2966 | nothing is lost if each request that ends before its predecessor is followed by one that writes the rest |
| Multiwrite.EndsGrowLoseNothing | src/block.c:2963-2966 | if no request ends before an earlier one, nothing is lost |
| Multiwrite.GroupLoses | src/block.c:2963-2966 | a tail that is cut off and that no later request writes is not written by the merged requests at all |
| Multiwrite.MergeExact | src/block.c:2929-2987 | merging preserves a byte, on every disk and for all data of that shape, if and only if nothing is lost there; the condition looks only at places, lengths and vectors |
| Multiwrite.Sort | src/block.c:2912-2939 | any sorted permutation |
| Multiwrite.AioMultiwrite | src/block.c:3003-3043 | without a medium every request gets the error; otherwise exactly the merged requests are started, and the batch is pending on as many completions |
| Multiwrite.MultiwriteCB.UserCallbacks | src/block.c:2882-2893 | one call for each caller, and every merge-made vector destroyed |
| Multiwrite.MultiwriteCB.Complete | src/block.c:2895-2910 | nothing is called before the last completion; then each callback once, with the error |
| Multiwrite.MultiwriteCB.CompleteAll | src/block.c:2895-2910 | in any order of completion: each callback once, with the first error, and each merge-made vector destroyed once |
| Multiwrite.FirstErrorIsFirst | src/block.c:2901-2903 | the error reported is the first negative result to come in |
| ByteIo.Disk.Pwrite | src/block.c:1737-1784 | on success exactly the bytes [offset, offset + count) become buf; on failure each of them is old or new and no other byte changes; it fails exactly when bytes lie outside the device or an access that it needs fails |
| ByteIo.Disk.Pread | src/block.c:1692-1735 | on success the buffer holds exactly the bytes asked for, and its rest is untouched; it fails exactly when bytes lie outside the device or a read that it needs fails |
| ByteIo.Disk.Modify | src/block.c:1752-1757 | read-modify-write of part of a sector is an update of that part; it fails exactly when the sector is not there or an access fails |
| ByteIo.WriteThenRead | src/block.c:1692-1784 | a read of any range after a write returns the written bytes where they overlap and the old ones elsewhere; both succeed exactly when the bytes lie in the device and no access fails |
| DirtyBitmap.TouchedExactly | src/block.c:1658-1659 | the chunks gone through are those that hold a sector of the request |
| DirtyBitmap.TouchedByNothing | src/block.c:1658-1659 | what a request for no sectors marks |
| DirtyBitmap.InBounds | src/block.c:1553-1558 | a request that passes the check has all its bits in bounds if and only if it lies in a device that is not empty, or asks for nothing at a place where that marks nothing |
| DirtyBitmap.CheckedMeans | src/block.c:1531-1558 | with its 64-bit product the check comes to: the sector modulo 2^55, and the length, fit the device |
| DirtyBitmap.FarSectorPasses | src/block.c:1553-1558 | every sector that is 2^55 or a multiple beyond a good one passes the check on every device, and its bit is out of bounds |
| DirtyBitmap.Tracker.SetDirtyBitmap | src/block.c:1652-1678 | the dirty chunks gain or lose exactly those touched, and the count stays the number of set bits |
| DirtyBitmap.Tracker.SetDirtyTracking | src/block.c:3782-3801 | what is dirty afterwards, and exactly when the count is right |
| DirtyBitmap.Tracker.GetDirty | src/block.c:3803-3814 | whether the sector's chunk is dirty |
| DirtyBitmap.DirtyIffWritten | src/block.c:3816-3825 | after any history a chunk is dirty if and only if it was written since it was last reset |
| BlockMigration.StepKeepsInv | src/block-migration.c:187-260 | every step keeps each sector behind the cursor dirty, in an unfinished guest write, or current in what is in flight, queued or sent |
| BlockMigration.RunKeepsInv | src/block-migration.c:187-260 | so does every run |
| BlockMigration.CompleteIsSafe | src/block-migration.c:187-204 | a read that completes in order leaves the newest data newest |
| BlockMigration.MarkIsSafe | src/block.c:2020-2030 | a guest write that marks its chunks keeps its sectors safe |
| BlockMigration.ReadIsSafe | src/block-migration.c:252-257 | resetting the dirty bit when the read is issued keeps the chunk safe |
| BlockMigration.QuietIsDirtyOrEqual | src/block-migration.c:619-634 | once the guest is stopped and the blocks are sent, a sector is in a dirty chunk or the destination has it |
| BlockMigration.LeftoverIsLost | src/block-migration.c:447-477 | what a flush that stops early costs, exactly |
| BlockMigration.OvertakingLoses | src/block-migration.c:187-204 | when the newer of two reads of a chunk completes first, the destination is right if and only if the older one has seen what the source holds; for any devices, chunk and rest of the run that leaves the chunk alone |
| BlockMigration.LastCompletionWins | src/block-migration.c:187-204 | of two reads of a chunk, the one that completes last decides what the destination gets |
| BlockMigration.OvertakingHappens | src/block-migration.c:206-260 | there is such a run, from setup to the end with nothing dirty, that leaves stale data |
| BlockMigration.HeadersAreRead | src/block-migration.c:87-101 | headers of blocks, progress and end are told apart and give back the sector |
| BlockMigration.Sender.SaveDeviceDirty | src/block-migration.c:365-430 | one dirty chunk is read; it is cleared, and sent if the file has no error, or its read fails and it stays dirty; or the device has none left |
| BlockMigration.Sender.SaveDirtyBlock | src/block-migration.c:432-445 | it says no more exactly when nothing was dirty, and otherwise one chunk was read |
| BlockMigration.LastLoopEnds | src/block-migration.c:640-642 | the last loop ends if and only if as many reads succeed as there are dirty chunks; a read that keeps failing keeps it going for ever |
| BlockMigration.Sender.SendDirty | src/block-migration.c:640-642 | when it ends nothing is dirty; the file has no error if and only if no read failed, and then it has everything; after a failed read it takes nothing more |
| BlockMigration.Sender.CompleteSave | src/block-migration.c:619-658 | it succeeds, with everything sent and the section ended, if and only if the file had no error and no read failed; otherwise the section is not ended |
| BlockMigration.Receiver.Load | src/block-migration.c:660-735 | for any stream: it succeeds exactly when it comes to the end of the section with every item accepted, and refuses an unknown or empty device, a place beyond the end, an unknown kind and a write that fails; on a sender's stream the disk is what the items make of it |
| BlockMigration.LoadAll | src/block-migration.c:660-735 | for any stream: it succeeds exactly when every item is accepted and the stream ends with the end of a section; on a sender's stream the disk is what the items make of it |
| BlockMigration.SendersIsTaken | src/block-migration.c:660-735 | a sender's stream is accepted exactly when no write of the receiver fails |
| BlockMigration.Migrate | src/block-migration.c:544-735 | after any run in which reads of a chunk complete in order and the blocks are all sent, the migration succeeds if and only if no read of the last phase and no write of the receiver fails, and then the destination equals the source |
| RamMigration.IsDupPage | src/arch_init.c:164-177 | whether all bytes of a page are equal, for any vector size |
| RamMigration.StepKeepsInv | src/arch_init.c:343-407 | every step keeps each page dirty, in the log, being sent, or equal at the destination, and keeps the stream readable with the sender's last block as the one remembered |
| RamMigration.RunKeepsInv | src/arch_init.c:343-407 | so does every run |
| RamMigration.RunIsEncoded | src/arch_init.c:265-275 | in every run, also when the guest writes a page between the test for a uniform page and its copy, the block remembered after the stream is the sender's last block |
| RamMigration.SyncedIsDirtyOrEqual | src/arch_init.c:602-604 | once the guest is stopped and the log synced, a page is dirty or equal |
| RamMigration.PageRoundTrip | src/arch_init.c:265-275 | what is put in the stream for a page comes out as that page: as one byte, or in full whether uniform or not, named or continued |
| RamMigration.Sender.RamSaveSetup | src/arch_init.c:487-533 | every page is dirty and the stream starts with the list of blocks |
| RamMigration.Sender.FindDirty | src/arch_init.c:343-407 | the cyclic search finds the first dirty page after the last one, and finds none only when there is none |
| RamMigration.Sender.SearchNeverEnds | src/arch_init.c:351-402 | without a last block and without a dirty page the search never comes to its end |
| RamMigration.Sender.RamSaveBlock | src/arch_init.c:343-407 | in the last phase: one dirty page is cleared and sent, as one byte exactly when it is uniform, or nothing is dirty |
| RamMigration.Sender.RamSaveComplete | src/arch_init.c:602-624 | it ends with nothing dirty and everything sent |
| RamMigration.LastPhaseStarts | src/arch_init.c:355-397 | after every run the last phase finds a readable stream, and its search ends |
| RamMigration.Receiver.HostFromStreamOffset | src/arch_init.c:667-695 | the page addressed, and the block remembered |
| RamMigration.Receiver.CheckBlocks | src/arch_init.c:716-752 | reads the list until its lengths have used up the total, and accepts exactly blocks that are there with those lengths |
| RamMigration.SenderListCounts | src/arch_init.c:522-528 | a sender's list is accepted and read to its end |
| RamMigration.Receiver.Load | src/arch_init.c:697-799 | for any stream: it succeeds exactly when it comes to the end of the section with every item accepted, and refuses a list that does not count out or names other blocks, an unknown block, and a continued page without a block; on a sender's stream memory is what the items make of it and only a missing end is an error |
| RamMigration.LoadAll | src/arch_init.c:697-799 | for any stream: it succeeds exactly when every item is accepted and the stream ends with the end of a section; on a sender's stream memory is what the items make of it, whatever block was remembered before |
| RamMigration.GoodAccepted | src/arch_init.c:697-799 | the receiver accepts every item that a sender sends |
| RamMigration.Migrate | src/arch_init.c:487-799 | after any run, the last phase and the receiver, the destination's RAM equals the source's and the receiver remembers the sender's last block |
| BufferedFile.FlushKeepsStream | src/buffered_file.c:73-110 | a flush moves bytes from the buffer to the backend in order, and stops early only when frozen or failed |
| BufferedFile.PutLoopKeepsStream | src/buffered_file.c:131-154 | direct writes start from an empty buffer and keep the order |
| BufferedFile.PutIsFifo | src/buffered_file.c:112-171 | without an error a put adds its bytes to the end of delivered and buffered |
| BufferedFile.RunIsFifo | src/buffered_file.c:112-263 | over whole runs, until the first error, delivered then buffered is all that was put, in order |
| BufferedFile.CloseDelivers | src/buffered_file.c:173-194 | closing without an error delivers everything |
| BufferedFile.PutIsLimited | src/buffered_file.c:112-171 | direct writes are counted; above the limit a put only buffers, and below it a put goes beyond by its own size at most |
| BufferedFile.TickReopens | src/buffered_file.c:243-263 | after a tick of a file that is neither frozen nor failed the count is 0, and the next put reaches the backend directly |
| BufferedFile.RunIsLimited | src/buffered_file.c:112-263 | over every run without a change of rate, no more has been written directly since the last tick than the limit and one put |
| BufferedFile.PutExact | src/buffered_file.c:112-171 | a put keeps delivered then buffered in order, whatever the bytes, if and only if no answer of 0 and no error ends its flush before a direct write delivers any, and none ends the direct loop |
| BufferedFile.PutInOrder | src/buffered_file.c:112-171 | where the answers do no harm the bytes go to the end of the stream |
| BufferedFile.PutBreaks | src/buffered_file.c:97-149 | where they do harm bytes are lost or overtake others |
| BufferedFile.RunExact | src/buffered_file.c:112-263 | over whole runs: all that was accepted is there in order, whatever the bytes, if and only if the answers do no harm to any put |
| BufferedFile.ZeroReorders | src/buffered_file.c:97-100 | an instance: a 0 in the flush is recorded as no error, and later bytes overtake |
| BufferedFile.FailedFlushReorders | src/buffered_file.c:129-154 | an instance: after a flush that failed the put goes on, and its bytes overtake |
| BufferedFile.ZeroLoses | src/buffered_file.c:144-149 | an instance: a 0 in the direct loop is recorded as no error, and the bytes of the put are gone |
| BufferedFile.ZeroCanDoNoHarm | src/buffered_file.c:97-100 | an instance: a 0 in a flush that no direct write follows |
| BufferedFile.QemuFileBuffered.Append | src/buffered_file.c:49-71 | the bytes go to the end of the buffer, grown when needed |
| BufferedFile.QemuFileBuffered.FlushBuffer | src/buffered_file.c:73-110 | the buffer in place does what the flush is specified to do |
| BufferedFile.QemuFileBuffered.PutBuffer | src/buffered_file.c:112-171 | the file in place does what the put is specified to do, with its return value |
| BufferedFile.QemuFileBuffered.RateTick | src/buffered_file.c:243-263 | the tick does what it is specified to do, with and without an error |
| BufferedFile.QemuFileBuffered.Close | src/buffered_file.c:173-194 | the closing loop does what it is specified to do, and ends |
| BottomHalves.Context.NewBh | src/async.c:44-53 | a new bottom half stands first on the list |
| BottomHalves.Context.ScheduleBh | src/async.c:94-110 | schedules once, and remembers which kind |
| BottomHalves.Context.CancelBh | src/async.c:112-115 | drops the scheduling |
| BottomHalves.Context.DeleteBh | src/async.c:117-121 | drops the scheduling and marks it deleted |
| BottomHalves.Context.Act | src/async.c:44-121 | each call does what it says to its bottom half; whatever a callback does keeps list and history sound; inside a walk the list only grows at its head, and what is due waits until it is called or dropped |
| BottomHalves.Context.Visit | src/async.c:64-73 | a due bottom half leaves the scheduled state, its callback is called with one entry of the script, and nothing else happens |
| BottomHalves.Context.Walk | src/async.c:61-75 | the walk's place stays good; callbacks are called in list order, one at a time, and all else happens inside them; what is due at the end was scheduled at or behind its own place; the result tells whether one that was not idle ran; with callbacks that do nothing, exactly those due run, once each, in list order |
| BottomHalves.Context.Sweep | src/async.c:77-89 | exactly the deleted are unlinked and freed, the others stay in order |
| BottomHalves.Context.PollBhs | src/async.c:55-92 | as the walk, and: the first thing that happens to one that was due is its callback, with its kind of scheduling, or that it is dropped; a nested poll frees nothing; the outermost leaves exactly the deleted freed; with callbacks that do nothing, exactly those due have run and the result holds exactly when one of them was not idle |
| BottomHalves.DueIsCalled | src/async.c:61-75 | the first thing that happens to a bottom half that was due is that this poll calls it, unless something done inside a callback comes first |
| BottomHalves.MainLoop | src/async.c:44-121 | the history of every run is sound: at most one scheduling outstanding, no callback after deletion |
| BottomHalves.CallbackNeedsScheduling | src/async.c:64-73 | between two callbacks of a bottom half it has been scheduled |

## Left out

- `bdrv_open`, probing, creation, QMP queries, trays, option parsing, the user interface and the disassemblers.
- I/O throttling and bandwidth estimates.
- XBZRLE in RAM migration, which a receiver that does not use it refuses; the encoder, decoder and page cache are in other files.
- `bdrv_co_discard`, `bdrv_write_compressed` and write-zero requests; they go other ways through the block layer.
- Requests that fail `bdrv_check_request`, a missing medium or a read-only device in `CopyOnRead`; they return before they are tracked.
- Reads by the guest in `CopyOnRead` are atomic driver reads; a driver that yields in the middle of one is not modelled.
- Re-opening the backing file read-write and read-only around `bdrv_commit`.
- ImageChain.Commit: a failed allocation query counts as allocated and leaves the run length unset, so the model takes any length; it stops there (`overrun`) when that length is beyond the buffer. From some query on, failed ones leave a length other than 0, because otherwise the loop need not end.
- Growable devices, and 64-bit overflow of sector numbers in the block layer other than in the check of a request; the step systems take requests inside the device.
- Bitmap.FindNextZeroArea: does not cover a size whose rounding up leaves no room for the area below 2^64, because the sums of the search wrap around there.
- The size of `aio_bitmap`; it is a set of chunks.
- Shared-base block migration, and reads of the sender that fail while the guest runs; the migration is then cancelled.
- RamMigration.Receiver.Load: does not model a page offset beyond its block, which the source does not check.
- Errors of the migration file in RAM migration; the file takes what it is given.
- Sorting of the RAM block list at setup; the blocks are given in their order.
- BottomHalves.Context.Act: a bottom half that is freed is not used by callbacks; the source leaves that to them. Bottom halves are records in a table and pointers are their numbers, so allocation is not modelled.
- `qemu_bh_update_timeout`, `qemu_notify_event`, the timer and the notifications of the client in the buffered file.
- `slow_bitmap_and`, `slow_bitmap_or`, `slow_bitmap_xor`, `slow_bitmap_andnot`, `slow_bitmap_complement`, `extract` and `deposit`: they would only add easy members.
- The null checks of `src/aes.c` and its `FULL_UNROLL` branches, which are not compiled.
