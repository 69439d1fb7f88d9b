# A verified model of Longtail

Longtail is a content-addressed delivery engine. Files are cut into chunks, chunks that
repeat are stored once, chunks are packed into blocks, versions are compared by their
indexes, and a tree is brought from one version to another from the blocks of a store.
This project models the parts of the C sources in which the hard arguments lie, in the
form the sources have (arrays and loops as methods, callbacks and atomic operations as
the steps of state machines), and proves what they are for.

Run `dafny verify dfyconfig.toml` to check everything.

| file | what it models |
|---|---|
| LookupTables | the chained hash table of src/longtail.c |
| RollingHash, Chunking | the content-defined chunker of lib/hpcdcchunker |
| AssetChunking, VersionCreation | chunking files with parallel jobs, deduplication, the version index |
| Packing, CreateContent | packing chunks into blocks, content indexes |
| HashDiff | the difference of hash lists |
| ContentAlgebra, MissingContent, MergeContent, Syncing | retarget, missing, merge, add, validate, and the upload and caching pipelines made of them |
| ContentWriting | writing the blocks of an upload from the source files |
| Reading | random access to chunked files in lib/blockstorestorage |
| Directories | the directory index of the same library |
| VersionDiffs, Storages, ApplyDiffs, VersionChanges | comparing versions and applying the difference to a tree |
| WriteLists, BlockWriting, TargetWriting | which assets are written how, and writing them from the blocks of a store |
| AssetWriting, WriteJobs | the pipelined writer of one asset, and the jobs of a whole write |
| JobGroups | the accounting of job groups in lib/bikeshed |
| FlushGates, CacheStores, CompressStores | the request and flush protocols of the caching and the compressing block store |
| Delivery | files are indexed, uploaded and read back |
| TreeDelivery | all of it from end to end: a tree is indexed and uploaded, and another one is brought to it |
| Indexes, Prelude, Sorting | the data model, and shared vocabulary |

## Reading the model

- A content index is read as its list of (chunk hash, block hash) pairs; the algebra of
  indexes is stated on these lists, order included.
- Hash functions are uninterpreted. `bytes` gives the bytes behind a chunk hash; that equal
  hashes mean equal bytes, lists or paths is assumed only where a contract says so (`Tells`,
  `HashTells`, `FilesTold`, `HashesTell`, `VersionDescribes`, `HashesMeanContent`), and only
  of the chunks, lists and paths that occur: a hash of 64 bits can do it
  (`Delivery.SomeHashTells`).
- Jobs that the sources run side by side are run in any order (a loop that picks any job
  that has not run) where they write to different places, and as interleaved steps where
  they share state: the asset writer, the job group, the two block stores. There a run is
  any sequence of steps that are possible one after the other, and the theorems are about
  every run. A whole write runs block jobs and partial writes of different assets in any
  order; how the partial writes of one asset overlap with reads is the subject of the asset
  writer, and what that means for errors is a choice of the whole write: the failure of a
  partial write that is not the first of its asset is reported or not.
- An update asks the store for the blocks of the difference; the index that an upload merged
  stands for the index of the store.
- A block store is a map from block hashes to blocks. Where the store can lack a block or
  reject a put, contracts say what then happens. Contents of files are never given to
  the code: they come from the files of a source tree, or from the blocks of a store, and
  `bytes` is a ghost.
- Files live in the storage of lib/memstorage: a new directory has the permissions 0775, a
  new file 0644, and a file that its user may not write cannot be opened for writing.
- Integers are unbounded. Where the source is 32 bits wide and could wrap, the contract says
  which sizes are allowed: the target chunk size times 1024, four times the maximal chunk,
  sums of block and chunk sizes, the number of merge jobs. The rolling hash uses 32-bit
  words. 0xffffffffffffffff and 0xffffffff mark missing entries, as in the source.
- The bucket mask is written as a remainder; the number of buckets is proved to be a power
  of two. `qsort` is any sort: callers use only that the result is a sorted permutation.

## Where the code does not do what one may expect

Each of these is kept as it is, with the exact condition or a concrete run beside it.

- With repeats in the new list, `DiffHashes` can lose added hashes, because the last loop
  walks the original list with the number of distinct hashes (`HashDiff.ListedIffEarly`,
  `HashDiff.CountMatchesIff`, `HashDiff.RepeatsLoseAHash`).
- A flush can be called inside a put of the caching store, because the pending count can be
  zero between its two halves (`CacheStores.FlushWaitsIff`, `CacheStores.FlushInsidePut`).
  The compressing store has no such gap.
- Jobs that exceed their reservation can share a slot (`JobGroups.OverrunSharesSlots`; when
  that can happen, `JobGroups.OverrunIff`).
- An asset that is written in parts has one error field for all its write jobs. A write job
  stores its success after it has released the next one, so it can overwrite the error of
  that one, and the write is then reported as a success. That happens to assets that need
  several partial writes, when a later one fails (`AssetWriting.FailureReportedIff`,
  `AssetWriting.FailureCanBeLostIff`, `AssetWriting.FailureIsLost`,
  `TargetWriting.LateFailureUnnoticed`). So a change of version that returns no error has
  yielded the target if each asset to write could be fetched or is written at once
  (`VersionChanges.ChangeVersion`). The step from one partial write to the next takes two
  threads; without a worker the waiting thread runs the jobs one by one.
- When the backing store rejects a block without a tag, the compressing store disposes a block
  that is not there (`CompressStores.CrashesIffUntagged`, `CompressStores.RejectedPutCrashes`),
  and it does not look at the error of the codec (`CompressStores.FailureUnnoticedIff`,
  `CompressStores.UnnoticedFailure`).
- Merging gives the new index precedence, while src/longtail.h:1196 says that the local one
  comes first.
- A read from the block store storage reports success also if blocks could not be fetched
  (`Reading.BlockStoreStorage.ReadFile`, `Reading.BlockStoreStorage.SliceIffThereBefore`).
- Reading zero bytes of an asset without chunks divides by zero
  (`Reading.BlockStoreStorage.ReadFile`).
- Directories that a difference adds do not get the permissions of the target, and those with
  another content hash keep what they had (`VersionChanges.ChangeVersion`,
  `VersionChanges.FinalPermissions`, `VersionChanges.AddedDirectoryLosesPermissions`).

## Model

| member | source | states |
|---|---|---|
| TreeDelivery.IndexUploadAndUpdate | cmd/main.c:395-903 | Two trees of files are indexed, what a store lacks of the second is packed and uploaded, and the first is updated from the blocks of the store as the command does it: it ends with exactly the files and directories of the second, byte by byte, and with their permissions exactly if every directory that only the second has should have those of a directory the update creates; if permissions are not retained, files and directories that were there keep theirs, except that a file with other data is writable, and new ones have those of new entries |
| TreeDelivery.UploadAndUpdate | cmd/main.c:430-903 | The same for any two versions: what was uploaded is what an update writes, no error is returned if the limits are positive, and permissions end as those of the target exactly if they carry over; if they are not retained, they are left as ChangeVersion leaves them |
| TreeDelivery.UpdateFrom | cmd/main.c:793-920 | The difference, nothing more if it is empty, the content index of what it adds and modifies, this retargeted to the store, and the change: from a store that serves the target it fails exactly if the limits are not positive or the store uses another hash function while there is something to fetch, and otherwise yields the target |
| TreeDelivery.RetargetedServes | cmd/main.c:842-901 | The store retargeted to the content of the difference still has every chunk of the assets to write, in blocks that can be fetched |
| TreeDelivery.SameHashIffSameData | src/longtail.c:1787-1792 | Files of the same path have the same content hash in both indexes exactly if they have the same data |
| Delivery.IndexUploadAndRead | cmd/main.c:395-531 | Files are chunked, indexed, packed and written to a store, and a slice of any non-empty file read back through the merged index has exactly the bytes of the file; it fails only if a block limit is not positive, the store uses another hash function, or a put is rejected |
| Delivery.UploadAndRead | cmd/main.c:430-531 | The same for any index that describes the files of a tree: what was uploaded is what a reader gets |
| Delivery.UploadVersion | cmd/main.c:430-531 | After an upload of what the store lacks, the store serves the version: every chunk of every asset is in the block that the merged index names, and every block holds the bytes behind its hashes; all blocks were accepted |
| Delivery.UploadedHolds | cmd/main.c:478-531 | Reused blocks keep their chunks, new blocks have theirs, so every pair of the merged index is backed by the store |
| Delivery.HashTellsBlocks | src/longtail.c:3311-3330 | Blocks of the missing index have distinct hashes, and one that is in the store already has the same chunks, if the hash tells apart the runs of missing chunks that blocks are made of, and these from the stored lists |
| Delivery.SomeHashTells | src/longtail.h:22 | For any missing chunks there is a hash of 64 bits that does |
| Delivery.MergedServes | lib/blockstorestorage/longtail_blockstorestorage.c:1109-1197 | What the storage asks of its block store holds for the merged index |
| VersionCreation.CreateVersionIndex | src/longtail.c:2040-2257 | Every asset of the index is the concatenation of its chunks and equals its file, the chunk hashes are those of the files in first-occurrence order and all used, sizes are within the chunker bounds and tags those of a file with the chunk; content hashes are hashes of chunk hashes, path hashes of paths; hash identifier and target chunk size are kept |
| VersionCreation.BuiltDescribes | src/longtail.c:1957-2038 | If equal chunk hashes mean equal bytes, sizes and runs of the index describe the files |
| VersionCreation.ContentHashesMeanContent | src/longtail.c:1787-1792 | Equal content hashes mean equal contents of two versions, if the hash tells the lists of chunk hashes of assets with the same name apart |
| VersionCreation.HashContents | src/longtail.c:1787-1792 | The content hash of an asset is the hash of the chunk hashes in its slice |
| LookupTables.LookupTable.constructor | src/longtail.c:732-766 | A new table is empty, with chains that are linked in increasing order of entries |
| LookupTables.TableSize | src/longtail.c:711-719 | The number of buckets is the least power of two that is at least capacity / 8, so masking is a remainder |
| LookupTables.LookupTable.Put | src/longtail.c:622-648 | Appends the entry; only a key that was absent gets a new answer |
| LookupTables.LookupTable.PutUnique | src/longtail.c:650-687 | Answers with the first value of the key and adds nothing, or adds the entry; there is never a second entry for a key |
| LookupTables.LookupTable.Get | src/longtail.c:689-704 | The value of the earliest entry with the key |
| LookupTables.LookupTable.Rehash | src/longtail.c:732-766 | Copying the chains into a table of another capacity answers every key as before |
| LookupTables.LinkedAppend | src/longtail.c:622-648 | Linking an entry behind the end of its chain keeps every chain a strictly increasing list of exactly the entries of its bucket |
| LookupTables.SkipsNone | src/longtail.c:689-704 | Following a chain never skips the first entry with the key |
| LookupTables.LookupAppend | src/longtail.c:622-648 | In an append-only list the first insert of a key wins |
| LookupTables.PutAll | src/longtail.c:4139-4142 | A table filled in order holds these entries in this order |
| RollingHash.Slide | lib/hpcdcchunker/longtail_hpcdcchunker.c:253-266 | The incremental rotate and xor update yields the direct hash of the slid 48-byte window |
| RollingHash.SlidePrefix | lib/hpcdcchunker/longtail_hpcdcchunker.c:253-266 | Rotating the hash of a window prefix splits off the byte that leaves |
| RollingHash.RotlMacro | lib/hpcdcchunker/longtail_hpcdcchunker.c:187-191 | The two-shift rotation macro is repeated rotation by one bit |
| RollingHash.RotlBits | lib/hpcdcchunker/longtail_hpcdcchunker.c:187-191 | A rotation by r moves every bit by r places, around the end |
| Chunking.Feeder.Feed | src/longtail.c:1282-1311 | Copies min(requested, remaining) bytes |
| Chunking.Chunker.FeedChunker | lib/hpcdcchunker/longtail_hpcdcchunker.c:158-185 | Compacting and refilling the buffer changes neither the remaining bytes nor the position; afterwards the buffer holds a maximal chunk or all that remains |
| Chunking.Chunker.StartWindow | lib/hpcdcchunker/longtail_hpcdcchunker.c:230-243 | The first window is hashed directly and held by the ring |
| Chunking.Chunker.SlideRing | lib/hpcdcchunker/longtail_hpcdcchunker.c:253-271 | The ring holds the last 48 bytes with the oldest at the index |
| Chunking.Chunker.TakeIn | lib/hpcdcchunker/longtail_hpcdcchunker.c:253-266 | At every position the hash is the direct hash of the last 48 bytes, and the test is the boundary test of that hash |
| Chunking.Chunker.Scan | lib/hpcdcchunker/longtail_hpcdcchunker.c:228-274 | The incremental scan stops at the first position behind the minimum at which the last 48 bytes hash to a boundary, or at the maximum or the end of the data; the memoryless chunk function cuts there too |
| Chunking.Chunker.NextChunk | lib/hpcdcchunker/longtail_hpcdcchunker.c:195-274 | The next chunk of the remaining bytes ends at the first boundary behind the minimum, at the maximum, or where the bytes end; it is at the sum of the earlier lengths, and is the next chunk of the memoryless function |
| Chunking.ChunkLenOfBuffer | lib/hpcdcchunker/longtail_hpcdcchunker.c:203-228 | The buffered bytes decide the next chunk once they hold a maximal chunk or all that remains |
| Chunking.ChunksCover | lib/hpcdcchunker/longtail_hpcdcchunker.c:195-274 | Chunks concatenate to the stream; all lengths are at most max, and at least min except for the last |
| Chunking.CutAfterIsFirst | lib/hpcdcchunker/longtail_hpcdcchunker.c:245-274 | A cut is at the first position whose window hash is a boundary |
| Chunking.ChunkLenIff | lib/hpcdcchunker/longtail_hpcdcchunker.c:195-274 | A length is that of the next chunk exactly if no position between the minimum and it is a boundary and it is one itself, or the maximum, or all that remains |
| Chunking.ChunksIff | lib/hpcdcchunker/longtail_hpcdcchunker.c:195-274 | A list of byte strings is the chunking of a stream exactly if it makes up the stream and each string ends at the first boundary, the maximum, or the end of what remains there |
| Chunking.Resynchronise | lib/hpcdcchunker/longtail_hpcdcchunker.c:195-274 | Two streams that both have a cut at the start of a common suffix have identical chunks from there on |
| Chunking.ChunkCountBound | src/longtail.c:1603 | A stream of n bytes has at most 1 + n / 48 chunks |
| AssetChunking.SlotsDisjoint | src/longtail.c:1594-1660 | No two jobs share a slot of the shared arrays |
| AssetChunking.CountJobs | src/longtail.c:1594-1610 | The first pass counts exactly the jobs and slots that the second pass creates |
| AssetChunking.CreateHashJobs | src/longtail.c:1648-1687 | The parts of every asset, with adjacent slots |
| AssetChunking.DynamicChunking | src/longtail.c:1338-1545 | A job writes the chunks of its part to its own slots, and no other slot |
| AssetChunking.OutputFits | src/longtail.c:1536-1538 | A job never has more chunks than slots |
| AssetChunking.RunHashJobs | src/longtail.c:1688-1710 | In any order of the jobs, each leaves its results in its slots |
| AssetChunking.Compact | src/longtail.c:1768-1786 | Compaction keeps the results in job order and notes where those of every asset start |
| AssetChunking.ChunkAssets | src/longtail.c:1547-1811 | The compacted list is, file by file, the description of the chunks of the file |
| AssetChunking.FileChunksCover | src/longtail.c:1594-1687 | The chunks of the parts of a file concatenate to the file |
| AssetChunking.FileChunksIff | src/longtail.c:1594-1687 | A list of byte strings is the chunks of a file exactly if it makes up its data and each ends at the first boundary, at the maximum, or where its part of target size times 1024 bytes ends |
| AssetChunking.ParamsOk | src/longtail.c:1334-1336 | The minimum, average and maximum are an eighth, a half and twice of the target size, but not less than a window; they are what a chunker asks for |
| AssetChunking.SizesAddUp | src/longtail.c:1768-1786 | The chunk sizes of a file add up to its size |
| AssetChunking.Deduplicate | src/longtail.c:2181-2200 | Every chunk is replaced by the index of its hash in a list of distinct hashes in first-occurrence order |
| Packing.GetUniqueHashes | src/longtail.c:3218-3249 | The positions of first occurrences, in order |
| Packing.FirstOccurrencesUnique | src/longtail.c:3218-3249 | First occurrences list every hash exactly once |
| Packing.GatherBlock | src/longtail.c:3403-3445 | Gathers exactly the chunks of the next greedy block, without 32-bit wrap-around |
| Packing.PackBlocks | src/longtail.c:3403-3467 | The blocks are those of the greedy packing of the unique chunks |
| Packing.PackPartitions | src/longtail.c:3403-3467 | The blocks partition the unique chunks in order; each has one tag, at most max_chunks_per_block chunks, and at most 110 percent of max_block_size unless it is one chunk |
| Packing.PackIff | src/longtail.c:3403-3467 | A list of blocks is the packing exactly if it makes up the chunks and every block takes the next chunk as long as that has its tag, there is room for one more, and the block stays within 110 percent of its size |
| Packing.UniqueAreListed | src/longtail.c:3218-3249 | A packed chunk has the size and the tag that are listed where its hash occurs first |
| Packing.BlockCountBound | src/longtail.c:3403-3467 | There are at most 1 + tag changes + n / max_chunks + 2 * total / limit blocks |
| Packing.CreateBlockIndex | src/longtail.c:2525-2576 | A block has the hashes and sizes of its chunks, and the hash of its chunk hashes |
| Packing.CreateContentIndexFromBlocks | src/longtail.c:3251-3334 | Blocks are flattened one after the other, each chunk with the number of its block; EINVAL exactly if a block has another hash identifier than an earlier one that has any |
| Packing.SliceRuns | src/longtail.c:4190-4227 | Slicing by runs of equal block indexes recovers exactly the blocks that were flattened |
| CreateContent.CreateContentIndexRaw | src/longtail.c:3336-3491 | The index lists every hash once in first-occurrence order, in the blocks of the greedy packing; EINVAL exactly for a zero limit with chunks |
| CreateContent.CreateContentIndex | src/longtail.c:3493-3522 | The same for the chunks of a version, which are packed with the sizes and tags of the version, each block as long as chunks fit |
| CreateContent.CreateMissingContent | src/longtail.c:5913-6035 | The index of exactly the version chunks that are not in the content index, in version order, packed with the sizes and tags of the version |
| CreateContent.CreateContentIndexFromDiff | src/longtail.c:3524-3618 | The distinct chunks of the added and then the modified assets, at their first reference, packed greedily; EINVAL exactly for a limit of zero with chunks in the version |
| CreateContent.ChunkReferred | src/longtail.c:3560-3596 | Every chunk of an asset of the difference is among them |
| CreateContent.ReferredIff | src/longtail.c:3560-3596 | And nothing else is: a hash is among them exactly if it is that of a chunk of an asset of the difference |
| CreateContent.PackedIndex | src/longtail.c:3336-3491 | Flattening the packing gives a well-formed index of the hashes |
| HashDiff.MakeUnique | src/longtail.c:5774-5791 | Removes repeats from a sorted array in place and keeps every element |
| HashDiff.Merge | src/longtail.c:5834-5876 | Splits two ascending lists into exactly what only one of them has |
| HashDiff.Reorder | src/longtail.c:5882-5909 | Rewrites the added hashes in the order of the new list |
| HashDiff.DiffHashes | src/longtail.c:5793-5911 | The returned counts and lists, also with repeats: the added list covers only the first n entries, n being the number of distinct new hashes; the removed list is exactly reference minus new |
| HashDiff.DifferenceOfDistinct | src/longtail.c:5793-5911 | Without repeats the added list is the order-preserving filter, and the count matches |
| HashDiff.NotInSelects | src/longtail.c:5882-5909 | The filter keeps what is not in the reference, in order and as often as it is listed |
| HashDiff.ListedIffEarly | src/longtail.c:5832-5899 | With repeats, every added hash is listed exactly if none occurs only after the first n entries |
| HashDiff.CountMatchesIff | src/longtail.c:5832-5899 | Counts the same failure: the returned count is the number of hashes written exactly if the first n entries have as many that the reference has, repeats counted, as the whole list has distinct ones (which hashes are listed is the subject of ListedIffEarly) |
| HashDiff.RepeatsLoseAHash | src/longtail.c:5832-5899 | A concrete list with a repeat for which an added hash is lost |
| ContentAlgebra.RetargetContent | src/longtail.c:6200-6346 | The first reference pair of every requested chunk, in reference order, with exactly the blocks in use; EINVAL exactly for different hash identifiers |
| ContentAlgebra.KeepFirstFacts | src/longtail.c:6200-6346 | Retargeting keeps each requested chunk of the reference once |
| ContentAlgebra.KeepFirstSelects | src/longtail.c:6200-6346 | They are the first pairs of requested chunks, in the order of the reference |
| ContentAlgebra.WithoutSelects | src/longtail.c:6529-6580 | Of a merge, the local pairs of unknown chunks, in their order |
| ContentAlgebra.OfBlocksSelects | src/longtail.c:6110-6190 | Of the missing content, the pairs of the missing blocks, in their order |
| MissingContent.FindMissingBlocks | src/longtail.c:6092-6109 | Every block with a chunk the reference lacks, in the order of the first such chunk |
| MissingContent.GetMissingContent | src/longtail.c:6037-6198 | All chunks of those blocks, each block listed once |
| MissingContent.MissingContentCovers | src/longtail.c:6037-6198 | Whole blocks, each with a missing chunk, and no missing chunk is left out |
| MergeContent.CreateFindJobs | src/longtail.c:6484-6518 | The ranges of the jobs cover every local chunk once, and their number fits into 32 bits |
| MergeContent.FindAllNewChunks | src/longtail.c:6357-6372 | In any order of the jobs, exactly the local chunks that the new index lacks are marked |
| MergeContent.MergeContentIndex | src/longtail.c:6419-6594 | All new pairs, then the local pairs of chunks that the new index does not have |
| MergeContent.MergedDistinct | src/longtail.c:6529-6580 | The merged index lists every block once |
| MergeContent.AddContentIndex | src/longtail.c:6596-6662 | All local pairs, then all new pairs |
| Syncing.Upsync | cmd/main.c:430-531 | Reused and missing chunks are disjoint and cover the version exactly, every merged pair comes from one of them, and the missing index goes block by block with hashes of chunk lists; these blocks are packed under the limits of the store, with the sizes and tags of the version |
| Syncing.UploadCovers | cmd/main.c:430-531 | The coverage follows from retarget, missing and merge for every version without repeated hashes and every store |
| Syncing.ValidateUpload | src/longtail.c:7326-7411 | Validating a version against what an upload merged for it never reports a missing chunk, and reports nothing for the index of files |
| Syncing.DescribedAddsUp | src/longtail.c:7366-7390 | The chunks of a described file add up to its size |
| Syncing.ValidateContent | src/longtail.c:7326-7411 | EINVAL exactly if the chunks of some file do not add up to its size, ENOENT exactly if none is so and some chunk of the version is not in the index, otherwise nothing |
| Syncing.CacheRetarget | lib/cacheblockstore/longtail_cacheblockstore.c:563-711 | The caching store finds exactly requested chunks that are in the local or the remote store, each pair from one of them, and fails exactly for incompatible indexes |
| Syncing.MissingIsTheRest | lib/cacheblockstore/longtail_cacheblockstore.c:601-654 | What is asked of the remote store contains every requested chunk that is not cached |
| ContentWriting.CreateAssetPartLookup | src/longtail.c:3802-3859 | Every chunk of an asset is known, with a file and an offset at which it lies |
| ContentWriting.PartBytes | src/longtail.c:3987-4055 | At that place the file has the bytes of the chunk |
| ContentWriting.CollectSizes | src/longtail.c:4133-4164 | The chunk sizes, or EINVAL exactly if the index has a chunk the version has not |
| ContentWriting.WriteContentBlock | src/longtail.c:3911-4102 | A block written from the files of the version holds the bytes behind its chunk hashes; it has the hash identifier of the index and the tag of its first chunk |
| ContentWriting.WriteContent | src/longtail.c:4104-4295 | In any order of the jobs every block that the backing store accepts ends in it with its chunks, the hash identifier of the index and the tag of its first chunk, and no other block changes; no error exactly if all blocks are accepted |
| ContentWriting.LastError | src/longtail.c:4271-4279 | The error of the last job that failed |
| Reading.BlockStoreStorage.constructor | lib/blockstorestorage/longtail_blockstorestorage.c:1109-1197 | The offsets of an asset are the prefix sums of its chunk sizes |
| Reading.FindStartChunk | lib/blockstorestorage/longtail_blockstorestorage.c:390-416 | Binary search for the last offset that is at most the position |
| Reading.BlockStoreStorage.SeekFile | lib/blockstorestorage/longtail_blockstorestorage.c:418-462 | The seek position is the offset of the seek chunk, which contains the position; fails exactly for an empty asset and a position other than 0 |
| Reading.BlockStoreStorage.CollectRanges | lib/blockstorestorage/longtail_blockstorestorage.c:500-550 | Every chunk the read touches is in a range of its block |
| Reading.BlockStoreStorage.GrowIfFull | lib/blockstorestorage/longtail_blockstorestorage.c:541-549 | The range map has room whenever an entry is put, although its growth is capped |
| Reading.BlockStoreStorage.ReadFromBlock | lib/blockstorestorage/longtail_blockstorestorage.c:229-297 | A job writes nothing but requested bytes of the asset, and serves every chunk of its range that its block holds |
| Reading.BlockStoreStorage.EveryChunkServed | lib/blockstorestorage/longtail_blockstorestorage.c:552-599 | Once all jobs have run, each chunk whose block was fetched was served, by the job of that block |
| Reading.BlockStoreStorage.RunJobs | lib/blockstorestorage/longtail_blockstorestorage.c:552-599 | In any order of the block jobs every chunk of the read whose block can be fetched is served, also when ranges of different blocks interleave; bytes of a chunk that no block has are not touched |
| Reading.BlockStoreStorage.ReadFile | lib/blockstorestorage/longtail_blockstorestorage.c:464-605 | With all blocks of the read fetched, the buffer is the requested slice of the concatenated chunks; a read also succeeds if blocks are missing, and then has the chunks whose block was fetched and leaves those that no block has as they were; nothing behind is touched; EIO exactly for a read past the end, a division by zero exactly for a read of nothing at the start of an asset without chunks |
| Reading.BlockStoreStorage.SliceIffThereBefore | lib/blockstorestorage/longtail_blockstorestorage.c:598-605 | After a read that lacked blocks, the buffer is the slice exactly if the bytes of the missing chunks were there before, for chunks that are in one block |
| Reading.AllServed | lib/blockstorestorage/longtail_blockstorestorage.c:229-297 | A read is complete once every chunk it touches is served |
| Reading.PlacedServes | lib/blockstorestorage/longtail_blockstorestorage.c:276-294 | Writing the requested part of a chunk serves it and harms no other |
| Directories.GetParentPathHash | lib/blockstorestorage/longtail_blockstorestorage.c:69-96 | The hash of the directory the path lies in with a slash behind it, 0 for the root |
| Directories.EntryOrderIsOrder | lib/blockstorestorage/longtail_blockstorestorage.c:45-67 | The comparator is a total order |
| Directories.SortEntries | lib/blockstorestorage/longtail_blockstorestorage.c:135-170 | The entries of all assets, each once, sorted by parent, directories first |
| Directories.CreatePathLookup | lib/blockstorestorage/longtail_blockstorestorage.c:135-192 | The lookup finds every entry by its hash, with the position and number of its children |
| Directories.Adjacent | lib/blockstorestorage/longtail_blockstorestorage.c:45-67 | The children of a directory are adjacent, from the first on |
| Directories.ListDirectory | lib/blockstorestorage/longtail_blockstorestorage.c:970-1059 | Iterating visits exactly the assets whose parent directory is the path, each once, directories before files and then by name; ENOENT exactly if there are none. For a path whose hash is that of another one, the same by hash |
| Directories.StartFind | lib/blockstorestorage/longtail_blockstorestorage.c:970-1034 | Starts at the first child, ENOENT exactly for an unknown or empty directory |
| Directories.ChildByPath | lib/blockstorestorage/longtail_blockstorestorage.c:69-96 | For a path whose hash is told from those of the assets, being a child by hash is lying in the directory |
| Directories.ListedIsTold | lib/blockstorestorage/longtail_blockstorestorage.c:135-192 | The hashes of listed directories are told from those of other assets |
| Storages.ParentIff | src/longtail.c:819-862 | A path is the directory it lies in, a slash and a name without slashes, or just a name |
| VersionDiffs.CreateVersionDiff | src/longtail.c:6770-7002 | Exactly the assets that only one version has, and the pairs with the same path that differ in content or only in permissions; removals long to short, additions short to long |
| VersionDiffs.MergeLists | src/longtail.c:6859-6953 | The merge of the sorted hashes classifies every asset once |
| ApplyDiffs.RemoveDirectory | src/longtail.c:7088-7137 | A directory is made writable and removed exactly when it is empty and free |
| ApplyDiffs.RemoveAsset | src/longtail.c:7079-7190 | The same for any asset |
| ApplyDiffs.RemoveAssets | src/longtail.c:7048-7194 | All listed assets are removed and nothing else, unless something still holds on to one of them at the last of ten tries, whatever is let go in between; an error comes after ten refusals at least |
| ApplyDiffs.RemovePass | src/longtail.c:7070-7192 | One pass removes what is free and empty and counts it; the last one leaves nothing unless it fails on an asset that is held |
| ApplyDiffs.StillRemovable | src/longtail.c:7048-7194 | Whatever was removed so far, an asset that is left is there, and is empty once those before it are gone |
| ApplyDiffs.RemovedAreRemovable | src/longtail.c:6690-6704 | In the order of the difference every asset is there and every directory is empty when its turn comes |
| ApplyDiffs.ChildGoesFirst | src/longtail.c:6690-6704 | What lies in a removed directory is removed before it |
| ApplyDiffs.DirectoryComesFirst | src/longtail.c:6674-6688 | An added directory is listed before what lies in it |
| ApplyDiffs.EmptyWhenRemoved | src/longtail.c:6690-6704 | A directory is empty when its removal is attempted |
| Storages.SafeCreateDir | src/longtail.c:802-817 | Succeeds exactly if the path is taken or its parent is a directory |
| Storages.EnsureParentPathExists | src/longtail.c:819-862 | Creates exactly the missing directories above a path, unless a file is in the way |
| WriteLists.CheckAsset | src/longtail.c:5268-5310 | Whether all chunks of an asset are in one block; ENOENT exactly if one is in none |
| WriteLists.BuildAssetWriteList | src/longtail.c:5231-5331 | Splits the assets into those of one block, sorted by block, and the others; ENOENT exactly if a chunk is in no block |
| VersionChanges.WritesCompleteTarget | src/longtail.c:7048-7290 | Removing and writing what the difference lists turns the tree of the source into that of the target, but for assets whose failure was lost |
| VersionChanges.SetListedPermissions | src/longtail.c:7292-7321 | Sets the permissions that are listed as modified and nothing else |
| VersionChanges.FinalPermissions | src/longtail.c:7292-7321 | In the end an asset has the permissions of the target exactly if it is a file or a directory that carries over: one that is added with the permissions of new directories, or one of both versions with equal content hashes or equal permissions |
| VersionChanges.AddedDirectoryLosesPermissions | src/longtail.c:7292-7321 | A concrete target that adds a directory whose permissions are lost |
| VersionChanges.ChangeVersion | src/longtail.c:7004-7324 | Applying a difference to the tree of the source, from the blocks of a store: no error if all chunks to write can be fetched, ENOENT if one is not in the index; without an error the tree has the paths of the target, and its contents but for assets that need several partial writes and cannot be fetched; so it is the target if each asset to write can be fetched or is written at once, with its permissions exactly if they carry over; if permissions are not retained, assets of both versions keep theirs, a file whose content changed is made writable, and added assets have those of new files and directories |
| VersionChanges.WrittenPermissionsLeft | src/longtail.c:7195-7292 | Writing without retaining permissions leaves exactly these permissions, also on files whose later partial writes failed |
| VersionChanges.UpdateTree | cmd/main.c:793-903 | The same with the difference computed first, from any content index and any store, permissions retained or not |
| VersionChanges.EmptyHolds | cmd/main.c:818-840 | If the difference is empty the tree is that of the target already, also with its permissions if they are not retained |
| AssetWriting.GatherBlocks | src/longtail.c:4454-4490 | One partial write takes chunks until its reads are used up and reads each block once |
| AssetWriting.GatherCovers | src/longtail.c:4454-4490 | Every chunk of a partial write is in a block it reads |
| AssetWriting.GatherMax | src/longtail.c:4454-4490 | It reads the blocks of its chunks once each, and stops exactly behind the chunk for which it needs its last read, or behind the last chunk |
| AssetWriting.CountAssetJobs | src/longtail.c:5399-5448 | The counting loop predicts exactly the write, sync and read jobs of every asset |
| AssetWriting.EveryRunWritesTheAsset | src/longtail.c:4530-4922 | In every interleaving of reads and partial writes, failures included: at most one write job touches the file, it is opened and closed at most once and not left open, and no more jobs are created than counted; unless a write job failed, the closed file is the concatenation of the chunks found in the fetched blocks, written without gap or overlap |
| AssetWriting.FailureReportedIff | src/longtail.c:4598-4922 | When all jobs are over, the failure of a write job is reported exactly if the write jobs before it had stored their success when it failed |
| AssetWriting.FailureCanBeLostIff | src/longtail.c:4887-4900 | With a worker, some run loses a failure exactly if the first partial write leaves chunks to others and its blocks are in the store |
| AssetWriting.FirstFailureStays | src/longtail.c:4530-4922 | In every run the failure of the first write job is in the error field |
| AssetWriting.LaterFailureIsLost | src/longtail.c:4887-4900 | For every asset of several partial writes, a run in which the second fails unnoticed; behind the chunks of the first the file is as it was opened |
| AssetWriting.FailureIsLost | src/longtail.c:4887-4900 | A concrete run with one worker, in which the second of two partial writes fails, no error is reported, and the file lacks a byte |
| AssetWriting.OneWriter | src/longtail.c:4650-4922 | Only the last write job can be doing anything with the file |
| AssetWriting.LookupNeverFails | src/longtail.c:4774-4850 | If blocks of the store have the chunks that the index puts into them, the blocks a write job copied hold every chunk it writes, although the context is reused |
| AssetWriting.NeverStuck | src/longtail.c:4530-4922 | Until all jobs of the asset are over some job can go on |
| BlockWriting.IndexBlocks | src/longtail.c:4737-4772 | A table that locates every chunk of the blocks |
| BlockWriting.WriteChunks | src/longtail.c:4737-4880 | The concatenation of the chunks is written at the sum of the sizes before them and nothing else changes; EINVAL exactly if a chunk is in none of the blocks |
| TargetWriting.WritePartialAsset | src/longtail.c:4530-4922 | A partial write takes an asset from `from` to `from + count` written chunks, other entries stay; the first begins the file or creates the directory; it fails exactly if a chunk is in none of the blocks or a directory has blocks, and a later one that fails leaves what was written |
| TargetWriting.WriteAssetFromBlock | src/longtail.c:5016-5110 | An asset is written from one block; it fails exactly if a chunk is not in the block |
| TargetWriting.NextPartialWrite | src/longtail.c:4400-4528 | The next partial write gathers and fetches its blocks; it makes progress, and succeeds if the chunks can be fetched |
| TargetWriting.WriteAssetsFromBlock | src/longtail.c:4938-5125 | A block job writes all its assets, and succeeds if the block has their chunks |
| TargetWriting.JobIsServed | src/longtail.c:5487-5549 | The block of a job has all chunks of its assets, if the chunks can be fetched at all |
| TargetWriting.RunJobs | src/longtail.c:5479-5667 | In any order of block jobs and partial writes of different assets, where the failure of a partial write that is not the first of its asset may go unreported: without a reported error nothing else has changed and all assets of the list are complete, but for those that need several partial writes and cannot be fetched; these are files with their first chunks; no job fails if all chunks can be fetched |
| TargetWriting.WriteAssets | src/longtail.c:5333-5668 | The same for the whole write |
| TargetWriting.ReportedError | src/longtail.c:5628-5662 | The error of the first job that failed, or if that is ENOTRECOVERABLE the first other one of a partial write |
| TargetWriting.NoLosses | src/longtail.c:5628-5662 | Nothing is lost of a list whose assets can all be fetched or are written at once |
| TargetWriting.WriteTarget | src/longtail.c:7195-7290 | ENOENT, and nothing changed, exactly if a chunk is in no block of the index; otherwise, without an error, the listed assets end with the bytes that the blocks hold for their chunks, but for those that need several partial writes and cannot be fetched; if permissions are not retained, none are changed but that files are made writable |
| TargetWriting.ModesTwice | src/longtail.c:4660-4720 | Two writes that do not retain permissions leave what one leaves: entries keep theirs or are made writable, new ones have those of new entries |
| TargetWriting.FilledNext | src/longtail.c:4753-4880 | Writing the next chunks behind those that are there keeps the file a prefix of its content |
| TargetWriting.EveryPipelineWritesTheAsset | src/longtail.c:4530-4922 | For an asset of a version, a file that the pipeline closes without a failure is the asset |
| TargetWriting.LateFailureUnnoticed | src/longtail.c:4887-4900 | For every asset of a version that needs several partial writes, of which the first can be read: a run that reports success and leaves a file with which no tree holds the version |
| WriteLists.CreateBlockJobs | src/longtail.c:5487-5549 | The block jobs take adjacent runs of assets with the same block and cover the list |
| WriteLists.EveryBlockReadOnce | src/longtail.c:5170-5208 | No block is read by two block jobs |
| WriteLists.JobBlockHoldsAsset | src/longtail.c:5231-5331 | Every chunk of an asset is in the block of its job |
| WriteJobs.CallsCreate | src/longtail.c:4492-4527 | The jobs a pipeline creates are those that its calls of CreateJobs ask for, step by step |
| WriteJobs.CreatedIsReserved | src/longtail.c:5399-5476 | All pipelines together create at most the counted jobs, and exactly these once all files are closed without a failure |
| WriteJobs.ReservationCoversWrite | src/longtail.c:5476-5667 | Twice the block assets plus the counted jobs is enough for every call of CreateJobs that a write and its running jobs make, in any order and whatever fails: no call fails, no slot is shared |
| JobGroups.WaitEndsWhenAllIsDone | lib/bikeshed/longtail_bikeshed.c:339-384 | When the wait is over, every job ever created in the group has completed and nothing can touch it any more |
| JobGroups.PendingWhenCounted | lib/bikeshed/longtail_bikeshed.c:174-190 | The pending count is positive until the last job was counted down |
| JobGroups.WaitCanEnd | lib/bikeshed/longtail_bikeshed.c:339-384 | The waiting thread can leave exactly when every job is over, and from every state a run without another call leads there |
| JobGroups.OverrunIff | lib/bikeshed/longtail_bikeshed.c:228-311 | In every run a call fails exactly if all calls together ask for more than was reserved; otherwise every job has a slot of its own |
| JobGroups.OverrunSharesSlots | lib/bikeshed/longtail_bikeshed.c:253-260 | Otherwise two jobs can get the same slot: a concrete run |
| FlushGates.StepConserves | lib/cacheblockstore/longtail_cacheblockstore.c:24-41 | No step loses or doubles a flush callback |
| FlushGates.GateStepOk | lib/cacheblockstore/longtail_cacheblockstore.c:727-742 | Whenever the lock is free, waiting flushes have a pending request |
| FlushGates.NoFlushIsLost | lib/cacheblockstore/longtail_cacheblockstore.c:24-41 | No flush is called twice; with nothing pending every flush was called or is about to be |
| FlushGates.WaitingGoesOn | lib/cacheblockstore/longtail_cacheblockstore.c:727-742 | While requests are pending, waiting flushes wait on, and a flush that is called begins to wait |
| CacheStores.EveryFlushOnce | lib/cacheblockstore/longtail_cacheblockstore.c:24-41 | In every run no flush is called twice, and with nothing pending or about to be called each was called exactly once |
| CacheStores.EveryPutReportsOnce | lib/cacheblockstore/longtail_cacheblockstore.c:99-219 | In every run an accepted put reports once, after both halves, with the answer of the remote store; a rejected one never; a put that returns an error was rejected by the remote store with it |
| CacheStores.PutNeverUsesFreed | lib/cacheblockstore/longtail_cacheblockstore.c:99-146 | A callback never finds the shared record freed |
| CacheStores.EveryGetReportsOnce | lib/cacheblockstore/longtail_cacheblockstore.c:343-552 | In every run a get reports once, and the original block is disposed once, never while the client or the local copy holds it |
| CacheStores.EveryGetReportsTheAnswer | lib/cacheblockstore/longtail_cacheblockstore.c:343-552 | In every run a get that reports reports the stored block exactly if the local store found it, a cached one exactly if the remote store found it, and an error exactly if the local store gave it other than for a missing block, or the remote store answered or refused with it; the remote store is asked exactly if the local one answers ENOENT or EACCES, and what it found is put into the local store |
| CacheStores.OriginalDisposedOnce | lib/cacheblockstore/longtail_cacheblockstore.c:43-61 | The reference count of a cached block disposes the original exactly when its last holder lets go |
| CacheStores.CompletionFindsPending | lib/cacheblockstore/longtail_cacheblockstore.c:24-41 | A request that completes finds the pending count above zero |
| CacheStores.FlushWaitsIff | lib/cacheblockstore/longtail_cacheblockstore.c:180-207 | Nothing is pending exactly if every request is uncounted, finished, or a put between its two halves with the remote half over |
| CacheStores.FlushInsidePut | lib/cacheblockstore/longtail_cacheblockstore.c:180-207 | A concrete run in which a flush is called inside a put |
| CacheStores.FlushWaitsForGet | lib/cacheblockstore/longtail_cacheblockstore.c:396-513 | What is queued while a get is in progress stays queued until client callback and local copy are done, and every flush that is called meanwhile waits and is not called back |
| CompressStores.CompressBlock | lib/compressblockstore/longtail_compressblockstore.c:52-123 | The stored block has the index of the original, and its data is two size words and the compressed bytes; untagged blocks are passed on, errors are returned |
| CompressStores.DecompressBlock | lib/compressblockstore/longtail_compressblockstore.c:232-300 | The error of the registry, EBADF exactly if the result (nothing, if the codec fails) has another size than announced, or else a block with the index and that many bytes |
| CompressStores.FrameRoundTrip | lib/compressblockstore/longtail_compressblockstore.c:52-300 | What was compressed and framed comes back, if the codec gives it back |
| CompressStores.FailureUnnoticedIff | lib/compressblockstore/longtail_compressblockstore.c:277-294 | A codec that fails on a stored block goes unnoticed exactly if the block was empty before it was compressed |
| CompressStores.UnnoticedFailure | lib/compressblockstore/longtail_compressblockstore.c:277-294 | A concrete stored block that is delivered although the codec fails |
| CompressStores.WriteWord | lib/compressblockstore/longtail_compressblockstore.c:113-115 | A header word reads back as written |
| CompressStores.EveryPutReportsOnce | lib/compressblockstore/longtail_compressblockstore.c:133-210 | In every run an accepted put reports once and a refused one never; a compressed block is disposed once; it reports the answer of the backing store, and a put that returns an error after compressing was rejected with it |
| CompressStores.EveryFlushOnce | lib/compressblockstore/longtail_compressblockstore.c:25-42 | In every run no flush is called twice, and with nothing pending or about to be called each was called exactly once |
| CompressStores.EveryGetReportsOnce | lib/compressblockstore/longtail_compressblockstore.c:309-407 | In every run a get reports once; the stored block is disposed exactly if the client gets another one |
| CompressStores.EveryGetReportsTheAnswer | lib/compressblockstore/longtail_compressblockstore.c:309-407 | In every run a get that reports reports the stored block exactly if it was found without a tag, another one exactly if it was decompressed, and an error exactly if the backing store answered with it or decompressing failed with it; blocks are decompressed exactly if they have a tag |
| CompressStores.CrashesIffUntagged | lib/compressblockstore/longtail_compressblockstore.c:198-208 | In every run a put uses a block that is not there exactly if the backing store rejected it and its block has no tag |
| CompressStores.RejectedPutCrashes | lib/compressblockstore/longtail_compressblockstore.c:198-208 | A concrete run that does |
| CompressStores.FlushWaitsIff | lib/compressblockstore/longtail_compressblockstore.c:454-469 | Nothing is pending exactly if no request is in flight |
| CompressStores.FlushWaitsForRequest | lib/compressblockstore/longtail_compressblockstore.c:25-42 | What is queued while a request is in flight stays queued until it is over, and every flush that is called meanwhile waits and is not called back |

## Left out

- Allocation failures, cancellation, progress, statistics and logging.
- The index files: reading and writing indexes to buffers is plain layout.
- The platform layer, file storage, command line, compression and hash libraries, and the fs, LRU, share and memory stores. A block store behind another one is a map, or answers at any time.
- The Bikeshed scheduler: a readied job runs once its dependencies are complete, a blocked one after it was resumed.
- Parameters instead of code: the 256 entries of the chunker table, the discriminator (its formula is floating point), the number of workers.
- Feed errors of the chunker, which the source cannot tell from the end of the stream.
- `Longtail_WriteVersion` and `Longtail_ValidateVersion`, which reuse the parts modelled here.
- `Longtail_PreflightGet` and the stores' request statistics.
- AssetWriting.EveryRunWritesTheAsset: one chunk is written in one step, and readying the next write job does not fail. Cancellation is left out.
- TargetWriting.RunJobs: a block job and a partial write are each one step; different jobs write to different files, and share only the directories above, which each creates if they are not there.
- The caching store of the update command: its retarget is Syncing.CacheRetarget, and the update is stated for a store that retargets its own index.
- Rejected puts: a put that is rejected stores nothing, and which puts are rejected is a parameter.
- MergeContent.MergeContentIndex: the two jobs that build its tables run one after the other.
- VersionDiffs.CreateVersionDiff: the lists are sequences that grow, not slices of one allocation.
- Directories.SortEntries: the entries are sorted in an array of their own, and put behind the root afterwards.
- Lower case: the source hashes paths in lower case, so versions with names that differ only in case do not satisfy `HashesTell`.
- CompressStores.CompressBlock: the codec keeps the size it announces; the settings of a codec are part of the codec.
- CacheStores.EveryGetReportsOnce: allocations succeed, so the paths on which the source forgets a completion are not taken.
- JobGroups.OverrunIff: task creation in the scheduler succeeds.
