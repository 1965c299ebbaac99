# A verified model of the enclave file system

The enclave keeps a file system in sealed blobs on an untrusted disk. Files are cut into chunks; a
file's chunk table (identifier, nonce, tag per chunk) is part of its metadata. One bounded cache, in
recency order and shared by all files, holds decrypted chunks; evicting a chunk seals it and writes
the new tag back into the table of the file it belongs to. Directories are written through, files
are written back.

The model has the program's own shape:

- `Enclaves.Enclave` is the enclave: resident inodes (`Filenode`, `Dirnode` objects), the superinfo,
  the chunk store, and the disk behind the OCALLs. Its methods are the ECALLs and the storage
  functions below them, each with the source's branches, loops and error returns. `ChunkStore` is the
  list and the map of volume.cpp, changed together.
- `Coherence.Coherent` ties that state to a `Model`: the tree of nodes, each file in pieces of one
  chunk size. A piece that is not a hole is in the cache, or the disk holds it under the nonce and tag
  that are in the table now.
- `Flat.Step` is the file system a user sees: a map from inode numbers to flat byte sequences, and
  directories that map names to inode numbers. `Enclave.FS()` is that view of a state. `Laws` says what
  each operation of it promises: when exactly it succeeds, which errno it returns otherwise, what it
  changes and what the next operation then sees.

The main results:

- **Refinement over every run** (`Enclave.Run`, `Enclave.Execute`): any run of lookup, forget, mkdir,
  create, unlink, rmdir, open, read, write, flush, fallocate and remount returns what the run of the
  flat file system returns and ends in its state, for every chunk size, cache capacity (zero
  included), number of files and pattern of evictions. No load of a chunk or of metadata fails in a
  reachable state.
- **The write path, exactly** (`Pieces.WriteExact`, `WriteIsSplice`, `WriteRepaired`, `Runs.RunParts`).
  `last_surplus` is the index of the last byte, not of the end, so a write that stops one byte short
  of the end of a file, starting at or before its last chunk, clears the last byte. The model keeps
  the code as it is: a write is the splice if and only if it is not of that kind or the byte was
  zero. A run agrees at every point with one whose writes replace their range and whose reads return
  what is there if and only if it has no such write, no empty write behind the end (which extends the
  file) and no read from behind the end. With the boundary repaired the splice holds on all inputs.
- **Frames and durability** (`FileSteps.EvictedOk`, `Enclave.OnDisk`, and again `Enclave.Run`): an
  eviction changes no file's bytes; after any run, the disk alone gives the bytes of each file that was
  flushed before it and not changed in it.
- **The tree** (`Enclave.OnePath`), **blob accounting** (`TreeSteps.BlobsAccounted`,
  `Enclave.Unlink`), **inode numbers** (`Runs.NeverReused`, `DeadStaysDead`), **reference counts**
  (`Runs.CountsBalance`), and **the cache as an LRU** (`Enclave.StoreIsLru`): in every state between
  operations the store is ordered by last access and is the most recent part of what a larger one
  would hold. `Accesses.IdStep` gives, chunk by chunk and in order, the accesses of each operation, and
  `Enclave.Run` that a run makes exactly those and draws exactly the identifiers it says.
- **The callers' protocol** (`Flat.Legal`): a file is flushed before it is truncated, unlinked or
  dropped. `TreeSteps.TruncateSafe` and `DropSafe` show what that is for: with a chunk of the file
  still cached, and only then, a later eviction has no slot to write its tag to; `UnsafeExample` is a
  state in which that happens, and `FlushedSafe` that it does not after a flush. For unlink, `UnlinkExact`
  and `EvictedReturns` say exactly when blobs stay behind, and when an evicted chunk's blob is on the
  disk afterwards; `LeftBehindExample` is a state in which one stays behind.

Assumptions: the cipher is an ideal AEAD (sections 7.1 and 7.2 of NIST SP 800-38D; `Storage.Ideal`,
which `IdealAeadExists` shows can be met, with `OneToOne`, by a cipher whose
tags can go stale), `gen_rand` returns identifiers that are new and not null
(`TreeSteps.Random`; the `pool` field holds the ones still to be drawn), each ECALL is one atomic
step, and OCALLs on files succeed. `CHUNKSIZE`, `MAX_CACHE_NUM` and the cipher are the parameters of
`Storage.Config`. Invariant and protocol can be met: `Enclaves.RunExample` makes a volume and carries out
a run that keeps to the protocol, whose results `Runs.ExampleRun` computes.

Files, from the bottom up: Bytes, Uuid, Layout (dump and load), Storage (sealing), Slices (the index
arithmetic), Pieces (files as pieces), Lru, Nodes and ChunkStore (the objects), Coherence (the
invariant), FileSteps and TreeSteps (what each elementary step keeps), Namespace (the tree), Flat and
FlatSteps (the user's view), Runs (what holds over every run), Accesses (the chunks each operation
touches), Laws (what each operation promises), Enclave (the program).

## Model

| member | source | states |
|---|---|---|
| Enclaves.Enclave.Run | enclave/ecall_fs.cpp:16-481 | any legal run of ECALLs, with evictions wherever the bounded cache makes them, returns and leaves exactly what the same run does on a map from inode numbers to flat bytes and directories of names; after it the disk alone gives the old bytes of each file flushed before it and not changed in it; its accesses to the store, and the identifiers it draws and gives up, are those of `Accesses.IdRun` |
| Enclaves.Enclave.Execute | enclave/ecall_fs.cpp:16-481 | the same for any one operation, from every reachable state; the invariant is kept; the accesses are those of `Accesses.IdStep` |
| Enclaves.Enclave.Read | enclave/ecall_fs.cpp:240-294 | the caller's buffer gets exactly the bytes of the range and is untouched behind them; cache, disk and tags may change, no file's content does; a read from behind the end returns zeros or EINVAL as the wrapped byte count makes it; that count is what is left in `*size`; the chunks of the range that are no holes are used, in order |
| Enclaves.Enclave.ReadLoop | enclave/ecall_fs.cpp:250-293 | the slices, in order, fill the buffer with the range, holes as zeros, through evictions between the turns; `wsize` ends at the number of bytes asked for; each chunk that is no hole is used once |
| Enclaves.Enclave.ReadChunk | enclave/ecall_fs.cpp:275-287 | a chunk that is not a hole always loads; its bytes are copied out, and it becomes the most recently used |
| Enclaves.Enclave.Write | enclave/ecall_fs.cpp:296-352 | a write always succeeds, replaces exactly its range, zero-fills a gap and extends the file, except for the one byte that the boundary `last_surplus` drops; nothing else changes; each chunk of the range is used once, in order, holes under the identifiers drawn |
| Enclaves.Enclave.WriteLoop | enclave/ecall_fs.cpp:317-346 | after the loop the file's pieces are the old ones with every slice laid over, chunks skipped exactly as the shortcut says, through evictions of any file's chunks between the turns |
| Enclaves.Enclave.WriteTurn | enclave/ecall_fs.cpp:318-345 | one turn: a hole draws a fresh identifier, an uncovered chunk is loaded, the slice is laid over and the chunk is pushed as the most recently used |
| Enclaves.Enclave.Flush | enclave/ecall_fs.cpp:354-374 | afterwards no chunk of the file is cached and the disk alone holds it; no content changes; the chunks are flushed in order |
| Enclaves.Enclave.Fallocate | enclave/ecall_fs.cpp:460-481 | the file is extended by zeros to the range's end, and keeps every byte it had |
| Enclaves.Enclave.Open | enclave/ecall_fs.cpp:218-238 | with OF_TRUNC the file becomes empty, exactly its chunks are gone from the disk and every other blob is as it was; without, nothing changes; a directory or an absent inode is EACCES |
| Enclaves.Enclave.Lookup | enclave/ecall_fs.cpp:16-68 | a name that is there is always found, with its entry's inode number, and counts one reference; the namespace does not change |
| Enclaves.Enclave.Fetch | enclave/ecall_fs.cpp:30-58 | the inode an entry names is the resident one or else loads, of the entry's kind and with the entry's number; the error branches are never taken |
| Enclaves.Enclave.Forget | enclave/ecall_fs.cpp:70-83 | the count goes down by `n`, the inode leaves the map at zero, the signed remainder is returned; no name or content changes |
| Enclaves.Enclave.Mkdir | enclave/ecall_fs.cpp:94-136 | the new directory is empty, has the counter's number, is the parent's one new name, and holds one reference; it loads from the disk, empty, under its number and name; the superinfo has the new counter and is otherwise as it was; the three errors leave everything as it was |
| Enclaves.Enclave.Create | enclave/ecall_fs.cpp:416-458 | the same for an empty file |
| Enclaves.Enclave.Unlink | enclave/ecall_fs.cpp:138-177 | the name and the file are gone; all its blobs have left the disk, and every other blob but the parent's is as it was; its stored table is the current one, so no load fails; EISDIR for a directory |
| Enclaves.Enclave.Rmdir | enclave/ecall_fs.cpp:179-216 | the name and the directory are gone exactly when it is empty: the test on the stored copy agrees with the resident one; its blob, and no other but the parent's, has changed |
| Enclaves.Enclave.Mount | enclave/ecall_volume.cpp:112-137 | with no file unflushed, a new enclave that loads superinfo, user table and root from the disk has the same names, bytes, user table and inode counter, and no references |
| Enclaves.Enclave.constructor | enclave/ecall_volume.cpp:21-82 | a new volume, mounted, is the empty tree: root inode 1, counter 2; its store and inodes are new objects, the user table is the one given, no chunk has been accessed, and three identifiers are drawn |
| Enclaves.RunExample | enclave/ecall_volume.cpp:21-140 | on a new volume a file is made, written, read, flushed, unlinked and forgotten, with the results to be expected, and nothing but the counter is left of it |
| Enclaves.Enclave.StoreIsLru | enclave/storage.cpp:345-404 | in every state between operations the store is within MAX_CACHE_NUM, without duplicates, ordered by last access, and a suffix of what any larger store would hold after the same accesses; which these are, `Run` and `Execute` say |
| Accesses.NameInTable | enclave/filenode.hpp:8-22 | the identifier that the specification of the accesses gives a chunk is the one in the file's table, null for a hole |
| Enclaves.Enclave.SaveChunk | enclave/storage.cpp:345-382 | the chunk is used: pushed last, then evicted from the front down to MAX_CACHE_NUM, as the trace's order says; the whole state stays coherent, other files' tags included |
| Enclaves.Enclave.WriteBack | enclave/storage.cpp:360-379 | a modified chunk that has left the store is sealed, and the new tag goes to the slot it stands for, in whatever file |
| Enclaves.Enclave.LoadChunk | enclave/storage.cpp:338-343 | a cached chunk leaves the store, any other is read from the disk under its slot's nonce and tag |
| Enclaves.Enclave.FlushChunk | enclave/storage.cpp:384-404 | the chunk is not cached afterwards, in every case, and what the state stands for is unchanged |
| Enclaves.Enclave.SaveCache | enclave/storage.cpp:310-336 | the slot gets a zero nonce and the new tag; the disk changes at this one name |
| Enclaves.Enclave.OnePath | enclave/ecall_fs.cpp:94-216 | in every reachable state each live inode has exactly one path from the root, and only live inodes have one |
| Enclaves.Enclave.OnDisk | enclave/ecall_fs.cpp:354-374 | in every reachable state the disk alone gives the bytes of each file that is flushed and not changed since |
| Enclaves.Enclave.DirOnDisk | enclave/dirnode.cpp:5-34 | in every reachable state the disk alone gives the names and inodes of each directory, in the order in which they were made, each with its kind (4 or 8) |
| Enclaves.Enclave.SuperOnDisk | enclave/superinfo.cpp:5-36 | in every reachable state the disk alone gives the superinfo with the current inode counter, and the user table as it was saved |
| Enclaves.Enclave.IdsFine | enclave/filenode.hpp:8-22 | in every reachable state a slot has one identifier, and those still to be drawn are all different, not null and not in use |
| Enclaves.Enclave.ViewOk | enclave/ecall_fs.cpp:112-131 | in every reachable state numbers in use are below max_ino, entries name inodes other than the root, counts are positive |
| Pieces.WriteExact | enclave/ecall_fs.cpp:306-350 | the write loop on any file and range: the result is the splice, except that in the lossy case the byte at old size minus one becomes zero; chunk count and zero slack are kept |
| Pieces.WriteIsSplice | enclave/ecall_fs.cpp:311-331 | the write loop's result on the pieces is the splice if and only if the write is not lossy or the byte it drops was zero |
| Pieces.WriteRepaired | enclave/ecall_fs.cpp:311 | with the boundary taken where the last chunk's bytes end, every write is the splice |
| Pieces.DroppedExactly | enclave/ecall_fs.cpp:321-331 | of all old bytes outside the range the loop drops the last one, and it alone, exactly in the lossy case |
| Pieces.LossyExample | enclave/ecall_fs.cpp:311 | the loop, writing nine bytes at the start of a ten-byte file, clears the tenth byte |
| Pieces.ReadFlat | enclave/ecall_fs.cpp:265-288 | a range of pieces is the range of flat bytes, and behind the end only zeros |
| Pieces.GrowShape | enclave/ecall_fs.cpp:470-478 | extending the table exposes only zeros, and chunk count and zero slack are kept |
| Slices.Tile | enclave/ecall_fs.cpp:265-268 | the slices of read and write tile the range: the first starts at its start, each where the one before ended, the last ends at its end, each inside its chunk; the unsigned expressions do not wrap |
| Slices.ServedSums | enclave/ecall_fs.cpp:262-289 | `wsize` starts at 0, grows by each slice, never passes `size`, and ends at it |
| Slices.EmptyTile | enclave/ecall_fs.cpp:306-307 | the loops make no turn only for an empty range |
| Runs.RunParts | enclave/ecall_fs.cpp:240-352 | a run agrees, in state and results, at every point with one whose writes replace exactly their range and whose reads return what is there, if and only if it has no lossy write of a byte that is not zero, no empty write behind the end and no read from behind the end |
| Runs.EmptyWrite | enclave/ecall_fs.cpp:347-349 | an empty write behind the end extends the file with zeros; any other changes nothing |
| Runs.ReadExample | enclave/ecall_fs.cpp:250-260 | a read from behind the end returns zeros inside the last chunk and EINVAL beyond it |
| Laws.LookupLaw | enclave/ecall_fs.cpp:16-68 | a lookup succeeds exactly when the parent is a resident directory with that name, returns the entry's number and counts one reference; otherwise it is error 2, inode 0, and nothing changes |
| Laws.ForgetLaw | enclave/ecall_fs.cpp:70-83 | the count falls by `n`, not below zero, at which the inode is no longer resident; the difference is returned; an absent inode is error 2 |
| Laws.MakeLaw | enclave/ecall_fs.cpp:94-136 | mkdir and create succeed exactly when the parent is a resident directory without that name; the errors are 2, 20 and 17, in this order, and change nothing; no other name or count changes |
| Laws.MadeLaw | enclave/ecall_fs.cpp:416-458 | what is made is one empty file, or one empty directory, and nothing else |
| Laws.MadeIsFound | enclave/ecall_fs.cpp:27-65 | a lookup then finds it, making it again is error 17, and a new file has nothing to read |
| Laws.UnlinkLaw | enclave/ecall_fs.cpp:138-177 | unlink succeeds exactly for the name of a file; the errors are 2, 20, 2 and 21 and change nothing; no directory ever goes, and of the files only the one named |
| Laws.RmdirLaw | enclave/ecall_fs.cpp:179-216 | rmdir succeeds exactly for the name of an empty directory; the errors are 2, 20, 2, 20 and 39 and change nothing; no file changes, and only that directory goes |
| Laws.RemovedIsGone | enclave/ecall_fs.cpp:138-216 | a lookup, and a second removal, are then error 2, and the name can be used again |
| Laws.OpenLaw | enclave/ecall_fs.cpp:218-238 | open is error 13 for all but resident files; with the truncation flag the file has no bytes, and no other changes; without, nothing changes |
| Laws.TruncatesLaw | include/bridge.hpp:21-26 | the truncation flag is octal 1000, whatever the other bits |
| Laws.TruncatedIsEmpty | enclave/ecall_fs.cpp:228-236 | a truncated file has size 0, and every read from its start returns nothing |
| Laws.ReadLaw | enclave/ecall_fs.cpp:240-294 | a read returns the file's bytes of the range, in order, up to the end; behind the end it returns zeros inside the last chunk and error 22 beyond; all but resident files are error 22; no content changes |
| Laws.WriteLaw | enclave/ecall_fs.cpp:296-352 | byte by byte: the range holds the data, a gap zeros, and every other old byte is kept but the last one of a lossy write; all but resident files are error 22; no other file changes |
| Laws.WrittenIsRead | enclave/ecall_fs.cpp:240-352 | a read of the range just written returns what was written, lossy or not |
| Laws.FallocateLaw | enclave/ecall_fs.cpp:460-481 | fallocate returns 0 for a resident file, which keeps its bytes and is extended by zeros to the range's end, and 13 otherwise |
| Laws.FlushLaw | enclave/ecall_fs.cpp:354-374 | flush returns 0 for a resident file and 22 otherwise, and changes no content |
| Laws.MountLaw | enclave/ecall_volume.cpp:112-137 | a mount changes no name, content or counter, and leaves only the root resident |
| Laws.WalkLaw | enclave/ecall_fs.cpp:16-68 | a path goes one step further exactly where a lookup finds the name, and to the inode it finds |
| Laws.LegalWhenFlushed | enclave/ecall_fs.cpp:16-481 | once every file is flushed, every resident inode has a name, and no counter is at its limit, any operation keeps to the protocol |
| Laws.AccessLaw | enclave/storage.cpp:338-404 | a read uses the chunks of its range that are no holes, each once, in order; a flush flushes every slot, in order; nothing else but write touches the store; only mkdir, create and write draw identifiers |
| Laws.WriteAccessLaw | enclave/ecall_fs.cpp:318-345 | a write leaves no hole in its range and uses each chunk of it once, in order, under the name it then has |
| Accesses.WriteUses | enclave/ecall_fs.cpp:318-345 | a write gives no identifier to, and takes none from, any chunk outside its range |
| Runs.NeverReused | enclave/ecall_fs.cpp:114-134 | of two inodes made in one run the later has the larger number, whatever is removed, forgotten or remounted between |
| Runs.DeadStaysDead | enclave/ecall_fs.cpp:138-216 | an inode that has lost its name never becomes live again |
| Runs.CountsBalance | enclave/ecall_fs.cpp:60-83 | over every run that never forgets more than it holds, the count is lookups plus creations less references forgotten since the last mount, and the inode is resident exactly while it is positive |
| Runs.StaysSaved | enclave/ecall_fs.cpp:354-374 | a flushed file keeps its bytes and needs no flush, through every run without a write, truncation, fallocate or unlink of it (`Enclave.Run` makes this a fact about the disk) |
| FileSteps.EvictedOk | enclave/storage.cpp:352-380 | evicting any chunk, modified or not, of any file leaves every file's bytes and size as they were |
| FileSteps.LoadedOk | enclave/storage.cpp:272-308 | every chunk of a resident file that is not a hole loads, with its current bytes, and pushing it again changes no content |
| FileSteps.SavedFileOk | enclave/storage.cpp:209-252 | once nothing of a file is cached, saving its metadata puts all of it on the disk; the load-time check accepts it |
| FileSteps.AllocatedOk | enclave/ecall_fs.cpp:325-342 | naming a hole with a fresh identifier and pushing its data is a write of that piece and of nothing else |
| FileSteps.OverwrittenOk | enclave/ecall_fs.cpp:327-342 | pushing new data for a named chunk, loaded before or not, is a write of that piece and of nothing else |
| FileSteps.ResizedOk | enclave/ecall_fs.cpp:470-478 | growing the table by holes adds zero pieces and changes no other file |
| TreeSteps.TruncatedOk | enclave/ecall_fs.cpp:228-236 | truncating a flushed file takes exactly its chunks off the disk and leaves every other blob, file and directory as it was |
| TreeSteps.TruncateSafe | enclave/volume.hpp:45-47 | after a truncation every cached chunk still has a slot if and only if none of the file's chunks was cached |
| TreeSteps.DropSafe | enclave/storage.cpp:355-365 | after a file leaves memory every cached chunk still has a slot if and only if none of its chunks was cached |
| TreeSteps.UnsafeExample | enclave/storage.cpp:355-377 | there is a coherent state in which truncating, or dropping, a file with a cached chunk leaves that chunk without a slot |
| TreeSteps.UnlinkExact | enclave/ecall_fs.cpp:153-166 | removing a stored table leaves none of the file's blobs behind if and only if every chunk of the file on the disk is in that table |
| TreeSteps.UnlinkClean | enclave/ecall_fs.cpp:153-166 | for a file flushed, read since or not, that holds, and no cached chunk of it is modified |
| TreeSteps.EvictedReturns | enclave/storage.cpp:354-379 | after an unlink and the later eviction of a cached chunk, its blob is on the disk if and only if the cached copy was modified, or the blob was there and not in the table removed |
| TreeSteps.LeftBehindExample | enclave/ecall_fs.cpp:153-166 | there is a coherent state in which unlinking a file leaves a chunk's blob on the disk: the chunk was evicted after the last flush |
| TreeSteps.FlushedSafe | enclave/ecall_fs.cpp:354-374 | after truncating or dropping a file that is flushed and not read since, every cached chunk still has its slot |
| TreeSteps.RemovedPrecisely | enclave/ecall_fs.cpp:153-166 | removing a node takes its own metadata and the chunks of its table off the disk, and no other blob |
| TreeSteps.RemovedNodeOk | enclave/ecall_fs.cpp:153-166 | afterwards the state stands for the same nodes without that one, and every blob left is accounted for |
| TreeSteps.QuietStored | enclave/ecall_fs.cpp:153-157 | the stored table of a flushed file, resident or not, is its current one |
| TreeSteps.DirRemovable | enclave/ecall_fs.cpp:194-201 | the stored copy of any directory is its current one, so rmdir's test of it is right |
| TreeSteps.SavedDirOk | enclave/storage.cpp:209-252 | saving changed entries changes the resident directory and the stored copy together, and nothing else |
| TreeSteps.AddedOk | enclave/ecall_fs.cpp:127-134 | making an inode resident, counting it, and saving superinfo and node in this order keeps the whole state coherent |
| TreeSteps.ReferencedOk | enclave/ecall_fs.cpp:31-61 | loading or counting an inode changes no name or content |
| TreeSteps.ForgottenOk | enclave/ecall_fs.cpp:75-81 | nor does giving references back, the last one included, when the file is flushed |
| TreeSteps.MountedOk | enclave/ecall_volume.cpp:112-137 | with all files flushed or only read since, what the disk alone gives is the same file system |
| TreeSteps.CreatedOk | enclave/ecall_volume.cpp:24-79 | the three blobs a new volume saves make a coherent state |
| TreeSteps.CreatedLoads | enclave/ecall_volume.cpp:67-79 | superinfo, root and user table of a new volume load again as saved |
| TreeSteps.Durable | enclave/storage.cpp:163-252 | the stored table and the chunks it names all load, and give a saved file's exact bytes from the disk alone |
| TreeSteps.BlobsAccounted | enclave/storage.cpp:209-270 | every blob on the disk is for exactly one of superinfo, user table, a live node, or one slot of one live file |
| FlatSteps.PathExists | enclave/ecall_fs.cpp:94-136 | every inode of the tree is reached by a path |
| FlatSteps.PathUnique | enclave/ecall_fs.cpp:94-136 | two paths to one inode are the same path |
| FlatSteps.FlatWrite | enclave/ecall_fs.cpp:306-350 | the loop's result on pieces, seen as flat bytes, is the exact write |
| FlatSteps.FlatEmpty | enclave/ecall_fs.cpp:199-201 | the list of entries is empty exactly when the directory has no name |
| FlatSteps.LinkCount | enclave/dirnode.cpp:43-50 | the entries counted are the names that lead to live directories |
| Namespace.GrownOk | enclave/ecall_fs.cpp:106-134 | a new entry at the end keeps the tree: unique names, one parent each, parents older than children |
| Namespace.PrunedOk | enclave/ecall_fs.cpp:188-211 | removing a file or an empty directory with its entry keeps the tree |
| Namespace.DirFits | enclave/dirnode.cpp:17-34 | every directory of the tree, of any number of entries, fits the fields of its dump |
| ChunkStores.ChunkStore.PushGetBack | enclave/volume.cpp:33-43 | list and map stay a bijection; the key is last and its entry the new one; an older node of the key is gone |
| ChunkStores.ChunkStore.GetPopFront | enclave/volume.cpp:45-53 | the front leaves list and map together |
| ChunkStores.ChunkStore.GetErase | enclave/volume.cpp:55-61 | the node leaves list and map together, and the order of the others stays |
| ChunkStores.ChunkStore.FindByKey | enclave/volume.cpp:82-90 | a node of the list with this key, or none exactly when the key is absent |
| ChunkStores.ChunkStore.GetEraseByKey | enclave/volume.cpp:104-114 | on a hit the entry leaves list and map; on a miss the caller's chunk and the store are as before |
| ChunkStores.ErasedBijection | enclave/volume.cpp:55-61 | erasing one node from list and map keeps them one node to each key |
| Lru.Inclusion | enclave/storage.cpp:350-354 | on one trace of accesses and flushes the smaller store's order is always a suffix of the larger one's (`StoreIsLru` has it of the enclave's store) |
| Lru.OrderedByLastUse | enclave/volume.cpp:33-61 | after any trace the order is that of the last accesses (of the enclave's store: `StoreIsLru`) |
| Lru.OrderNoDup | enclave/storage.cpp:352-354 | after any trace no key comes twice, and there are at most MAX_CACHE_NUM (of the enclave's store: `StoreIsLru`) |
| Bytes.ByteAt | enclave/filenode.cpp:29-31 | stored numbers have their lowest byte first: byte `i` has weight 256 to the power of `i` |
| Layout.FilePlaces | enclave/internal.hpp:46-57 | where inode number, size, count and each chunk's identifier, nonce and tag lie in a filenode's dump, byte by byte |
| Layout.DirPlaces | enclave/internal.hpp:59-64 | where inode number, name, count and entries lie in a dirnode's dump |
| Layout.DirentPlaces | include/bridge.hpp:47-52 | where name, identifier, inode number and type lie in an entry |
| Layout.SuperPlaces | enclave/internal.hpp:38-44 | where root, user table, hashes and inode counter lie in a superinfo's dump |
| Layout.FileLoadsExactly | enclave/filenode.cpp:5-18 | a buffer loads as a filenode exactly when it is that filenode's dump and its count is right |
| Layout.FileRoundTrip | enclave/filenode.cpp:5-36 | a filenode's dump loads as itself if the chunk count is the size over the chunk size, rounded up, and is refused otherwise |
| Layout.DirRoundTripExact | enclave/dirnode.cpp:5-34 | a dirnode with any number of entries loads as it was dumped if and only if its own name has at most 255 bytes and every entry's name survives |
| Layout.DirRoundTrip | enclave/dirnode.cpp:5-34 | in particular with names up to 255 bytes |
| Layout.LongNameExample | enclave/dirnode.cpp:59-65 | an entry whose name has 256 bytes is read on into its identifier, and its directory does not load as dumped |
| Layout.DirentRoundTrip | enclave/dirnode.cpp:52-65 | an entry survives exactly when its name ends inside the field, or the bytes behind the field happen to continue and end it |
| Layout.SuperRoundTrip | enclave/superinfo.cpp:5-36 | a superinfo, with its inode counter, loads as it was dumped |
| Nodes.Filenode.Dump | enclave/filenode.cpp:20-36 | the buffer holds the dump, whose bytes `Layout.FilePlaces` gives, and is untouched behind it; a short buffer is untouched and 0 is returned |
| Nodes.Dirnode.Dump | enclave/dirnode.cpp:17-34 | the same for a directory (`Layout.DirPlaces`, `DirentPlaces`) |
| Nodes.Dirnode.Nlink | enclave/dirnode.cpp:43-50 | two and the number of entries that are directories |
| Storage.ChunkStored | enclave/storage.cpp:272-336 | under the slot that sealing wrote back a chunk opens as it was; under any other tag it does not open |
| Storage.MetadataRoundTrip | enclave/storage.cpp:163-252 | metadata loads as it was saved |
| Storage.MetadataBlob | enclave/storage.cpp:209-252 | a metadata blob is the ciphertext and then the tag, sealed under a zero nonce with the identifier as associated data |
| Storage.MetadataLoadsExactly | enclave/storage.cpp:163-207 | metadata loads exactly when the blob under its identifier's name is the one saving it gives |
| Storage.ChunkBlob | enclave/storage.cpp:310-336 | a chunk's blob is the bare ciphertext under a zero nonce; nonce and tag are in its slot |
| Storage.ChunkLoadsExactly | enclave/storage.cpp:272-308 | a chunk loads exactly when sealing it, or it without zeros at its end, under its slot's nonce gives the blob and the slot's tag |
| Storage.PutFrame | enclave/storage.cpp:242-243 | saving under one identifier changes no other object's blob |
| Uuid.UnparseText | enclave/uuid.cpp:40-46 | the file name is 36 characters, dashes at 8, 13, 18 and 23, and two lower-case digits for each byte in order, the high one first |
| Uuid.UnparseInjective | enclave/uuid.cpp:40-46 | two identifiers have one file name only if they are equal |

## Left out

- The cipher's internals, SGX sealing of the volume key and random generation: foreign libraries. The ideal AEAD, and a pool of identifiers still to be drawn, stand for them.
- Threads and mutexes: ECALLs are atomic steps.
- Failing OCALLs and crash points inside an ECALL: several saves ignore their result there. The error branches of loads are in the model and are proved never to be taken; `remove_metadata`, `remove_chunk` and the saves have none.
- Operations on inodes that have lost their last name but are still resident: the code gives them no defined meaning. Forget is the exception and is modelled.
- Enclaves.Enclave.Open: truncation requires the file to be flushed and unread since; `TreeSteps.TruncateSafe` gives the exact condition on the cache.
- Enclaves.Enclave.Unlink: requires the file to be flushed and unread since, so that nothing of it is cached when its inode has no name; what unlinking does to the blobs of any other file is in `TreeSteps.UnlinkExact`, `UnlinkClean` and `EvictedReturns`.
- Enclaves.Enclave.Forget: dropping the last reference requires the file to be flushed and unread since (`TreeSteps.DropSafe`); counts and `nlookup` stay below 2^31, so the `int` result does not wrap; the root is never forgotten.
- Enclaves.Enclave.Lookup: the 32-bit reference count does not wrap.
- Enclaves.Enclave.Read: offset plus size plus chunk size stays below 2^64. A read of a range behind the end of the file is modelled as the code does it.
- Enclaves.Enclave.Write: offset plus size plus chunk size stays below 2^64; `load_chunk` failing, which the code ignores, is proved not to happen.
- Enclaves.Enclave.Fallocate: offset plus length plus chunk size stays below 2^64.
- Enclaves.Enclave.Mkdir: names are at most 255 bytes, none of them NUL, and the 64-bit inode counter does not wrap; `Layout.DirRoundTripExact` says which longer names a directory's stored copy keeps. `mkdir` and `create` share one helper.
- Enclaves.Enclave.Create: as for Mkdir.
- Enclaves.Enclave.Mount: a mount in a newly started enclave, modelled by emptying store and inode map; every file has been flushed before it. The user table's blob must open; what is in it, and unsealing the key, are not part of this model.
- Enclaves.Enclave.WriteBack: the branch for a cached chunk whose file has expired is not modelled; cached chunks always belong to resident files.
- Pieces.WriteExact: the range does not wrap; the code's result, not the splice, is what it states.
- Loading a node builds the object from the decoded record instead of assigning the fields of an empty one; `uuid`, `ino` and a directory's name are constants of the object. The superinfo is one value field of the enclave, replaced whole; nothing aliases it. `UUID` copies are values.
- Buffers shorter than a fixed header (24 or 272 bytes): the model's loads refuse them, where the code reads beyond the end.
- Padding bytes of a stored directory entry, and nonce and tag of a hole, are zero in the model; the code leaves them unset.
- The contents of the user table, access checks, modes, `getattr`, `readdir`, and all of app/.
- The unused variants of the store: `push_back`, `pop_front`, `insert`, `erase`, `erasebykey`.
