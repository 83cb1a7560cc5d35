# A Dafny model of the trie stack, RLP and the self-contained cores

This project models the Merkle Patricia trie of the repository together with everything it rests on,
and proves what each part is for. The trie is a radix trie with path compression whose nodes are
loaded lazily, hashed lazily, and kept in a reference-counted cache in front of the disk. RLP is the
encoding under it. Next to them stand a priority queue, an event feed, field arithmetic, a bitset
compressor, a hash function's buffering and a state journal. References are the Ethereum Yellow Paper
(Appendix B for RLP, Appendix C for hex-prefix keys, Appendix D for the trie) and section 3.3 of
RFC 7693.

`dafny verify dfyconfig.toml` checks the whole project.

## Main results

- **RLP.** Decoding into an interface succeeds if and only if the input is the canonical encoding of a
  nested item, and returns that item (`RlpStream.DecodeBytes`). Recursive use of the slice reader
  accepts the same strings with the same structure (`RlpRaw.ParseExact`). The two-pass encoder with
  its deferred list headers produces that encoding, into a buffer, a writer that may fail, or a reader
  with any sequence of buffer sizes (`RlpEncode.EncodeToBytes`, `EncodeTo`, `EncodeAndRead`).
- **Trie.** Insert and delete keep a minimal form, and that form is unique for a map, so the trie does
  not depend on its history (`TrieTree.CanonicalUnique`, `TrieRun.HistoryIndependent`). Reads agree with
  a finite map whichever parts are loaded, and a node that cannot be loaded changes nothing
  (`TrieLazy`, `TrieRun.RunReads`). After any run the root hash is the one computed from scratch, and a
  committed root reopens to the same map (`TrieRun.HashFromScratch`, `TrieRun.CommitReopen`).
- **Proofs.** A proof of a key verifies to the trie's value or its absence, and over any store whose
  entries hash to their keys verification errs or gives the same answer (`TrieProof`).
- **Write cache.** The flush list enumerates the dirty nodes, parent counters count live references, and
  the disk is closed under the children of all nodes that did not come to it as blobs, at every point of
  insert, reference, dereference, Cap and Commit, whichever disk write fails (`TrieGc.Database`). An entry's children belong to its first insertion: a
  blob inserted by InsertBlob is cached without any, and inserting the trie node of the same hash later
  changes nothing. So a trie whose root is referenced can become unreadable: after
  `TrieHeld.BlobThenCommit` a committed root lacks a node on disk, and after `TrieHeld.BlobThenRelease` a
  referenced one lacks a node everywhere. A trie whose root is referenced, or stored, is there completely
  if and only if the nodes in it that only ever came as blobs have their children all the same
  (`TrieHeld.HeldIff`, `TrieHeld.StoredIff`), and exactly then every key of it reads right
  (`TrieReads.ReferencedReadsIff`, `TrieReads.CommittedReadsIff`). If no inserted blob is the encoding of a
  node with hash children, every root that is referenced or stored stays complete through any run of
  calls from a new cache on (`TrieHeld.RunFromNew`); and whatever blobs are inserted, a trie that had its
  children when it was committed stays complete until it is given up (`TrieHeld.Run`,
  `TrieCommit.CommitAndRun`). Commit removes exactly the dirty nodes reachable from the root. When all
  roots are given up and no node is without parents, nothing is cached (`TrieGc.Database.Dereference`).
- **Committing into the cache.** The hasher's commit is a run of insertions into this cache, children
  first, with the leaf callback linking each leaf's node to what the leaf refers to
  (`TrieCommit.HashInto`). Committing a state, that is code, storage tries and then the account trie, and
  referencing the account root holds the whole of it: through any run of calls that does not give the
  root up, every storage trie an account refers to reads right and code can be read
  (`TrieState.CommitStateAndRun`, `TrieState.StateReads`). Any collection of tries and code without
  hash collisions can be the content of such a cache (`TrieUniverse.UniverseExists`).
- **Byte counters.** Measured by the lengths of the cached blobs, the two counters of the cache are exact
  if and only if no 16-bit sum has wrapped around, no cached blob has 65536 bytes or more, and no commit
  has met a link map; otherwise the difference is given in bytes (`TrieGc.Database.ExactIff`). One
  example for each of the three (`TrieGc.WrapExample`, `CutExample`, `StrayExample`).
- **Iteration.** After any run of operations, committed or not, the stack iterator yields from any start
  key every pair of the map whose path is not below it once, in order (`TrieEntries.EntriesAfter`); the
  difference iterator yields the pairs of one trie that are not in the other although it skips equal
  subtrees (`TrieDifference.DifferenceAfter`).
- **Sync.** Dependency counters are the pending child links, every prefix of the write buffer leaves the
  database closed, and the scheduler cannot get stuck. A hash is fetched as the kind it was first asked
  for, a raw entry or a node under some callback, and later requests for it are merged into the first. So
  "nothing pending" does not mean that everything was fetched: in `TrieSyncRun.RawFirst` a node is first
  asked for as a raw entry and its child never. After any run from NewSync with nothing pending, the root
  is complete if and only if every entry is whose hash was first asked for as a kind that refers to less
  (`TrieSync.CompleteIff`, `TrieSyncRun.Run`). There is no such entry if no hash is wanted as two kinds
  that refer to different entries, an entry being a hash with its kind and callback; and the root is
  complete even if there are some, if no hash is wanted as two kinds that lead to different hashes
  (`TrieSyncRun.RunAgreeing`). A complete trie opens and reads every key right (`TrieSynced.SyncTrie`).
  What an interrupted sync has written is a database to start another from (`TrieSyncRun.Resume`).
- **Bitset compression** is a bijection onto the accepted inputs (`BitCompress.BitsetDecodeBytes`).
- **BLAKE2b** gives one digest however the message is cut into writes (`Blake2b.Stream`).
- **Journal.** Whatever is done after a snapshot, reads and reverts to later snapshots included, reverting
  to it restores all that can be seen of every account (`StateJournal.Rollback`).
- **Feed.** In every interleaving each subscription present at the start is served once or taken out, and
  those that come meanwhile wait for the next Send (`Feed.Feed.Send`, `Feed.SendAgain`).
- **Field arithmetic.** The limb loops compute reduced sums, differences and Montgomery products
  (`BnField.GfpMul`), with every carry formula shown to be the true carry (`Words`).
- **Lazy queue.** Popped items come in the order of their actual priorities, none left behind has a higher
  one and none is lost (`LazyQueue.Queue.MultiPop`). In every run in which nothing is pushed twice, each
  pop gives the highest priority of all that is held, each MultiPop the highest ones in order for as long
  as its callback wants more, and what has come and not gone is held once
  (`LazyQueue.Run`, `LazyQueue.Conserved`). Updating and removing by the index last reported act on the
  item asked for as long as the offset names the heaps rightly. A reset at offset 1, which is the offset
  right after construction, ends that until a reset at offset 0 (`LazyQueue.ResetMisnames`): meanwhile
  every index reported names a position of the other heap, and removing by it takes out another item or
  fails, as the trace of the run records.

## How it is modelled

- The hash is a function parameter. `World` names the blobs it is applied to and assumes that no two of
  them collide and none hashes to the zero hash. Nothing is assumed of other inputs.
- Nodes come in two forms. `Tree` is the fully resolved trie; `Node` is what is in memory, with hash
  nodes, cached hashes and dirty flags. `Rep` says which tree a node stands for, `Backed` that all parts
  not in memory are in the database.
- The cache and the scheduler are stated over any hash type, with what a hash stands for as a parameter
  (`Universe`, `Plan`); `TrieStore`, `TrieCommit`,
  `TrieState` and `TrieSynced` connect them to tries, `TrieUniverse` shows that they exist.
- The ghost field `plain` of the cache names the stored hashes that came to the disk only as blobs; `Bare`
  says the same of any hash. `Firm` says that a node has all it wants, its children and what its leaf
  links to, either on disk or referred to; `Stands` that a root is held and all it leads to is firm.
- A leaf callback is a function `refs` from a leaf's value to the hashes it refers to; `links` gives them
  by node.
- Disk writes can fail: `quota` is the number of writes that are still accepted, or `None` for a disk that
  accepts all of them.
- Of the sync's requests each has its kind, raw or node with a callback, as in the code. The ghost field
  `kinds` records the kind each stored hash was expanded as, and `merged` the entries that were merged into
  a request of a kind that does not ask for all they refer to.
- Classes follow the source's objects, their fields are updated in place, and loops of the source are
  loops here. Ghost fields hold the abstract state.
- Where the code and its comments disagree the code is followed. Commit takes the bytes of link maps off
  the wrong counter (`proton/trie/database.go:834-836`). Insert cuts blob lengths to 16 bits (line 352) and
  adds the hash length in 16 bits (line 368). The ghost counters `strayed` and `lost` record the first and
  the last of these in bytes; the second is a sum over the nodes that are cached.
- Reset of the lazy queue makes new heaps but leaves the index offset (`common/prque/lazyqueue.go:69-72`).
  `Aligned` says that the offset names the heaps rightly; every other call keeps it as it is.
- The lazy queue's heaps are binary heaps on the block stacks, with the sifting of Go's container/heap
  written out; comparing by subtraction is right while the numbers in play at one moment lie within 2^63
  of each other, which every call asks of its own moment only.

## Model

| member | source | states |
|---|---|---|
| RlpRaw.SplitEncode | rlp/raw.go:39-45 | splitting an encoded item followed by any bytes returns its kind, its payload and exactly those bytes |
| RlpRaw.ReadKindCanonical | rlp/raw.go:86-156 | a header that is accepted is byte for byte the canonical header of the size it announces; a one-byte string below 0x80 never has one |
| RlpRaw.SplitCanonical | rlp/raw.go:39-125 | whatever is accepted is the canonical header of the returned content, the content, and the returned rest |
| RlpRaw.ParseEncode | rlp/raw.go:39-71 | recursive splitting reads every nested item back from its encoding, whatever follows it |
| RlpRaw.ParseCanonical | rlp/raw.go:39-156 | what recursive splitting accepts re-encodes to the bytes it consumed |
| RlpRaw.ParseExact | rlp/raw.go:39-156 | recursive splitting accepts a whole byte string with a given item if and only if the string is that item's encoding |
| RlpRaw.EncodeInjective | rlp/raw.go:39-156 | two items with the same encoding are equal |
| RlpRaw.CountValues | rlp/raw.go:74-84 | the shrinking loop computes the number of values, or the first error, of the recursive count |
| RlpRaw.CountEncodeAll | rlp/raw.go:74-84 | on the payload of a list the count is the number of elements |
| RlpStream.ReadKindIsHeader | rlp/decode.go:917-977 | the stream's header rules and the slice reader's agree on every input, but for the one-byte rule that the stream checks later |
| RlpStream.Stream.constructor | rlp/decode.go:643-647 | a stream over a byte slice starts at its front, limited to its length, with no list open |
| RlpStream.Stream.WillRead | rlp/decode.go:1031-1049 | a read is allowed if and only if it stays inside the innermost list and the input; then both limits are charged |
| RlpStream.Stream.ReadByte | rlp/decode.go:1020-1029 | the next byte of the current level, if and only if there is one |
| RlpStream.Stream.ReadFull | rlp/decode.go:1005-1018 | the next n bytes of the current level, if and only if there are as many |
| RlpStream.Stream.ReadUint | rlp/decode.go:979-1003 | the big-endian number in the next n bytes; a leading zero is refused from two bytes on |
| RlpStream.Stream.ReadKind | rlp/decode.go:917-977 | kind, size and position of the next header, as read from the bytes left at the current level |
| RlpStream.Stream.Kind | rlp/decode.go:884-915 | the header ahead is cached; the end of a list is reported if and only if nothing is left in it, and then nothing is read |
| RlpStream.Stream.Bytes | rlp/decode.go:662-683 | the content of the string ahead; a one-byte string that should have been its own encoding is refused |
| RlpStream.Stream.Raw | rlp/decode.go:686-708 | the value ahead with its header made anew, for any cached header, and the end of a list; without a cached header exactly the bytes that were there |
| RlpStream.RebuiltSame | rlp/decode.go:697-707 | every header the stream accepts is the canonical one, so making it anew changes nothing |
| RlpStream.RawAccepts | rlp/decode.go:686-708 | Raw accepts what splitting accepts and, beyond that, exactly the one-byte strings that should have been their own encoding |
| RlpStream.RawExample | rlp/decode.go:686-708 | 0x81 0x05 is one of them |
| RlpStream.Stream.Uint | rlp/decode.go:717-748 | a number is returned if and only if the header ahead, cached by Kind or not, starts a string that holds it in shortest big-endian form and it fits; the stream advances by that item |
| RlpStream.Stream.UintBody | rlp/decode.go:723-747 | the branches behind the header accept exactly the contents of such strings |
| RlpStream.Stream.List | rlp/decode.go:771-783 | entering a list succeeds if and only if one is ahead, and limits reading to its payload |
| RlpStream.Stream.ListEnd | rlp/decode.go:787-802 | leaving a list succeeds if and only if it has been read to its end, and charges it to the enclosing list |
| RlpStream.Stream.DecodeInterface | rlp/decode.go:525-547 | decoding one value reads the body behind the header ahead, cached by Kind or not; without a cached header it succeeds exactly where recursive splitting does, with the same item and bytes |
| RlpStream.Stream.DecodeListSlice | rlp/decode.go:337-350 | a list decodes to the items its payload splits into, or fails if it does not split |
| RlpStream.Stream.DecodeSliceElems | rlp/decode.go:352-379 | the growing loop collects all elements up to the end of the list |
| RlpStream.DecodeBytes | rlp/decode.go:146-160 | decoding into an interface returns an item if and only if the input is that item's canonical encoding |
| RlpStream.DecodeUint | rlp/decode.go:253-261 | decoding into an unsigned integer returns a number if and only if the input is the encoding of that number and it fits the type |
| RlpEncode.PutIntShortest | rlp/encode.go:587-642 | the eight branches of putint write the shortest big-endian form of every nonzero 64-bit number |
| RlpEncode.IntSize | rlp/encode.go:645-651 | the shifting loop counts the bytes of that form |
| RlpEncode.PutHeadIsHead | rlp/encode.go:152-160 | the written header is the one the Yellow Paper defines, for every 64-bit size |
| RlpEncode.RenderLength | rlp/encode.go:228-230 | string data plus accumulated header sizes is the length of the output |
| RlpEncode.RenderLay | rlp/encode.go:213-248 | headers kept aside with their offsets and put in at the end give the recursive encoding, for every nested item |
| RlpEncode.Encbuf.constructor | rlp/encode.go:167-175 | a fresh buffer is empty |
| RlpEncode.Encbuf.EncodeStringHeader | rlp/encode.go:192-201 | the canonical string header is appended |
| RlpEncode.Encbuf.WriteString | rlp/encode.go:203-211 | the canonical encoding of the string is appended |
| RlpEncode.Encbuf.WriteUint | rlp/encode.go:392-406 | the canonical encoding of the number's shortest form is appended |
| RlpEncode.Encbuf.List | rlp/encode.go:213-217 | an open header remembers its offset and the header bytes written before it |
| RlpEncode.Encbuf.ListEnd | rlp/encode.go:219-226 | closing a list fixes its payload size and accounts for its own header |
| RlpEncode.Encbuf.WriteItem | rlp/encode.go:183-226 | whatever lists are still open, an item adds exactly its layout, and the size grows by the length of its encoding |
| RlpEncode.Encbuf.WriteItems | rlp/encode.go:509-527 | so does a run of items |
| RlpEncode.Encbuf.ToBytes | rlp/encode.go:232-248 | the merge fills a buffer of exactly size() bytes with the rendered output |
| RlpEncode.Encbuf.ToWriter | rlp/encode.go:250-272 | a writer receives the rendered output, or exactly as much of it as it takes before it fails; success if and only if it takes all |
| RlpEncode.EncodeFresh | rlp/encode.go:183-190 | after encoding an item all lists are closed and the buffer renders to its canonical encoding |
| RlpEncode.EncodeToBytes | rlp/encode.go:99-107 | the two passes together produce the canonical encoding |
| RlpEncode.EncodeTo | rlp/encode.go:82-95 | Encode writes the canonical encoding, or its beginning if the writer fails |
| RlpEncode.EncReader.constructor | rlp/encode.go:114-121 | everything is still to be read |
| RlpEncode.EncReader.Next | rlp/encode.go:308-339 | the next piece is a non-empty front part of what is pending, or nothing is pending |
| RlpEncode.EncReader.Read | rlp/encode.go:283-304 | a read fills the buffer with the front of what is pending, as far as both go, and reports the end if and only if all of it fitted |
| RlpEncode.ReadWithSizes | rlp/encode.go:283-304 | reads through buffers of any sizes deliver the output in order without loss |
| RlpEncode.EncodeAndRead | rlp/encode.go:114-121 | reading an encoded item through buffers of any sizes gives its canonical encoding from the start |
| TrieEncoding.KeybytesRoundTrip | proton/trie/encoding.go:68-91 | key bytes survive the way to hex and back |
| TrieEncoding.KeybytesInjective | proton/trie/encoding.go:68-77 | different keys have different hex forms |
| TrieEncoding.CompactRoundTrip | proton/trie/encoding.go:37-66 | the compact form keeps nibbles, their number and the terminator, for every hex key |
| TrieEncoding.CompactInjective | proton/trie/encoding.go:37-52 | different hex keys have different compact forms |
| TrieEncoding.PrefixLenLoop | proton/trie/encoding.go:100-111 | the loop finds the longest common prefix |
| TrieEncoding.PrefixLen | proton/trie/encoding.go:100-111 | the keys agree up to the result, and differ there if both go on |
| TrieEncoding.KeybytesToHexLoop | proton/trie/encoding.go:68-77 | the buffer-filling loop lays out two nibbles a byte and the terminator |
| TrieEncoding.DecodeNibbles | proton/trie/encoding.go:93-97 | the loop packs pairs of nibbles into the byte buffer |
| TrieNode.DecodeEnc | proton/trie/node.go:117-203 | decodeNode reads every tree in minimal form back from its encoding: one level, with small children embedded and large ones as hashes |
| TrieNode.DecodeRefEnc | proton/trie/node.go:180-203 | a child reference is read back in front of any further input |
| TrieNode.EmbeddedIsDecodeNode | proton/trie/node.go:180-203 | decoding an embedded child is decodeNode on the remaining input |
| TrieNode.DecodeFullLoop | proton/trie/node.go:159-176 | the loop that fills seventeen children in place agrees with the recursive definition, errors included |
| TrieTree.Sole | proton/trie/trie.go:322-332 | the position of the only child, or the difference between none and several |
| TrieTree.SoleLoop | proton/trie/trie.go:322-332 | the child-counting loop computes it |
| TrieTree.InsertCanonical | proton/trie/trie.go:182-249 | insertion keeps the minimal form: no short over short, two children under a full node, values only behind the terminator |
| TrieTree.InsertLookup | proton/trie/trie.go:182-249 | insertion is the map update, at every key |
| TrieTree.DeleteCanonical | proton/trie/trie.go:273-380 | deletion keeps the minimal form, and never empties a full node |
| TrieTree.DeleteLookup | proton/trie/trie.go:273-380 | deletion is the map removal, at every key |
| TrieTree.DeleteAbsent | proton/trie/trie.go:273-380 | deletion changes nothing if and only if the key is absent |
| TrieTree.CanonicalUnique | proton/trie/trie.go:182-380 | two trees in minimal form that hold the same map are the same tree |
| TrieLazy.EncInjective | proton/trie/hasher.go:163-207 | trees in minimal form with equal encodings are equal, if no two blobs in play collide |
| TrieLazy.HashInjective | proton/trie/hasher.go:209-215 | so are trees with equal hashes |
| TrieLazy.RepUnique | proton/trie/trie.go:389-402 | a partly loaded node stands for at most one tree |
| TrieLazy.ResolveStands | proton/trie/trie.go:396-402 | what a hash resolves to stands for the same tree as the hash |
| TrieLazy.TryGetCorrect | proton/trie/trie.go:108-142 | whichever parts are loaded, tryGet returns the tree's answer and an equivalent node, or names a hash the database lacks |
| TrieLazy.InsertCorrect | proton/trie/trie.go:182-249 | insert on a partly loaded node gives a node for the updated tree and reports a change exactly when there is one, or names a missing hash |
| TrieLazy.DeleteCorrect | proton/trie/trie.go:273-380 | delete likewise, loading the last child where the shape depends on it |
| TrieBacked.TryGetBacked | proton/trie/trie.go:108-142 | over a database that has every unloaded part, tryGet never fails and keeps it that way |
| TrieBacked.InsertBacked | proton/trie/trie.go:182-249 | so for insert |
| TrieBacked.DeleteBacked | proton/trie/trie.go:273-380 | and for delete |
| TrieHasher.CollapseItem | proton/trie/hasher.go:121-158 | the collapsed form of a tree has the RLP structure of its definition |
| TrieHasher.HashCorrect | proton/trie/hasher.go:75-116 | hash returns the node's own hash or embedded form, whatever was cached; the returned node stands for the same tree, and after a commit the database has all of it |
| TrieHasher.ChildrenCorrect | proton/trie/hasher.go:121-158 | hashChildren does so for every child |
| TrieHasher.KidsCorrect | proton/trie/hasher.go:139-152 | the loop over a full node's children, with the database threaded through |
| TrieHasher.StoreCorrect | proton/trie/hasher.go:163-207 | once the children are done, store completes the node |
| TrieHasher.StoreShape | proton/trie/hasher.go:163-207 | a node is replaced by its hash if and only if it is forced or takes 32 bytes and more, and then a commit writes it |
| TrieHasher.ExpandIsDecode | proton/trie/database.go:245-277 | expanding a node from the dirty cache gives what decoding its encoding from disk would give |
| TrieRun.UpdateRepresents | proton/trie/trie.go:164-180 | TryUpdate is the map update, an empty value the removal |
| TrieRun.RepresentsUnique | proton/trie/trie.go:182-380 | one map, one tree |
| TrieRun.FromScratchRepresents | proton/trie/trie.go:164-180 | the tree built from a map alone represents it |
| TrieRun.UpdateGood | proton/trie/trie.go:164-268 | updating the loaded trie and updating the tree go hand in hand |
| TrieRun.HashGood | proton/trie/trie.go:406-433 | Hash and Commit return the root hash of the tree; Hash writes nothing, Commit writes everything |
| TrieRun.RunRepresents | proton/trie/trie.go:99-424 | after every run of TryGet, TryUpdate, TryDelete, Hash and Commit the tree represents the map |
| TrieRun.RunTrie | proton/trie/trie.go:99-424 | a run on the object goes through the same tries, and every part not in memory stays in the database |
| TrieRun.RunReads | proton/trie/trie.go:99-142 | reading after any run gives what the map holds |
| TrieRun.HistoryIndependent | proton/trie/trie.go:182-380 | two runs that end in the same map end in the same trie |
| TrieRun.HashFromScratch | proton/trie/trie.go:406-433 | after any run the root hash is the one computed from scratch on the map: cached hashes are never stale |
| TrieRun.NotEmptyRoot | proton/trie/trie.go:63-78 | no trie's hash is mistaken for the empty root or the zero hash |
| TrieRun.OpenGood | proton/trie/trie.go:63-78 | a stored root opens to its tree |
| TrieRun.CommitReopen | proton/trie/trie.go:414-433 | committing any run and reopening the returned root reads the same map |
| TrieRun.Trie.constructor | proton/trie/trie.go:63-78 | a trie object stands for its tree |
| TrieRun.Trie.TryGet | proton/trie/trie.go:99-106 | the tree's answer, keeping what was loaded; a missing node leaves the trie as it was |
| TrieRun.Trie.TryUpdate | proton/trie/trie.go:164-180 | the updated tree; a missing node leaves the trie as it was |
| TrieRun.Trie.HashRoot | proton/trie/trie.go:406-433 | the root hash of the tree; with commit, the whole tree is in the database |
| TrieRun.NewTrie | proton/trie/trie.go:63-78 | opening fails if and only if a non-empty root is not in the database |
| TrieProof.CollectPath | proton/trie/proof.go:37-66 | the first loop collects exactly the inner nodes on the way to the key |
| TrieProof.WriteElements | proton/trie/proof.go:70-88 | the second loop writes exactly the root and the nodes of 32 bytes and more, from the given level on |
| TrieProof.Prove | proton/trie/proof.go:36-90 | the proof for a key and level, or a hash the database lacks |
| TrieProof.GetChild | proton/trie/proof.go:132-154 | following the key through embedded nodes ends at a value, at nothing, or at the next hash, without changing the answer |
| TrieProof.VerifyProof | proton/trie/proof.go:106-130 | over any store whose entries hash to their keys, an answer is the trie's own answer and an error names a missing node; with all elements of the path there is an answer |
| TrieProof.ProofComplete | proton/trie/proof.go:36-90 | a proof made at level 0 is such a store |
| TrieProof.ProveThenVerify | proton/trie/proof.go:36-130 | proving and verifying gives the trie's value or its absence, for every key |
| TrieDatabase.UnlinkChain | proton/trie/database.go:571-581 | in all three cases of the switch the links enumerate the remaining nodes in the same order, both ways |
| TrieDatabase.AppendChain | proton/trie/database.go:362-367 | a new node joins the end of the list |
| TrieDatabase.AppendInv | proton/trie/database.go:344-369 | inserting a node whose children are there keeps list, order and reference counts |
| TrieDatabase.LinkInv | proton/trie/database.go:499-517 | recording a link keeps them |
| TrieDatabase.UnlinkMeta | proton/trie/database.go:545-555 | giving up a root leaves its counter one too high, and nothing else changed |
| TrieDatabase.Decrement | proton/trie/database.go:557-568 | taking back an owed reference settles it |
| TrieDatabase.Detach | proton/trie/database.go:569-581 | a node without references, or on disk, may leave the list; what it refers to is then owed |
| TrieDatabase.Bury | proton/trie/database.go:586-590 | a torn-down node can be deleted |
| TrieDatabase.Settle | proton/trie/database.go:811-842 | references to nodes on disk need not be taken back |
| TrieGc.DecrementExact | proton/trie/database.go:562-568 | taking back a reference that nobody gave keeps the invariant if and only if the node is on disk or nothing refers to it |
| TrieGc.LinkExact | proton/trie/database.go:499-517 | a link between two cached nodes keeps the invariant if and only if it leads down to a child that is stored or was listed before the parent |
| TrieGc.AppendExact | proton/trie/database.go:344-369 | a new node keeps the invariant if and only if its children are cached or stored |
| TrieGc.AddSize | proton/trie/database.go:352-368 | hash length and blob length are what is added to the counter, plus 65536 if the 16-bit sum wraps, plus what the recorded size lacks of the blob; the latter is nothing if and only if the blob is shorter than 65536 |
| TrieGc.WeightCut | proton/trie/database.go:352 | what cached blobs and maps take exceeds the recorded sizes by what the cuts of the cached nodes dropped, which is nothing if and only if all are shorter than 65536 |
| TrieGc.NothingHeld | proton/trie/database.go:520-592 | once the meta-root refers to nothing and no node is without parents, nothing is cached |
| TrieGc.ReadableKids | proton/trie/database.go:417-448 | the children of a readable node are readable, unless it only ever came as a blob |
| TrieGc.RootReadable | proton/trie/database.go:491-517 | a root the meta-root refers to is readable |
| TrieGc.StoredKids | proton/trie/database.go:773-798 | the children of a stored node that did not come as a blob are stored |
| TrieGc.Uncache | proton/trie/database.go:811-842 | a written node whose children are written may leave the cache: nothing readable is lost |
| TrieGc.WriteGood | proton/trie/database.go:773-798 | a batch of children before parents leaves the disk closed under the children of all nodes that did not come as blobs |
| TrieGc.Behead | proton/trie/database.go:668-677 | the oldest node may leave the cache once it is on disk |
| TrieGc.Database.constructor | proton/trie/database.go:302-322 | only the meta-root is cached, over any disk closed under the children of the nodes that did not come as blobs |
| TrieGc.Database.Insert | proton/trie/database.go:344-369 | a known entry is left alone, whatever it was first inserted as; a new one, with the children of the node or with none, is listed last, its children gain a parent each, and nothing else changes |
| TrieGc.Database.InsertBlob | proton/trie/database.go:333-338 | a new entry is listed last without children, whatever its hash stands for |
| TrieGc.Database.AppendEntry | proton/trie/database.go:360-367 | the entry and the two end pointers |
| TrieGc.Database.BumpParents | proton/trie/database.go:355-359 | every cached child gains one parent per occurrence |
| TrieGc.Database.Reference | proton/trie/database.go:499-517 | the link and the counter go up together and nothing else changes, or nothing happens at all |
| TrieGc.Database.Dereference | proton/trie/database.go:520-542 | the meta-root loses one reference; nodes that reach zero are gone, no other counter leaks, the invariant and the byte counts hold; with the last root given up, and no node without parents before, the cache is empty |
| TrieGc.Database.Deref | proton/trie/database.go:545-592 | the recursive step, in the middle of tearing down any chain of parents |
| TrieGc.Database.DropLink | proton/trie/database.go:545-555 | the parent's recorded link, with its bytes |
| TrieGc.Database.Release | proton/trie/database.go:556-569 | one reference is taken back, and the node torn down if it was the last |
| TrieGc.Database.TearDown | proton/trie/database.go:569-591 | the node is gone, and its children have lost its references |
| TrieGc.Database.TakeOff | proton/trie/database.go:571-583 | the node is off the list and every reference it holds is owed |
| TrieGc.Database.ReleaseAll | proton/trie/database.go:583-585 | the loop takes back each of them once |
| TrieGc.Database.Childs | proton/trie/database.go:185-215 | all children, each external one once and each embedded one as often as it occurs |
| TrieGc.Database.Node | proton/trie/database.go:417-448 | a cached or stored node is read with its true content, anything else is not found |
| TrieGc.Database.Replay | proton/trie/database.go:811-842 | exactly the written nodes leave the cache |
| TrieGc.Database.CleanOne | proton/trie/database.go:811-842 | one of them leaves, and what each of the two counters becomes |
| TrieGc.Database.Flush | proton/trie/database.go:785-797 | exactly the batch is written and uncached, or nothing changes; it fails exactly when the disk accepts no more writes |
| TrieGc.Database.CommitNode | proton/trie/database.go:773-798 | children go before parents; whichever write fails, everything readable stays readable and the disk is closed under the children of the nodes that did not come as blobs |
| TrieGc.Database.CommitChildren | proton/trie/database.go:779-783 | the loop over the children: all of them are on disk or in the batch, and what left was reached through them |
| TrieGc.Database.PutNode | proton/trie/database.go:784-797 | the node joins the batch, which is written and uncached when it is large enough |
| TrieGc.Database.Commit | proton/trie/database.go:701-770 | it fails only when the disk has refused a write; the nodes that leave are exactly those reached from the root by links between dirty nodes, exactly they have come to the disk, the root among them; the link bytes on the wrong counter grow by exactly those of the nodes that left, and stay as they were if and only if none of them had a link map; both counters are exact afterwards if and only if nothing was ever lost or strayed and all cached blobs are short |
| TrieGc.GoneReached | proton/trie/database.go:773-798 | a set that is swept downwards from the root and reached from it is exactly the set of nodes on paths from the root |
| TrieGc.CommitDone | proton/trie/database.go:701-770 | what has left the cache is what was reached from the root, and it is what has come to the disk |
| TrieGc.Strays | proton/trie/database.go:834-836 | removing nodes changes the link bytes by exactly the link maps of those nodes |
| TrieGc.NoneStrayed | proton/trie/database.go:834-836 | that is nothing if and only if none of them had one |
| TrieGc.Database.ExactIff | proton/trie/database.go:344-369 | measured by blob lengths, the difference of each counter from what it should be, in bytes; it is nothing if and only if no sum wrapped, no cached blob has 65536 bytes, and nothing strayed |
| TrieGc.StrayExample | proton/trie/database.go:834-836 | two nodes with one link between them, committed by Commit: nothing is cached and the counters read 82 and -82 |
| TrieGc.InsertOne | proton/trie/database.go:344-369 | one blob of n bytes in a new cache: the counter holds n + 32 modulo 65536, and is exact if and only if n < 65504 |
| TrieGc.CutExample | proton/trie/database.go:352 | a blob of 65536 bytes is recorded as none |
| TrieGc.WrapExample | proton/trie/database.go:368 | a blob of 65535 bytes wraps the sum, and 65536 bytes are lost for good |
| TrieGc.Database.CapWrite | proton/trie/database.go:604-659 | the first phase writes from the oldest on until the computed size is within the limit, and uncaches nothing; it fails only if the disk accepts no more writes than there are nodes |
| TrieGc.Database.CapFlush | proton/trie/database.go:637-645 | a batch that is large enough is written; it fails only when the disk accepts no more |
| TrieGc.Database.CapTrim | proton/trie/database.go:668-680 | the second phase uncaches exactly what was written, and the reported size becomes the computed one |
| TrieGc.Database.TrimOne | proton/trie/database.go:668-677 | one node, with its bytes |
| TrieGc.Database.CutHead | proton/trie/database.go:678-680 | the new head's back link |
| TrieGc.Database.Cap | proton/trie/database.go:599-693 | a front part of the list moves to disk until the reported size is within the limit; on failure, which takes a disk that accepts no more writes than there are nodes, nothing leaves the cache; nothing readable is lost either way |
| TrieHeld.LeadsIff | proton/trie/database.go:185-215 | where only certain nodes may lack what they want, all that a node leads to is there if and only if those on the way lack nothing |
| TrieHeld.HeldIff | proton/trie/database.go:344-369 | all that a readable node leads to is readable if and only if the children are of those nodes on the way that only ever came as blobs |
| TrieHeld.StoredIff | proton/trie/database.go:344-369 | the same for the disk alone |
| TrieHeld.StandsHeld | proton/trie/database.go:491-592 | a root that is stored or referenced, and leads only to nodes that have or refer to all they want, is there completely |
| TrieHeld.FirmKept | proton/trie/database.go:599-770 | Cap and Commit leave every node that has or refers to all it wants so |
| TrieHeld.FirmReleased | proton/trie/database.go:520-592 | so does Dereference |
| TrieHeld.FirmInserted | proton/trie/database.go:344-369 | so does an insertion, and the new node is so if all it wants is among its children or on disk |
| TrieHeld.FirmLinked | proton/trie/database.go:499-517 | so does a link, and the parent refers to the child |
| TrieHeld.StandsInserted | proton/trie/database.go:333-369 | whatever is inserted, as a node or as a blob, a root that stands still does |
| TrieHeld.StandsKept | proton/trie/database.go:599-770 | so it does through Cap and Commit |
| TrieHeld.StandsReleased | proton/trie/database.go:520-592 | and when another root is given up |
| TrieHeld.EveryStands | proton/trie/database.go:491-517 | where every node has or refers to all it wants, every root that is referenced or stored stands |
| TrieHeld.FreshFirm | proton/trie/database.go:302-322 | that is so in a new cache if no node with children came to its disk as a blob |
| TrieHeld.Step | proton/trie/database.go:333-770 | one call: nothing is there that was not before or is inserted, a root that stands and is not given up still does, and if what is inserted comes with all it wants every node still has it |
| TrieHeld.Run | proton/trie/database.go:333-770 | so it is for any sequence of calls, with a disk that may refuse writes; a root that stood is there completely |
| TrieHeld.RunFromNew | proton/trie/database.go:302-770 | from a new cache on, if no inserted blob is a node with children, every root that is referenced or stored is there completely |
| TrieHeld.BlobThenCommit | proton/trie/database.go:333-369 | a node is inserted as a blob before it is inserted as a node; its parent is committed; both are on disk and the child, which the parent leads to, is not |
| TrieHeld.BlobThenRelease | proton/trie/database.go:333-369 | the same with another root that refers to the child; when it is given up the child is gone, though the first root is still referenced and leads to it |
| TrieStore.LeadsEntries | proton/trie/database.go:198-215 | what the root of a trie leads to are exactly the entries of the trie |
| TrieStore.StoredLeads | proton/trie/database.go:198-215 | so a trie is in a database completely if and only if all that its root leads to is |
| TrieStore.HeldTrie | proton/trie/database.go:417-448 | a trie whose root is readable is held completely by cache and disk if and only if its nodes that only ever came as blobs have their children there |
| TrieStore.ReferencedHeld | proton/trie/database.go:491-592 | so is a trie whose root is referenced |
| TrieStore.ReferencedReads | proton/trie/database.go:385-413 | whatever was inserted, dereferenced, capped and committed, it then reads every key, and reads it right |
| TrieStore.CommittedHeld | proton/trie/database.go:701-770 | a trie whose root is on disk is on disk completely if and only if its nodes that came there as blobs have their children there |
| TrieStore.CommittedReads | proton/trie/database.go:701-770 | it then opens from the disk alone and reads every key right |
| TrieStore.StoredReads | proton/trie/trie.go:63-142 | a trie all of whose entries are there opens, and reads every key right |
| TrieReads.KeyThrough | proton/trie/trie.go:108-142 | every node of a minimal trie lies on the way to a value |
| TrieReads.GotLoaded | proton/trie/trie.go:108-142 | a read that does not fail has every entry on the way in the database |
| TrieReads.ReadsStored | proton/trie/trie.go:63-142 | a trie whose keys are whole bytes reads all of them right if and only if each of its entries is there; then it reads absent keys right too |
| TrieReads.ReferencedReadsIff | proton/trie/database.go:333-592 | a trie whose root is referenced reads all its keys right if and only if its nodes that only ever came as blobs have their children in cache or on disk |
| TrieReads.CommittedReadsIff | proton/trie/database.go:701-798 | a trie whose root is on disk, read from the disk alone, if and only if those that came there as blobs have their children on it |
| TrieStore.SoundLess | proton/trie/database.go:520-770 | whatever leaves by Cap, Commit or Dereference, what remains still hashes to its keys |
| TrieCommit.GatherHeld | proton/trie/database.go:185-215 | all that a collapsed node refers to is in the database once everything below it is |
| TrieCommit.ViewInserted | proton/trie/database.go:344-369 | an insertion into the cache is one write of the hasher |
| TrieCommit.RawRefsLeaf | proton/trie/hasher.go:192-205 | the values of a node that are shown to the leaf callback are those of its leaf; in a full node there are none |
| TrieCommit.LinkRefs | proton/core/state/statedb.go:186-198 | each entry that the leaf refers to and that is cached is referred to from the node; nothing that can be read changes |
| TrieCommit.EntryInto | proton/trie/hasher.go:185-206 | insert and the leaf callback are one write of the hasher; if the node is new it has all it wants, and nothing else loses what it wants |
| TrieCommit.StoreInto | proton/trie/hasher.go:163-207 | store inserts the node with its gathered children, which are there already, and links its leaf |
| TrieCommit.KidsDone | proton/trie/hasher.go:75-116 | once the children are written the node may be |
| TrieCommit.HashInto | proton/trie/hasher.go:75-116 | committing into the cache returns and writes exactly what the hasher does on the view of cache and disk, whatever was cached before and as what; entries are only added, children first |
| TrieCommit.HashChildrenInto | proton/trie/hasher.go:121-158 | so do its children |
| TrieCommit.HashKidsInto | proton/trie/hasher.go:139-152 | and the loop over them |
| TrieCommit.CommitInto | proton/trie/trie.go:414-433 | committing a trie into the cache is the trie's commit on the view of cache and disk; a root that was dirty is then cached |
| TrieCommit.CommitAndReference | proton/trie/database.go:491-517 | after a commit and a reference from outside every key reads right from cache and disk, the node kept stands for the same tree, and a cached root is held by the meta-root |
| TrieCommit.LinkedReads | proton/trie/database.go:417-448 | if all that something leads to is readable, every trie it leads to reads every key right |
| TrieCommit.CommitAndRun | proton/trie/database.go:333-770 | a trie committed into the cache and referenced, if what it leads to had all it wants as far as it was there before, stays there completely with all it links to, and reads every key right, through any sequence of insertions of nodes and blobs, references, Cap, Commit and Dereference of other roots |
| TrieState.TiedFirm | proton/core/state/statedb.go:186-198 | where every node has or refers to all it wants, a leaf's node may be linked to whatever is there |
| TrieState.CommitCode | proton/core/state/statedb.go:167-170 | code is cached, and every node still has what it wants |
| TrieState.CommitStorage | proton/core/state/statedb.go:172-174 | so it is with the entries of a storage trie; a root that was dirty is cached |
| TrieState.CommitAccount | proton/core/state/statedb.go:166-176 | code and storage of one account |
| TrieState.CommitAccounts | proton/core/state/statedb.go:165-177 | the loop over the accounts |
| TrieState.CommitState | proton/core/state/statedb.go:161-200 | after committing the accounts and the account trie, and a reference to its root, the root leads only to nodes that have or refer to all they want, storage and code included |
| TrieState.CommitStateAndRun | proton/core/state/statedb.go:161-200 | so it does after any sequence of calls that does not give it up, whichever disk writes fail, and all it leads to can be read |
| TrieState.LeafLeads | proton/core/state/statedb.go:186-198 | the account root leads to whatever its leaves refer to |
| TrieState.StateReads | proton/core/state/statedb.go:186-198 | as long as the account root stands, every storage trie a leaf refers to reads every key right, and code can be read |
| TrieUniverse.UniverseValid | proton/trie/database.go:198-215 | children of a node lie below it, for any tries without hash collisions |
| TrieUniverse.LinkBelow | proton/core/state/statedb.go:186-198 | so does what a leaf refers to |
| TrieUniverse.UniverseExists | proton/trie/database.go:344-369 | for any tries and code without collisions, in which nothing a leaf refers to has leaves that refer further, there is one account of what their hashes stand for and link to that fits them all |
| TrieUniverse.PlanExists | proton/trie/sync.go:83-93 | and one plan for fetching them, under any callback that asks for what leaves refer to |
| TrieVisit.PreSorted | proton/trie/iterator.go:223-240 | pre-order visits a minimal tree in strictly increasing path order |
| TrieVisit.LookupVisited | proton/trie/iterator.go:223-345 | every stored value is visited under its key |
| TrieVisit.VisitedLookup | proton/trie/iterator.go:223-345 | every visited leaf is a stored value |
| TrieVisit.TermIsLeaf | proton/trie/iterator.go:160-162 | the terminator at the end of the path marks exactly the leaves |
| TrieVisit.LeavesAreLookups | proton/trie/iterator.go:160-180 | the visited leaves are exactly the stored pairs |
| TrieIterator.LoadOk | proton/trie/iterator.go:297-307 | resolving a state keeps what it stands for, or the database lacks the node |
| TrieIterator.LoadBacked | proton/trie/iterator.go:297-307 | a state of which every part not in memory is in the database can be resolved, and stays so |
| TrieIterator.NextChild | proton/trie/iterator.go:309-345 | the next child heads what is left below the node; without one nothing is left |
| TrieIterator.NextFull | proton/trie/iterator.go:311-328 | the loop over a full node's children finds the first that is there |
| TrieIterator.NodeIterator.constructor | proton/trie/iterator.go:141-143 | the iterator stands just before the first node whose path is not below the start |
| TrieIterator.NotEmptyState | proton/trie/iterator.go:138-140 | no root hash is that of no bytes at all, so the early return is never taken |
| TrieIterator.NewNodeIterator | proton/trie/iterator.go:137-144 | the hash is computed first; the iterator stands just before the first node whose path is not below the start, and misses nothing if nothing was missing |
| TrieIterator.NodeIterator.Pop | proton/trie/iterator.go:355-359 | stack and path go back together |
| TrieIterator.NodeIterator.PeekRoot | proton/trie/iterator.go:262-271 | the root heads the whole iteration, or is missing |
| TrieIterator.NodeIterator.PeekChild | proton/trie/iterator.go:277-294 | exhausted states are popped without losing anything still to come |
| TrieIterator.NodeIterator.PeekAt | proton/trie/iterator.go:284-292 | the child found becomes the next state, or could not be loaded; what is still to come is unchanged and starts with it |
| TrieIterator.NodeIterator.Peek | proton/trie/iterator.go:261-295 | the state for the first node still to come, the end, or the missing node |
| TrieIterator.NodeIterator.Push | proton/trie/iterator.go:347-353 | the peeked state becomes current, and its parent moves on |
| TrieIterator.NodeIterator.SeekStep | proton/trie/iterator.go:247-257 | one round skips a subtree only if all of it is below the key |
| TrieIterator.NodeIterator.Seek | proton/trie/iterator.go:242-258 | everything below the start key is passed over and nothing else; a missing node stops the search, which can be resumed |
| TrieIterator.NodeIterator.Next | proton/trie/iterator.go:223-240 | one step in pre-order, or past the current subtree; it fails only at the end or at a missing node |
| TrieIterator.NodeIterator.Advance | proton/trie/iterator.go:230-239 | the peeked state is pushed, or the end or a missing node is noted |
| TrieIterator.Iterator.Next | proton/trie/iterator.go:47-59 | the next stored pair in order, none skipped |
| TrieEntries.LeavesArePairs | proton/trie/iterator.go:47-59 | the leaves from the start on are the map's pairs from the start on |
| TrieEntries.Entries | proton/trie/iterator.go:40-59 | iterating any trie of which every part not in memory is in the database, from any start key, yields every pair whose path is not below it exactly once, in strictly increasing order |
| TrieEntries.EntriesAfter | proton/trie/iterator.go:40-59 | after any run of operations the iteration yields exactly the pairs of the map from the start key on, in order |
| TrieDifference.CompareMeaning | proton/trie/iterator.go:361-377 | equal positions have the same path, hash and value; unequal ones are apart in the way the sign says |
| TrieDifference.SameHash | proton/trie/iterator.go:451-458 | nodes with the same hash carry the same subtree, so both may be skipped |
| TrieDifference.OnlyB | proton/trie/iterator.go:448-450 | a leaf of b that comes before the rest of a is not in a |
| TrieDifference.DifferenceIterator.Round | proton/trie/iterator.go:439-464 | one round of the loop loses no pair of b that is not in a |
| TrieDifference.DifferenceIterator.StepBoth | proton/trie/iterator.go:451-462 | stepping past equal nodes passes over leaves of a only |
| TrieDifference.DifferenceIterator.Next | proton/trie/iterator.go:425-465 | the leaves of b passed over are all in a, and one stopped at is not |
| TrieDifference.NewDifferenceIterator | proton/trie/iterator.go:388-395 | nothing of b is behind a at the start |
| TrieDifference.OnlyArePairs | proton/trie/iterator.go:425-465 | leaves of b that are not leaves of a are the pairs of b that are not pairs of a |
| TrieDifference.Difference | proton/trie/iterator.go:388-465 | over two iterators that miss nothing the difference iterator yields exactly the pairs in b that are not in a, in order |
| TrieDifference.DifferenceOf | proton/trie/iterator.go:388-465 | so for two tries of which every part not in memory is in their databases |
| TrieDifference.DifferenceAfter | proton/trie/iterator.go:388-465 | so after any two runs of operations: exactly the pairs of the second map that are not in the first |
| TrieSync.ScheduleInv | proton/trie/sync.go:250-259 | a new request, or one more parent for a pending one, is one more pending link |
| TrieSync.ScheduleRoot | proton/trie/sync.go:96-129 | a root is requested on nobody's behalf |
| TrieSync.ReceiveInv | proton/trie/sync.go:200-211 | a delivered node waits for all it refers to |
| TrieSync.CompleteInv | proton/trie/sync.go:330-336 | a request without pending links may be buffered: the buffer can still be written prefix by prefix |
| TrieSync.TellInv | proton/trie/sync.go:338-345 | telling one parent settles one link |
| TrieSync.PrefixInv | proton/trie/sync.go:227-240 | whatever prefix of the buffer has been written, the database is closed under children |
| TrieSync.DrainInv | proton/trie/sync.go:236-240 | the buffer may be emptied once it is written |
| TrieSync.SomethingToFetch | proton/trie/sync.go:181-223 | while anything is pending, something has still to be delivered |
| TrieSync.SomethingQueued | proton/trie/sync.go:170-176 | and it is queued or has been handed out: the sync cannot get stuck |
| TrieSync.NothingPending | proton/trie/sync.go:243-245 | with nothing pending the root is there; all it leads to is if and only if it is for every merged entry, and so it is if there are none |
| TrieSync.KnownBelow | proton/trie/sync.go:263-347 | whatever is stored or buffered, all that it refers to, as the kind it was expanded as, is stored or buffered too |
| TrieSync.CompleteIff | proton/trie/sync.go:243-259 | with nothing pending, all that the root leads to is there if and only if it is for every entry that was merged into a request for less |
| TrieSync.UnmetClashes | proton/trie/sync.go:250-259 | an entry that a request or a stored node does not answer is wanted as another kind that refers to other entries |
| TrieSync.UnmixedMet | proton/trie/sync.go:250-259 | so if no hash is wanted as two kinds that refer to different entries, no entry is ever merged into less |
| TrieSync.Sync.constructor | proton/trie/sync.go:83-93 | exactly the root is asked for, under its callback, unless it is the empty root or stored and decodable; no delivered request is without something to wait for |
| TrieSync.Sync.Schedule | proton/trie/sync.go:250-259 | the request is new and queued, or an old one gains parents |
| TrieSync.Sync.AddBelow | proton/trie/sync.go:96-167 | an entry asked for by a leaf callback is there, or the current node waits for it; recorded as merged exactly if a pending or stored kind asks for less |
| TrieSync.Sync.Children | proton/trie/sync.go:290-325 | exactly the hash children that are not there yet, false alarms of the filter included; one that is there as a kind that asks for less is recorded as merged |
| TrieSync.Sync.ExpandSubs | proton/trie/sync.go:291-299 | all leaf callbacks of a node |
| TrieSync.Sync.Expect | proton/trie/sync.go:217-220 | the counter goes up by the number of missing children, and each is requested |
| TrieSync.Sync.ExpectOne | proton/trie/sync.go:218-220 | one of them |
| TrieSync.Sync.Expand | proton/trie/sync.go:207-220 | a delivered node: its leaf callbacks and its missing children are asked for, and it is completed if and only if it waits for nothing |
| TrieSync.Sync.ProcessOne | proton/trie/sync.go:184-220 | one delivery: the verdict is that of the state before, unknown, repeated and undecodable ones change nothing, and a good one is received and leaves only requests that wait; committed if and only if the buffer grew |
| TrieSync.Sync.Process | proton/trie/sync.go:181-223 | all items before the index are processed in turn, each from the state the last one left, and the one at the index is refused for the reason that state gives; without a refusal all are; committed if and only if the buffer grew |
| TrieSync.Sync.CommitRequest | proton/trie/sync.go:330-347 | the entry is buffered and no longer pending, and no completed request is left behind |
| TrieSync.Sync.TellAll | proton/trie/sync.go:338-346 | every parent is told, and those that waited for nothing else follow |
| TrieSync.Sync.Missing | proton/trie/sync.go:170-176 | queued hashes are handed out, each as often as it is queued and in any order that the priorities may give, all or at most max |
| TrieSync.Sync.Commit | proton/trie/sync.go:227-240 | entries are written in order; wherever the database stops accepting them, it is closed under children |
| TrieSync.Sync.WriteOut | proton/trie/sync.go:228-234 | exactly as many entries as the database accepts are written, from the front |
| TrieSyncRun.Step | proton/trie/sync.go:170-240 | every call of Missing, Process or Commit keeps the invariant of a run |
| TrieSyncRun.Meaning | proton/trie/sync.go:243-245 | with nothing pending the root is complete if and only if the merged entries are; with something pending something is queued or handed out and still to be delivered |
| TrieSyncRun.Run | proton/trie/sync.go:83-245 | so after any sequence of Missing, Process and Commit from NewSync, with honest deliveries of any order and a database that may refuse writes; the root is complete if no hash is wanted as two kinds that refer to different entries or lead to different hashes |
| TrieSyncRun.AgreeingBelow | proton/trie/sync.go:243-259 | if no hash is wanted as two kinds that lead to different hashes, an entry that is there is complete, whatever kind it was expanded as |
| TrieSyncRun.RunAgreeing | proton/trie/sync.go:243-259 | so with nothing pending the root is, even if entries were merged into requests for less |
| TrieSyncRun.Resumable | proton/trie/sync.go:83-93 | if nothing was merged into less, and nothing stored is asked for again, what has been written, at any point of a run, is a database that a sync may start from |
| TrieSyncRun.Resume | proton/trie/sync.go:83-245 | so a run that was interrupted at any point can be followed by another, for any root, with the same conclusions |
| TrieSyncRun.RawFirst | proton/trie/sync.go:250-259 | the run in which a node is first asked for as a raw entry: nothing is pending, everything is written, and the node below it, which the root leads to, is missing |
| TrieSynced.EmbeddedGather | proton/trie/sync.go:264-288 | a node small enough to be embedded holds no hash, so children need not look inside |
| TrieSynced.ChildHashes | proton/trie/sync.go:264-301 | the loops over the children collect exactly the hashes among them |
| TrieSynced.DirectIsGather | proton/trie/sync.go:264-288 | those are all hashes inside the stored node |
| TrieSynced.SyncedReads | proton/trie/sync.go:181-245 | a trie that is fetched completely opens and reads every key right |
| TrieSynced.KidsStored | proton/trie/sync.go:264-325 | what a fetched node refers to is fetched; none of it is the empty trie, which is never asked for |
| TrieSynced.SyncTrie | proton/trie/sync.go:83-245 | after any run for a trie, once nothing is pending and the buffer is written, the trie opens and reads every key right if the merged entries are complete, or no hash is wanted as two kinds that lead to different hashes; if no hash is wanted as two kinds that refer to different entries, there are no merged entries |
| BitCompress.MarksUnique | common/bitutil/compress.go:84-92 | there is only one bit vector for given bytes |
| BitCompress.BitsetEncodeBytes | common/bitutil/compress.go:71-97 | the loop and the recursion compute the recursive definition |
| BitCompress.Spread | common/bitutil/compress.go:147-169 | the loop spreads the bytes over the marked positions, and fails only if no data fits the marks |
| BitCompress.BitsetDecodePartialBytes | common/bitutil/compress.go:130-170 | what is accepted re-encodes to what was consumed, and every encoding is accepted |
| BitCompress.BitsetDecodeBytes | common/bitutil/compress.go:115-124 | decoding returns given bytes if and only if the input is their encoding and they have the asked length |
| BitCompress.PrefixFree | common/bitutil/compress.go:130-170 | of two non-empty encodings for one length neither is the beginning of the other |
| BitCompress.CompressBytes | common/bitutil/compress.go:60-67 | the shorter of encoding and data, never longer than the data |
| BitCompress.DecompressBytes | common/bitutil/compress.go:102-112 | data of the target length is itself, shorter data is decoded, longer data is refused |
| BitCompress.CompressRoundTrip | common/bitutil/compress.go:60-112 | decompressing what was compressed, to the original length, gives the data back |
| Blake2b.AbsorbSplit | proton/crypto/blake2b/blake2b.go:243-272 | whole blocks may be hashed ahead as long as the last block is kept |
| Blake2b.BumpCounts | proton/crypto/blake2b/blake2b.go:156-172 | the two-word counter with its carry is the 128-bit counter |
| Blake2b.LastCounts | proton/crypto/blake2b/blake2b.go:283-292 | the padding taken off with borrow and the block added with carry leave the counter at the message length |
| Blake2b.HashBlocks | proton/crypto/blake2b/blake2b.go:156-172 | the loop is the compression of whole blocks in turn, each with its counter |
| Blake2b.LastBlock | proton/crypto/blake2b/blake2b.go:280-297 | the last block, padded and flagged |
| Blake2b.CheckSum | proton/crypto/blake2b/blake2b.go:127-154 | the one-shot digest is the hash function of section 3.3 of RFC 7693 |
| Blake2b.Digest.constructor | proton/crypto/blake2b/blake2b.go:111-125 | nothing written but the key block |
| Blake2b.Digest.Reset | proton/crypto/blake2b/blake2b.go:233-241 | the same, from any state |
| Blake2b.Digest.Fill | proton/crypto/blake2b/blake2b.go:248-252 | the bytes follow those already in the buffer |
| Blake2b.Digest.Write | proton/crypto/blake2b/blake2b.go:243-272 | the bytes are appended to what has been written, and all are taken |
| Blake2b.Digest.FlushFull | proton/crypto/blake2b/blake2b.go:246-256 | a filled buffer is hashed because more is to come |
| Blake2b.Digest.WriteRest | proton/crypto/blake2b/blake2b.go:258-269 | whole blocks are hashed at once and the last one is kept |
| Blake2b.Digest.KeepLast | proton/crypto/blake2b/blake2b.go:267-269 | at most a block goes into the empty buffer |
| Blake2b.Digest.Sum | proton/crypto/blake2b/blake2b.go:274-297 | the digest of everything written, leaving the state as it is |
| Blake2b.Stream | proton/crypto/blake2b/blake2b.go:243-297 | however a message is cut into writes, Sum is the hash of the whole, with or without a key |
| StateJournal.RevertedSame | proton/core/state/journal.go:71-118 | undoing an entry treats alike what looks alike |
| StateJournal.ChangeUndoes | proton/core/state/journal.go:88-118 | a change to an object is undone by its entry |
| StateJournal.CreateUndoes | proton/core/state/journal.go:71-78 | a creation is undone |
| StateJournal.ResetUndoes | proton/core/state/journal.go:80-86 | a replacement is undone |
| StateJournal.MarkCounts | proton/core/state/journal.go:25-30 | append keeps the dirty counts exact |
| StateJournal.UnmarkCounts | proton/core/state/journal.go:33-44 | so does undoing, dropping addresses that reach zero |
| StateJournal.CountsUnique | proton/core/state/journal.go:25-44 | the entries determine the dirty counts |
| StateJournal.StateDB.constructor | proton/core/state/statedb.go:37-51 | nothing cached and nothing logged |
| StateJournal.StateDB.Cache | proton/core/state/statedb.go:235-237 | caching an object that looks the same is invisible |
| StateJournal.StateDB.Log | proton/core/state/journal.go:25-30 | a change with the entry that undoes it keeps every earlier state within reach |
| StateJournal.StateDB.Load | proton/core/state/statedb.go:206-226 | the cached or committed object, cached from now on |
| StateJournal.StateDB.GetOrNew | proton/core/state/statedb.go:239-275 | the live object, or a fresh one in place of a missing or deleted one |
| StateJournal.StateDB.Change | proton/core/state/state_object.go:152-162 | one object changes and the entry is logged |
| StateJournal.StateDB.SetBalance | proton/core/state/statedb.go:83-88 | exactly the balance of one account |
| StateJournal.StateDB.AddBalance | proton/core/state/statedb.go:69-74 | the balance goes up by the amount; adding nothing still creates a missing account |
| StateJournal.StateDB.SubBalance | proton/core/state/statedb.go:76-81 | the balance goes down by the amount |
| StateJournal.StateDB.SetNonce | proton/core/state/statedb.go:90-95 | exactly the nonce of one account |
| StateJournal.StateDB.SetCode | proton/core/state/statedb.go:97-102 | code and code hash of one account, the old code having been loaded |
| StateJournal.StateDB.SetState | proton/core/state/statedb.go:104-109 | exactly one slot of one account |
| StateJournal.StateDB.GetState | proton/core/state/state_object.go:182-214 | the value of the slot; keeping what was loaded is invisible |
| StateJournal.StateDB.Revert | proton/core/state/journal.go:33-44 | every account looks as it did when the journal had that length, and the journal is cut back to it |
| StateJournal.Apply | proton/core/state/statedb.go:61-109 | every operation, a read or a revert to a later snapshot included, keeps the snapshot within reach |
| StateJournal.Read | proton/core/state/state_object.go:182-214 | reading a slot is invisible, whatever it loads |
| StateJournal.RevertLater | proton/core/state/journal.go:33-44 | a revert to a later snapshot restores that one and leaves the earlier ones within reach |
| StateJournal.Rollback | proton/core/state/journal.go:33-44 | after any run of operations, reads and reverts to later snapshots included, reverting restores existence, balance, nonce, code and storage of every account, the entries and the dirty counts |
| Feed.ServeOne | event/feed.go:228-232 | serving a case keeps the active prefix equal to the not yet served |
| Feed.RemoveOne | event/feed.go:171-177 | removing one does, whether it was still active or not |
| Feed.Feed.constructor | event/feed.go:61-66 | no subscriptions |
| Feed.Feed.Subscribe | event/feed.go:73-93 | the channel waits in the inbox |
| Feed.Feed.Find | event/feed.go:213-220 | the first case with the channel, or none |
| Feed.Feed.Delete | event/feed.go:223-225 | the case is gone and the others keep their order |
| Feed.Feed.Deactivate | event/feed.go:228-232 | the case changes places with the last active one |
| Feed.Feed.Remove | event/feed.go:104-125 | exactly one subscription of the channel is gone |
| Feed.Feed.LeaveInbox | event/feed.go:108-113 | the first occurrence in the inbox is gone, if there is one |
| Feed.Feed.Others | event/feed.go:73-113 | while Send is under way others subscribe and leave the inbox, any number of them |
| Feed.Feed.TakeInbox | event/feed.go:136-138 | the inbox follows the cases |
| Feed.Feed.TryAll | event/feed.go:159-165 | the fast path serves cases while the prefix shrinks under the loop |
| Feed.Feed.TakeOut | event/feed.go:171-177 | an unsubscription in the middle of Send |
| Feed.Feed.Send | event/feed.go:129-190 | in every interleaving, all subscriptions present at the start are served or taken out unserved, and nsent counts the deliveries; the inbox then holds exactly what others did to it meanwhile |
| Feed.SendAgain | event/feed.go:129-190 | whoever came to the inbox during one Send is there for the next, with those that were not taken out |
| Feed.ServedOnce | event/feed.go:151-182 | so each is served at most once, and exactly once if it stays |
| Words.CarryTrue | proton/crypto/bn256/cloudflare/gfp_generic.go:41-43 | wrapped sum and carry formula together are the true sum |
| Words.BorrowTrue | proton/crypto/bn256/cloudflare/gfp_generic.go:11-13 | wrapped difference and borrow formula together are the true difference |
| Words.Select | proton/crypto/bn256/cloudflare/gfp_generic.go:19-23 | the masked combination picks one of the two numbers |
| Words.Flags | proton/crypto/bn256/cloudflare/gfp_generic.go:15 | the borrow counts only without an overflow |
| BnField.Constants | proton/crypto/bn256/cloudflare/constants.go:28-32 | the words are those of p and of its negative inverse modulo 2^256 |
| BnField.SubPrime | proton/crypto/bn256/cloudflare/gfp_generic.go:8-14 | the loop subtracts p, with the final borrow |
| BnField.GfpCarry | proton/crypto/bn256/cloudflare/gfp_generic.go:5-24 | a number below 2p, overflow bit included, is reduced modulo p |
| BnField.AddWords | proton/crypto/bn256/cloudflare/gfp_generic.go:38-44 | the loop adds, with the final carry |
| BnField.GfpAdd | proton/crypto/bn256/cloudflare/gfp_generic.go:37-46 | the reduced sum, in whatever array |
| BnField.PrimeMinus | proton/crypto/bn256/cloudflare/gfp_generic.go:51-57 | the loop subtracts from p without a final borrow |
| BnField.GfpNeg | proton/crypto/bn256/cloudflare/gfp_generic.go:26-35 | the reduced negation |
| BnField.GfpSub | proton/crypto/bn256/cloudflare/gfp_generic.go:48-67 | the reduced difference |
| BnField.ProductsTrue | proton/crypto/bn256/cloudflare/gfp_generic.go:77-88 | the six partial products of two words add up to the product, each far below the word size |
| BnField.Deposit | proton/crypto/bn256/cloudflare/gfp_generic.go:82-88 | they are added in at their weight without overflow |
| BnField.Accumulate | proton/crypto/bn256/cloudflare/gfp_generic.go:75-90 | the buffer holds the product; in the half version, all but a multiple of 2^256 |
| BnField.Fold | proton/crypto/bn256/cloudflare/gfp_generic.go:95-106 | one column is shifted and added in with true carries |
| BnField.Gather | proton/crypto/bn256/cloudflare/gfp_generic.go:92-107 | three of them leave the buffer's value in the words |
| BnField.Mul | proton/crypto/bn256/cloudflare/gfp_generic.go:69-110 | the full product of two 256-bit numbers |
| BnField.HalfMul | proton/crypto/bn256/cloudflare/gfp_generic.go:112-156 | the product modulo 2^256 |
| BnField.GfpMul | proton/crypto/bn256/cloudflare/gfp_generic.go:158-173 | a reduced c with c times 2^256 congruent to the product modulo p |
| BnField.MontgomeryUnique | proton/crypto/bn256/cloudflare/gfp_generic.go:158-173 | there is only one such c |
| SStack.BeforeExact | common/prque/sstack.go:96-98 | comparing by subtraction is right if and only if the difference is a 64-bit number |
| SStack.BeforeIsGreater | common/prque/sstack.go:96-98 | so it is right for numbers within 2^63 of each other |
| SStack.BeforeWraps | common/prque/sstack.go:96-98 | the two extreme priorities compare the wrong way |
| SStack.Stack.constructor | common/prque/sstack.go:44-51 | the empty stack |
| SStack.ReportPush | common/prque/sstack.go:65-70 | reported positions stay exact when a value that is not held is pushed |
| SStack.ReportPop | common/prque/sstack.go:82-85 | and when the last one leaves |
| SStack.ReportSwap | common/prque/sstack.go:102-108 | and when two change places |
| SStack.Stack.Push | common/prque/sstack.go:55-71 | the element follows the others, across block boundaries |
| SStack.Stack.MakeRoom | common/prque/sstack.go:56-64 | the next position has a cell in the active block |
| SStack.Stack.Grow | common/prque/sstack.go:56-60 | a new block, and the same elements |
| SStack.Stack.Pop | common/prque/sstack.go:75-87 | the last element, which may lie in the block before |
| SStack.Stack.StepBack | common/prque/sstack.go:76-81 | the position steps back over a block boundary |
| SStack.Stack.Swap | common/prque/sstack.go:101-109 | two elements change places, whatever blocks they lie in |
| SStack.Stack.At | common/prque/sstack.go:96-98 | the element at a flat position |
| SStack.Stack.Less | common/prque/sstack.go:96-98 | the comparison by subtraction of the elements at two positions |
| PrqueHeap.RootHighest | common/prque/lazyqueue.go:109-122 | nothing in a heap has a higher number than its first element |
| PrqueHeap.Up | common/prque/lazyqueue.go:87 | sifting up mends the heap, moves nothing in or out, and keeps reported positions exact |
| PrqueHeap.Down | common/prque/lazyqueue.go:131 | so does sifting down |
| PrqueHeap.HeapPush | common/prque/lazyqueue.go:87 | one element more in the heap, with reported positions still exact |
| PrqueHeap.HeapPop | common/prque/lazyqueue.go:78 | the highest element leaves the heap, with reported positions still exact |
| PrqueHeap.HeapRemove | common/prque/lazyqueue.go:157 | the element at the position leaves the heap, with reported positions still exact |
| LazyQueue.Queue.constructor | common/prque/lazyqueue.go:55-66 | nothing held; the offset is 1 and right |
| LazyQueue.Queue.Clear | common/prque/lazyqueue.go:69-72 | two new heaps; the offset, which stays, names them rightly if and only if it is 0 |
| LazyQueue.Queue.Reset | common/prque/lazyqueue.go:69-72 | the same between other calls |
| LazyQueue.ResetMisnames | common/prque/lazyqueue.go:69-72 | a reset right after construction: the index then reported for an item is read as a position of the empty heap |
| LazyQueue.Queue.PushUntil | common/prque/lazyqueue.go:86-88 | one item more, in the second heap, with an estimate until the time set; if the item was not held, all reported indices stay right |
| LazyQueue.Queue.Push | common/prque/lazyqueue.go:86-88 | between refreshes the estimate is good until the refresh after the next |
| LazyQueue.Queue.Reestimate | common/prque/lazyqueue.go:77-79 | one round of a refresh: the same items, one of them with a new estimate |
| LazyQueue.Queue.ReestimateAll | common/prque/lazyqueue.go:77-79 | the first heap is emptied into the second |
| LazyQueue.Queue.Refresh | common/prque/lazyqueue.go:75-83 | the same items, all with estimates good for a further period; the heaps have changed places, and neither the indices nor their reading with the new offset has become wrong |
| LazyQueue.Queue.IndexNames | common/prque/lazyqueue.go:153-182 | with the offset right, the index last reported for an item names that item |
| LazyQueue.Queue.IndexMisnames | common/prque/lazyqueue.go:153-182 | with the offset wrong, it names the same position of the other heap |
| LazyQueue.Queue.IndexIff | common/prque/lazyqueue.go:153-182 | the index last reported for a held item names it if and only if the offset is right |
| LazyQueue.Queue.Remove | common/prque/lazyqueue.go:153-158 | exactly the item at the virtual index leaves its heap, and all reported indices stay right; a negative index is nothing |
| LazyQueue.Queue.RemoveReported | common/prque/lazyqueue.go:153-158 | removing by the index last reported for an item returns that item |
| LazyQueue.Queue.Update | common/prque/lazyqueue.go:91-93 | the same items with a new estimate for one; a negative index pushes nil |
| LazyQueue.Queue.PeekIndex | common/prque/lazyqueue.go:111-122 | the heap whose top nothing in either heap beats, or -1 if there is nothing |
| LazyQueue.Queue.Consider | common/prque/lazyqueue.go:131-132 | the top of a heap is looked at, with its actual priority |
| LazyQueue.HandOut | common/prque/lazyqueue.go:134-136 | the highest actual priority that no estimate reaches may be handed out |
| LazyQueue.Queue.HandOver | common/prque/lazyqueue.go:135 | so it is |
| LazyQueue.Queue.Ready | common/prque/lazyqueue.go:134 | the best item looked at is handed out exactly if no estimate reaches it |
| LazyQueue.Queue.HandOutAll | common/prque/lazyqueue.go:134-142 | all that nothing left can beat is handed out, until the callback has had enough |
| LazyQueue.Queue.PutBack | common/prque/lazyqueue.go:137-140 | what was looked at and not handed out is held again, none of it with a higher actual priority than what was handed out |
| LazyQueue.Queue.Round | common/prque/lazyqueue.go:130-143 | one round keeps all this |
| LazyQueue.Queue.MultiPop | common/prque/lazyqueue.go:127-144 | items leave with their actual priorities in descending order, none left has a higher one, none is lost or duplicated, and it ends when the callback has had enough or nothing is left |
| LazyQueue.Queue.Pop | common/prque/lazyqueue.go:96-107 | the item with the highest actual priority of all, or nil |
| LazyQueue.Queue.DoRemove | common/prque/lazyqueue.go:153-158 | in a run, an item held is removed by its index while the offset is right; with a wrong offset another item leaves or the call fails |
| LazyQueue.Queue.DoUpdate | common/prque/lazyqueue.go:91-93 | in a run, nothing leaves or comes; the call fails only with a wrong offset |
| LazyQueue.Queue.DoPush | common/prque/lazyqueue.go:86-88 | in a run, the item is held from now on |
| LazyQueue.Queue.DoPop | common/prque/lazyqueue.go:96-107 | in a run, the item of the highest priority of all held leaves, with that priority, or nothing is held |
| LazyQueue.Queue.DoMultiPop | common/prque/lazyqueue.go:127-144 | in a run, with any callback: items of the highest priorities of all held leave in order, with those priorities, until the callback wants no more or nothing is held |
| LazyQueue.Queue.DoRefresh | common/prque/lazyqueue.go:75-83 | in a run, the same items and the other offset |
| LazyQueue.Queue.DoReset | common/prque/lazyqueue.go:69-72 | in a run, nothing is held; the offset is right from now on if and only if it is 0 |
| LazyQueue.Queue.Do | common/prque/lazyqueue.go:69-158 | every call does to what is held, to the time and to the offset what its event says |
| LazyQueue.Run | common/prque/lazyqueue.go:55-182 | after any run of pushes of items not held, updates, removals, pops, multiple pops, refreshes, resets and waiting, a trace of what was held before each call and what came of it; it ends early only by an index that names no position, after a reset at offset 1; the indices last reported for the items held all name them if the offset is right, and none does otherwise |
| LazyQueue.Conserved | common/prque/lazyqueue.go:55-158 | in every such trace, at every point, an item has come as often as it has gone by a pop of either kind, removal or reset, and once more exactly if it is held |

## Left out

- TrieGc.Database.Insert: children are cached or stored before the node, which is the order in which the hasher inserts, as `TrieCommit.HashInto` shows, and exactly what the invariant asks for (`TrieGc.AppendExact`); an entry comes with the children of the node or, as a blob, with none.
- TrieGc.Database.Dereference: called for nodes the meta-root refers to, on disk, or without parents, as the code's users do; `TrieGc.DecrementExact` shows that this is exactly when the counters stay right.
- TrieGc.Database.Reference: the parent is cached and, unless it is the meta-root, was inserted after the child, as in the code's use by the state database; otherwise the order of the flush list would not be that of the references (`TrieGc.LinkExact`).
- TrieHeld.Step: a node whose children are not there yet, and a Dereference that would break the counters, are skipped, as both are outside the two restrictions above.
- TrieCommit.EntryInto: if the node was cached before, what its leaf refers to was listed before it or is stored; in a commit of a state that is so unless the node was first inserted as a blob. `TrieHeld.HeldIff` covers the children of such a node, not its leaf's links.
- TrieState.CommitState: every entry that is there before has or refers to all it wants, as is so from a new cache on; a leaf that does not decode refers to nothing, as in the code, and errors of CommitTrie are not modelled.
- TrieSync.Sync.Process: delivered blobs hash to what they are delivered as; the code leaves that check to its caller. Blobs that do not decode are modelled.
- TrieSync.Sync.constructor: what the database holds at the start was stored by an earlier sync, so it is closed under references and the filter knows it; `TrieSyncRun.Resumable` shows it of what a sync has written.
- TrieSync.Sync.AddBelow: entries are added below the node being processed, as leaf callbacks do; errors of callbacks are not modelled, nor entries added by others.
- StateJournal.StateDB.Load: the recorded error of a failing trie is not modelled; an account that cannot be read or decoded counts as absent, as in the code.
- LazyQueue.Queue.Remove: an index that names no position is not passed in; there the code panics.
- LazyQueue.Run: the owner pushes nothing that is held and refreshes in time, and what the callbacks say lies within 2^63 for the whole run; the single calls ask for the latter only of what is in play at their moment.
- Blake2b.CheckSum: the compression rounds are a parameter, as are the initial state and the output form.
- Preimages, the clean cache, statistics, timing and logging of the trie database: no influence on what is read; the clean cache holds copies of the disk.
- Parent counters and link counters are unbounded here; in the code they wrap at 32 and 16 bits.
- The bloom filter of the sync is any set without false negatives.
- Reflection in RLP (struct, array, pointer, big integer and custom decoders and encoders): the nested-item and unsigned-integer paths are modelled.
- Stream.Bool and list streams: thin wrappers around the modelled steps.
- SecureTrie, the union iterator, LeafProof and iteration statistics: easy members over the modelled ones.
- State objects' Finalise and updateTrie, and the finalising part of StateDB.Commit.
- The assembly versions of the field arithmetic, the extension fields, curves and pairings.
- Mutexes: every locked section is one step.
- Block chain, downloader, peer-to-peer and node wiring: plumbing around foreign libraries.
