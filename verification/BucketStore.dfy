/** The chunk store of the bucket canister: one file's metadata and its chunks.

  The calls for one chunk and for metadata trap on an error, which rolls the canister state
  back: they either return the new state or leave the old one. The call that creates a file
  with its content returns its errors instead, and a call that returns keeps its writes.
 */
module BucketStore {
  import opened Wrappers
  import opened Chunking

  // SHA3-256 is left uninterpreted: a digest stands for the bytes it was computed from.
  datatype Digest = Sha3(preimage: Bytes)

  // status: -1 archived, 0 readable and writable, 1 readonly.
  datatype FileState = FileState(
    size: nat, filled: nat, chunks: nat, status: int, hash: Option<Digest>, data: map<nat, Bytes>)

  // The source fixes chunkSize at 256 KiB; maxFileSize is configured. Nothing below depends
  // on the values.
  datatype Limits = Limits(chunkSize: nat, maxFileSize: nat) {
    ghost predicate Valid() { 0 < chunkSize }
  }

  function NewFile(size: nat, hash: Option<Digest>): FileState {
    FileState(size, 0, 0, 0, hash, map[])
  }

  // store::fs::update_chunk; None is the trap.
  function PutChunk(f: FileState, i: nat, chunk: Bytes, lim: Limits): Option<FileState> {
    if chunk == [] || |chunk| > lim.chunkSize || f.status != 0 then None
    else if f.filled + |chunk| > lim.maxFileSize then None
    else
      var grown := f.filled + |chunk|;
      var filled :=
        if i in f.data && i < f.chunks then
          if grown < |f.data[i]| then 0 else grown - |f.data[i]|
        else grown;
      var chunks := if f.chunks <= i then i + 1 else f.chunks;
      if 0 < f.size < filled then None
      else Some(f.(filled := filled, chunks := chunks, data := f.data[i := chunk]))
  }

  // store::fs::update_file for a change of size, status and hash. When the new size is
  // below `filled` the counters are reset before the loop that should remove chunks
  // 0..chunks, so that loop is empty and the old chunks stay in the store.
  function UpdateFile(f: FileState, size: Option<nat>, status: Option<int>, hash: Option<Digest>,
                      hashConflict: bool): Option<FileState> {
    var size0 := size.GetOr(f.size);
    var size' := if size0 == 0 then f.filled else size0;
    var status' := status.GetOr(f.status);
    var hash' := if hash.Some? then hash else f.hash;
    if f.status > 0 && status' > 0 then None
    else if status' == 1 && hash' == None then None
    else if status' == 1 && size' != f.filled then None
    else if hashConflict && hash' != f.hash then None
    else if size' < f.filled then
      Some(f.(size := size', status := status', hash := hash', filled := 0, chunks := 0))
    else
      Some(f.(size := size', status := status', hash := hash'))
  }

  // When a metadata update is accepted, and what it leaves: a size of zero becomes the bytes
  // counted, readonly files stay as they are, and becoming readonly takes a digest and a
  // complete count.
  lemma UpdateFileExactly(f: FileState, size: Option<nat>, status: Option<int>, hash: Option<Digest>, conflict: bool)
    ensures var wanted := if size.Some? then size.value else f.size;
            var size' := if wanted == 0 then f.filled else wanted;
            var status' := if status.Some? then status.value else f.status;
            var hash' := if hash.Some? then hash else f.hash;
            var r := UpdateFile(f, size, status, hash, conflict);
            && (r.Some? <==>
                  && !(f.status > 0 && status' > 0)
                  && (status' == 1 ==> hash'.Some? && size' == f.filled)
                  && !(conflict && hash' != f.hash))
            && (r.Some? ==> r.value.size == size' && r.value.status == status' && r.value.hash == hash' && r.value.data == f.data)
            && (r.Some? && size' >= f.filled ==> r.value.filled == f.filled && r.value.chunks == f.chunks)
            && (r.Some? && size' < f.filled ==> r.value.filled == 0 && r.value.chunks == 0)
  {
  }

  // When a chunk is accepted: it is not empty nor too long, the file is writable, and there
  // is room for it under the limit and in the announced size.
  lemma PutChunkExactly(f: FileState, i: nat, chunk: Bytes, lim: Limits)
    ensures var replaced := if i in f.data && i < f.chunks then |f.data[i]| else 0;
            var filled := if f.filled + |chunk| < replaced then 0 else f.filled + |chunk| - replaced;
            var r := PutChunk(f, i, chunk, lim);
            && (r.Some? <==>
                  && 0 < |chunk| <= lim.chunkSize && f.status == 0
                  && f.filled + |chunk| <= lim.maxFileSize
                  && (f.size == 0 || filled <= f.size))
            && (r.Some? ==>
                  && r.value.data == f.data[i := chunk] && r.value.filled == filled
                  && r.value.chunks == (if f.chunks <= i then i + 1 else f.chunks)
                  && r.value.size == f.size && r.value.status == f.status && r.value.hash == f.hash)
  {
  }

  function StoredLength(data: map<nat, Bytes>, n: nat): nat {
    if n == 0 then 0
    else StoredLength(data, n - 1) + (if n - 1 in data then |data[n - 1]| else 0)
  }

  // `filled` is the number of bytes in the store, and `chunks` is one past the last chunk.
  ghost predicate Accounted(f: FileState) {
    && f.filled == StoredLength(f.data, f.chunks)
    && (forall i: nat :: i in f.data ==> i < f.chunks)
    && (0 < f.chunks ==> f.chunks - 1 in f.data)
  }

  lemma {:induction false} StoredLengthUpdate(data: map<nat, Bytes>, i: nat, chunk: Bytes, n: nat)
    ensures StoredLength(data[i := chunk], n) ==
            StoredLength(data, n)
            + (if i < n then |chunk| - (if i in data then |data[i]| else 0) else 0)
  {
    if n > 0 {
      StoredLengthUpdate(data, i, chunk, n - 1);
    }
  }

  lemma {:induction false} StoredLengthBeyond(data: map<nat, Bytes>, m: nat, n: nat)
    requires m <= n && forall i: nat :: i in data ==> i < m
    ensures StoredLength(data, n) == StoredLength(data, m)
  {
    if m < n {
      StoredLengthBeyond(data, m, n - 1);
    }
  }

  lemma {:induction false} StoredLengthCovers(data: map<nat, Bytes>, i: nat, n: nat)
    requires i < n && i in data
    ensures |data[i]| <= StoredLength(data, n)
  {
    if i < n - 1 {
      StoredLengthCovers(data, i, n - 1);
    }
  }

  // Every chunk upload keeps the byte count exact, a re-upload of a stored chunk included.
  lemma PutChunkAccounts(f: FileState, i: nat, chunk: Bytes, lim: Limits)
    requires Accounted(f) && PutChunk(f, i, chunk, lim).Some?
    ensures Accounted(PutChunk(f, i, chunk, lim).value)
    ensures SmallChunks(f, lim.chunkSize) ==> SmallChunks(PutChunk(f, i, chunk, lim).value, lim.chunkSize)
  {
    var chunks := if f.chunks <= i then i + 1 else f.chunks;
    StoredLengthUpdate(f.data, i, chunk, chunks);
    StoredLengthBeyond(f.data, f.chunks, chunks);
    if i in f.data {
      StoredLengthCovers(f.data, i, f.chunks);
    }
  }

  // A metadata update keeps it exactly when it does not shrink the file below its content.
  lemma UpdateFileAccounts(f: FileState, size: Option<nat>, status: Option<int>,
                           hash: Option<Digest>, conflict: bool)
    requires Accounted(f) && UpdateFile(f, size, status, hash, conflict).Some?
    ensures var f' := UpdateFile(f, size, status, hash, conflict).value;
            Accounted(f') <==> f'.size >= f.filled
  {
    if forall i: nat :: i !in f.data {
      assert f.data == map[];
      StoredLengthBeyond(f.data, 0, f.chunks);
    }
  }

  // ---------------------------------------------------------------- what is stored, whatever the chunk sizes

  // The first n chunks in order; a missing one counts as empty.
  function StoredParts(data: map<nat, Bytes>, n: nat): seq<Bytes> {
    if n == 0 then [] else StoredParts(data, n - 1) + [if n - 1 in data then data[n - 1] else []]
  }

  // The bytes in the store.
  function StoredBytes(f: FileState): Bytes { Concat(StoredParts(f.data, f.chunks)) }

  ghost predicate Gapless(f: FileState) {
    forall i: nat :: i < f.chunks ==> i in f.data
  }

  // store::fs::get_full_chunks.
  ghost function FullChunks(f: FileState): Option<Bytes> {
    if f.size != f.filled then None
    else if f.chunks == 0 then Some([])
    else if Gapless(f) && |StoredBytes(f)| == f.size then Some(StoredBytes(f))
    else None
  }

  lemma {:induction false} StoredPartsAre(data: map<nat, Bytes>, n: nat)
    ensures |StoredParts(data, n)| == n
    ensures forall i: nat :: i < n ==> StoredParts(data, n)[i] == if i in data then data[i] else []
  {
    if n > 0 {
      StoredPartsAre(data, n - 1);
      assert StoredParts(data, n)[..n - 1] == StoredParts(data, n - 1);
    }
  }

  lemma {:induction false} StoredBytesLength(data: map<nat, Bytes>, n: nat)
    ensures |Concat(StoredParts(data, n))| == StoredLength(data, n)
  {
    if n > 0 {
      StoredBytesLength(data, n - 1);
      ConcatSnoc(StoredParts(data, n - 1), if n - 1 in data then data[n - 1] else []);
    }
  }

  // A file whose counters are right is handed out exactly when it is full and has no gap.
  lemma FullChunksExactly(f: FileState)
    requires f.filled == StoredLength(f.data, f.chunks)
    ensures FullChunks(f) == if f.size == f.filled && Gapless(f) then Some(StoredBytes(f)) else None
  {
    StoredBytesLength(f.data, f.chunks);
    if f.chunks == 0 {
      assert StoredBytes(f) == [];
    }
  }

  // A client may send any non-empty chunks up to chunkSize.
  ghost predicate SmallChunks(f: FileState, chunkSize: nat) {
    forall i: nat :: i in f.data ==> 0 < |f.data[i]| <= chunkSize
  }

  // All chunks are full, except that the last may be shorter.
  ghost predicate EvenlyCut(f: FileState, chunkSize: nat) {
    forall i: nat :: i + 1 < f.chunks ==> i in f.data && |f.data[i]| == chunkSize
  }

  // What a reader relies on: every chunk of the content in its place.
  ghost predicate Holds(f: FileState, content: Bytes, chunkSize: nat)
    requires 0 < chunkSize
  {
    && f.chunks == |Chunks(content, chunkSize)|
    && (forall i: nat :: i in f.data <==> i < f.chunks)
    && forall i: nat :: i in f.data ==> f.data[i] == Chunks(content, chunkSize)[i]
  }

  lemma EvenlyCutHolds(f: FileState, chunkSize: nat)
    requires 0 < chunkSize && Accounted(f) && SmallChunks(f, chunkSize) && EvenlyCut(f, chunkSize)
    ensures Holds(f, StoredBytes(f), chunkSize)
  {
    var parts := StoredParts(f.data, f.chunks);
    StoredPartsAre(f.data, f.chunks);
    assert forall i :: 0 <= i < |parts| - 1 ==> |parts[i]| == chunkSize;
    WellCutIsChunks(parts, chunkSize);
  }

  lemma HoldsIsStored(f: FileState, content: Bytes, chunkSize: nat)
    requires 0 < chunkSize && Holds(f, content, chunkSize)
    ensures content == StoredBytes(f) && EvenlyCut(f, chunkSize)
  {
    StoredPartsAre(f.data, f.chunks);
    ChunksRoundTrip(content, chunkSize);
    assert StoredParts(f.data, f.chunks) == Chunks(content, chunkSize);
  }

  // The content is what is stored, and the chunks are evenly cut: one says the other.
  lemma HoldsExactly(f: FileState, content: Bytes, chunkSize: nat)
    requires 0 < chunkSize && Accounted(f) && SmallChunks(f, chunkSize)
    ensures Holds(f, content, chunkSize) <==> content == StoredBytes(f) && EvenlyCut(f, chunkSize)
  {
    if EvenlyCut(f, chunkSize) {
      EvenlyCutHolds(f, chunkSize);
    }
    if Holds(f, content, chunkSize) {
      HoldsIsStored(f, content, chunkSize);
    }
  }

  // Part of an upload of `content`: some of its chunks, each in its place.
  ghost predicate PartOf(f: FileState, content: Bytes, chunkSize: nat)
    requires 0 < chunkSize
  {
    && Accounted(f)
    && forall i: nat :: i in f.data ==>
         i < |Chunks(content, chunkSize)| && f.data[i] == Chunks(content, chunkSize)[i]
  }

  lemma {:induction false} LengthBound(data: map<nat, Bytes>, parts: seq<Bytes>, n: nat)
    requires n <= |parts|
    requires forall i :: 0 <= i < |parts| ==> parts[i] != []
    requires forall i: nat :: i in data ==> i < |parts| && data[i] == parts[i]
    ensures StoredLength(data, n) <= |Concat(parts[..n])|
    ensures StoredLength(data, n) == |Concat(parts[..n])| <==> forall i :: 0 <= i < n ==> i in data
  {
    if n > 0 {
      LengthBound(data, parts, n - 1);
      ConcatNext(parts, n - 1);
    } else {
      assert parts[..0] == [];
    }
  }

  // The byte count is a sound and complete test for a finished upload.
  lemma FilledMeansComplete(f: FileState, content: Bytes, chunkSize: nat)
    requires 0 < chunkSize && PartOf(f, content, chunkSize)
    ensures f.filled == |content| <==> Holds(f, content, chunkSize)
    ensures f.filled <= |content|
  {
    var parts := Chunks(content, chunkSize);
    ChunksRoundTrip(content, chunkSize);
    StoredLengthBeyond(f.data, f.chunks, |parts|);
    LengthBound(f.data, parts, |parts|);
    assert parts[..|parts|] == parts;
    assert f.filled == StoredLength(f.data, |parts|);
    if f.filled == |content| {
      assert forall i :: 0 <= i < |parts| ==> i in f.data;
      assert f.chunks == |parts| by {
        assert 0 < |parts| ==> |parts| - 1 in f.data;
      }
      assert Holds(f, content, chunkSize);
    }
    if Holds(f, content, chunkSize) {
      assert forall i :: 0 <= i < |parts| ==> i in f.data;
      assert f.filled == |content|;
    }
  }

  lemma ChunkIsSmall(content: Bytes, size: nat, i: nat)
    requires 0 < size && i < |Chunks(content, size)|
    ensures 0 < |Chunks(content, size)[i]| <= size
  {
    ChunksRoundTrip(content, size);
  }

  // Storing one more missing chunk never takes the count past the content's length.
  lemma PrefixFits(f: FileState, content: Bytes, i: nat, chunkSize: nat)
    requires 0 < chunkSize && PartOf(f, content, chunkSize)
    requires i < |Chunks(content, chunkSize)| && i !in f.data
    ensures f.filled + |Chunks(content, chunkSize)[i]| <= |content|
  {
    var chunk := Chunks(content, chunkSize)[i];
    ChunksRoundTrip(content, chunkSize);
    var lim := Limits(chunkSize, f.filled + |chunk|);
    var g := PutChunk(f.(size := 0, status := 0), i, chunk, lim).value;
    PutChunkAccounts(f.(size := 0, status := 0), i, chunk, lim);
    FilledMeansComplete(g, content, chunkSize);
  }

  // The first n chunks of the content, and nothing else.
  ghost predicate Prefix(f: FileState, content: Bytes, n: nat, chunkSize: nat)
    requires 0 < chunkSize
  {
    && PartOf(f, content, chunkSize)
    && f.chunks == n
    && forall k: nat :: k < n ==> k in f.data
  }

  lemma NextIsStored(f: FileState, content: Bytes, i: nat, lim: Limits)
    requires lim.Valid() && Prefix(f, content, i, lim.chunkSize) && i < |Chunks(content, lim.chunkSize)|
    requires PutChunk(f, i, Chunks(content, lim.chunkSize)[i], lim).Some?
    ensures Prefix(PutChunk(f, i, Chunks(content, lim.chunkSize)[i], lim).value, content, i + 1, lim.chunkSize)
  {
    PutChunkAccounts(f, i, Chunks(content, lim.chunkSize)[i], lim);
  }

  lemma StoreNext(f: FileState, content: Bytes, i: nat, lim: Limits)
    requires lim.Valid() && Prefix(f, content, i, lim.chunkSize) && i < |Chunks(content, lim.chunkSize)|
    requires f.status == 0 && (f.size == 0 || f.size == |content|)
    ensures var put := PutChunk(f, i, Chunks(content, lim.chunkSize)[i], lim);
            && (|content| <= lim.maxFileSize ==> put.Some?)
            && (put.Some? ==> Prefix(put.value, content, i + 1, lim.chunkSize))
            && (put.Some? ==> put.value.filled <= lim.maxFileSize)
  {
    ChunkIsSmall(content, lim.chunkSize, i);
    PrefixFits(f, content, i, lim.chunkSize);
    if PutChunk(f, i, Chunks(content, lim.chunkSize)[i], lim).Some? {
      NextIsStored(f, content, i, lim);
    }
  }

  // The first chunks of the content, as many as fit: the next one would take the file over
  // the limit.
  ghost predicate BrokenOff(f: FileState, content: Bytes, lim: Limits) {
    && lim.Valid()
    && f.filled <= lim.maxFileSize
    && Prefix(f, content, f.chunks, lim.chunkSize)
    && f.chunks < |Chunks(content, lim.chunkSize)|
    && f.filled + |Chunks(content, lim.chunkSize)[f.chunks]| > lim.maxFileSize
  }

  lemma WhyBrokenOff(f: FileState, content: Bytes, i: nat, lim: Limits)
    requires lim.Valid() && Prefix(f, content, i, lim.chunkSize) && i < |Chunks(content, lim.chunkSize)|
    requires f.status == 0 && (f.size == 0 || f.size == |content|) && f.filled <= lim.maxFileSize
    requires PutChunk(f, i, Chunks(content, lim.chunkSize)[i], lim) == None
    ensures BrokenOff(f, content, lim)
  {
    ChunkIsSmall(content, lim.chunkSize, i);
    PrefixFits(f, content, i, lim.chunkSize);
  }

  // The documentation promises that shrinking deletes the content. It does not: refilling
  // such a file with its last chunk first ends with every byte stored and a count that
  // will never reach the size.
  lemma RefillAfterShrinkMiscounts()
    ensures var lim := Limits(2, 100);
            var full := FileState(5, 5, 3, 0, None, map[0 := [1, 1], 1 := [1, 1], 2 := [1]]);
            var shrunk := UpdateFile(full, Some(3), None, None, false);
            && Accounted(full)
            && shrunk.Some? && shrunk.value.data == full.data
            && var last := PutChunk(shrunk.value, 1, [2], lim);
            && last.Some?
            && var first := PutChunk(last.value, 0, [2, 2], lim);
            && first.Some?
            && first.value.data[0] == [2, 2] && first.value.data[1] == [2]
            && first.value.size == 3 && first.value.filled == 1
  {
    var data: map<nat, Bytes> := map[0 := [1, 1], 1 := [1, 1], 2 := [1]];
    assert StoredLength(data, 1) == 2;
    assert StoredLength(data, 2) == 4;
    assert StoredLength(data, 3) == 5;
  }

  // The count is right about the chunks below `chunks`; others may be left over.
  ghost predicate Counted(f: FileState) {
    && f.filled == StoredLength(f.data, f.chunks)
    && forall j: nat :: j in f.data ==> f.data[j] != []
  }

  lemma {:induction false} StoredLengthGap(data: map<nat, Bytes>, m: nat, n: nat)
    requires m <= n && forall j: nat :: j in data ==> data[j] != []
    ensures StoredLength(data, m) <= StoredLength(data, n)
    ensures StoredLength(data, n) == StoredLength(data, m) <==> forall j: nat :: m <= j < n ==> j !in data
  {
    if m < n {
      StoredLengthGap(data, m, n - 1);
    }
  }

  // With left-over chunks a chunk upload keeps the count right if and only if it skips no
  // left-over chunk.
  lemma PutChunkCountsExactly(f: FileState, i: nat, chunk: Bytes, lim: Limits)
    requires Counted(f) && PutChunk(f, i, chunk, lim).Some?
    ensures Counted(PutChunk(f, i, chunk, lim).value) <==> forall j: nat :: f.chunks <= j < i ==> j !in f.data
  {
    var chunks := if f.chunks <= i then i + 1 else f.chunks;
    StoredLengthUpdate(f.data, i, chunk, chunks);
    if f.chunks <= i {
      StoredLengthGap(f.data, f.chunks, i);
      assert StoredLength(f.data, i + 1) == StoredLength(f.data, i) + if i in f.data then |f.data[i]| else 0;
    } else if i in f.data {
      StoredLengthCovers(f.data, i, f.chunks);
    }
  }

  ghost predicate TooLow(f: FileState) { f.filled < StoredLength(f.data, f.chunks) }

  // Once too low the count stays too low: a skipped chunk is never made good.
  lemma TooLowStays(f: FileState, i: nat, chunk: Bytes, lim: Limits)
    requires TooLow(f) && PutChunk(f, i, chunk, lim).Some?
    ensures TooLow(PutChunk(f, i, chunk, lim).value)
  {
    var f' := PutChunk(f, i, chunk, lim).value;
    StoredLengthUpdate(f.data, i, chunk, f'.chunks);
    if f.chunks <= i {
      StoredLengthGrows(f.data, f.chunks, i + 1);
      assert StoredLength(f.data, i + 1) == StoredLength(f.data, i) + if i in f.data then |f.data[i]| else 0;
      StoredLengthGrows(f.data, f.chunks, i);
    } else {
      StoredLengthCovers(f'.data, i, f'.chunks);
    }
  }

  lemma {:induction false} StoredLengthGrows(data: map<nat, Bytes>, m: nat, n: nat)
    requires m <= n
    ensures StoredLength(data, m) <= StoredLength(data, n)
  {
    if m < n {
      StoredLengthGrows(data, m, n - 1);
    }
  }

  // Chunk uploads in any order, all of them accepted.
  function PutAll(f: FileState, puts: seq<(nat, Bytes)>, lim: Limits): Option<FileState>
    decreases |puts|
  {
    if puts == [] then Some(f)
    else match PutChunk(f, puts[0].0, puts[0].1, lim)
      case None => None
      case Some(f') => PutAll(f', puts[1..], lim)
  }

  // No upload in the list skips a left-over chunk.
  ghost predicate SkipsNone(f: FileState, puts: seq<(nat, Bytes)>, lim: Limits)
    decreases |puts|
  {
    puts == [] || PutChunk(f, puts[0].0, puts[0].1, lim) == None ||
    (&& (forall j: nat :: f.chunks <= j < puts[0].0 ==> j !in f.data)
     && SkipsNone(PutChunk(f, puts[0].0, puts[0].1, lim).value, puts[1..], lim))
  }

  lemma {:induction false} PutAllStaysTooLow(f: FileState, puts: seq<(nat, Bytes)>, lim: Limits)
    requires TooLow(f) && PutAll(f, puts, lim).Some?
    ensures TooLow(PutAll(f, puts, lim).value)
    decreases |puts|
  {
    if puts != [] {
      TooLowStays(f, puts[0].0, puts[0].1, lim);
      PutAllStaysTooLow(PutChunk(f, puts[0].0, puts[0].1, lim).value, puts[1..], lim);
    }
  }

  lemma PutChunkNeverOvercounts(f: FileState, i: nat, chunk: Bytes, lim: Limits)
    requires Counted(f) && PutChunk(f, i, chunk, lim).Some?
    ensures var f' := PutChunk(f, i, chunk, lim).value; Counted(f') || TooLow(f')
  {
    var f' := PutChunk(f, i, chunk, lim).value;
    StoredLengthUpdate(f.data, i, chunk, f'.chunks);
    if f.chunks <= i {
      StoredLengthGrows(f.data, f.chunks, i);
      assert StoredLength(f.data, i + 1) == StoredLength(f.data, i) + if i in f.data then |f.data[i]| else 0;
    } else if i in f.data {
      StoredLengthCovers(f.data, i, f.chunks);
    }
  }

  // A whole refill, in any order, is counted right if and only if it never skips a left-over
  // chunk; otherwise the count is too low at its end.
  lemma {:induction false} RefillCountsExactly(f: FileState, puts: seq<(nat, Bytes)>, lim: Limits)
    requires Counted(f) && PutAll(f, puts, lim).Some?
    ensures var r := PutAll(f, puts, lim).value;
            && (Counted(r) <==> SkipsNone(f, puts, lim))
            && (!SkipsNone(f, puts, lim) ==> TooLow(r))
    decreases |puts|
  {
    if puts != [] {
      var (i, chunk) := puts[0];
      var f' := PutChunk(f, i, chunk, lim).value;
      PutChunkCountsExactly(f, i, chunk, lim);
      PutChunkNeverOvercounts(f, i, chunk, lim);
      if Counted(f') {
        RefillCountsExactly(f', puts[1..], lim);
      } else {
        PutAllStaysTooLow(f', puts[1..], lim);
      }
    }
  }

  // The first n chunks are the content's and are counted; beyond them anything may be left.
  ghost predicate Refilled(f: FileState, content: Bytes, n: nat, chunkSize: nat)
    requires 0 < chunkSize
  {
    && Counted(f) && f.chunks == n <= |Chunks(content, chunkSize)|
    && forall j: nat :: j < n ==> j in f.data && f.data[j] == Chunks(content, chunkSize)[j]
  }

  lemma {:induction false} RefilledLength(data: map<nat, Bytes>, parts: seq<Bytes>, n: nat)
    requires n <= |parts| && forall j: nat :: j < n ==> j in data && data[j] == parts[j]
    ensures StoredLength(data, n) == |Concat(parts[..n])|
  {
    if n == 0 {
      assert parts[..0] == [];
    } else {
      RefilledLength(data, parts, n - 1);
      ConcatNext(parts, n - 1);
    }
  }

  lemma {:induction false} PrefixLength(parts: seq<Bytes>, n: nat)
    requires n <= |parts|
    ensures |Concat(parts[..n])| <= |Concat(parts)|
  {
    assert parts == parts[..n] + parts[n..];
    ConcatAppend(parts[..n], parts[n..]);
  }

  lemma RefillNext(f: FileState, content: Bytes, n: nat, lim: Limits)
    requires lim.Valid() && Refilled(f, content, n, lim.chunkSize) && n < |Chunks(content, lim.chunkSize)|
    requires f.status == 0 && (f.size == 0 || f.size == |content|) && |content| <= lim.maxFileSize
    ensures var put := PutChunk(f, n, Chunks(content, lim.chunkSize)[n], lim);
            put.Some? && Refilled(put.value, content, n + 1, lim.chunkSize)
            && put.value.status == f.status && put.value.size == f.size
  {
    var parts := Chunks(content, lim.chunkSize);
    ChunksRoundTrip(content, lim.chunkSize);
    ChunkIsSmall(content, lim.chunkSize, n);
    RefilledLength(f.data, parts, n);
    ConcatNext(parts, n);
    PrefixLength(parts, n + 1);
    PutChunkCountsExactly(f, n, parts[n], lim);
  }

  function PutFrom(f: FileState, parts: seq<Bytes>, n: nat, lim: Limits): Option<FileState>
    requires n <= |parts|
    decreases |parts| - n
  {
    if n == |parts| then Some(f)
    else match PutChunk(f, n, parts[n], lim)
      case None => None
      case Some(f') => PutFrom(f', parts, n + 1, lim)
  }

  // Refilling in ascending order counts every byte, whatever the shrink has left behind.
  lemma {:induction false} RefillInOrderCounts(f: FileState, content: Bytes, n: nat, lim: Limits)
    requires lim.Valid() && Refilled(f, content, n, lim.chunkSize)
    requires f.status == 0 && (f.size == 0 || f.size == |content|) && |content| <= lim.maxFileSize
    ensures var r := PutFrom(f, Chunks(content, lim.chunkSize), n, lim);
            r.Some? && r.value.filled == |content|
            && Refilled(r.value, content, |Chunks(content, lim.chunkSize)|, lim.chunkSize)
    decreases |Chunks(content, lim.chunkSize)| - n
  {
    var parts := Chunks(content, lim.chunkSize);
    if n < |parts| {
      RefillNext(f, content, n, lim);
      RefillInOrderCounts(PutChunk(f, n, parts[n], lim).value, content, n + 1, lim);
    } else {
      RefilledLength(f.data, parts, n);
      ChunksRoundTrip(content, lim.chunkSize);
      assert parts[..n] == parts;
    }
  }

  class FsStore {
    var files: map<nat, FileState>
    var nextId: nat
    const lim: Limits

    ghost predicate Valid()
      reads this
    {
      && lim.Valid()
      && forall id: nat :: id in files ==> id < nextId
    }

    constructor (lim: Limits)
      requires lim.Valid()
      ensures Valid() && files == map[] && this.lim == lim
    {
      this.lim := lim;
      files, nextId := map[], 0;
    }

    // The loop of create_file over `content.chunks(CHUNK_SIZE)`, chunk by chunk into the
    // store; it stops at the first chunk that does not fit.
    method StoreChunks(id: nat, content: Bytes) returns (ok: bool)
      requires Valid() && id in files && files[id] == NewFile(files[id].size, files[id].hash)
      requires files[id].size == 0 || files[id].size == |content|
      modifies this`files
      ensures Valid() && id in files && files == old(files)[id := files[id]]
      ensures files[id] == old(files)[id].(filled := files[id].filled, chunks := files[id].chunks, data := files[id].data)
      ensures ok <==> |content| <= lim.maxFileSize || content == []
      ensures ok ==> Holds(files[id], content, lim.chunkSize) && files[id].filled == |content|
      ensures !ok ==> BrokenOff(files[id], content, lim)
    {
      ghost var empty := files[id];
      var parts := Chunks(content, lim.chunkSize);
      var i := 0;
      while i < |parts|
        invariant 0 <= i <= |parts| && id in files && files == old(files)[id := files[id]]
        invariant Prefix(files[id], content, i, lim.chunkSize)
        invariant files[id] == empty.(filled := files[id].filled, chunks := files[id].chunks, data := files[id].data)
        invariant files[id].filled <= lim.maxFileSize
      {
        StoreNext(files[id], content, i, lim);
        var put := PutChunk(files[id], i, parts[i], lim);
        if put == None {
          WhyBrokenOff(files[id], content, i, lim);
          return false;
        }
        files := files[id := put.value];
        i := i + 1;
      }
      FilledMeansComplete(files[id], content, lim.chunkSize);
      return true;
    }

    // The create_file update call with the whole content in it. Validation has already
    // refused an empty content and a status other than 0 or 1. The source means a failure
    // to trap and roll back, but its `?` leaves the call with an error first: whatever was
    // written stays.
    method CreateFile(size: nat, hash: Option<Digest>, content: Bytes, status: Option<int>)
      returns (r: Option<nat>)
      requires Valid() && content != [] && (status.Some? ==> 0 <= status.value <= 1)
      modifies this
      ensures Valid()
      ensures r.Some? <==>
              && (size == 0 || size == |content|)
              && |content| <= lim.maxFileSize
              && (status == Some(1) ==> hash.Some?)
      ensures size > lim.maxFileSize ==> files == old(files)
      ensures size <= lim.maxFileSize ==>
                var id := old(nextId);
                && id !in old(files) && id in files && files == old(files)[id := files[id]]
                && files[id].hash == hash
      ensures r.Some? ==> r.value == old(nextId)
      ensures r.Some? ==>
                var f := files[old(nextId)];
                && Holds(f, content, lim.chunkSize)
                && f.filled == |content|
                && f.status == status.GetOr(0)
                && f.size == (if status.Some? then |content| else size)
      // what a failed call leaves behind
      ensures r == None && size <= lim.maxFileSize ==>
                var f := files[old(nextId)];
                && f.status == 0 && f.size == size
                && if size > 0 && |content| != size then f == NewFile(size, hash)
                   else if |content| > lim.maxFileSize then BrokenOff(f, content, lim)
                   else Holds(f, content, lim.chunkSize) && f.filled == |content|
    {
      if size > lim.maxFileSize {
        return None;
      }
      var id := nextId;
      nextId := nextId + 1;
      files := files[id := NewFile(size, hash)];
      if size > 0 && |content| != size {
        return None;
      }
      var stored := StoreChunks(id, content);
      if !stored {
        return None;
      }
      if status.Some? {
        var updated := UpdateFile(files[id], None, status, None, false);
        if updated == None {
          return None;
        }
        files := files[id := updated.value];
      }
      return Some(id);
    }

    // store::fs::get_full_chunks.
    method GetFullChunks(id: nat) returns (r: Option<Bytes>)
      requires Valid()
      ensures r == if id in files then FullChunks(files[id]) else None
    {
      if id !in files || files[id].size != files[id].filled {
        return None;
      }
      var f := files[id];
      var buf: Bytes := [];
      if f.chunks == 0 {
        return Some(buf);
      }
      StoredPartsAre(f.data, f.chunks);
      ghost var parts := StoredParts(f.data, f.chunks);
      var i := 0;
      while i < f.chunks
        invariant 0 <= i <= f.chunks && buf == Concat(parts[..i])
        invariant forall k: nat :: k < i ==> k in f.data
      {
        if i !in f.data {
          return None;
        }
        ConcatNext(parts, i);
        buf := buf + f.data[i];
        i := i + 1;
      }
      assert parts[..f.chunks] == parts;
      if |buf| != f.size {
        return None;
      }
      return Some(buf);
    }
  }
}
