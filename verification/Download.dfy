/** Serving a stored file over HTTP: byte ranges and token-driven streaming. */
module Download {
  import opened Wrappers
  import opened Chunking
  import opened BucketStore

  // A file a reader may ask for: completely uploaded, chunk by chunk.
  ghost predicate Readable(f: FileState, content: Bytes, chunkSize: nat)
    requires 0 < chunkSize
  {
    Holds(f, content, chunkSize) && f.size == f.filled == |content|
  }

  // ---------------------------------------------------------------- ranges

  // A byte-range-spec of RFC 9110, section 14.1.2.
  datatype RangeSpec = FromTo(from: nat, to: nat) | AllFrom(from: nat) | Last(length: nat)

  datatype RangeHeader = Absent | Malformed | Unregistered | ByteRanges(specs: seq<RangeSpec>)

  datatype IfRange = Unconditional | MalformedCondition | Date | EntityTag(tag: Option<Digest>)

  datatype RangeDecision = Whole | Refused | Part(start: nat, end: nat)

  // The positions a range-spec selects in a representation of that length.
  ghost predicate Selects(spec: RangeSpec, fullLength: nat, p: nat) {
    && p < fullLength
    && match spec
       case FromTo(a, b) => a <= p <= b
       case AllFrom(a) => a <= p
       case Last(n) => fullLength <= p + n
  }

  function ToSatisfiable(spec: RangeSpec, fullLength: nat): Option<(nat, nat)> {
    if fullLength == 0 then None
    else match spec
      case FromTo(a, b) => if a < fullLength && a <= b then Some((a, Min(b, fullLength - 1))) else None
      case AllFrom(a) => if a < fullLength then Some((a, fullLength - 1)) else None
      case Last(n) =>
        if n == 0 then None
        else Some((if n > fullLength then 0 else fullLength - n, fullLength - 1))
  }

  function DetectRange(header: RangeHeader, condition: IfRange, fullLength: nat, etag: Option<Digest>,
                       maxPerCall: nat): RangeDecision
    requires 0 < maxPerCall
  {
    match header
    case Absent => Whole
    case Malformed => Refused
    case Unregistered => Refused
    case ByteRanges(specs) =>
      if |specs| != 1 then Refused
      else match ToSatisfiable(specs[0], fullLength)
        case None => Refused
        case Some(range) =>
          var end := if range.1 + 1 - range.0 > maxPerCall then range.0 + maxPerCall - 1 else range.1;
          match condition
          case Unconditional => Part(range.0, end)
          case MalformedCondition => Refused
          case Date => Refused
          case EntityTag(tag) => if tag == etag then Part(range.0, end) else Refused
  }

  // A range is served exactly when one range is asked for, it selects something, and the
  // condition holds; what is served is the longest allowed start of what it selects.
  lemma DetectRangeIsClampedSelection(header: RangeHeader, condition: IfRange, fullLength: nat,
                                      etag: Option<Digest>, maxPerCall: nat)
    requires 0 < maxPerCall
    ensures var d := DetectRange(header, condition, fullLength, etag, maxPerCall);
            && (d.Part? <==>
                && header.ByteRanges? && |header.specs| == 1
                && (exists p :: Selects(header.specs[0], fullLength, p))
                && (condition == Unconditional || condition == EntityTag(etag)))
            && (d == Whole <==> header == Absent)
            && (d.Part? ==>
                && d.start <= d.end < fullLength && d.end + 1 - d.start <= maxPerCall
                && forall p: nat :: d.start <= p <= d.end <==>
                     Selects(header.specs[0], fullLength, p) && p < d.start + maxPerCall)
  {
    if header.ByteRanges? && |header.specs| == 1 {
      var spec := header.specs[0];
      var range := ToSatisfiable(spec, fullLength);
      if range.Some? {
        assert Selects(spec, fullLength, range.value.0);
      }
    }
  }

  lemma OffsetOfQuotient(x: nat, size: nat)
    requires 0 < size
    ensures Offset(x / size, size) + x % size == x && x % size < size
    ensures Offset(x / size + 1, size) == Offset(x / size, size) + size
  {
    OffsetIsProduct(x / size, size);
  }

  lemma QuotientMonotonic(a: nat, b: nat, size: nat)
    requires 0 < size && a <= b
    ensures a / size <= b / size
    ensures a / size == b / size ==> a % size <= b % size
  {
    OffsetOfQuotient(a, size);
    OffsetOfQuotient(b, size);
    if b / size < a / size {
      OffsetMonotonic(b / size + 1, a / size, size);
    }
  }

  // Bytes start..=end as the loop over chunks first..=last sees them.
  datatype Span = Span(start: nat, end: nat, first: nat, firstPlace: nat, last: nat, lastPlace: nat) {
    ghost predicate Valid(size: nat) {
      && first <= last && firstPlace < size && lastPlace < size && (first == last ==> firstPlace <= lastPlace)
      && Offset(first, size) + firstPlace == start
      && Offset(last, size) + lastPlace == end
    }

    function Lo(i: nat): nat { if i == first then firstPlace else 0 }

    function Hi(size: nat, i: nat): nat
      requires 0 < size
    {
      if i == last then lastPlace else size - 1
    }

    // The position reached before chunk i.
    function Reach(size: nat, i: nat): nat {
      if i == first then start else if i == last + 1 then end + 1 else Offset(i, size)
    }
  }

  lemma SpanOf(start: nat, end: nat, size: nat)
    requires 0 < size && start <= end
    ensures Span(start, end, start / size, start % size, end / size, end % size).Valid(size)
  {
    OffsetOfQuotient(start, size);
    OffsetOfQuotient(end, size);
    QuotientMonotonic(start, end, size);
  }

  lemma PieceEnds(s: Span, size: nat, i: nat)
    requires 0 < size && s.Valid(size) && s.first <= i <= s.last
    ensures s.Lo(i) <= s.Hi(size, i) < size
    ensures Offset(i, size) + s.Lo(i) == s.Reach(size, i)
    ensures Offset(i, size) + s.Hi(size, i) + 1 == s.Reach(size, i + 1)
  {
  }

  // ---------------------------------------------------------------- the bytes a range finds

  // A reader looks for position p at its place in chunk p / size, as if all chunks were full.
  predicate HasByte(f: FileState, p: nat, size: nat)
    requires 0 < size
  {
    p / size in f.data && p % size < |f.data[p / size]|
  }

  function ByteAt(f: FileState, p: nat, size: nat): bv8
    requires 0 < size && HasByte(f, p, size)
  {
    f.data[p / size][p % size]
  }

  // All bytes start..=end if every one of them is found.
  ghost function Served(f: FileState, start: nat, end: nat, size: nat): Option<Bytes>
    requires 0 < size && start <= end
  {
    if forall p: nat :: start <= p <= end ==> HasByte(f, p, size)
    then Some(seq(end + 1 - start, k requires 0 <= k < end + 1 - start => ByteAt(f, start + k, size)))
    else None
  }

  // The body holds the bytes found up to chunk i.
  ghost predicate GotTo(f: FileState, size: nat, s: Span, i: nat, body: Bytes)
    requires 0 < size
  {
    && s.start <= s.Reach(size, i) && |body| == s.Reach(size, i) - s.start
    && forall p: nat :: s.start <= p < s.Reach(size, i) ==>
         HasByte(f, p, size) && ByteAt(f, p, size) == body[p - s.start]
  }

  lemma PieceIsFound(f: FileState, size: nat, s: Span, i: nat, body: Bytes)
    requires 0 < size && s.Valid(size) && s.first <= i <= s.last && GotTo(f, size, s, i, body)
    requires i in f.data && s.Hi(size, i) < |f.data[i]|
    ensures GotTo(f, size, s, i + 1, body + f.data[i][s.Lo(i)..s.Hi(size, i) + 1])
  {
    PieceEnds(s, size, i);
    var at, next := s.Reach(size, i), s.Reach(size, i + 1);
    var body' := body + f.data[i][s.Lo(i)..s.Hi(size, i) + 1];
    forall p: nat | s.start <= p < next
      ensures HasByte(f, p, size) && ByteAt(f, p, size) == body'[p - s.start]
    {
      if at <= p {
        PlaceOf(p, i, size);
      } else {
        assert HasByte(f, p, size);
      }
    }
  }

  // A chunk that is too short lacks a byte of the range.
  lemma PieceIsMissing(f: FileState, size: nat, s: Span, i: nat) returns (p: nat)
    requires 0 < size && s.Valid(size) && s.first <= i <= s.last
    requires i in f.data ==> s.Hi(size, i) >= |f.data[i]|
    ensures s.start <= p <= s.end && !HasByte(f, p, size)
  {
    PieceEnds(s, size, i);
    p := Offset(i, size) + s.Hi(size, i);
    PlaceOf(p, i, size);
    ReachesOn(s, size, i);
  }

  lemma ReachesOn(s: Span, size: nat, i: nat)
    requires 0 < size && s.Valid(size) && s.first <= i <= s.last
    ensures s.start <= s.Reach(size, i) <= s.Reach(size, i + 1) <= s.end + 1
  {
    PieceEnds(s, size, i);
    if s.first < i {
      OffsetMonotonic(s.first + 1, i, size);
      assert Offset(s.first + 1, size) == Offset(s.first, size) + size;
    }
    if i < s.last {
      OffsetMonotonic(i + 1, s.last, size);
    }
  }

  lemma PlaceOf(p: nat, i: nat, size: nat)
    requires 0 < size && Offset(i, size) <= p < Offset(i, size) + size
    ensures p / size == i && p % size == p - Offset(i, size)
  {
    OffsetOfQuotient(p, size);
    if p / size < i {
      OffsetMonotonic(p / size + 1, i, size);
    } else if i < p / size {
      OffsetMonotonic(i + 1, p / size, size);
    }
  }

  // ---------------------------------------------------------------- when that is the content

  // A full file as uploads make it: its counters are right and its chunks not too long.
  ghost predicate Full(f: FileState, size: nat) {
    && f.size == f.filled == StoredLength(f.data, f.chunks)
    && (0 < f.chunks ==> f.chunks - 1 in f.data)
    && SmallChunks(f, size)
  }

  lemma ReadableIsFull(f: FileState, content: Bytes, size: nat)
    requires 0 < size && Readable(f, content, size)
    ensures Full(f, size) && Gapless(f) && EvenlyCut(f, size) && content == StoredBytes(f)
  {
    HoldsIsStored(f, content, size);
    StoredBytesLength(f.data, f.chunks);
    forall i | i in f.data ensures 0 < |f.data[i]| <= size {
      ChunkIsSmall(content, size, i);
    }
  }

  // Where a position of the content is after the server's split.
  lemma PositionInChunks(content: Bytes, size: nat, p: nat)
    requires 0 < size && p < |content|
    ensures p / size < |Chunks(content, size)| && p % size < |Chunks(content, size)[p / size]|
    ensures Chunks(content, size)[p / size][p % size] == content[p]
  {
    OffsetOfQuotient(p, size);
    ChunkAt(content, size, p / size);
  }

  lemma EvenBytes(f: FileState, size: nat, p: nat)
    requires 0 < size && Full(f, size) && EvenlyCut(f, size) && p < f.size
    ensures |StoredBytes(f)| == f.size
    ensures HasByte(f, p, size) && ByteAt(f, p, size) == StoredBytes(f)[p]
  {
    StoredBytesLength(f.data, f.chunks);
    PositionInChunks(StoredBytes(f), size, p);
    EvenParts(f, size);
    StoredPartIs(f, p / size);
  }

  lemma StoredPartIs(f: FileState, i: nat)
    requires i < |StoredParts(f.data, f.chunks)| && StoredParts(f.data, f.chunks)[i] != []
    ensures i in f.data && f.data[i] == StoredParts(f.data, f.chunks)[i]
  {
    StoredPartsAre(f.data, f.chunks);
  }

  lemma EvenParts(f: FileState, size: nat)
    requires 0 < size && Full(f, size) && EvenlyCut(f, size)
    ensures StoredParts(f.data, f.chunks) == Chunks(StoredBytes(f), size)
  {
    var parts := StoredParts(f.data, f.chunks);
    StoredPartsAre(f.data, f.chunks);
    assert forall i :: 0 <= i < |parts| - 1 ==> |parts[i]| == size;
    WellCutIsChunks(parts, size);
  }

  lemma EvenRange(f: FileState, size: nat, start: nat, end: nat)
    requires 0 < size && Full(f, size) && EvenlyCut(f, size) && start <= end < f.size
    ensures |StoredBytes(f)| == f.size
    ensures Served(f, start, end, size) == Some(StoredBytes(f)[start..end + 1])
  {
    forall p: nat | start <= p <= end
      ensures |StoredBytes(f)| == f.size && HasByte(f, p, size) && ByteAt(f, p, size) == StoredBytes(f)[p]
    {
      EvenBytes(f, size, p);
    }
    assert HasByte(f, start, size);
    assert Served(f, start, end, size).value == StoredBytes(f)[start..end + 1];
  }

  // The chunk does not fill its place.
  predicate Uneven(f: FileState, size: nat, i: nat) { !(i in f.data && |f.data[i]| == size) }

  lemma {:induction false} FirstUneven(f: FileState, size: nat, k: nat) returns (m: nat)
    requires Uneven(f, size, k)
    ensures m <= k && Uneven(f, size, m) && forall i: nat :: i < m ==> !Uneven(f, size, i)
  {
    if i: nat :| i < k && Uneven(f, size, i) {
      m := FirstUneven(f, size, i);
    } else {
      m := k;
    }
  }

  lemma {:induction false} LengthOfFull(f: FileState, size: nat, m: nat)
    requires forall i: nat :: i < m ==> !Uneven(f, size, i)
    ensures StoredLength(f.data, m) == Offset(m, size)
  {
    if 0 < m {
      LengthOfFull(f, size, m - 1);
      assert !Uneven(f, size, m - 1);
    }
  }

  // The byte behind a chunk that does not fill its place is not found, although the file
  // goes on there.
  lemma UnevenLacksByte(f: FileState, size: nat, k: nat) returns (p: nat)
    requires 0 < size && Full(f, size) && k + 1 < f.chunks && Uneven(f, size, k)
    ensures p < f.size && !HasByte(f, p, size)
  {
    var m := FirstUneven(f, size, k);
    LengthOfFull(f, size, m);
    p := Offset(m, size) + if m in f.data then |f.data[m]| else 0;
    PlaceOf(p, m, size);
    StoredLengthGrows(f.data, m + 1, f.chunks - 1);
  }

  // Every range inside a full file is answered, and with the right bytes, if and only if all
  // chunks but the last are full. Already one byte that is not refused everywhere says so.
  lemma RangesAreRightExactly(f: FileState, size: nat)
    requires 0 < size && Full(f, size)
    ensures |StoredBytes(f)| == f.size
    ensures EvenlyCut(f, size) <==> forall p: nat :: p < f.size ==> HasByte(f, p, size)
    ensures EvenlyCut(f, size) <==>
            forall start: nat, end: nat :: start <= end < f.size ==>
              Served(f, start, end, size) == Some(StoredBytes(f)[start..end + 1])
  {
    StoredBytesLength(f.data, f.chunks);
    if EvenlyCut(f, size) {
      forall start: nat, end: nat | start <= end < f.size
        ensures Served(f, start, end, size) == Some(StoredBytes(f)[start..end + 1])
      {
        EvenRange(f, size, start, end);
      }
      forall p: nat | p < f.size ensures HasByte(f, p, size) {
        EvenBytes(f, size, p);
      }
    } else {
      var k: nat :| k + 1 < f.chunks && !(k in f.data && |f.data[k]| == size);
      var p := UnevenLacksByte(f, size, k);
      assert Served(f, p, p, size) == None;
    }
  }

  // ---------------------------------------------------------------- streaming

  datatype Token = Token(chunkIndex: nat, chunks: nat)

  function Next(t: Token): Option<Token> {
    if t.chunkIndex + 1 >= t.chunks then None else Some(Token(t.chunkIndex + 1, t.chunks))
  }

  // The first body of an unranged request, and the token for the rest.
  function FirstBody(f: FileState, full: Option<Bytes>, maxPerCall: nat): (Bytes, Option<Token>) {
    if f.size <= maxPerCall then
      (full.GetOr([]), Next(Token(if f.chunks == 0 then 0 else f.chunks - 1, f.chunks)))
    else
      (if 0 in f.data then f.data[0] else [], Next(Token(0, f.chunks)))
  }

  // The streaming callback; None is the trap on a missing chunk.
  function Callback(f: FileState, t: Token): Option<(Bytes, Option<Token>)> {
    if t.chunkIndex in f.data then Some((f.data[t.chunkIndex], Next(t))) else None
  }

  // All bodies reached from a token by following `next`; None if some callback traps.
  function Follow(f: FileState, t: Option<Token>): Option<seq<Bytes>>
    decreases if t.Some? && t.value.chunkIndex < t.value.chunks then t.value.chunks - t.value.chunkIndex else 0,
              if t.Some? then 1 else 0
  {
    match t
    case None => Some([])
    case Some(token) =>
      match Callback(f, token)
      case None => None
      case Some(step) =>
        match Follow(f, step.1)
        case None => None
        case Some(rest) => Some([step.0] + rest)
  }

  lemma FollowOne(f: FileState, k: nat)
    requires k in f.data && k < f.chunks
    ensures var rest := Follow(f, Next(Token(k, f.chunks)));
            Follow(f, Some(Token(k, f.chunks))) == if rest == None then None else Some([f.data[k]] + rest.value)
  {
  }

  lemma {:induction false} FollowGap(f: FileState, k: nat, gap: nat)
    requires k <= gap < f.chunks && gap !in f.data
    ensures Follow(f, Some(Token(k, f.chunks))) == None
    decreases gap - k
  {
    if k < gap {
      FollowGap(f, k + 1, gap);
      assert Next(Token(k, f.chunks)) == Some(Token(k + 1, f.chunks));
    }
  }

  lemma {:induction false} FollowAll(f: FileState, parts: seq<Bytes>, k: nat)
    requires k < f.chunks == |parts| && forall i: nat :: k <= i < f.chunks ==> i in f.data && f.data[i] == parts[i]
    ensures Follow(f, Some(Token(k, f.chunks))) == Some(parts[k..])
    decreases f.chunks - k
  {
    FollowOne(f, k);
    assert parts[k..] == [f.data[k]] + parts[k + 1..];
    if k + 1 < f.chunks {
      FollowAll(f, parts, k + 1);
    } else {
      assert parts[k + 1..] == [];
    }
  }

  // Following a token yields the remaining chunks, each once, in order, whatever their sizes;
  // a missing chunk traps.
  lemma FollowYieldsRest(f: FileState, k: nat)
    requires k < f.chunks
    ensures |StoredParts(f.data, f.chunks)| == f.chunks
    ensures Follow(f, Some(Token(k, f.chunks))) ==
            if forall i: nat :: k <= i < f.chunks ==> i in f.data then Some(StoredParts(f.data, f.chunks)[k..]) else None
  {
    StoredPartsAre(f.data, f.chunks);
    if gap: nat :| k <= gap < f.chunks && gap !in f.data {
      FollowGap(f, k, gap);
    } else {
      FollowAll(f, StoredParts(f.data, f.chunks), k);
    }
  }

  // What streaming a full file yields. A small file comes in one body: all that is stored,
  // or nothing if there is a gap. A large one comes chunk by chunk, up to a gap.
  lemma StreamYieldsStored(f: FileState, size: nat, maxPerCall: nat)
    requires Full(f, size)
    ensures var first := FirstBody(f, FullChunks(f), maxPerCall);
            var rest := Follow(f, first.1);
            && (f.size <= maxPerCall ==> first == (if Gapless(f) then StoredBytes(f) else [], None))
            && (maxPerCall < f.size ==>
                  && (rest.Some? <==> forall i: nat :: 1 <= i < f.chunks ==> i in f.data)
                  && (rest.Some? ==> [first.0] + rest.value == StoredParts(f.data, f.chunks)))
            && (rest.Some? && (maxPerCall < f.size || Gapless(f)) ==> first.0 + Concat(rest.value) == StoredBytes(f))
  {
    FullChunksExactly(f);
    if maxPerCall < f.size {
      StoredPartsAre(f.data, f.chunks);
      var parts := StoredParts(f.data, f.chunks);
      assert parts == [parts[0]] + parts[1..];
      if 1 < f.chunks {
        FollowYieldsRest(f, 1);
      } else {
        assert parts[1..] == [];
      }
    }
  }

  // ---------------------------------------------------------------- the whole answer

  datatype Response = Response(status: nat, body: Bytes, next: Option<Token>)

  ghost function RangeAnswer(f: FileState, start: nat, end: nat, size: nat): Response
    requires 0 < size && start <= end
  {
    match Served(f, start, end, size)
    case Some(body) => Response(206, body, None)
    case None => Response(416, [], None)
  }

  ghost function Answer(file: Option<FileState>, header: RangeHeader, condition: IfRange, size: nat, maxPerCall: nat)
    : Response
    requires 0 < size && 0 < maxPerCall
  {
    match file
    case None => Response(404, [], None)
    case Some(f) =>
      if f.size != f.filled then Response(422, [], None)
      else
        DetectRangeIsClampedSelection(header, condition, f.size, f.hash, maxPerCall);
        match DetectRange(header, condition, f.size, f.hash, maxPerCall)
        case Refused => Response(416, [], None)
        case Part(start, end) => RangeAnswer(f, start, end, size)
        case Whole =>
          var first := FirstBody(f, FullChunks(f), maxPerCall);
          Response(200, first.0, first.1)
  }

  // What a request for a content is promised: a refusal, exactly the part asked for, or the
  // whole content in one body or several.
  ghost predicate RightAnswer(r: Response, f: FileState, content: Bytes, header: RangeHeader, condition: IfRange,
                              maxPerCall: nat)
    requires 0 < maxPerCall
  {
    match DetectRange(header, condition, |content|, f.hash, maxPerCall)
    case Refused => r.status == 416
    case Part(start, end) => start <= end < |content| && r == Response(206, content[start..end + 1], None)
    case Whole =>
      && r.status == 200
      && Follow(f, r.next).Some?
      && r.body + Concat(Follow(f, r.next).value) == content
  }

  // A file that was uploaded chunk by chunk from its content is served right, however it is
  // asked for.
  lemma ReadableIsServed(f: FileState, content: Bytes, header: RangeHeader, condition: IfRange, size: nat, maxPerCall: nat)
    requires 0 < size && 0 < maxPerCall && Readable(f, content, size)
    ensures RightAnswer(Answer(Some(f), header, condition, size, maxPerCall), f, content, header, condition, maxPerCall)
  {
    ReadableIsFull(f, content, size);
    DetectRangeIsClampedSelection(header, condition, f.size, f.hash, maxPerCall);
    match DetectRange(header, condition, f.size, f.hash, maxPerCall)
    case Part(start, end) => EvenRange(f, size, start, end);
    case Refused =>
    case Whole => StreamYieldsStored(f, size, maxPerCall);
  }

  // Two chunks of one byte where two fit into one: the file is full and streams back whole,
  // but its second byte cannot be asked for.
  lemma ShortChunkRefusesRange()
    ensures var lim := Limits(2, 100);
            var one := PutChunk(NewFile(2, None), 0, [1], lim);
            && one.Some?
            && var two := PutChunk(one.value, 1, [2], lim);
            && two.Some?
            && Answer(two, Absent, Unconditional, 2, 9) == Response(200, [1, 2], None)
            && Answer(two, ByteRanges([FromTo(0, 1)]), Unconditional, 2, 9) == Response(416, [], None)
  {
    var f := FileState(2, 2, 2, 0, None, map[0 := [1], 1 := [2]]);
    assert PutChunk(PutChunk(NewFile(2, None), 0, [1], Limits(2, 100)).value, 1, [2], Limits(2, 100)) == Some(f);
    StoredIs(f, [1], [2]);
    assert !HasByte(f, 1, 2);
  }

  // With a longer second chunk a range is even answered with a wrong byte.
  lemma ShortChunkServesWrongByte()
    ensures var lim := Limits(2, 100);
            var one := PutChunk(NewFile(3, None), 0, [1], lim);
            && one.Some?
            && var two := PutChunk(one.value, 1, [2, 3], lim);
            && two.Some?
            && Answer(two, Absent, Unconditional, 2, 9) == Response(200, [1, 2, 3], None)
            && Answer(two, ByteRanges([FromTo(2, 2)]), Unconditional, 2, 9) == Response(206, [2], None)
  {
    var f := FileState(3, 3, 2, 0, None, map[0 := [1], 1 := [2, 3]]);
    assert PutChunk(PutChunk(NewFile(3, None), 0, [1], Limits(2, 100)).value, 1, [2, 3], Limits(2, 100)) == Some(f);
    StoredIs(f, [1], [2, 3]);
    assert HasByte(f, 2, 2) && ByteAt(f, 2, 2) == 2;
    assert Served(f, 2, 2, 2).value == [2];
  }

  // A chunk behind a gap can fill a file; it is answered as a success with an empty body.
  lemma GapIsServedEmpty()
    ensures var put := PutChunk(NewFile(1, None), 1, [7], Limits(2, 100));
            && put.Some? && put.value.size == put.value.filled == 1
            && Answer(put, Absent, Unconditional, 2, 9) == Response(200, [], None)
  {
    var f := FileState(1, 1, 2, 0, None, map[1 := [7]]);
    assert PutChunk(NewFile(1, None), 1, [7], Limits(2, 100)) == Some(f);
    assert 0 !in f.data;
  }

  lemma StoredIs(f: FileState, a: Bytes, b: Bytes)
    requires f.chunks == 2 && 0 in f.data && 1 in f.data && f.data[0] == a && f.data[1] == b
    ensures StoredBytes(f) == a + b && Gapless(f)
  {
    assert StoredParts(f.data, 1) == [a];
    assert StoredParts(f.data, 2) == [a] + [b];
    ConcatSnoc([a], b);
    assert [a][1..] == [];
    assert Concat([a]) == a;
  }

  // ---------------------------------------------------------------- the canister

  class BucketHttp {
    const store: FsStore
    const maxPerCall: nat

    constructor (store: FsStore, maxPerCall: nat)
      ensures this.store == store && this.maxPerCall == maxPerCall
    {
      this.store := store;
      this.maxPerCall := maxPerCall;
    }

    ghost predicate Valid()
      reads store
    {
      store.Valid() && 0 < maxPerCall
    }

    // The loop over chunks first..=last; None when a chunk is missing or too short.
    method CollectPieces(f: FileState, span: Span) returns (r: Option<Bytes>)
      requires Valid() && span.Valid(store.lim.chunkSize) && span.start <= span.end
      ensures r == Served(f, span.start, span.end, store.lim.chunkSize)
    {
      var size := store.lim.chunkSize;
      var body: Bytes := [];
      var i := span.first;
      while i <= span.last
        invariant span.first <= i <= span.last + 1
        invariant GotTo(f, size, span, i, body)
      {
        var chunk: Bytes := if i in f.data then f.data[i] else [];
        PieceEnds(span, size, i);
        if span.Hi(size, i) >= |chunk| {
          ghost var p := PieceIsMissing(f, size, span, i);
          return None;
        }
        PieceIsFound(f, size, span, i, body);
        body := body + chunk[span.Lo(i)..span.Hi(size, i) + 1];
        i := i + 1;
      }
      assert body == Served(f, span.start, span.end, size).value;
      return Some(body);
    }

    method RangeResponse(f: FileState, start: nat, end: nat) returns (r: Response)
      requires Valid() && start <= end
      ensures r == RangeAnswer(f, start, end, store.lim.chunkSize)
    {
      var size := store.lim.chunkSize;
      SpanOf(start, end, size);
      var body := CollectPieces(f, Span(start, end, start / size, start % size, end / size, end % size));
      return if body.Some? then Response(206, body.value, None) else Response(416, [], None);
    }

    method HttpRequest(id: nat, header: RangeHeader, condition: IfRange) returns (r: Response)
      requires Valid()
      ensures r == Answer(if id in store.files then Some(store.files[id]) else None, header, condition,
                          store.lim.chunkSize, maxPerCall)
      ensures r.status == 404 <==> id !in store.files
      ensures r.status == 422 <==> id in store.files && store.files[id].size != store.files[id].filled
      ensures r.status != 200 ==> r.next == None
    {
      if id !in store.files {
        return Response(404, [], None);
      }
      var f := store.files[id];
      if f.size != f.filled {
        return Response(422, [], None);
      }
      DetectRangeIsClampedSelection(header, condition, f.size, f.hash, maxPerCall);
      assert f.size == f.filled;
      var decision := DetectRange(header, condition, f.size, f.hash, maxPerCall);
      match decision {
        case Refused =>
          return Response(416, [], None);
        case Part(start, end) =>
          r := RangeResponse(f, start, end);
        case Whole =>
          var full := store.GetFullChunks(id);
          var (body, next) := FirstBody(f, full, maxPerCall);
          return Response(200, body, next);
      }
    }
  }
}
