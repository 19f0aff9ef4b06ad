/** Cutting a byte stream into chunks.

  `ChunksCodec` and `FramedRead` are the client side of an upload (the codec is
  driven by tokio's read loop); `Chunks` is the split the bucket canister makes
  itself when the whole content arrives in one call.
 */
module Chunking {
  import opened Wrappers

  type Bytes = seq<bv8>

  function Min(a: nat, b: nat): nat { if a < b then a else b }

  // Rust's `content.chunks(size)`.
  function Chunks(content: Bytes, size: nat): seq<Bytes>
    requires 0 < size
    decreases |content|
  {
    if content == [] then []
    else [content[..Min(size, |content|)]] + Chunks(content[Min(size, |content|)..], size)
  }

  function Concat(parts: seq<Bytes>): Bytes {
    if parts == [] then [] else parts[0] + Concat(parts[1..])
  }

  // All parts are full, except a last one that may be shorter but not empty.
  ghost predicate WellCut(parts: seq<Bytes>, size: nat) {
    && (forall i :: 0 <= i < |parts| - 1 ==> |parts[i]| == size)
    && (parts != [] ==> 0 < |parts[|parts| - 1]| <= size)
  }

  lemma {:induction false} ConcatAppend(a: seq<Bytes>, b: seq<Bytes>)
    ensures Concat(a + b) == Concat(a) + Concat(b)
  {
    if a == [] {
      assert a + b == b;
    } else {
      assert (a + b)[1..] == a[1..] + b;
      ConcatAppend(a[1..], b);
    }
  }

  lemma ConcatSnoc(a: seq<Bytes>, x: Bytes)
    ensures Concat(a + [x]) == Concat(a) + x
  {
    ConcatAppend(a, [x]);
    assert [x][1..] == [];
    assert Concat([x]) == x;
  }

  lemma ConcatNext(parts: seq<Bytes>, i: nat)
    requires i < |parts|
    ensures Concat(parts[..i + 1]) == Concat(parts[..i]) + parts[i]
  {
    assert parts[..i + 1] == parts[..i] + [parts[i]];
    ConcatSnoc(parts[..i], parts[i]);
  }

  ghost predicate AllFull(parts: seq<Bytes>, size: nat) {
    forall i :: 0 <= i < |parts| ==> |parts[i]| == size
  }

  // Cutting the next frame off what is left of the stream.
  lemma NextFrame(parts: seq<Bytes>, left: Bytes, size: nat)
    requires 0 < size && left != [] && AllFull(parts, size)
    ensures var k := Min(size, |left|);
            var parts' := parts + [left[..k]];
            && Concat(parts') + left[k..] == Concat(parts) + left
            && WellCut(parts', size)
            && (left[k..] != [] ==> AllFull(parts', size))
  {
    var k := Min(size, |left|);
    ConcatSnoc(parts, left[..k]);
    assert left == left[..k] + left[k..];
  }

  // The server's split loses nothing and is well cut.
  lemma {:induction false} ChunksRoundTrip(content: Bytes, size: nat)
    requires 0 < size
    ensures Concat(Chunks(content, size)) == content
    ensures WellCut(Chunks(content, size), size)
    decreases |content|
  {
    if content != [] {
      var k := Min(size, |content|);
      ChunksRoundTrip(content[k..], size);
      var rest := Chunks(content[k..], size);
      assert Chunks(content, size)[1..] == rest;
      assert content == content[..k] + content[k..];
      if k == |content| {
        assert rest == [];
      } else {
        assert rest != [];
      }
    }
  }

  // ... and it is the only well-cut split of the content.
  lemma {:induction false} WellCutIsChunks(parts: seq<Bytes>, size: nat)
    requires 0 < size && WellCut(parts, size)
    ensures parts == Chunks(Concat(parts), size)
  {
    if parts != [] {
      var rest := parts[1..];
      var all := Concat(parts);
      assert forall i :: 0 <= i < |rest| ==> rest[i] == parts[i + 1];
      WellCutIsChunks(rest, size);
      if rest == [] {
        assert all == parts[0];
      } else {
        assert |parts[0]| == size;
      }
      var k := Min(size, |all|);
      assert all[..k] == parts[0] && all[k..] == Concat(rest);
      assert parts == [parts[0]] + rest;
    }
  }

  function Offset(i: nat, size: nat): nat {
    if i == 0 then 0 else Offset(i - 1, size) + size
  }

  lemma {:induction false} OffsetIsProduct(i: nat, size: nat)
    ensures Offset(i, size) == i * size
  {
    if i > 0 {
      OffsetIsProduct(i - 1, size);
      assert i * size == (i - 1) * size + size;
    }
  }

  lemma {:induction false} OffsetMonotonic(i: nat, j: nat, size: nat)
    requires i <= j
    ensures Offset(i, size) <= Offset(j, size)
  {
    if i < j {
      OffsetMonotonic(i, j - 1, size);
    }
  }

  lemma InnerSlice(content: Bytes, a: nat, b: nat, lo: nat, hi: nat)
    requires a <= b <= |content| && lo <= hi <= b - a
    ensures content[a..b][lo..hi] == content[a + lo..a + hi]
  {
    var inner, outer := content[a..b][lo..hi], content[a + lo..a + hi];
    assert |inner| == |outer|;
    forall i | 0 <= i < hi - lo ensures inner[i] == outer[i] {
      assert inner[i] == content[a..b][lo + i] == content[a + (lo + i)];
    }
    assert inner == outer;
  }

  // Where the i-th chunk lies in the content.
  lemma {:induction false} ChunkAt(content: Bytes, size: nat, i: nat)
    requires 0 < size
    ensures i < |Chunks(content, size)| <==> Offset(i, size) < |content|
    ensures i < |Chunks(content, size)| ==>
              Chunks(content, size)[i] == content[Offset(i, size)..Min(Offset(i, size) + size, |content|)]
    decreases i
  {
    if 0 < i && |content| <= size {
      assert content[|content|..] == [];
      assert |Chunks(content, size)| <= 1;
      OffsetMonotonic(1, i, size);
      assert Offset(1, size) == size;
    } else if 0 < i {
      var rest := content[size..];
      ChunkAt(rest, size, i - 1);
      assert Chunks(content, size) == [content[..size]] + Chunks(rest, size);
      if i < |Chunks(content, size)| {
        var lo := Offset(i - 1, size);
        assert rest == content[size..|content|];
        InnerSlice(content, size, |content|, lo, Min(lo + size, |rest|));
      }
    }
  }

  // Tokio's growable buffer.
  class BytesMut {
    var data: Bytes

    constructor ()
      ensures data == []
    {
      data := [];
    }

    method Extend(more: Bytes)
      modifies this
      ensures data == old(data) + more
    {
      data := data + more;
    }

    method SplitTo(at: nat) returns (head: Bytes)
      requires at <= |data|
      modifies this
      ensures head == old(data)[..at] && data == old(data)[at..]
    {
      head := data[..at];
      data := data[at..];
    }
  }

  class ChunksCodec {
    const len: nat

    constructor (len: nat)
      ensures this.len == len
    {
      this.len := len;
    }

    method Decode(buf: BytesMut) returns (frame: Option<Bytes>)
      modifies buf
      ensures |old(buf.data)| < len ==> frame == None && buf.data == old(buf.data)
      ensures |old(buf.data)| >= len ==>
                frame.Some? && |frame.value| == len && frame.value + buf.data == old(buf.data)
    {
      if |buf.data| >= len {
        var head := buf.SplitTo(len);
        frame := Some(head);
      } else {
        frame := None;
      }
    }

    method DecodeEof(buf: BytesMut) returns (frame: Option<Bytes>)
      modifies buf
      ensures buf.data == []
      ensures frame == if old(buf.data) == [] then None else Some(old(buf.data))
    {
      if buf.data == [] {
        frame := None;
      } else {
        assert buf.data[..|buf.data|] == buf.data;
        var head := buf.SplitTo(|buf.data|);
        frame := Some(head);
      }
    }
  }

  // Tokio's framed reader over a stream that will deliver `incoming`, one non-empty
  // piece per poll, and then end.
  class FramedRead {
    const codec: ChunksCodec
    const buf: BytesMut
    var incoming: seq<Bytes>
    var readable: bool
    var eof: bool

    ghost predicate Valid()
      reads this, buf
    {
      && (forall i :: 0 <= i < |incoming| ==> incoming[i] != [])
      && (eof ==> incoming == [])
      && (!readable || eof ==> |buf.data| < codec.len || buf.data == [])
      && (readable && !eof && codec.len == 0 ==> buf.data != [])
    }

    // The bytes not yet handed out.
    ghost function Rest(): Bytes
      reads this, buf
    {
      buf.data + Concat(incoming)
    }

    constructor (pieces: seq<Bytes>, len: nat)
      requires forall i :: 0 <= i < |pieces| ==> pieces[i] != []
      ensures Valid() && fresh(buf) && codec.len == len
      ensures Rest() == Concat(pieces)
    {
      codec := new ChunksCodec(len);
      buf := new BytesMut();
      incoming := pieces;
      readable := false;
      eof := false;
    }

    // One `frames.next().await`.
    method Next() returns (frame: Option<Bytes>)
      requires Valid()
      modifies this, buf
      ensures Valid()
      ensures frame == if old(Rest()) == [] then None
                       else Some(old(Rest())[..Min(codec.len, |old(Rest())|)])
      ensures Rest() == if frame == None then [] else old(Rest())[|frame.value|..]
    {
      while true
        invariant Valid() && Rest() == old(Rest())
        decreases |incoming|, !eof, !readable
      {
        if readable {
          if eof {
            assert Concat(incoming) == [];
            frame := codec.DecodeEof(buf);
            if frame == None {
              readable := false;
            } else {
              assert old(Rest()) == frame.value;
            }
            return;
          }
          frame := codec.Decode(buf);
          if frame.Some? {
            assert old(Rest()) == frame.value + Rest();
            assert old(Rest())[..codec.len] == frame.value;
            return;
          }
          readable := false;
        }
        if incoming == [] {
          eof := true;
        } else {
          assert buf.data + Concat(incoming) == (buf.data + incoming[0]) + Concat(incoming[1..]);
          buf.Extend(incoming[0]);
          incoming := incoming[1..];
        }
        readable := true;
      }
    }
  }

  // However the stream is cut into reads, the frames are the server's own chunks.
  method ReadFrames(pieces: seq<Bytes>, size: nat) returns (frames: seq<Bytes>)
    requires 0 < size
    requires forall i :: 0 <= i < |pieces| ==> pieces[i] != []
    ensures frames == Chunks(Concat(pieces), size)
  {
    var reader := new FramedRead(pieces, size);
    frames := [];
    var more := true;
    ghost var left := reader.Rest();
    while more
      invariant reader.Valid() && fresh(reader) && fresh(reader.buf) && reader.codec.len == size
      invariant left == reader.Rest() && Concat(frames) + left == Concat(pieces)
      invariant WellCut(frames, size) && (left != [] ==> AllFull(frames, size))
      invariant !more ==> left == []
      decreases more, |left|
    {
      var frame := reader.Next();
      if frame.Some? {
        NextFrame(frames, left, size);
        frames := frames + [frame.value];
        left := left[|frame.value|..];
      } else {
        more := false;
      }
    }
    assert Concat(frames) + left == Concat(frames);
    WellCutIsChunks(frames, size);
  }

  datatype ReadError = NoBytes | TooManyBytes | InsufficientBytes

  // Read a small file in one frame: succeeds exactly when the stream holds
  // `size` bytes and `size` is not zero.
  method TryReadAll(pieces: seq<Bytes>, size: nat) returns (r: Result<Bytes, ReadError>)
    requires forall i :: 0 <= i < |pieces| ==> pieces[i] != []
    ensures r.Success? <==> |Concat(pieces)| == size && 0 < size
    ensures r.Success? ==> r.value == Concat(pieces)
    ensures r == Failure(NoBytes) <==> Concat(pieces) == []
    ensures r == Failure(TooManyBytes) <==> |Concat(pieces)| > size
  {
    var frames := new FramedRead(pieces, size);
    var first := frames.Next();
    if first == None {
      return Failure(NoBytes);
    }
    var second := frames.Next();
    if second.Some? {
      return Failure(TooManyBytes);
    }
    if |first.value| != size {
      return Failure(InsufficientBytes);
    }
    return Success(first.value);
  }
}
