/** The encrypted stream (internal/backup/crypt.go): what Encrypt writes and
    Decrypt makes of any bytes, as functions. */
module Crypt {
  import opened Options

  type Byte = x: int | 0 <= x < 256
  type Bytes = seq<Byte>

  const CHUNK_SIZE: nat := 65536
  const OVERHEAD: nat := 16
  const UINT32: nat := 0x1_0000_0000

  /** An AEAD: a nonce and a plaintext sealed, and a nonce and bytes opened. */
  datatype Aead = Aead(seal: (Bytes, Bytes) -> Bytes, open: (Bytes, Bytes) -> Option<Bytes>)

  // ------------------------------------------------------------------- nonces

  /** The last bytes of n, the highest first. */
  function BigEndian(n: nat, len: nat): (b: Bytes)
    ensures |b| == len
  {
    if len == 0 then [] else BigEndian(n / 256, len - 1) + [n % 256]
  }

  function Value(b: Bytes): nat {
    if b == [] then 0 else Value(b[..|b|-1]) * 256 + b[|b|-1]
  }

  /** n has no more bytes than that. */
  predicate Fits(n: nat, len: nat) {
    if len == 0 then n == 0 else Fits(n / 256, len - 1)
  }

  lemma {:induction false} BigEndianValue(n: nat, len: nat)
    requires Fits(n, len)
    ensures Value(BigEndian(n, len)) == n
  {
    if len > 0 {
      BigEndianValue(n / 256, len - 1);
      var b := BigEndian(n, len);
      assert b[..|b|-1] == BigEndian(n / 256, len - 1);
    }
  }

  lemma FitsUint32(n: nat)
    requires n < UINT32
    ensures Fits(n, 4)
  {
    var a := n / 256;
    var b := a / 256;
    Smaller(n, 0x100_0000);
    Smaller(a, 0x1_0000);
    Smaller(b, 0x100);
    Smaller(b / 256, 1);
    hide Fits;
    FitsMore(b / 256, 0);
    FitsMore(b, 1);
    FitsMore(a, 2);
    FitsMore(n, 3);
  }

  lemma FitsMore(n: nat, len: nat)
    ensures Fits(n / 256, len) || (len == 0 && n < 256) ==> Fits(n, len + 1)
  {
    assert n < 256 ==> n / 256 == 0;
  }

  lemma Smaller(n: nat, k: nat)
    requires n < 256 * k
    ensures 0 <= n / 256 < k
  {
  }

  /** nonceFor: the chunk's number is a uint32. */
  function Nonce(prefix: Bytes, n: nat, last: bool): (nonce: Bytes)
    requires |prefix| == 7
  {
    prefix + BigEndian(n % UINT32, 4) + [if last then 1 else 0]
  }

  /** Its bytes: the prefix, the number's four, the highest first, and the mark. */
  lemma NonceBytes(prefix: Bytes, n: nat, last: bool)
    requires |prefix| == 7 && n < UINT32
    ensures Nonce(prefix, n, last) == prefix +
      [n / 0x100_0000, n / 0x1_0000 % 256, n / 256 % 256, n % 256] + [if last then 1 else 0]
  {
    hide BigEndian;
    assert n % UINT32 == n by { Small(n); }
    FourBytes(n);
    Parts(n);
  }

  lemma Parts(n: nat)
    requires n < UINT32
    ensures n / 256 / 256 == n / 0x1_0000 && n / 256 / 256 / 256 == n / 0x100_0000 < 256
  {
  }

  lemma FourBytes(n: nat)
    requires n < UINT32
    ensures BigEndian(n, 4) == [n / 256 / 256 / 256, n / 256 / 256 % 256, n / 256 % 256, n % 256]
  {
    Parts(n);
    hide BigEndian;
    BigEndianMore(n / 256 / 256 / 256, 0);
    BigEndianMore(n / 256 / 256, 1);
    BigEndianMore(n / 256, 2);
    BigEndianMore(n, 3);
    assert (n / 256 / 256 / 256) % 256 == n / 256 / 256 / 256;
  }

  lemma BigEndianMore(n: nat, len: nat)
    ensures BigEndian(n, len + 1) == BigEndian(n / 256, len) + [n % 256] && BigEndian(n, 0) == []
  {
  }

  /** Two chunks share a nonce exactly when their streams' prefixes are the
      same, their numbers the same uint32, and both or neither are last. */
  lemma NonceShared(prefix: Bytes, other: Bytes, n: nat, k: nat, last: bool, end: bool)
    requires |prefix| == |other| == 7
    ensures Nonce(prefix, n, last) == Nonce(other, k, end) <==>
      prefix == other && n % UINT32 == k % UINT32 && last == end
  {
    hide BigEndian, Value, Fits;
    var a, b := Nonce(prefix, n, last), Nonce(other, k, end);
    assert a[..7] == prefix && b[..7] == other;
    assert a[7..11] == BigEndian(n % UINT32, 4) && b[7..11] == BigEndian(k % UINT32, 4);
    assert a[11] == (if last then 1 else 0) && b[11] == if end then 1 else 0;
    FitsUint32(n % UINT32);
    FitsUint32(k % UINT32);
    BigEndianValue(n % UINT32, 4);
    BigEndianValue(k % UINT32, 4);
  }

  // ------------------------------------------------------------------- chunks

  /** The pieces data is read in: all but the last are whole. */
  function Pieces(data: Bytes, size: nat): (p: seq<Bytes>)
    requires size > 0
    ensures |p| > 0 && (|p| == 1 <==> |data| <= size)
    decreases |data|
  {
    if |data| <= size then [data] else [data[..size]] + Pieces(data[size..], size)
  }

  function Joined(pieces: seq<Bytes>): Bytes {
    if pieces == [] then [] else pieces[0] + Joined(pieces[1..])
  }

  lemma {:induction false} PiecesJoined(data: Bytes, size: nat)
    requires size > 0
    ensures Joined(Pieces(data, size)) == data
    decreases |data|
  {
    var p := Pieces(data, size);
    if |data| > size {
      PiecesJoined(data[size..], size);
      assert p[1..] == Pieces(data[size..], size);
    } else {
      assert p[1..] == [];
    }
  }

  /** Pieces of a given size, the last one shorter or whole but not empty
      unless it is alone, are what their bytes are read in. */
  ghost predicate Cut(pieces: seq<Bytes>, size: nat) {
    && pieces != []
    && (forall i | 0 <= i < |pieces| - 1 :: |pieces[i]| == size)
    && |pieces[|pieces|-1]| <= size && (|pieces| > 1 ==> pieces[|pieces|-1] != [])
  }

  lemma {:induction false} CutOfPieces(data: Bytes, size: nat)
    requires size > 0
    ensures Cut(Pieces(data, size), size)
    decreases |data|
  {
    var p := Pieces(data, size);
    if |data| > size {
      CutOfPieces(data[size..], size);
      var q := Pieces(data[size..], size);
      assert forall i | 0 <= i < |q| :: p[i+1] == q[i];
    }
  }

  lemma {:induction false} PiecesOfCut(pieces: seq<Bytes>, size: nat)
    requires size > 0 && Cut(pieces, size)
    ensures Pieces(Joined(pieces), size) == pieces
    decreases |pieces|
  {
    var data := Joined(pieces);
    if |pieces| == 1 {
      assert pieces[1..] == [];
      assert data == pieces[0];
    } else {
      var rest := pieces[1..];
      assert forall i | 0 <= i < |rest| :: rest[i] == pieces[i+1];
      PiecesOfCut(rest, size);
      NotEmpty(rest, size);
      assert data[..size] == pieces[0] && data[size..] == Joined(rest);
    }
  }

  lemma NotEmpty(pieces: seq<Bytes>, size: nat)
    requires size > 0 && Cut(pieces, size) && pieces[|pieces|-1] != []
    ensures Joined(pieces) != []
  {
    assert pieces[0] != [];
    assert Joined(pieces) == pieces[0] + Joined(pieces[1..]);
    assert |Joined(pieces)| >= |pieces[0]|;
  }

  // ---------------------------------------------------------- what is written

  function Sealed(a: Aead, prefix: Bytes, i: nat, chunks: seq<Bytes>): seq<Bytes>
    requires |prefix| == 7
    decreases |chunks|
  {
    if chunks == [] then []
    else [a.seal(Nonce(prefix, i, |chunks| == 1), chunks[0])] + Sealed(a, prefix, i + 1, chunks[1..])
  }

  /** The stream Encrypt writes. */
  function Encrypted(a: Aead, prefix: Bytes, data: Bytes): Bytes
    requires |prefix| == 7
  {
    prefix + Joined(Sealed(a, prefix, 0, Pieces(data, CHUNK_SIZE)))
  }

  // ------------------------------------------------------------- what is read

  datatype End = Clean | Refused

  datatype Opened = Opened(plain: Bytes, end: End)

  /** The pieces of a stream opened one after another; an empty one ends it. */
  function OpenedFrom(a: Aead, prefix: Bytes, i: nat, pieces: seq<Bytes>): Opened
    requires |prefix| == 7
    decreases |pieces|
  {
    if pieces == [] then Opened([], Clean)
    else
      var plain := a.open(Nonce(prefix, i, |pieces| == 1), pieces[0]);
      if plain.None? then Opened([], Refused)
      else if plain.value == [] then Opened([], Clean)
      else
        var rest := OpenedFrom(a, prefix, i + 1, pieces[1..]);
        Opened(plain.value + rest.plain, rest.end)
  }

  /** What Decrypt makes of a stream. */
  function Decrypted(a: Aead, stream: Bytes): Opened {
    if |stream| < 7 then Opened([], Refused)
    else OpenedFrom(a, stream[..7], 0, Pieces(stream[7..], CHUNK_SIZE + OVERHEAD))
  }

  /** Sealing these chunks adds the overhead, and what was sealed opens. */
  ghost predicate Seals(a: Aead, prefix: Bytes, i: nat, chunks: seq<Bytes>)
    requires |prefix| == 7
  {
    forall k | 0 <= k < |chunks| ::
      var nonce := Nonce(prefix, i + k, k == |chunks| - 1);
      |a.seal(nonce, chunks[k])| == |chunks[k]| + OVERHEAD && a.open(nonce, a.seal(nonce, chunks[k])) == Some(chunks[k])
  }

  // --------------------------------------------------------------- round trip

  lemma {:induction false} SealedCut(a: Aead, prefix: Bytes, i: nat, chunks: seq<Bytes>)
    requires |prefix| == 7 && Seals(a, prefix, i, chunks) && Cut(chunks, CHUNK_SIZE)
    ensures Cut(Sealed(a, prefix, i, chunks), CHUNK_SIZE + OVERHEAD) && |Sealed(a, prefix, i, chunks)| == |chunks|
    decreases |chunks|
  {
    hide Nonce;
    var s := Sealed(a, prefix, i, chunks);
    assert s[0] == a.seal(Nonce(prefix, i + 0, 0 == |chunks| - 1), chunks[0]);
    if |chunks| > 1 {
      var rest := chunks[1..];
      assert forall k | 0 <= k < |rest| :: rest[k] == chunks[k+1];
      SealsRest(a, prefix, i, chunks);
      SealedCut(a, prefix, i + 1, rest);
      assert s[1..] == Sealed(a, prefix, i + 1, rest);
      assert forall k | 1 <= k < |s| :: s[k] == s[1..][k-1];
    }
  }

  lemma SealsRest(a: Aead, prefix: Bytes, i: nat, chunks: seq<Bytes>)
    requires |prefix| == 7 && Seals(a, prefix, i, chunks) && |chunks| > 1
    ensures Seals(a, prefix, i + 1, chunks[1..])
  {
    hide Nonce;
    var rest := chunks[1..];
    forall k | 0 <= k < |rest|
      ensures var nonce := Nonce(prefix, i + 1 + k, k == |rest| - 1);
        |a.seal(nonce, rest[k])| == |rest[k]| + OVERHEAD && a.open(nonce, a.seal(nonce, rest[k])) == Some(rest[k])
    {
      assert rest[k] == chunks[k+1] && i + (k + 1) == i + 1 + k;
    }
  }

  lemma {:induction false} SealedOpens(a: Aead, prefix: Bytes, i: nat, chunks: seq<Bytes>)
    requires |prefix| == 7 && Seals(a, prefix, i, chunks) && Cut(chunks, CHUNK_SIZE)
    ensures OpenedFrom(a, prefix, i, Sealed(a, prefix, i, chunks)) == Opened(Joined(chunks), Clean)
    decreases |chunks|
  {
    hide Nonce;
    var s := Sealed(a, prefix, i, chunks);
    SealedCut(a, prefix, i, chunks);
    assert s[0] == a.seal(Nonce(prefix, i + 0, 0 == |chunks| - 1), chunks[0]);
    assert s[1..] == Sealed(a, prefix, i + 1, chunks[1..]);
    if |chunks| > 1 {
      assert forall k | 0 <= k < |chunks| - 1 :: chunks[1..][k] == chunks[k+1];
      SealsRest(a, prefix, i, chunks);
      SealedOpens(a, prefix, i + 1, chunks[1..]);
      assert chunks[0] != [];
    } else {
      assert chunks[1..] == [] && s[1..] == [];
      assert Joined(chunks) == chunks[0] + [] == chunks[0];
    }
  }

  /** Decrypting what was encrypted gives the data back, whatever its length. */
  lemma RoundTrip(a: Aead, prefix: Bytes, data: Bytes)
    requires |prefix| == 7 && Seals(a, prefix, 0, Pieces(data, CHUNK_SIZE))
    ensures Decrypted(a, Encrypted(a, prefix, data)) == Opened(data, Clean)
  {
    hide Nonce, Seals, Joined, Sealed, Pieces;
    var chunks := Pieces(data, CHUNK_SIZE);
    var s := Sealed(a, prefix, 0, chunks);
    CutOfPieces(data, CHUNK_SIZE);
    SealedCut(a, prefix, 0, chunks);
    PiecesOfCut(s, CHUNK_SIZE + OVERHEAD);
    SealedOpens(a, prefix, 0, chunks);
    PiecesJoined(data, CHUNK_SIZE);
    var stream := Encrypted(a, prefix, data);
    assert stream[..7] == prefix && stream[7..] == Joined(s);
  }

  function Total(pieces: seq<Bytes>): nat {
    if pieces == [] then 0 else |pieces[0]| + Total(pieces[1..])
  }

  lemma {:induction false} JoinedLength(pieces: seq<Bytes>)
    ensures |Joined(pieces)| == Total(pieces)
  {
    if pieces != [] {
      JoinedLength(pieces[1..]);
    }
  }

  lemma {:induction false} SealedLength(a: Aead, prefix: Bytes, i: nat, chunks: seq<Bytes>)
    requires |prefix| == 7 && Seals(a, prefix, i, chunks)
    ensures Total(Sealed(a, prefix, i, chunks)) == Total(chunks) + OVERHEAD * |chunks|
    decreases |chunks|
  {
    hide Nonce;
    if chunks != [] {
      var s := Sealed(a, prefix, i, chunks);
      assert s[0] == a.seal(Nonce(prefix, i + 0, 0 == |chunks| - 1), chunks[0]);
      assert s[1..] == Sealed(a, prefix, i + 1, chunks[1..]);
      if |chunks| > 1 {
        SealsRest(a, prefix, i, chunks);
        SealedLength(a, prefix, i + 1, chunks[1..]);
      }
    }
  }

  lemma {:induction false} PiecesCount(data: Bytes, size: nat, n: nat)
    requires size > 0 && n > 0 && (n - 1) * size <= |data| <= n * size && (n > 1 ==> (n - 1) * size < |data|)
    ensures |Pieces(data, size)| == n
    decreases n
  {
    if n > 1 {
      assert (n - 1) * size == (n - 2) * size + size && n * size == (n - 1) * size + size;
      assert (n - 2) * size >= 0;
      PiecesCount(data[size..], size, n - 1);
    } else {
      assert n * size == size;
    }
  }

  /** A stream is its prefix, the data, and 16 bytes for each 65536 of them begun;
      of no data, for one chunk. */
  lemma EncryptedLength(a: Aead, prefix: Bytes, data: Bytes, n: nat)
    requires |prefix| == 7 && Seals(a, prefix, 0, Pieces(data, CHUNK_SIZE))
    requires n > 0 && (n - 1) * 65536 <= |data| <= n * 65536 && (n > 1 ==> (n - 1) * 65536 < |data|)
    ensures |Encrypted(a, prefix, data)| == 7 + |data| + 16 * n
  {
    hide Nonce, Seals, Joined, Sealed, Pieces, Total;
    var chunks := Pieces(data, CHUNK_SIZE);
    PiecesCount(data, CHUNK_SIZE, n);
    PiecesJoined(data, CHUNK_SIZE);
    JoinedLength(chunks);
    SealedLength(a, prefix, 0, chunks);
    JoinedLength(Sealed(a, prefix, 0, chunks));
  }

  // ---------------------------------------------------------------- integrity

  /** Chunk i of the stream with that prefix was sealed as c with the nonce. */
  ghost predicate WasSealed(a: Aead, streams: map<Bytes, Bytes>, prefix: Bytes, i: nat, nonce: Bytes, c: Bytes) {
    && prefix in streams && |prefix| == 7
    && var chunks := Pieces(streams[prefix], CHUNK_SIZE);
       i < |chunks| && nonce == Nonce(prefix, i, i == |chunks| - 1) && c == a.seal(nonce, chunks[i])
  }

  /** An ideal AEAD, and the streams it has sealed, by prefix: only what was
      sealed opens, to what it was. */
  ghost predicate Ideal(a: Aead, streams: map<Bytes, Bytes>) {
    && (forall prefix | prefix in streams ::
          |prefix| == 7 && Seals(a, prefix, 0, Pieces(streams[prefix], CHUNK_SIZE)))
    && (forall nonce, c | a.open(nonce, c).Some? :: exists prefix, i :: WasSealed(a, streams, prefix, i, nonce, c))
  }

  /** A piece that opens as chunk i of a stream is that chunk, and last only if
      the chunk was. */
  lemma OpensAsItself(a: Aead, streams: map<Bytes, Bytes>, prefix: Bytes, i: nat, last: bool, c: Bytes)
    requires Ideal(a, streams) && |prefix| == 7 && i < UINT32
    requires forall p | p in streams :: |Pieces(streams[p], CHUNK_SIZE)| <= UINT32
    requires a.open(Nonce(prefix, i, last), c).Some?
    ensures prefix in streams
    ensures var chunks := Pieces(streams[prefix], CHUNK_SIZE);
      && i < |chunks| && last == (i == |chunks| - 1)
      && c == a.seal(Nonce(prefix, i, last), chunks[i]) && a.open(Nonce(prefix, i, last), c) == Some(chunks[i])
  {
    hide Nonce, Pieces, Seals;
    var nonce := Nonce(prefix, i, last);
    var p, k :| WasSealed(a, streams, p, k, nonce, c);
    var chunks := Pieces(streams[p], CHUNK_SIZE);
    NonceShared(prefix, p, i, k, last, k == |chunks| - 1);
    Small(i);
    Small(k);
    SealsOne(a, p, chunks, k);
  }

  lemma Small(i: nat)
    requires i < UINT32
    ensures i % UINT32 == i
  {
  }

  lemma SealsOne(a: Aead, prefix: Bytes, chunks: seq<Bytes>, k: nat)
    requires |prefix| == 7 && Seals(a, prefix, 0, chunks) && k < |chunks|
    ensures var nonce := Nonce(prefix, k, k == |chunks| - 1); a.open(nonce, a.seal(nonce, chunks[k])) == Some(chunks[k])
  {
    hide Nonce;
    assert 0 + k == k;
  }

  lemma {:induction false} OpenedIsPrefix(a: Aead, streams: map<Bytes, Bytes>, prefix: Bytes, i: nat,
    pieces: seq<Bytes>)
    requires Ideal(a, streams) && prefix in streams && |prefix| == 7 && pieces != []
    requires forall p | p in streams :: |Pieces(streams[p], CHUNK_SIZE)| <= UINT32
    requires i < |Pieces(streams[prefix], CHUNK_SIZE)|
    ensures var chunks := Pieces(streams[prefix], CHUNK_SIZE)[i..];
      var o := OpenedFrom(a, prefix, i, pieces);
      && o.plain <= Joined(chunks)
      && (o.end.Clean? ==> o.plain == Joined(chunks) && pieces == Sealed(a, prefix, i, chunks))
    decreases |pieces|
  {
    hide Nonce, Pieces, Ideal;
    var all := Pieces(streams[prefix], CHUNK_SIZE);
    var chunks := all[i..];
    var last := |pieces| == 1;
    if a.open(Nonce(prefix, i, last), pieces[0]).Some? {
      OpensAsItself(a, streams, prefix, i, last, pieces[0]);
      assert chunks[0] == all[i] && chunks[1..] == all[i+1..];
      CutOfPieces(streams[prefix], CHUNK_SIZE);
      if last {
        assert chunks == [all[i]] && chunks[1..] == [] && pieces[1..] == [];
        assert pieces == Sealed(a, prefix, i, chunks);
        assert Joined(chunks) == all[i] + Joined([]) == all[i];
      } else {
        OpenedIsPrefix(a, streams, prefix, i + 1, pieces[1..]);
        assert all[i] != [];
      }
    }
  }

  /** What is given out is the start of what was encrypted with the stream's
      prefix, and a clean end is reported only for the very stream. Streams of
      up to 2^32 chunks. */
  lemma Integrity(a: Aead, streams: map<Bytes, Bytes>, stream: Bytes)
    requires Ideal(a, streams)
    requires forall p | p in streams :: |Pieces(streams[p], CHUNK_SIZE)| <= UINT32
    ensures var o := Decrypted(a, stream);
      if |stream| >= 7 && stream[..7] in streams then
        var data := streams[stream[..7]];
        o.plain <= data && (o.end.Clean? <==> stream == Encrypted(a, stream[..7], data)) &&
          (o.end.Clean? ==> o.plain == data)
      else o == Opened([], Refused)
  {
    hide Nonce, Pieces, Joined, Sealed, Seals;
    if |stream| >= 7 {
      var prefix, pieces := stream[..7], Pieces(stream[7..], CHUNK_SIZE + OVERHEAD);
      PiecesJoined(stream[7..], CHUNK_SIZE + OVERHEAD);
      assert stream == prefix + Joined(pieces);
      if prefix in streams {
        var chunks := Pieces(streams[prefix], CHUNK_SIZE);
        assert chunks[0..] == chunks;
        OpenedIsPrefix(a, streams, prefix, 0, pieces);
        PiecesJoined(streams[prefix], CHUNK_SIZE);
        RoundTrip(a, prefix, streams[prefix]);
      } else if a.open(Nonce(prefix, 0, |pieces| == 1), pieces[0]).Some? {
        OpensAsItself(a, streams, prefix, 0, |pieces| == 1, pieces[0]);
      }
    }
  }

  /** The nonce of chunk i of a stream of so many. */
  function ChunkNonce(prefix: Bytes, chunks: nat, i: nat): Bytes
    requires |prefix| == 7
  {
    Nonce(prefix, i, i == chunks - 1)
  }

  /** The chunks of a stream have nonces of their own exactly when there are no
      more than 2^32 and the last. */
  lemma NoncesDistinct(prefix: Bytes, chunks: nat)
    requires |prefix| == 7
    ensures (forall i, k | 0 <= i < k < chunks :: ChunkNonce(prefix, chunks, i) != ChunkNonce(prefix, chunks, k))
      <==> chunks <= UINT32 + 1
  {
    hide Nonce;
    if chunks <= UINT32 + 1 {
      forall i, k | 0 <= i < k < chunks ensures ChunkNonce(prefix, chunks, i) != ChunkNonce(prefix, chunks, k) {
        NonceShared(prefix, prefix, i, k, false, k == chunks - 1);
        if k < UINT32 {
          Small(i);
          Small(k);
        }
      }
    } else {
      NonceShared(prefix, prefix, 0, UINT32, false, false);
      assert ChunkNonce(prefix, chunks, 0) == ChunkNonce(prefix, chunks, UINT32);
    }
  }
}
