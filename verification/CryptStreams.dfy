/** The readers of internal/backup/crypt.go: chunks, sealer and opener, over a
    source that gives its bytes in whatever portions. */
module CryptStreams {
  import opened Options
  import opened Crypt

  /** How a source's bytes end: a cut-off body is an UnexpectedEof, which reads as an end. */
  datatype Fault = Eof | UnexpectedEof | Other

  function Min(a: nat, b: nat): nat {
    if a < b then a else b
  }

  /** An io.Reader. */
  class Source {
    const data: Bytes
    const fault: Fault
    var pos: nat
    var portions: seq<nat> // how much the next reads give

    constructor (data: Bytes, fault: Fault, portions: seq<nat>)
      ensures this.data == data && this.fault == fault && pos == 0
    {
      this.data, this.fault, pos, this.portions := data, fault, 0, portions;
    }

    method Read(buf: array<Byte>, from: nat) returns (n: nat)
      requires pos <= |data| && from < buf.Length
      modifies this, buf
      ensures pos == old(pos) + n <= |data| && from + n <= buf.Length
      ensures buf[..from] == old(buf[..from]) && buf[from..from+n] == data[old(pos)..pos]
      ensures n == 0 <==> old(pos) == |data|
    {
      n := Min(buf.Length - from, |data| - pos);
      if portions != [] {
        if n > 0 {
          n := Min(n, if portions[0] == 0 then 1 else portions[0]);
        }
        portions := portions[1..];
      }
      ghost var before := buf[..from];
      forall k | 0 <= k < n {
        buf[from + k] := data[pos + k];
      }
      assert forall k | 0 <= k < from :: buf[k] == before[k];
      assert buf[..from] == before;
      ghost var got, given := buf[from..from+n], data[pos..pos+n];
      assert forall k | 0 <= k < n :: got[k] == given[k];
      assert got == given;
      pos := pos + n;
    }

    /** full: as much of buf as there is; not ok if something else than the end
        of the data stopped it. */
    method Full(buf: array<Byte>) returns (n: nat, ok: bool)
      requires pos <= |data| && buf.Length > 0
      modifies this, buf
      ensures n == Min(buf.Length, |data| - old(pos)) && pos == old(pos) + n
      ensures buf[..n] == data[old(pos)..pos]
      ensures ok <==> n == buf.Length || !fault.Other?
    {
      n := 0;
      while n < buf.Length
        invariant n <= buf.Length && pos == old(pos) + n <= |data| && buf[..n] == data[old(pos)..pos]
        decreases buf.Length - n
      {
        ghost var at, done := pos, buf[..n];
        var k := Read(buf, n);
        if k == 0 {
          return n, !fault.Other?;
        }
        assert buf[..n+k] == buf[..n] + buf[n..n+k] == done + data[at..pos];
        assert data[old(pos)..at] + data[at..pos] == data[old(pos)..pos];
        n := n + k;
      }
      ok := true;
    }
  }

  datatype Next = Piece(bytes: Bytes, last: bool) | End | Failed

  /** chunks: the source in pieces, one read ahead. */
  class Chunks {
    const source: Source
    const size: nat
    var cur: array<Byte>
    var ahead: array<Byte>
    var n: nat
    var read: bool
    var last: bool
    var failed: bool

    constructor (source: Source, size: nat)
      requires size > 0 && source.pos <= |source.data|
      ensures Valid() && this.source == source && this.size == size && !last && !failed
      ensures fresh(cur) && fresh(ahead) && Rest() == source.data[source.pos..]
    {
      this.source, this.size := source, size;
      cur, ahead := new Byte[size], new Byte[size];
      n, read, last, failed := 0, false, false, false;
    }

    ghost predicate Valid()
      reads this, source, cur, ahead
    {
      && size > 0 && source.pos <= |source.data| && cur.Length == ahead.Length == size && cur != ahead && n <= size
      && (!read ==> n == 0)
      && (read && !last ==> n > 0 && (n < size ==> source.pos == |source.data|))
    }

    /** What hasn't been handed out. */
    ghost function Rest(): Bytes
      requires Valid()
      reads this, source, cur, ahead
    {
      cur[..n] + source.data[source.pos..]
    }

    /** next: reads one piece ahead, so as to tell the last one. */
    method Next() returns (r: Next)
      requires Valid() && !failed
      modifies this, source, cur, ahead
      ensures {cur, ahead} == {old(cur), old(ahead)}
      ensures old(last) ==> r.End? && Valid() && last && !failed
      ensures !old(last) ==> !r.End?
      ensures r.Failed? ==> failed && source.fault.Other?
      ensures r.Piece? ==> Valid() && !failed && last == r.last
      ensures r.Piece? ==> r.bytes == Pieces(old(Rest()), size)[0] && r.last == (|old(Rest())| <= size)
      ensures r.Piece? && !last ==> Rest() == old(Rest())[size..]
    {
      if last {
        return End;
      }
      ghost var rest := Rest();
      var ok;
      if !read {
        n, ok := source.Full(cur);
        if !ok {
          failed := true;
          return Failed;
        }
        read := true;
      }
      assert rest == cur[..n] + source.data[source.pos..];
      assert n < size ==> source.pos == |source.data|;
      ghost var at := source.pos;
      var m;
      m, ok := source.Full(ahead);
      if !ok {
        failed := true;
        return Failed;
      }
      assert rest == cur[..n] + source.data[at..];
      assert source.data[at..] == ahead[..m] + source.data[source.pos..];
      last := n < size || m == 0;
      if last {
        assert rest == cur[..n];
        return Piece(cur[..n], true);
      }
      assert rest[..size] == cur[..n] && rest[size..] == ahead[..m] + source.data[source.pos..];
      var len := n;
      cur, ahead, n := ahead, cur, m;
      r := Piece(ahead[..len], false);
    }
  }

  /** What a read gives. */
  datatype Read = Gave(bytes: Bytes) | AtEnd | KeyError | ReadError

  /** Sealing adds the overhead. */
  ghost predicate AddsOverhead(a: Aead) {
    forall nonce, plain :: |a.seal(nonce, plain)| == |plain| + OVERHEAD
  }

  /** sealer: Encrypt's reader. */
  class Sealer {
    const aead: Aead
    const prefix: Bytes
    const chunks: Chunks
    var i: nat // a uint32
    var pending: Bytes
    ghost var sealed: nat // chunks so far
    ghost var given: Bytes

    constructor (aead: Aead, prefix: Bytes, source: Source)
      requires |prefix| == 7 && source.pos == 0 && AddsOverhead(aead)
      ensures Valid() && given == [] && chunks.source == source && this.aead == aead && this.prefix == prefix
      ensures fresh(Repr() - {source}) && !chunks.failed
    {
      var c := new Chunks(source, CHUNK_SIZE);
      this.aead, this.prefix, chunks := aead, prefix, c;
      i, sealed, pending, given := 0, 0, prefix, [];
      new;
      assert chunks.Rest() == source.data;
    }

    ghost function Repr(): set<object>
      reads this, chunks
    {
      {this, chunks, chunks.source, chunks.cur, chunks.ahead}
    }

    /** What is still to be sealed and read. */
    ghost function ToCome(): Bytes
      requires chunks.Valid() && chunks.size == CHUNK_SIZE && |prefix| == 7
      reads this, chunks, chunks.source, chunks.cur, chunks.ahead
    {
      if chunks.last then [] else Joined(Sealed(aead, prefix, sealed, Pieces(chunks.Rest(), CHUNK_SIZE)))
    }

    ghost predicate Valid()
      reads Repr()
    {
      && |prefix| == 7 && chunks.size == CHUNK_SIZE && i == sealed % UINT32 && AddsOverhead(aead)
      && (chunks.failed ||
            (chunks.Valid() && given + pending + ToCome() == Encrypted(aead, prefix, chunks.source.data)))
    }

    /** Seals the next chunk, if there is one. */
    method Seal() returns (r: Read)
      requires Valid() && !chunks.failed && pending == []
      modifies Repr()
      ensures Valid() && Repr() == old(Repr()) && given == old(given)
      ensures r.ReadError? == chunks.failed && (r.ReadError? ==> chunks.source.fault.Other?) && !r.KeyError?
      ensures r.Gave? ==> pending != []
      ensures r.AtEnd? ==> given == Encrypted(aead, prefix, chunks.source.data)
    {
      hide Nonce, Pieces, Encrypted, Joined, Sealed;
      ghost var rest, before := chunks.Rest(), given;
      var next := chunks.Next();
      if next.End? {
        return AtEnd;
      } else if next.Failed? {
        return ReadError;
      }
      SealNext(aead, prefix, sealed, rest);
      SameNonce(prefix, sealed, next.last);
      pending := aead.seal(Nonce(prefix, i, next.last), next.bytes);
      i := (i + 1) % UINT32;
      sealed := sealed + 1;
      assert given + [] + (pending + ToCome()) == given + pending + ToCome();
      r := Gave([]);
    }

    /** Copies what is pending into a buffer of len bytes. */
    method Give(len: nat) returns (r: Read)
      requires Valid() && !chunks.failed && pending != []
      modifies this`pending, this`given
      ensures Valid() && r.Gave? && given == old(given) + r.bytes && |r.bytes| <= len && (len > 0 ==> r.bytes != [])
    {
      ghost var whole, come := given + pending, ToCome();
      hide Encrypted, Joined, Crypt.Sealed, Pieces, Nonce, AddsOverhead;
      var n := if len < |pending| then len else |pending|;
      var out := pending[..n];
      given, pending := given + out, pending[n..];
      assert given + pending == whole && ToCome() == come;
      r := Gave(out);
    }

    /** Read into a buffer of len bytes. */
    method Read(len: nat) returns (r: Read)
      requires Valid() && !chunks.failed
      modifies Repr()
      ensures Valid() && Repr() == old(Repr())
      ensures r.ReadError? == chunks.failed && (r.ReadError? ==> chunks.source.fault.Other?) && !r.KeyError?
      ensures r.Gave? ==> given == old(given) + r.bytes && |r.bytes| <= len && (len > 0 ==> r.bytes != [])
      ensures r.AtEnd? ==> given == old(given) == Encrypted(aead, prefix, chunks.source.data)
    {
      hide Nonce, Pieces, Encrypted, Joined, Sealed;
      if |pending| == 0 {
        r := Seal();
        if !r.Gave? {
          return;
        }
      }
      r := Give(len);
    }
  }

  lemma SameNonce(prefix: Bytes, k: nat, last: bool)
    requires |prefix| == 7
    ensures Nonce(prefix, k % UINT32, last) == Nonce(prefix, k, last) && (k % UINT32 + 1) % UINT32 == (k + 1) % UINT32
  {
    hide BigEndian;
    var q, r := k / UINT32, k % UINT32;
    assert k + 1 == q * UINT32 + (r + 1);
    assert (q + 1) * UINT32 == q * UINT32 + UINT32;
  }

  lemma SealNext(a: Aead, prefix: Bytes, k: nat, rest: Bytes)
    requires |prefix| == 7
    ensures var chunks := Pieces(rest, CHUNK_SIZE);
      Joined(Sealed(a, prefix, k, chunks)) == a.seal(Nonce(prefix, k, |rest| <= CHUNK_SIZE), chunks[0]) +
        if |rest| <= CHUNK_SIZE then [] else Joined(Sealed(a, prefix, k + 1, Pieces(rest[CHUNK_SIZE..], CHUNK_SIZE)))
  {
    hide Nonce;
    var chunks := Pieces(rest, CHUNK_SIZE);
    var s := Sealed(a, prefix, k, chunks);
    assert s[1..] == Sealed(a, prefix, k + 1, chunks[1..]);
    if |rest| > CHUNK_SIZE {
      assert chunks[1..] == Pieces(rest[CHUNK_SIZE..], CHUNK_SIZE);
    } else {
      assert chunks[1..] == [];
    }
  }

  /** opener: Decrypt's reader. */
  class Opener {
    const aead: Aead
    const chunks: Chunks
    var prefix: Option<Bytes>
    var i: nat // a uint32
    var pending: Bytes
    ghost var count: nat // chunks so far
    ghost var given: Bytes

    constructor (aead: Aead, source: Source)
      requires source.pos == 0
      ensures Valid() && given == [] && chunks.source == source && this.aead == aead && !chunks.failed
      ensures fresh(Repr() - {source})
    {
      var c := new Chunks(source, CHUNK_SIZE + OVERHEAD);
      this.aead, chunks, prefix := aead, c, None;
      i, count, pending, given := 0, 0, [], [];
    }

    ghost function Repr(): set<object>
      reads this, chunks
    {
      {this, chunks, chunks.source, chunks.cur, chunks.ahead}
    }

    /** What the chunks not yet read open to. */
    ghost function ToCome(): Opened
      requires chunks.Valid() && prefix.Some? && |prefix.value| == 7
      reads this, chunks, chunks.source, chunks.cur, chunks.ahead
    {
      OpenedFrom(aead, prefix.value, count, if chunks.last then [] else Pieces(chunks.Rest(), chunks.size))
    }

    ghost predicate Valid()
      reads this, chunks, chunks.source, chunks.cur, chunks.ahead
    {
      && chunks.size == CHUNK_SIZE + OVERHEAD && i == count % UINT32 &&
         given + pending <= Decrypted(aead, chunks.source.data).plain
      && (chunks.failed || chunks.Valid())
      && (prefix.None? ==>
            chunks.source.pos == 0 && !chunks.read && !chunks.last && !chunks.failed &&
            pending == [] && given == [] && count == 0)
      && (prefix.Some? && !chunks.failed ==>
            |prefix.value| == 7 &&
            Decrypted(aead, chunks.source.data) == Opened(given + pending + ToCome().plain, ToCome().end))
    }

    /** Reads the prefix; a stream without one is refused. */
    method Start() returns (ok: bool)
      requires Valid() && prefix.None?
      modifies this`prefix, chunks.source
      ensures ok ==> Valid() && prefix.Some?
      ensures !ok ==> Decrypted(aead, chunks.source.data) == Opened([], Refused) && prefix.None?
    {
      hide OpenedFrom, Pieces;
      var buf := new Byte[7];
      var n, _ := chunks.source.Full(buf);
      if n < 7 {
        return false;
      }
      prefix := Some(buf[..]);
      assert buf[..] == buf[..7] == chunks.source.data[..7];
      assert chunks.Rest() == chunks.source.data[7..];
      ok := true;
    }

    /** Opens the next chunk, if there is one. An error leaves what was given. */
    method Open() returns (r: Read)
      requires Valid() && prefix.Some? && !chunks.failed && pending == []
      modifies Repr()
      ensures Repr() == old(Repr()) && given == old(given)
      ensures r.ReadError? == chunks.failed && (r.ReadError? ==> chunks.source.fault.Other?)
      ensures r.Gave? ==> Valid() && prefix.Some? && pending != []
      ensures r.AtEnd? ==> Decrypted(aead, chunks.source.data) == Opened(given, Clean)
      ensures r.KeyError? ==> Decrypted(aead, chunks.source.data) == Opened(given, Refused)
    {
      hide Nonce, Pieces, Decrypted;
      ghost var rest := chunks.Rest();
      var next := chunks.Next();
      if next.End? {
        return AtEnd;
      } else if next.Failed? {
        return ReadError;
      }
      hide OpenedFrom;
      r := OpenPiece(next.bytes, next.last, rest);
    }

    method OpenPiece(piece: Bytes, last: bool, ghost rest: Bytes) returns (r: Read)
      requires chunks.Valid() && !chunks.failed && chunks.size == CHUNK_SIZE + OVERHEAD && i == count % UINT32 &&
        pending == []
      requires prefix.Some? && |prefix.value| == 7
      requires piece == Pieces(rest, chunks.size)[0] && last == chunks.last == (|rest| <= chunks.size)
      requires !last ==> chunks.Rest() == rest[chunks.size..]
      requires var o := OpenedFrom(aead, prefix.value, count, Pieces(rest, chunks.size));
        Decrypted(aead, chunks.source.data) == Opened(given + o.plain, o.end)
      modifies this`pending, this`i, this`count
      ensures r.Gave? ==> Valid() && pending != []
      ensures r.AtEnd? ==> Decrypted(aead, chunks.source.data) == Opened(given, Clean)
      ensures r.KeyError? ==> Decrypted(aead, chunks.source.data) == Opened(given, Refused)
      ensures !r.ReadError?
    {
      OpenNext(aead, prefix.value, count, rest, chunks.size);
      SameNonce(prefix.value, count, last);
      hide Nonce, Pieces, Decrypted, OpenedFrom;
      var plain := aead.open(Nonce(prefix.value, i, last), piece);
      if plain.None? {
        return KeyError;
      }
      pending := plain.value;
      i := (i + 1) % UINT32;
      count := count + 1;
      if |pending| == 0 {
        return AtEnd;
      }
      assert given + (pending + ToCome().plain) == given + pending + ToCome().plain;
      r := Gave([]);
    }

    /** Copies what is pending into a buffer of len bytes. */
    method Give(len: nat) returns (r: Read)
      requires Valid() && !chunks.failed && prefix.Some? && pending != []
      modifies this`pending, this`given
      ensures Valid() && r.Gave? && given == old(given) + r.bytes && |r.bytes| <= len && (len > 0 ==> r.bytes != [])
    {
      ghost var whole, come := given + pending, ToCome();
      hide *;
      var n := if len < |pending| then len else |pending|;
      var out := pending[..n];
      given, pending := given + out, pending[n..];
      assert given + pending == whole;
      r := Gave(out);
    }

    /** Read into a buffer of len bytes. */
    method Read(len: nat) returns (r: Read)
      requires Valid() && !chunks.failed
      modifies Repr()
      ensures Repr() == old(Repr())
      ensures r.Gave? ==> Valid() && !chunks.failed
      ensures r.Gave? ==> given == old(given) + r.bytes && |r.bytes| <= len && (len > 0 ==> r.bytes != [])
      ensures !r.Gave? ==> given == old(given)
      ensures r.ReadError? ==> chunks.source.fault.Other? && given <= Decrypted(aead, chunks.source.data).plain
      ensures r.AtEnd? ==> Decrypted(aead, chunks.source.data) == Opened(given, Clean)
      ensures r.KeyError? ==> Decrypted(aead, chunks.source.data) == Opened(given, Refused)
    {
      hide Nonce, Pieces, Decrypted, OpenedFrom;
      if prefix.None? {
        var ok := Start();
        if !ok {
          return KeyError;
        }
      }
      if |pending| == 0 {
        assert given + pending == given;
        r := Open();
        if !r.Gave? {
          return;
        }
      }
      r := Give(len);
    }
  }

  lemma OpenNext(a: Aead, prefix: Bytes, k: nat, rest: Bytes, size: nat)
    requires |prefix| == 7 && size > 0
    ensures var pieces := Pieces(rest, size);
      var plain := a.open(Nonce(prefix, k, |rest| <= size), pieces[0]);
      var o := OpenedFrom(a, prefix, k + 1, if |rest| <= size then [] else Pieces(rest[size..], size));
      OpenedFrom(a, prefix, k, pieces) ==
        if plain.None? then Opened([], Refused)
        else if plain.value == [] then Opened([], Clean)
        else Opened(plain.value + o.plain, o.end)
  {
    hide Nonce;
    var pieces := Pieces(rest, size);
    if |rest| > size {
      assert pieces[1..] == Pieces(rest[size..], size);
    } else {
      assert pieces[1..] == [];
    }
  }

  /** Everything a sealer gives, read in whatever portions. */
  method EncryptAll(a: Aead, prefix: Bytes, source: Source, lens: seq<nat>) returns (stream: Bytes, ok: bool)
    requires |prefix| == 7 && source.pos == 0 && AddsOverhead(a)
    modifies source
    ensures ok ==> stream == Encrypted(a, prefix, source.data)
    ensures !ok ==> source.fault.Other?
  {
    hide Encrypted, Crypt.Sealed, Pieces, Joined;
    var s := new Sealer(a, prefix, source);
    stream, ok := [], true;
    var k := 0;
    ghost var whole := Encrypted(a, prefix, source.data);
    while true
      invariant s.Valid() && !s.chunks.failed && s.given == stream && s.chunks.source == source
      invariant s.aead == a && s.prefix == prefix && fresh(s.Repr() - {source}) && k <= |lens|
      decreases |lens| - k, |whole| - |stream|
    {
      var len := if k < |lens| then lens[k] else 1;
      k := if k < |lens| then k + 1 else k;
      var r := s.Read(len);
      if r.Gave? {
        stream := stream + r.bytes;
        assert |stream| <= |whole|;
      } else {
        ok := r.AtEnd?;
        return;
      }
    }
  }

  /** Everything an opener gives. */
  method DecryptAll(a: Aead, source: Source, lens: seq<nat>) returns (plain: Bytes, end: Read)
    requires source.pos == 0
    modifies source
    ensures !end.Gave? && plain <= Decrypted(a, source.data).plain
    ensures end.AtEnd? ==> Decrypted(a, source.data) == Opened(plain, Clean)
    ensures end.KeyError? ==> Decrypted(a, source.data) == Opened(plain, Refused)
    ensures end.ReadError? ==> source.fault.Other?
  {
    hide Decrypted, OpenedFrom, Pieces;
    var o := new Opener(a, source);
    plain := [];
    var k := 0;
    ghost var whole := Decrypted(a, source.data).plain;
    while true
      invariant o.Valid() && !o.chunks.failed && o.given == plain && o.chunks.source == source
      invariant o.aead == a && fresh(o.Repr() - {source}) && k <= |lens| && plain <= whole
      decreases |lens| - k, |whole| - |plain|
    {
      var len := if k < |lens| then lens[k] else 1;
      k := if k < |lens| then k + 1 else k;
      var r := o.Read(len);
      if r.Gave? {
        plain := plain + r.bytes;
        assert plain == o.given <= whole;
      } else {
        return plain, r;
      }
    }
  }

  /** Encrypted and decrypted, read however: the same data. */
  method ThereAndBack(a: Aead, prefix: Bytes, data: Bytes, portions: seq<nat>, more: seq<nat>, lens: seq<nat>,
    others: seq<nat>)
    returns (plain: Bytes)
    requires |prefix| == 7 && AddsOverhead(a) && Seals(a, prefix, 0, Pieces(data, CHUNK_SIZE))
    ensures plain == data
  {
    hide Decrypted, Encrypted, Seals, Pieces;
    var source := new Source(data, Eof, portions);
    var stream, ok := EncryptAll(a, prefix, source, lens);
    var sealed := new Source(stream, Eof, more);
    var end;
    plain, end := DecryptAll(a, sealed, others);
    RoundTrip(a, prefix, data);
  }
}
