/** Fragmenting one transaction history for transport, and putting it together. */
module TransactionHistory {
  import opened Basics

  type Byte = b: int | 0 <= b < 256

  const CHUNK_BYTES := 128 * 1024
  const VERSION := "v1"

  datatype Manifest = Manifest(version: string, itemCount: int, byteLength: int, chunkCount: int, sha256: string)

  datatype Chunk = Chunk(index: int, byteLength: int, sha256: string, data: string)

  /** JSON, SHA-256 and base64, as the libraries provide them. */
  datatype Codec<!T(!new)> = Codec(
    serialize: seq<T> -> seq<Byte>,
    parse: seq<Byte> -> Option<seq<T>>,
    sha256: seq<Byte> -> string,
    encode64: seq<Byte> -> string,
    decode64: string -> seq<Byte>)

  predicate Hex64(s: string) {
    |s| == 64 && forall i :: 0 <= i < |s| ==> '0' <= s[i] <= '9' || 'a' <= s[i] <= 'f'
  }

  predicate Alphabet64(c: char) {
    'A' <= c <= 'Z' || 'a' <= c <= 'z' || '0' <= c <= '9' || c == '+' || c == '/'
  }

  /** The canonical, padded base64 shape. */
  predicate Base64Text(s: string) {
    && |s| > 0 && |s| % 4 == 0
    && (forall i :: 0 <= i < |s| - 2 ==> Alphabet64(s[i]))
    && (Alphabet64(s[|s| - 2]) || (s[|s| - 2] == '=' && s[|s| - 1] == '='))
    && (Alphabet64(s[|s| - 1]) || s[|s| - 1] == '=')
  }

  /** The stated inverse hypotheses on the library functions. */
  ghost predicate Faithful<T(!new)>(c: Codec<T>) {
    && (forall l :: c.parse(c.serialize(l)) == Some(l) && c.serialize(l) != [])
    && (forall b :: Hex64(c.sha256(b)))
    && (forall b :: b != [] ==> c.decode64(c.encode64(b)) == b && Base64Text(c.encode64(b)))
  }

  predicate ValidManifest(m: Manifest) {
    m.version == VERSION && m.itemCount >= 0 && m.byteLength > 0 && m.chunkCount > 0 && Hex64(m.sha256)
  }

  predicate ValidChunk(chunk: Chunk) {
    chunk.index >= 0 && 0 < chunk.byteLength <= CHUNK_BYTES && Hex64(chunk.sha256) && Base64Text(chunk.data)
  }

  // ------------------------------------------------------------ fragmenting

  function Min(a: int, b: int): int {
    if a < b then a else b
  }

  /** The i-th fragment of a payload. */
  function Piece(payload: seq<Byte>, i: nat): seq<Byte>
    requires i * CHUNK_BYTES <= |payload|
  {
    payload[i * CHUNK_BYTES..Min((i + 1) * CHUNK_BYTES, |payload|)]
  }

  function ChunkAt<T(!new)>(c: Codec<T>, payload: seq<Byte>, i: nat): Chunk
    requires i * CHUNK_BYTES <= |payload|
  {
    var bytes := Piece(payload, i);
    Chunk(i, |bytes|, c.sha256(bytes), c.encode64(bytes))
  }

  function ChunkCount(length: nat): nat {
    (length + CHUNK_BYTES - 1) / CHUNK_BYTES
  }

  /** The first k fragments. */
  function Chunks<T(!new)>(c: Codec<T>, payload: seq<Byte>, k: nat): (r: seq<Chunk>)
    requires k <= ChunkCount(|payload|)
    ensures |r| == k
    ensures forall i :: 0 <= i < k ==> i * CHUNK_BYTES < |payload| && r[i] == ChunkAt(c, payload, i)
  {
    seq(k, i requires 0 <= i < k => ChunkAt(c, payload, i))
  }

  function ManifestOf<T(!new)>(c: Codec<T>, transactions: seq<T>): Manifest {
    var payload := c.serialize(transactions);
    Manifest(VERSION, |transactions|, |payload|, ChunkCount(|payload|), c.sha256(payload))
  }

  function ChunksOf<T(!new)>(c: Codec<T>, transactions: seq<T>): seq<Chunk> {
    var payload := c.serialize(transactions);
    Chunks(c, payload, ChunkCount(|payload|))
  }

  lemma {:induction false} NextPiece<T(!new)>(c: Codec<T>, payload: seq<Byte>, k: nat)
    requires k * CHUNK_BYTES < |payload|
    ensures k < ChunkCount(|payload|)
    ensures payload[k * CHUNK_BYTES..Min(k * CHUNK_BYTES + CHUNK_BYTES, |payload|)] == Piece(payload, k)
    ensures Chunks(c, payload, k) + [ChunkAt(c, payload, k)] == Chunks(c, payload, k + 1)
  {
  }

  lemma {:induction false} LastPiece(length: nat, k: nat)
    requires length <= k * CHUNK_BYTES && k <= ChunkCount(length)
    ensures k == ChunkCount(length) && (k == 0 <==> length == 0)
  {
  }

  /** buildRecentTransactionHistory; None where an empty serialization throws. */
  method Build<T(!new)>(c: Codec<T>, transactions: seq<T>) returns (built: Option<(Manifest, seq<Chunk>)>)
    ensures built.None? <==> c.serialize(transactions) == []
    ensures built.Some? ==> built.value == (ManifestOf(c, transactions), ChunksOf(c, transactions))
  {
    var payload := c.serialize(transactions);
    var chunks: seq<Chunk> := [];
    var offset := 0;
    while offset < |payload|
      invariant offset == |chunks| * CHUNK_BYTES
      invariant |chunks| <= ChunkCount(|payload|)
      invariant chunks == Chunks(c, payload, |chunks|)
    {
      var bytes := payload[offset..Min(offset + CHUNK_BYTES, |payload|)];
      NextPiece(c, payload, |chunks|);
      chunks := chunks + [Chunk(|chunks|, |bytes|, c.sha256(bytes), c.encode64(bytes))];
      offset := offset + CHUNK_BYTES;
    }
    LastPiece(|payload|, |chunks|);
    if chunks == [] {
      return None;
    }
    return Some((Manifest(VERSION, |transactions|, |payload|, |chunks|, c.sha256(payload)), chunks));
  }

  // ------------------------------------------------------------ reassembling

  datatype HistoryError = Schema | WrongCount | WrongOrder | BadChunk | BadPayload | NotJson | WrongItems

  predicate ChunkIntact<T(!new)>(c: Codec<T>, chunk: Chunk) {
    var bytes := c.decode64(chunk.data);
    |bytes| == chunk.byteLength && c.encode64(bytes) == chunk.data && c.sha256(bytes) == chunk.sha256
  }

  /** The bytes of the first n chunks, or the first fault in them. */
  function Decode<T(!new)>(c: Codec<T>, chunks: seq<Chunk>, n: nat): Result<seq<Byte>, HistoryError>
    requires n <= |chunks|
  {
    if n == 0 then Ok([])
    else
      var before := Decode(c, chunks, n - 1);
      var chunk := chunks[n - 1];
      if before.Err? then before
      else if !ValidChunk(chunk) then Err(Schema)
      else if chunk.index != n - 1 then Err(WrongOrder)
      else if !ChunkIntact(c, chunk) then Err(BadChunk)
      else Ok(before.value + c.decode64(chunk.data))
  }

  function Reassembled<T(!new)>(c: Codec<T>, m: Manifest, chunks: seq<Chunk>): Result<seq<T>, HistoryError> {
    if !ValidManifest(m) then Err(Schema)
    else if |chunks| != m.chunkCount then Err(WrongCount)
    else
      var payload := Decode(c, chunks, |chunks|);
      if payload.Err? then Err(payload.error)
      else if |payload.value| != m.byteLength || c.sha256(payload.value) != m.sha256 then Err(BadPayload)
      else
        var parsed := c.parse(payload.value);
        if parsed.None? then Err(NotJson)
        else if |parsed.value| != m.itemCount then Err(WrongItems)
        else Ok(parsed.value)
  }

  /** reassembleRecentTransactionHistory. */
  method Reassemble<T(!new)>(c: Codec<T>, m: Manifest, chunks: seq<Chunk>) returns (r: Result<seq<T>, HistoryError>)
    ensures r == Reassembled(c, m, chunks)
  {
    if !ValidManifest(m) {
      return Err(Schema);
    }
    if |chunks| != m.chunkCount {
      return Err(WrongCount);
    }
    var payload: seq<Byte> := [];
    for index := 0 to |chunks|
      invariant Decode(c, chunks, index) == Ok(payload)
    {
      var chunk := chunks[index];
      if !ValidChunk(chunk) {
        DecodeFails(c, chunks, index + 1);
        return Err(Schema);
      }
      if chunk.index != index {
        DecodeFails(c, chunks, index + 1);
        return Err(WrongOrder);
      }
      if !ChunkIntact(c, chunk) {
        DecodeFails(c, chunks, index + 1);
        return Err(BadChunk);
      }
      payload := payload + c.decode64(chunk.data);
    }
    if |payload| != m.byteLength || c.sha256(payload) != m.sha256 {
      return Err(BadPayload);
    }
    var parsed := c.parse(payload);
    if parsed.None? {
      return Err(NotJson);
    }
    if |parsed.value| != m.itemCount {
      return Err(WrongItems);
    }
    return Ok(parsed.value);
  }

  lemma {:induction false} DecodeFails<T(!new)>(c: Codec<T>, chunks: seq<Chunk>, n: nat)
    requires n <= |chunks| && Decode(c, chunks, n).Err?
    ensures Decode(c, chunks, |chunks|) == Decode(c, chunks, n)
    decreases |chunks| - n
  {
    if n < |chunks| {
      DecodeFails(c, chunks, n + 1);
    }
  }

  // ---------------------------------------------------------------- theorems

  lemma {:induction false} PieceFacts<T(!new)>(c: Codec<T>, payload: seq<Byte>, i: nat)
    requires Faithful(c) && i * CHUNK_BYTES < |payload|
    ensures Piece(payload, i) != [] && ValidChunk(ChunkAt(c, payload, i)) && ChunkIntact(c, ChunkAt(c, payload, i))
    ensures c.decode64(ChunkAt(c, payload, i).data) == Piece(payload, i)
  {
  }

  lemma {:induction false} DecodeStep<T(!new)>(c: Codec<T>, payload: seq<Byte>, chunks: seq<Chunk>, n: nat, before: seq<Byte>)
    requires Faithful(c) && 0 < n <= |chunks| && (n - 1) * CHUNK_BYTES < |payload|
    requires chunks[n - 1] == ChunkAt(c, payload, n - 1) && Decode(c, chunks, n - 1) == Ok(before)
    ensures Decode(c, chunks, n) == Ok(before + Piece(payload, n - 1))
  {
  }

  function Upto(payload: seq<Byte>, n: nat): seq<Byte> {
    payload[..Min(n * CHUNK_BYTES, |payload|)]
  }

  lemma {:induction false} UptoStep(payload: seq<Byte>, n: nat)
    requires 0 < n && (n - 1) * CHUNK_BYTES < |payload|
    ensures Upto(payload, n - 1) + Piece(payload, n - 1) == Upto(payload, n)
  {
  }

  /** The chunks are fragments of the payload, in order. */
  ghost predicate Fragments<T(!new)>(c: Codec<T>, payload: seq<Byte>, chunks: seq<Chunk>) {
    forall i :: 0 <= i < |chunks| ==> FragmentAt(c, payload, chunks[i], i)
  }

  predicate FragmentAt<T(!new)>(c: Codec<T>, payload: seq<Byte>, chunk: Chunk, i: nat) {
    i * CHUNK_BYTES < |payload| && chunk == ChunkAt(c, payload, i)
  }

  lemma {:induction false} DecodeFragments<T(!new)>(c: Codec<T>, payload: seq<Byte>, chunks: seq<Chunk>, n: nat)
    requires Faithful(c) && Fragments(c, payload, chunks) && n <= |chunks|
    ensures Decode(c, chunks, n) == Ok(Upto(payload, n))
    decreases n
  {
    if n > 0 {
      DecodeFragments(c, payload, chunks, n - 1);
      assert FragmentAt(c, payload, chunks[n - 1], n - 1);
      DecodeStep(c, payload, chunks, n, Upto(payload, n - 1));
      UptoStep(payload, n);
    }
  }

  /** Reassembling a built history gives back the same list. */
  lemma {:induction false} BuildThenReassemble<T(!new)>(c: Codec<T>, transactions: seq<T>)
    requires Faithful(c)
    ensures Reassembled(c, ManifestOf(c, transactions), ChunksOf(c, transactions)) == Ok(transactions)
  {
    var payload := c.serialize(transactions);
    var chunks := ChunksOf(c, transactions);
    CountCovers(|payload|);
    DecodeFragments(c, payload, chunks, |chunks|);
    assert Upto(payload, |chunks|) == payload;
  }

  lemma {:induction false} CountCovers(length: nat)
    ensures ChunkCount(length) * CHUNK_BYTES >= length && (length > 0 ==> ChunkCount(length) >= 1)
  {
  }

  /** No other byte sequence has the digest of this payload. */
  ghost predicate NoCollision<T(!new)>(c: Codec<T>, payload: seq<Byte>) {
    forall b :: c.sha256(b) == c.sha256(payload) ==> b == payload
  }

  /** Whatever chunks arrive, a history accepted under the manifest of a list is that
      list: missing, repeated, reordered or altered bytes never pass. */
  lemma {:induction false} AcceptedMeansSame<T(!new)>(c: Codec<T>, transactions: seq<T>, chunks: seq<Chunk>)
    requires Faithful(c) && NoCollision(c, c.serialize(transactions))
    requires Reassembled(c, ManifestOf(c, transactions), chunks).Ok?
    ensures Reassembled(c, ManifestOf(c, transactions), chunks) == Ok(transactions)
  {
  }

  // ------------------------------------------------------------ sizes

  function Bytes(chunks: seq<Chunk>): int {
    if chunks == [] then 0 else Bytes(chunks[..|chunks| - 1]) + chunks[|chunks| - 1].byteLength
  }

  lemma {:induction false} BytesOfFragments<T(!new)>(c: Codec<T>, payload: seq<Byte>, chunks: seq<Chunk>, n: nat)
    requires Fragments(c, payload, chunks) && n <= |chunks|
    ensures Bytes(chunks[..n]) == |Upto(payload, n)|
    decreases n
  {
    if n > 0 {
      BytesOfFragments(c, payload, chunks, n - 1);
      assert FragmentAt(c, payload, chunks[n - 1], n - 1);
      assert chunks[..n][..n - 1] == chunks[..n - 1];
    }
  }
}

/** The assembly buffer for uploads in progress. */
module HistoryUploads {
  import opened Basics
  import opened TransactionHistory

  const TTL_MS := 5 * 60_000
  const MAX_SESSIONS := 64

  datatype Reason = ManifestChanged | RetryChanged | OutOfOrder | ExtraChunk | TooManyBytes

  datatype UploadError = BadSchema | TooManySessions | Invalid(reason: Reason)
                       | NotUploaded | OtherManifest | Incomplete

  datatype Upload = Upload(manifest: Manifest, chunks: seq<Chunk>, invalid: Option<Reason>, updatedAt: int)

  type Uploads = map<string, Upload>

  // ----------------------------------------------------------- specification

  function Purged(pending: Uploads, now: int): Uploads {
    map s | s in pending && pending[s].updatedAt >= now - TTL_MS :: pending[s]
  }

  function Invalidated(h: Upload, reason: Reason, now: int): Upload {
    h.(invalid := Some(reason), updatedAt := now)
  }

  /** Offering one chunk to an upload that is not invalid. */
  function Offered(h: Upload, chunk: Chunk, now: int): Upload
    requires chunk.index >= 0
  {
    if chunk.index < |h.chunks| then
      if h.chunks[chunk.index] == chunk then h.(updatedAt := now) else Invalidated(h, RetryChanged, now)
    else if chunk.index > |h.chunks| then Invalidated(h, OutOfOrder, now)
    else if chunk.index >= h.manifest.chunkCount then Invalidated(h, ExtraChunk, now)
    else if Bytes(h.chunks) + chunk.byteLength > h.manifest.byteLength then Invalidated(h, TooManyBytes, now)
    else h.(chunks := h.chunks + [chunk], updatedAt := now)
  }

  function ErrorOf(h: Upload): Option<UploadError> {
    if h.invalid.Some? then Some(Invalid(h.invalid.value)) else None
  }

  function AfterPut(pending: Uploads, now: int, session: string, m: Manifest, chunk: Chunk): (Uploads, Option<UploadError>) {
    var p := Purged(pending, now);
    if !ValidManifest(m) || !ValidChunk(chunk) then (p, Some(BadSchema))
    else if session !in p then
      if |p| >= MAX_SESSIONS then (p, Some(TooManySessions))
      else
        var h := Offered(Upload(m, [], None, now), chunk, now);
        (p[session := h], ErrorOf(h))
    else if p[session].invalid.Some? then (p, ErrorOf(p[session]))
    else
      var h := if p[session].manifest != m then Invalidated(p[session], ManifestChanged, now)
               else Offered(p[session], chunk, now);
      (p[session := h], ErrorOf(h))
  }

  function Consumed(pending: Uploads, now: int, session: string, m: Manifest): Result<seq<Chunk>, UploadError> {
    var p := Purged(pending, now);
    if !ValidManifest(m) then Err(BadSchema)
    else if session !in p then Err(NotUploaded)
    else if p[session].invalid.Some? then Err(Invalid(p[session].invalid.value))
    else if p[session].manifest != m then Err(OtherManifest)
    else if |p[session].chunks| != m.chunkCount then Err(Incomplete)
    else Ok(p[session].chunks)
  }

  // ---------------------------------------------------------------- the store

  /** TransactionHistoryUploadStore; the injected clock is the `now` argument. */
  class UploadStore {
    var pending: Uploads

    constructor ()
      ensures pending == map[]
    {
      pending := map[];
    }

    method PurgeExpired(now: int)
      modifies this
      ensures pending == Purged(old(pending), now)
    {
      var cutoff := now - TTL_MS;
      var sessions := pending.Keys;
      ghost var start := pending;
      while sessions != {}
        invariant sessions <= start.Keys
        invariant pending == map s | s in start && (s in sessions || start[s].updatedAt >= cutoff) :: start[s]
      {
        var s :| s in sessions;
        if pending[s].updatedAt < cutoff {
          pending := pending - {s};
        }
        sessions := sessions - {s};
      }
    }

    method Invalidate(session: string, reason: Reason, now: int) returns (error: Option<UploadError>)
      requires session in pending
      modifies this
      ensures pending == old(pending)[session := Invalidated(old(pending)[session], reason, now)]
      ensures error == Some(Invalid(reason))
    {
      var h := pending[session];
      pending := pending[session := h.(invalid := Some(reason))];
      pending := pending[session := pending[session].(updatedAt := now)];
      return Some(Invalid(reason));
    }

    method HasUploadState(session: string, now: int) returns (has: bool)
      modifies this
      ensures pending == Purged(old(pending), now)
      ensures has <==> session in old(pending) && old(pending)[session].updatedAt >= now - TTL_MS
    {
      PurgeExpired(now);
      return session in pending;
    }

    method Put(session: string, m: Manifest, chunk: Chunk, now: int) returns (error: Option<UploadError>)
      modifies this
      ensures (pending, error) == AfterPut(old(pending), now, session, m, chunk)
    {
      PurgeExpired(now);
      if !ValidManifest(m) || !ValidChunk(chunk) {
        return Some(BadSchema);
      }
      if session !in pending {
        if |pending| >= MAX_SESSIONS {
          return Some(TooManySessions);
        }
        pending := pending[session := Upload(m, [], None, now)];
      } else if pending[session].invalid.Some? {
        return Some(Invalid(pending[session].invalid.value));
      } else if pending[session].manifest != m {
        error := Invalidate(session, ManifestChanged, now);
        return;
      }
      ghost var before := pending;
      error := Offer(session, chunk, now);
      assert pending == Purged(old(pending), now)[session := Offered(before[session], chunk, now)];
    }

    /** The second half of put: an exact retry, an append, or an invalidation. */
    method Offer(session: string, chunk: Chunk, now: int) returns (error: Option<UploadError>)
      requires session in pending && pending[session].invalid.None? && chunk.index >= 0
      modifies this
      ensures pending == old(pending)[session := Offered(old(pending)[session], chunk, now)]
      ensures error == ErrorOf(Offered(old(pending)[session], chunk, now))
    {
      var h := pending[session];
      if chunk.index < |h.chunks| {
        if h.chunks[chunk.index] == chunk {
          pending := pending[session := h.(updatedAt := now)];
          return None;
        }
        error := Invalidate(session, RetryChanged, now);
      } else if chunk.index != |h.chunks| {
        error := Invalidate(session, OutOfOrder, now);
      } else if chunk.index >= h.manifest.chunkCount {
        error := Invalidate(session, ExtraChunk, now);
      } else {
        var uploaded := TotalBytes(h.chunks);
        if uploaded + chunk.byteLength > h.manifest.byteLength {
          error := Invalidate(session, TooManyBytes, now);
        } else {
          pending := pending[session := h.(chunks := h.chunks + [chunk])];
          pending := pending[session := pending[session].(updatedAt := now)];
          return None;
        }
      }
    }

    method Consume(session: string, m: Manifest, now: int) returns (chunks: Result<seq<Chunk>, UploadError>)
      modifies this
      ensures pending == Purged(old(pending), now)
      ensures chunks == Consumed(old(pending), now, session, m)
    {
      PurgeExpired(now);
      if !ValidManifest(m) {
        return Err(BadSchema);
      }
      if session !in pending {
        return Err(NotUploaded);
      }
      var h := pending[session];
      if h.invalid.Some? {
        return Err(Invalid(h.invalid.value));
      }
      if h.manifest != m {
        return Err(OtherManifest);
      }
      if |h.chunks| != m.chunkCount {
        return Err(Incomplete);
      }
      return Ok(h.chunks);
    }

    method Discard(session: string)
      modifies this
      ensures pending == old(pending) - {session}
    {
      pending := pending - {session};
    }
  }

  method TotalBytes(chunks: seq<Chunk>) returns (total: int)
    ensures total == Bytes(chunks)
  {
    total := 0;
    for n := 0 to |chunks|
      invariant total == Bytes(chunks[..n])
    {
      assert chunks[..n + 1][..n] == chunks[..n];
      total := total + chunks[n].byteLength;
    }
    assert chunks[..|chunks|] == chunks;
  }

  // ---------------------------------------------------------------- all runs

  datatype Op =
    | Put(session: string, m: Manifest, chunk: Chunk)
    | Consume(session: string, m: Manifest)
    | Discard(session: string)
    | Probe(session: string)

  datatype Timed = Timed(now: int, op: Op)

  function Step(pending: Uploads, t: Timed): Uploads {
    match t.op
    case Put(session, m, chunk) => AfterPut(pending, t.now, session, m, chunk).0
    case Consume(_, _) => Purged(pending, t.now)
    case Discard(session) => pending - {session}
    case Probe(_) => Purged(pending, t.now)
  }

  function RunOps(pending: Uploads, ops: seq<Timed>): Uploads
    decreases |ops|
  {
    if ops == [] then pending else RunOps(Step(pending, ops[0]), ops[1..])
  }

  /** An upload of the session is known: touched within the last five minutes. */
  predicate Known(pending: Uploads, now: int, session: string) {
    session in pending && pending[session].updatedAt >= now - 300_000
  }

  function ChunksSoFar(pending: Uploads, now: int, session: string): seq<Chunk> {
    if Known(pending, now, session) then pending[session].chunks else []
  }

  /** Exactly which puts are accepted, and what they leave: the upload is valid and under
      this manifest, or new with fewer than 64 others waiting, and the chunk is a byte-exact
      retry or the next one within the declared count and bytes. A refused chunk marks a
      valid upload invalid and changes none of its chunks. */
  lemma {:induction false} PutsExactly(pending: Uploads, now: int, session: string, m: Manifest, chunk: Chunk)
    requires ValidManifest(m) && ValidChunk(chunk)
    ensures var (q, error) := AfterPut(pending, now, session, m, chunk);
      var known, chunks := Known(pending, now, session), ChunksSoFar(pending, now, session);
      && (error.None? <==>
            && (if known then pending[session].invalid.None? && pending[session].manifest == m
                else |Purged(pending, now)| < 64)
            && (|| (chunk.index < |chunks| && chunks[chunk.index] == chunk)
                || (chunk.index == |chunks| < m.chunkCount && Bytes(chunks) + chunk.byteLength <= m.byteLength)))
      && (error.None? ==>
            session in q && q[session] == Upload(m, if chunk.index < |chunks| then chunks else chunks + [chunk], None, now))
      && (error.Some? && known && pending[session].invalid.None? ==>
            session in q && q[session].invalid.Some? && q[session].chunks == chunks && q[session].manifest == pending[session].manifest)
  {
  }

  /** Exactly when a history can be consumed: known, valid, under this manifest, complete. */
  lemma {:induction false} ConsumesExactly(pending: Uploads, now: int, session: string, m: Manifest)
    requires ValidManifest(m)
    ensures Consumed(pending, now, session, m).Ok? <==>
      && Known(pending, now, session) && pending[session].invalid.None? && pending[session].manifest == m
      && |pending[session].chunks| == m.chunkCount
    ensures Consumed(pending, now, session, m).Ok? ==> Consumed(pending, now, session, m).value == pending[session].chunks
  {
  }

  /** Accepted chunks form an index-exact prefix within the declared count and bytes. */
  predicate ExactPrefix(h: Upload) {
    && ValidManifest(h.manifest)
    && |h.chunks| <= h.manifest.chunkCount
    && Bytes(h.chunks) <= h.manifest.byteLength
    && (forall i :: 0 <= i < |h.chunks| ==> h.chunks[i].index == i && ValidChunk(h.chunks[i]))
  }

  predicate AllExact(pending: Uploads) {
    forall s :: s in pending ==> ExactPrefix(pending[s])
  }

  lemma {:induction false} OfferedExact(h: Upload, chunk: Chunk, now: int)
    requires ExactPrefix(h) && ValidChunk(chunk)
    ensures ExactPrefix(Offered(h, chunk, now))
    ensures h.chunks <= Offered(h, chunk, now).chunks && Offered(h, chunk, now).manifest == h.manifest
  {
  }

  lemma {:induction false} PutExact(p: Uploads, now: int, session: string, m: Manifest, chunk: Chunk, h: Upload)
    requires AllExact(p) && ValidManifest(m) && ValidChunk(chunk)
    requires h == if session !in p then Offered(Upload(m, [], None, now), chunk, now)
                  else if p[session].manifest != m then Invalidated(p[session], ManifestChanged, now)
                  else Offered(p[session], chunk, now)
    ensures AllExact(p[session := h])
  {
    if session !in p {
      OfferedExact(Upload(m, [], None, now), chunk, now);
    } else if p[session].manifest == m {
      OfferedExact(p[session], chunk, now);
    }
    assert ExactPrefix(h);
  }

  lemma {:induction false} StepExact(pending: Uploads, t: Timed)
    requires AllExact(pending)
    ensures AllExact(Step(pending, t))
  {
    var p := Purged(pending, t.now);
    assert AllExact(p) by {
      forall s | s in p ensures ExactPrefix(p[s]) {
        assert s in pending;
      }
    }
    if t.op.Put? {
      var after := Step(pending, t);
      if after != p {
        PutExact(p, t.now, t.op.session, t.op.m, t.op.chunk, after[t.op.session]);
      }
    }
  }

  /** In every run, from the empty store, accepted chunks stay an exact prefix. */
  lemma {:induction false} RunsStayExact(pending: Uploads, ops: seq<Timed>)
    requires AllExact(pending)
    ensures AllExact(RunOps(pending, ops))
    decreases |ops|
  {
    if ops != [] {
      StepExact(pending, ops[0]);
      RunsStayExact(Step(pending, ops[0]), ops[1..]);
    }
  }

  /** Nothing removes the upload: it is not discarded and its time has not run out. */
  predicate Survives(pending: Uploads, t: Timed, session: string) {
    session in pending && t.op != Discard(session) && (!t.op.Discard? ==> pending[session].updatedAt >= t.now - TTL_MS)
  }

  /** An upload that survives a step keeps its manifest and its accepted chunks, and
      an invalid one is frozen. */
  lemma {:induction false} AcceptedNeverChange(pending: Uploads, t: Timed, session: string)
    requires AllExact(pending) && Survives(pending, t, session)
    ensures var after := Step(pending, t);
      && session in after
      && after[session].manifest == pending[session].manifest
      && pending[session].chunks <= after[session].chunks
      && (pending[session].invalid.Some? ==> after[session] == pending[session])
  {
    if t.op.Put? && t.op.session == session && ValidManifest(t.op.m) && ValidChunk(t.op.chunk) {
      var h := Purged(pending, t.now)[session];
      if h.invalid.None? && h.manifest == t.op.m {
        OfferedExact(h, t.op.chunk, t.now);
      }
    }
  }

  /** Whatever is consumed was never invalidated, is complete and is an exact prefix
      of the declared size under the requested manifest. */
  lemma {:induction false} ConsumedIsWhole(pending: Uploads, now: int, session: string, m: Manifest)
    requires AllExact(pending) && Consumed(pending, now, session, m).Ok?
    ensures var chunks := Consumed(pending, now, session, m).value;
      && pending[session].invalid.None? && pending[session].manifest == m
      && |chunks| == m.chunkCount && Bytes(chunks) <= m.byteLength
      && (forall i :: 0 <= i < |chunks| ==> chunks[i].index == i)
  {
  }

  ghost predicate AllSurvive(pending: Uploads, ops: seq<Timed>, session: string)
    decreases |ops|
  {
    ops != [] ==> Survives(pending, ops[0], session) && AllSurvive(Step(pending, ops[0]), ops[1..], session)
  }

  /** Over whole runs: an invalidated upload is refused to every consumer until it is
      discarded or expires. */
  lemma {:induction false} InvalidNeverConsumed(pending: Uploads, ops: seq<Timed>, session: string, now: int, m: Manifest)
    requires AllExact(pending) && session in pending && pending[session].invalid.Some?
    requires AllSurvive(pending, ops, session)
    ensures Consumed(RunOps(pending, ops), now, session, m).Err?
    decreases |ops|
  {
    if ops != [] {
      StepExact(pending, ops[0]);
      AcceptedNeverChange(pending, ops[0], session);
      InvalidNeverConsumed(Step(pending, ops[0]), ops[1..], session, now, m);
    }
  }

  // ------------------------------------------------------------- round trip

  /** The upload holds the first k of its chunks, last touched at time t. */
  predicate Holds(pending: Uploads, session: string, m: Manifest, chunks: seq<Chunk>, k: nat, t: int) {
    k <= |chunks| && session in pending && pending[session] == Upload(m, chunks[..k], None, t)
  }

  /** The rest of an orderly upload: each own step offers the next chunk or repeats an
      accepted one within the time to live; other sessions may do anything. */
  predicate Orderly(ops: seq<Timed>, session: string, m: Manifest, chunks: seq<Chunk>, k: nat, t: int)
    decreases |ops|
  {
    ops == [] ||
    var op, now := ops[0].op, ops[0].now;
    t <= now <= t + TTL_MS &&
    if op.session != session then Orderly(ops[1..], session, m, chunks, k, t)
    else
      && op.Put? && op.m == m
      && 0 <= op.chunk.index <= k && op.chunk.index < |chunks| && op.chunk == chunks[op.chunk.index]
      && Orderly(ops[1..], session, m, chunks, if op.chunk.index == k then k + 1 else k, now)
  }

  /** How many chunks of the session are in after the operations. */
  function Accepted(ops: seq<Timed>, session: string, k: nat): nat
    decreases |ops|
  {
    if ops == [] then k
    else
      Accepted(ops[1..], session,
               if ops[0].op.session == session && ops[0].op.Put? && ops[0].op.chunk.index == k then k + 1 else k)
  }

  /** When the session was last touched. */
  function LastTouch(ops: seq<Timed>, session: string, t: int): int
    decreases |ops|
  {
    if ops == [] then t else LastTouch(ops[1..], session, if ops[0].op.session == session then ops[0].now else t)
  }

  /** A list of chunks an upload under m accepts one after the other. */
  predicate Uploadable(m: Manifest, chunks: seq<Chunk>) {
    && ValidManifest(m) && |chunks| == m.chunkCount
    && (forall i :: 0 <= i < |chunks| ==> chunks[i].index == i && ValidChunk(chunks[i]))
    && (forall k :: 0 <= k <= |chunks| ==> Bytes(chunks[..k]) <= m.byteLength)
  }

  lemma {:induction false} OfferNext(h: Upload, chunks: seq<Chunk>, k: nat, j: nat, now: int)
    requires Uploadable(h.manifest, chunks) && j <= k <= |chunks| && j < |chunks|
    requires h.chunks == chunks[..k] && h.invalid.None?
    ensures Offered(h, chunks[j], now) == h.(chunks := chunks[..if j == k then k + 1 else k], updatedAt := now)
  {
    if j == k {
      assert chunks[..k + 1][..k] == chunks[..k];
      assert chunks[..k + 1] == chunks[..k] + [chunks[k]];
      assert Bytes(chunks[..k + 1]) <= h.manifest.byteLength;
    }
  }

  /** An orderly upload never fails: after any orderly operations the store holds
      exactly the chunks offered so far. */
  lemma {:induction false} OrderlyProgress(pending: Uploads, ops: seq<Timed>, session: string, m: Manifest, chunks: seq<Chunk>, k: nat, t: int)
    requires Uploadable(m, chunks) && Holds(pending, session, m, chunks, k, t)
    requires Orderly(ops, session, m, chunks, k, t)
    ensures Holds(RunOps(pending, ops), session, m, chunks, Accepted(ops, session, k), LastTouch(ops, session, t))
    decreases |ops|
  {
    if ops != [] {
      var op, now := ops[0].op, ops[0].now;
      var after := Step(pending, ops[0]);
      if op.session != session {
        OrderlyProgress(after, ops[1..], session, m, chunks, k, t);
      } else {
        var j := op.chunk.index;
        OfferNext(pending[session], chunks, k, j, now);
        OrderlyProgress(after, ops[1..], session, m, chunks, if j == k then k + 1 else k, now);
      }
    }
  }

  lemma {:induction false} FragmentsUploadable<T(!new)>(c: Codec<T>, payload: seq<Byte>, m: Manifest, chunks: seq<Chunk>)
    requires Faithful(c) && Fragments(c, payload, chunks) && ValidManifest(m)
    requires |chunks| == m.chunkCount && m.byteLength == |payload|
    ensures Uploadable(m, chunks)
  {
    forall i | 0 <= i < |chunks| ensures chunks[i].index == i && ValidChunk(chunks[i]) {
      assert FragmentAt(c, payload, chunks[i], i);
      PieceFacts(c, payload, i);
    }
    forall k | 0 <= k <= |chunks| ensures Bytes(chunks[..k]) <= |payload| {
      BytesOfFragments(c, payload, chunks, k);
    }
  }

  lemma {:induction false} BuiltManifest<T(!new)>(c: Codec<T>, transactions: seq<T>)
    requires Faithful(c)
    ensures ValidManifest(ManifestOf(c, transactions))
    ensures |ChunksOf(c, transactions)| == ManifestOf(c, transactions).chunkCount
    ensures Fragments(c, c.serialize(transactions), ChunksOf(c, transactions))
  {
  }

  lemma {:induction false} BuiltIsUploadable<T(!new)>(c: Codec<T>, transactions: seq<T>)
    requires Faithful(c)
    ensures Uploadable(ManifestOf(c, transactions), ChunksOf(c, transactions))
  {
    BuiltManifest(c, transactions);
    FragmentsUploadable(c, c.serialize(transactions), ManifestOf(c, transactions), ChunksOf(c, transactions));
  }

  lemma {:induction false} FirstPut(pending: Uploads, session: string, m: Manifest, chunks: seq<Chunk>, start: int)
    requires Uploadable(m, chunks)
    requires session !in Purged(pending, start) && |Purged(pending, start)| < MAX_SESSIONS
    ensures Holds(Step(pending, Timed(start, Put(session, m, chunks[0]))), session, m, chunks, 1, start)
  {
  }

  lemma {:induction false} ConsumeWhole(pending: Uploads, session: string, m: Manifest, chunks: seq<Chunk>, t: int, end: int)
    requires Uploadable(m, chunks) && Holds(pending, session, m, chunks, |chunks|, t) && end <= t + TTL_MS
    ensures Consumed(pending, end, session, m) == Ok(chunks)
  {
    assert chunks[..|chunks|] == chunks;
  }

  /** Fragment a list, upload its chunks in order with any exact retries and any
      traffic of other sessions, consume when the last chunk is in, reassemble:
      the same list comes back. (A faithful serializer never yields no chunk.) */
  lemma {:induction false} HistoryRoundTrip<T(!new)>(c: Codec<T>, transactions: seq<T>, pending: Uploads, session: string,
                                                     start: int, ops: seq<Timed>, end: int)
    requires Faithful(c) && ChunksOf(c, transactions) != []
    requires session !in Purged(pending, start) && |Purged(pending, start)| < MAX_SESSIONS
    requires Orderly(ops, session, ManifestOf(c, transactions), ChunksOf(c, transactions), 1, start)
    requires Accepted(ops, session, 1) == |ChunksOf(c, transactions)|
    requires end <= LastTouch(ops, session, start) + TTL_MS
    ensures var m, chunks := ManifestOf(c, transactions), ChunksOf(c, transactions);
      var after := RunOps(Step(pending, Timed(start, Put(session, m, chunks[0]))), ops);
      && Consumed(after, end, session, m) == Ok(chunks)
      && Reassembled(c, m, Consumed(after, end, session, m).value) == Ok(transactions)
  {
    var m, chunks := ManifestOf(c, transactions), ChunksOf(c, transactions);
    BuiltIsUploadable(c, transactions);
    BuildThenReassemble(c, transactions);
    FirstPut(pending, session, m, chunks, start);
    var first := Step(pending, Timed(start, Put(session, m, chunks[0])));
    OrderlyProgress(first, ops, session, m, chunks, 1, start);
    ConsumeWhole(RunOps(first, ops), session, m, chunks, LastTouch(ops, session, start), end);
  }
}
