/** Assembling a byte range from verified pieces (p2p.rs, P2pPieceManifest). */
module PieceManifest {
  import opened Base

  const MAX_P2P_READ_BYTES: nat := 8 * 1024 * 1024
  const MAX_P2P_PIECE_BYTES: nat := 8 * 1024 * 1024
  const MAX_P2P_PIECES: nat := 16_000

  type Digest = string

  datatype Manifest = Manifest(contentLength: u64, pieceLength: u64, digests: seq<Digest>)

  function New(contentLength: u64, pieceLength: u64, digests: seq<Digest>): Result<Manifest>
  {
    if contentLength == 0 || pieceLength == 0 || pieceLength > MAX_P2P_PIECE_BYTES then Err(BadRequest)
    else if contentLength + (pieceLength - 1) > U64_MAX then Err(BadRequest)
    else
      var count := (contentLength + (pieceLength - 1)) / pieceLength;
      if count > MAX_P2P_PIECES || count != |digests| then Err(BadRequest)
      else Ok(Manifest(contentLength, pieceLength, digests))
  }

  predicate Accepted(m: Manifest)
  {
    New(m.contentLength, m.pieceLength, m.digests) == Ok(m)
  }

  /** A manifest is accepted iff its pieces cover the content, the last one not in vain, and the limits are met. */
  lemma NewAccepts(contentLength: u64, pieceLength: u64, digests: seq<Digest>)
    ensures var n := |digests|;
      New(contentLength, pieceLength, digests).Ok? <==>
        && 0 < pieceLength <= 8 * 1024 * 1024 && contentLength + (pieceLength - 1) <= U64_MAX
        && 0 < n <= 16_000 && (n - 1) * pieceLength < contentLength <= n * pieceLength
    ensures match New(contentLength, pieceLength, digests)
      case Ok(m) => m == Manifest(contentLength, pieceLength, digests)
      case Err(error) => error == BadRequest
  {
    var n := |digests|;
    if 0 < pieceLength && contentLength > 0 {
      CountPieces(contentLength, pieceLength, n);
    } else if pieceLength > 0 {
      if n > 1 { MulMono(0, n - 1, pieceLength); }
    }
  }

  lemma CountPieces(length: nat, d: nat, n: nat)
    requires length > 0 && d > 0
    ensures (length + (d - 1)) / d == n <==> n > 0 && (n - 1) * d < length <= n * d
  {
    var count := (length + (d - 1)) / d;
    DivBounds(length + (d - 1), d);
    assert (count + 1) * d == count * d + d;
    assert (count - 1) * d == count * d - d;
    if n > 0 && n < count { MulMono(n, count - 1, d); }
    if n > count { MulMono(count, n - 1, d); }
  }

  function Offset(m: Manifest, index: nat): nat { index * m.pieceLength }

  function PieceSize(m: Manifest, index: nat): nat
  {
    Min(m.pieceLength, Max(0, m.contentLength - Offset(m, index)))
  }

  predicate VerifyPiece(m: Manifest, sha: Bytes -> Digest, index: nat, bytes: Bytes)
  {
    && index < |m.digests|
    && Offset(m, index) <= U64_MAX
    && |bytes| == PieceSize(m, index)
    && sha(bytes) == m.digests[index]
  }

  /** Bytes of the length that piece `n` has in the content, with the digest the manifest gives for it. */
  ghost predicate Genuine(m: Manifest, sha: Bytes -> Digest, n: nat, bytes: Bytes)
  {
    && n < |m.digests| && n * m.pieceLength < m.contentLength
    && |bytes| == Min(m.pieceLength, m.contentLength - n * m.pieceLength)
    && sha(bytes) == m.digests[n]
  }

  /** A matching digest stands for the authorised bytes: this is all that is assumed of the hash. */
  ghost predicate Authorises(m: Manifest, sha: Bytes -> Digest, content: Bytes)
  {
    && |content| == m.contentLength
    && forall n: nat, bytes: Bytes :: Genuine(m, sha, n, bytes) ==> At(content, n * m.pieceLength, bytes)
  }

  /** verify_piece accepts exactly the genuine bytes of a piece that overlaps the content. */
  lemma VerifiesGenuine(m: Manifest, sha: Bytes -> Digest, n: nat, bytes: Bytes)
    requires n * m.pieceLength < m.contentLength
    ensures VerifyPiece(m, sha, n, bytes) <==> Genuine(m, sha, n, bytes)
  {
  }

  /** Piece `n` is served and genuine. */
  ghost predicate Serves(m: Manifest, sha: Bytes -> Digest, provider: nat -> Result<Bytes>, n: nat)
  {
    provider(n).Ok? && Genuine(m, sha, n, provider(n).value)
  }

  predicate InBounds(m: Manifest, start: u64, end: u64)
  {
    start <= end < m.contentLength && end - start + 1 <= MAX_P2P_READ_BYTES
  }

  /** Where pieces up to `n` reach into the range `start..=end`. */
  function Reach(m: Manifest, start: u64, end: u64, n: nat): int
  {
    if Offset(m, n) <= start then start else Min(Offset(m, n), end + 1)
  }

  lemma DivBounds(x: nat, d: nat)
    requires d > 0
    ensures (x / d) * d <= x < (x / d + 1) * d
  {
  }

  lemma MulMono(a: nat, b: nat, d: nat)
    requires a <= b
    ensures a * d <= b * d
  {
  }

  /** Every piece that overlaps an accepted manifest's content has a digest. */
  lemma PieceExists(m: Manifest, n: nat, x: nat)
    requires Accepted(m) && Offset(m, n) <= x < m.contentLength
    ensures n < |m.digests|
  {
    var d := m.pieceLength;
    var count := (m.contentLength + (d - 1)) / d;
    DivBounds(m.contentLength + (d - 1), d);
    assert (count + 1) * d == count * d + d;
    if n >= count { MulMono(count, n, d); }
  }

  /** Where the pieces that overlap a range lie. */
  lemma Overlapping(m: Manifest, start: nat, end: nat, n: nat)
    requires m.pieceLength > 0 && start / m.pieceLength <= n <= end / m.pieceLength
    ensures Offset(m, n) <= end && start < Offset(m, n + 1) == Offset(m, n) + m.pieceLength
  {
    var d := m.pieceLength;
    DivBounds(start, d);
    DivBounds(end, d);
    MulMono(n, end / d, d);
    MulMono(start / d + 1, n + 1, d);
    assert (n + 1) * d == n * d + d;
  }

  /** The bounds of one copy: inside the piece, and they advance the reach by exactly the copied bytes. */
  lemma CopyBounds(m: Manifest, start: u64, end: u64, n: nat)
    requires Accepted(m) && InBounds(m, start, end)
    requires start / m.pieceLength <= n <= end / m.pieceLength
    ensures n < |m.digests| && Offset(m, n) <= end
    ensures var from, to := Max(0, start - Offset(m, n)), Min(end - Offset(m, n) + 1, PieceSize(m, n));
      && 0 <= from <= to <= PieceSize(m, n)
      && Offset(m, n) + from == Reach(m, start, end, n) && Offset(m, n) + to == Reach(m, start, end, n + 1)
  {
    Overlapping(m, start, end, n);
    PieceExists(m, n, end);
    hide Offset, Accepted;
  }

  lemma ReachEnds(m: Manifest, start: u64, end: u64)
    requires m.pieceLength > 0 && start <= end
    ensures Reach(m, start, end, start / m.pieceLength) == start
    ensures Reach(m, start, end, end / m.pieceLength + 1) == end + 1
  {
    hide Offset;
    Overlapping(m, start, start, start / m.pieceLength);
    Overlapping(m, end, end, end / m.pieceLength);
  }

  lemma CopyIsContent(m: Manifest, sha: Bytes -> Digest, content: Bytes, n: nat, piece: Bytes, from: nat, to: nat)
    requires Authorises(m, sha, content) && Genuine(m, sha, n, piece) && from <= to <= |piece|
    ensures Offset(m, n) + to <= |content|
    ensures piece[from..to] == content[Offset(m, n) + from..Offset(m, n) + to]
  {
    hide Genuine;
    assert At(content, Offset(m, n), piece);
    SliceAt(content, Offset(m, n), piece, from, to);
  }

  lemma SliceAt(content: Bytes, offset: nat, piece: Bytes, from: nat, to: nat)
    requires At(content, offset, piece) && from <= to <= |piece|
    ensures piece[from..to] == content[offset + from..offset + to]
  {
    assert content[offset..offset + |piece|] == piece;
    forall i | 0 <= i < to - from ensures piece[from..to][i] == content[offset + from..offset + to][i] { }
  }

  /** Every piece that overlaps the range is served and genuine. */
  ghost predicate AllServed(m: Manifest, sha: Bytes -> Digest, provider: nat -> Result<Bytes>, start: u64, end: u64)
    requires m.pieceLength > 0
  {
    forall n: nat :: start / m.pieceLength <= n <= end / m.pieceLength ==> Serves(m, sha, provider, n)
  }

  /** The digest of what was served for piece `n` is the manifest's. */
  predicate Matches(m: Manifest, sha: Bytes -> Digest, provider: nat -> Result<Bytes>, n: nat)
  {
    n < |m.digests| && provider(n).Ok? && sha(provider(n).value) == m.digests[n]
  }

  ghost predicate AllMatch(m: Manifest, sha: Bytes -> Digest, provider: nat -> Result<Bytes>, start: u64, end: u64)
    requires m.pieceLength > 0
  {
    forall n: nat :: start / m.pieceLength <= n <= end / m.pieceLength ==> Matches(m, sha, provider, n)
  }

  lemma ServedMatch(m: Manifest, sha: Bytes -> Digest, provider: nat -> Result<Bytes>, start: u64, end: u64)
    requires m.pieceLength > 0 && AllServed(m, sha, provider, start, end)
    ensures AllMatch(m, sha, provider, start, end)
  {
    forall n: nat | start / m.pieceLength <= n <= end / m.pieceLength ensures Matches(m, sha, provider, n) {
      assert Serves(m, sha, provider, n);
    }
  }

  /** The pieces of the range before `n` are served and genuine. */
  ghost predicate ServedUpTo(m: Manifest, sha: Bytes -> Digest, provider: nat -> Result<Bytes>, start: u64, n: nat)
    requires m.pieceLength > 0
  {
    forall k: nat :: start / m.pieceLength <= k < n ==> Serves(m, sha, provider, k)
  }

  ghost predicate FirstBad(m: Manifest, sha: Bytes -> Digest, provider: nat -> Result<Bytes>, start: u64, end: u64, n: nat)
    requires m.pieceLength > 0
  {
    start / m.pieceLength <= n <= end / m.pieceLength && ServedUpTo(m, sha, provider, start, n) && !Serves(m, sha, provider, n)
  }

  function Refusal(piece: Result<Bytes>): Error { if piece.Err? then piece.error else BadRequest }

  /** There is at most one first bad piece, and none iff all are served. */
  lemma FirstBadUnique(m: Manifest, sha: Bytes -> Digest, provider: nat -> Result<Bytes>, start: u64, end: u64, n: nat)
    requires m.pieceLength > 0 && FirstBad(m, sha, provider, start, end, n)
    ensures !AllServed(m, sha, provider, start, end) && forall k: nat :: FirstBad(m, sha, provider, start, end, k) ==> k == n
  {
    hide Serves;
  }

  /**
   read_verified_range. It succeeds exactly when the range is in bounds and every
   overlapping piece is served with its length and digest, and then it returns the
   authorised bytes of the range; so the closing length check cannot fail. Otherwise the
   first piece that is missing or not genuine decides the error.
   */
  method ReadVerifiedRange(m: Manifest, sha: Bytes -> Digest, ghost content: Bytes, start: u64, end: u64, provider: nat -> Result<Bytes>)
    returns (r: Result<Bytes>)
    requires Accepted(m)
    ensures r.Ok? <==> InBounds(m, start, end) && AllServed(m, sha, provider, start, end)
    ensures r.Ok? ==> |r.value| == end - start + 1
    ensures r.Ok? ==> AllMatch(m, sha, provider, start, end)
    ensures r.Ok? && Authorises(m, sha, content) ==> r.value == content[start..end + 1]
    ensures !InBounds(m, start, end) ==> r == Err(InvalidRange)
    ensures InBounds(m, start, end) ==> forall n: nat :: FirstBad(m, sha, provider, start, end, n) ==> r == Err(Refusal(provider(n)))
  {
    if start > end || end >= m.contentLength { return Err(InvalidRange); }
    if end - start + 1 > MAX_P2P_READ_BYTES { return Err(InvalidRange); }
    var first, last := start / m.pieceLength, end / m.pieceLength;
    var output: Bytes := [];
    ReachEnds(m, start, end);
    var n: nat := first;
    assert first <= last + 1 by { DivMono(start, end, m.pieceLength); }
    assert Assembled(m, sha, content, start, end, n, output);
    hide VerifyPiece, Accepted, Reach, Authorises, PieceSize, Offset, InBounds, Assembled, Genuine, Serves, FirstBad, AllServed, AllMatch, ServedUpTo;
    while n <= last
      invariant first <= n <= last + 1
      invariant ServedUpTo(m, sha, provider, start, n)
      invariant Assembled(m, sha, content, start, end, n, output)
    {
      var piece := provider(n);
      CopyBounds(m, start, end, n);
      OverlapsContent(m, start, end, n);
      if piece.Err? { Spoils(m, sha, provider, start, end, n); return Err(piece.error); }
      VerifiesGenuine(m, sha, n, piece.value);
      if !VerifyPiece(m, sha, n, piece.value) { Spoils(m, sha, provider, start, end, n); return Err(BadRequest); }
      OneMoreServed(m, sha, provider, start, n);
      GenuineSize(m, sha, n, piece.value);
      var offset := Offset(m, n);
      var from, to := Max(0, start - offset), Min(end - offset + 1, |piece.value|);
      Extended(m, sha, content, start, end, n, piece.value, from, to, output);
      output := output + piece.value[from..to];
      n := n + 1;
    }
    AssembledAll(m, sha, content, start, end, output);
    AllAreServed(m, sha, provider, start, end);
    if |output| != end - start + 1 { return Err(Storage); }
    return Ok(output);
  }

  lemma AssembledAll(m: Manifest, sha: Bytes -> Digest, content: Bytes, start: u64, end: u64, output: Bytes)
    requires m.pieceLength > 0 && start <= end && Assembled(m, sha, content, start, end, end / m.pieceLength + 1, output)
    ensures |output| == end - start + 1 && (Authorises(m, sha, content) ==> end < |content| && output == content[start..end + 1])
  {
    hide Authorises, Reach;
    ReachEnds(m, start, end);
  }

  /** Copying a verified piece's share extends the assembled range. */
  lemma Extended(m: Manifest, sha: Bytes -> Digest, content: Bytes, start: u64, end: u64, n: nat, piece: Bytes, from: nat, to: nat, output: Bytes)
    requires Assembled(m, sha, content, start, end, n, output) && Genuine(m, sha, n, piece) && from <= to <= |piece|
    requires Offset(m, n) + from == Reach(m, start, end, n) && Offset(m, n) + to == Reach(m, start, end, n + 1)
    ensures Assembled(m, sha, content, start, end, n + 1, output + piece[from..to])
  {
    hide Genuine, Reach, Authorises, Offset;
    if Authorises(m, sha, content) { CopyIsContent(m, sha, content, n, piece, from, to); }
  }

  /** `output` is the range as far as the pieces before `n` reach. */
  ghost predicate Assembled(m: Manifest, sha: Bytes -> Digest, content: Bytes, start: u64, end: u64, n: nat, output: Bytes)
  {
    var reach := Reach(m, start, end, n);
    && start <= reach && |output| == reach - start
    && (Authorises(m, sha, content) ==> reach <= |content| && output == content[start..reach])
  }

  lemma GenuineSize(m: Manifest, sha: Bytes -> Digest, n: nat, piece: Bytes)
    requires Genuine(m, sha, n, piece)
    ensures |piece| == PieceSize(m, n)
  {
  }

  lemma Spoils(m: Manifest, sha: Bytes -> Digest, provider: nat -> Result<Bytes>, start: u64, end: u64, n: nat)
    requires m.pieceLength > 0 && start / m.pieceLength <= n <= end / m.pieceLength && ServedUpTo(m, sha, provider, start, n)
    requires provider(n).Err? || !Genuine(m, sha, n, provider(n).value)
    ensures !AllServed(m, sha, provider, start, end) && FirstBad(m, sha, provider, start, end, n)
    ensures forall k: nat :: FirstBad(m, sha, provider, start, end, k) ==> k == n
  {
    hide Genuine;
    FirstBadUnique(m, sha, provider, start, end, n);
  }

  lemma OneMoreServed(m: Manifest, sha: Bytes -> Digest, provider: nat -> Result<Bytes>, start: u64, n: nat)
    requires m.pieceLength > 0 && ServedUpTo(m, sha, provider, start, n) && provider(n).Ok? && Genuine(m, sha, n, provider(n).value)
    ensures ServedUpTo(m, sha, provider, start, n + 1)
  {
    hide Genuine;
  }

  lemma AllAreServed(m: Manifest, sha: Bytes -> Digest, provider: nat -> Result<Bytes>, start: u64, end: u64)
    requires m.pieceLength > 0 && ServedUpTo(m, sha, provider, start, end / m.pieceLength + 1)
    ensures AllServed(m, sha, provider, start, end) && AllMatch(m, sha, provider, start, end)
    ensures forall k: nat :: !FirstBad(m, sha, provider, start, end, k)
  {
    hide Genuine;
    assert AllServed(m, sha, provider, start, end) by { hide Serves; }
    ServedMatch(m, sha, provider, start, end);
    hide Serves;
  }

  lemma OverlapsContent(m: Manifest, start: u64, end: u64, n: nat)
    requires m.pieceLength > 0 && InBounds(m, start, end) && start / m.pieceLength <= n <= end / m.pieceLength
    ensures n * m.pieceLength < m.contentLength
  {
    Overlapping(m, start, end, n);
  }

  lemma DivMono(a: nat, b: nat, d: nat)
    requires d > 0 && a <= b
    ensures a / d <= b / d
  {
    DivBounds(a, d);
    DivBounds(b, d);
    if a / d > b / d { MulMono(b / d + 1, a / d, d); }
  }
}
