/**
 The three ways a request is answered (data_source_manager.rs, handlers/mixed_source.rs,
 handlers/response.rs). The cache may change between any two awaits, so each call sees
 its own engine state, and a read looks at the metadata in one and opens the file in
 another.
 */
module Serving {
  import opened Base
  import opened Ranges
  import opened DiskEngine
  import opened DiskCoherence
  import opened NetSource
  import opened Tee

  datatype Route = FromCache | Stitched | FromNetwork

  /** A 206 response: its Content-Range, its Content-Length and its body. */
  datatype Response = Response(route: Route, start: u64, end: u64, total: u64, length: u64, body: Stream)

  /** A successful upstream fetch: declared length and total, and the resumable body. */
  datatype Fetched = Fetched(contentLength: u64, total: Option<u64>, body: Stream)

  // ----- handlers/mixed_source.rs -----

  /** take_bytes: exactly `limit` bytes of a stream, an error if it ends early. */
  function TakeBytes(items: Stream, limit: nat, taken: nat): Stream
  {
    if taken >= limit then []
    else if items == [] then [Fault(Network)]
    else match items[0]
      case Fault(error) => [Fault(error)]
      case Chunk(bytes) =>
        if bytes == [] then [Chunk([])] + TakeBytes(items[1..], limit, taken)
        else
          var n := Min(|bytes|, limit - taken);
          [Chunk(bytes[..n])] + TakeBytes(items[1..], limit, taken + n)
  }

  /** The stream is cut at the limit, and ends in an error exactly when there were fewer bytes. */
  lemma {:induction false} TakeBytesExact(items: Stream, limit: nat, taken: nat)
    requires taken <= limit
    ensures var need := limit - taken;
      && Payload(TakeBytes(items, limit, taken)) == Payload(items)[..Min(need, |Payload(items)|)]
      && (Clean(TakeBytes(items, limit, taken)) <==> |Payload(items)| >= need)
  {
    if taken < limit && items != [] && items[0].Chunk? {
      var bytes := items[0].bytes;
      var n := Min(|bytes|, limit - taken);
      TakeBytesExact(items[1..], limit, taken + n);
      TakeStep(items, limit, taken);
      hide TakeBytes, Payload, Clean;
      PayloadCons(bytes[..n], TakeBytes(items[1..], limit, taken + n));
      PayloadCons(bytes, items[1..]);
      assert items == [items[0]] + items[1..];
      CutCons(bytes, Payload(items[1..]), limit - taken);
    }
  }

  /** Cutting a concatenation cuts its parts. */
  lemma CutCons(a: Bytes, b: Bytes, need: nat)
    ensures var n := Min(|a|, need);
      (a + b)[..Min(need, |a + b|)] == a[..n] + b[..Min(need - n, |b|)]
  {
  }

  lemma TakeStep(items: Stream, limit: nat, taken: nat)
    requires taken < limit && items != [] && items[0].Chunk?
    ensures var n := Min(|items[0].bytes|, limit - taken);
      TakeBytes(items, limit, taken) == [Chunk(items[0].bytes[..n])] + TakeBytes(items[1..], limit, taken + n)
  {
    assert |items[0].bytes| == 0 ==> items[0].bytes[..0] == [];
  }

  lemma PayloadCons(bytes: Bytes, rest: Stream)
    ensures Payload([Chunk(bytes)] + rest) == bytes + Payload(rest)
    ensures Clean([Chunk(bytes)] + rest) <==> Clean(rest)
  {
  }

  lemma {:induction false} PayloadChain(a: Stream, b: Stream)
    ensures Payload(a + b) == if Clean(a) then Payload(a) + Payload(b) else Payload(a)
    ensures Clean(a + b) <==> Clean(a) && Clean(b)
  {
    if a == [] {
      assert a + b == b;
    } else {
      assert (a + b)[0] == a[0] && (a + b)[1..] == a[1..] + b;
      PayloadChain(a[1..], b);
      CleanStep(a);
      CleanStep(a + b);
      hide Clean;
      if a[0].Chunk? { BytesJoin(a[0].bytes, Payload(a[1..]), Payload(b)); }
    }
  }

  lemma BytesJoin(x: Bytes, y: Bytes, z: Bytes)
    ensures x + (y + z) == x + y + z
  {
  }

  /** create_mixed_stream: the cached part, then the network part, each cut to its size. */
  function MixedStream(cached: Stream, network: Stream, cacheSize: nat, networkSize: nat): Stream
  {
    TakeBytes(cached, cacheSize, 0) + TakeBytes(network, networkSize, 0)
  }

  // ----- responses -----

  function Build(route: Route, body: Stream, start: u64, end: u64, total: u64): Result<Response>
  {
    if end == OPEN_ENDED then Err(InvalidRange)
    else match RangeLength(start, end)
      case Err(error) => Err(error)
      case Ok(length) => Ok(Response(route, start, end, total, length, body))
  }

  function GetOr(total: Option<u64>): u64 { if total.Some? then total.value else 0 }

  /** A cache read: the states in which it looks at the metadata and opens the file, and what happens to it for each range it may be asked for. */
  datatype CacheRead = CacheRead(looked: Engine, open: Engine, io: (u64, u64) -> ReadIo)

  function ReadStream(read: CacheRead, key: Key, start: u64, end: u64): Result<Stream>
  {
    match ReadAcross(read.looked, read.open, key, start, end)
    case Err(error) => Err(error)
    case Ok(_) => if read.io(start, end).opens then Ok(read.io(start, end).items) else Err(Storage)
  }

  function TryServeFromCache(check: Engine, read: CacheRead, key: Key, total: Option<u64>, start: u64, requestedEnd: u64): Result<Option<Response>>
  {
    if total.None? then Ok(None)
    else match ResolveRange(start, requestedEnd, total)
      case Err(error) => Err(error)
      case Ok((s, e)) =>
        if !CheckRange(check, key, s, e) then Ok(None)
        else match ReadStream(read, key, s, e)
          case Err(error) => Err(error)
          case Ok(stream) =>
            match Build(FromCache, stream, s, e, total.value)
            case Err(error) => Err(error)
            case Ok(response) => Ok(Some(response))
  }

  datatype MixedPlan = NoCache | WholeRangeCached | Stitch(cachedEnd: u64)

  function PlanMixed(start: u64, end: u64, cachedSize: u64): MixedPlan
  {
    if cachedSize <= start then NoCache
    else if cachedSize > end then WholeRangeCached
    else Stitch(cachedSize)
  }

  predicate MixedGuard(start: u64, end: u64, cachedEnd: u64)
  {
    end == OPEN_ENDED || start > end || cachedEnd <= start || cachedEnd > end
  }

  /** MixedSourceHandler::handle: the client side of the tee, stitched behind the cached part. */
  function HandleMixed(read: CacheRead, key: Key, fetched: Result<Fetched>, start: u64, end: u64, cachedEnd: u64): Result<Response>
  {
    if MixedGuard(start, end, cachedEnd) then Err(InvalidRange)
    else match fetched
      case Err(error) => Err(error)
      case Ok(f) =>
        var end' := ClampEnd(cachedEnd, end, f.contentLength);
        match RangeLength(cachedEnd, end')
        case Err(error) => Err(error)
        case Ok(networkSize) =>
          var cacheSize := cachedEnd - start;
          if cacheSize + networkSize > U64_MAX then Err(InvalidRange)
          else match ReadStream(read, key, start, cachedEnd - 1)
            case Err(error) => Err(error)
            case Ok(cached) =>
              Build(Stitched, MixedStream(cached, UpToError(f.body), cacheSize, networkSize), start, end', GetOr(f.total))
  }

  /** One attempt at the two cache routes: what each call meets, and the stitch's fetch. */
  datatype Pass = Pass(
    meta: Engine,
    cacheCheck: Engine, cacheRead: CacheRead,
    size: Option<u64>,
    wholeCheck: Engine, wholeRead: CacheRead,
    stitchCheck: Engine, stitchRead: CacheRead, stitchFetch: Result<Fetched>)

  function TryServeMixed(pass: Pass, key: Key, total: Option<u64>, start: u64, requestedEnd: u64): Result<Option<Response>>
  {
    if total.None? then Ok(None)
    else match ResolveRange(start, requestedEnd, total)
      case Err(error) => Err(error)
      case Ok((s, e)) =>
        match PlanMixed(s, e, GetOr(pass.size))
        case NoCache => Ok(None)
        case WholeRangeCached => TryServeFromCache(pass.wholeCheck, pass.wholeRead, key, total, s, requestedEnd)
        case Stitch(cachedEnd) =>
          if !CheckRange(pass.stitchCheck, key, s, cachedEnd - 1) then Ok(None)
          else match HandleMixed(pass.stitchRead, key, pass.stitchFetch, s, e, cachedEnd)
            case Err(error) => Err(error)
            case Ok(response) => Ok(Some(response))
  }

  function CacheRoutes(pass: Pass, key: Key, total: Option<u64>, start: u64, requestedEnd: u64): Result<Option<Response>>
  {
    var cached := TryServeFromCache(pass.cacheCheck, pass.cacheRead, key, total, start, requestedEnd);
    if cached.Err? || cached.value.Some? then cached
    else TryServeMixed(pass, key, total, start, requestedEnd)
  }

  function FetchFromNetwork(fetched: Result<Fetched>, start: u64, requestedEnd: u64): Result<Response>
  {
    match fetched
    case Err(error) => Err(error)
    case Ok(f) =>
      match ResolveRange(start, requestedEnd, f.total)
      case Err(error) => Err(error)
      case Ok((s, e)) => Build(FromNetwork, UpToError(f.body), s, ClampEnd(s, e, f.contentLength), GetOr(f.total))
  }

  /**
   process_request after parsing. The first pass may need a probe for a suffix range;
   a follower makes a second pass with fresh metadata after its wait.
   */
  function ProcessRequest(spec: RangeSpec, key: Key, first: Pass, probe: Result<Fetched>, leads: bool, second: Pass, network: Result<Fetched>): Result<Response>
  {
    var known := View(first.meta, key).total;
    if spec.Suffix? && known.None? && probe.Err? then Err(probe.error)
    else
      var total := if spec.Suffix? && known.None? then probe.value.total else known;
      match Endpoints(spec, total)
      case Err(error) => Err(error)
      case Ok((start, requestedEnd)) =>
        var served := CacheRoutes(first, key, total, start, requestedEnd);
        if served.Err? then Err(served.error)
        else if served.value.Some? then Ok(served.value.value)
        else if leads then FetchFromNetwork(network, start, requestedEnd)
        else
          var again := CacheRoutes(second, key, View(second.meta, key).total, start, requestedEnd);
          if again.Err? then Err(again.error)
          else if again.value.Some? then Ok(again.value.value)
          else FetchFromNetwork(network, start, requestedEnd)
  }

  // ----- what the environment owes -----

  ghost predicate TrueTotal(origin: Key -> Bytes, key: Key, e: Engine)
  {
    View(e, key).total.Some? ==> View(e, key).total.value == |origin(key)|
  }

  /** The metadata of the state is true. */
  ghost predicate Trusty(origin: Key -> Bytes, key: Key, e: Engine)
  {
    Believable(origin, e, key) && TrueTotal(origin, key, e)
  }

  /**
   A read believes true metadata, a file that is promised anything is not replaced before
   it is opened, and the read streams what the file holds, up to an error at any point.
   */
  ghost predicate TrustyRead(origin: Key -> Bytes, key: Key, read: CacheRead)
  {
    && Believable(origin, read.looked, key)
    && (key in read.open.disk.data && View(read.looked, key).completed != [] ==> KeepsFile(origin(key), read.looked.disk, read.open.disk, key))
    && forall start: u64, end: u64 :: LegalRead(read.open, key, start, end, read.io(start, end))
  }

  ghost predicate TrustyPass(origin: Key -> Bytes, key: Key, pass: Pass)
  {
    && TrueTotal(origin, key, pass.meta)
    && TrustyRead(origin, key, pass.cacheRead) && TrustyRead(origin, key, pass.wholeRead) && TrustyRead(origin, key, pass.stitchRead)
  }

  /** An upstream answer to a request from `from`: contiguous origin bytes and a true total. */
  ghost predicate FaithfulFetch(content: Bytes, from: u64, fetched: Result<Fetched>)
  {
    fetched.Ok? ==>
      && Faithful(content, from, fetched.value.body)
      && (fetched.value.total.Some? ==> fetched.value.total.value == |content|)
  }

  /** The stitch asks the network for the bytes after the cached part. */
  ghost predicate FaithfulStitch(content: Bytes, pass: Pass)
  {
    FaithfulFetch(content, GetOr(pass.size), pass.stitchFetch)
  }

  // ----- transparency -----

  /** The body starts with origin bytes at the announced start; without an error it is the announced span. */
  ghost predicate Exact(content: Bytes, r: Response)
  {
    && r.start <= r.end < |content| && r.length == r.end - r.start + 1
    && |Payload(r.body)| <= r.length && At(content, r.start, Payload(r.body))
    && (Clean(r.body) <==> |Payload(r.body)| == r.length)
  }

  /** From the network: origin bytes, contiguous from the announced start. */
  ghost predicate Contiguous(content: Bytes, r: Response)
  {
    r.start <= r.end && r.length == r.end - r.start + 1 && Faithful(content, r.start, r.body)
  }

  /** The announced total is the resource's length; an upstream that names none leaves it at zero. */
  ghost predicate TotalTold(content: Bytes, r: Response)
  {
    r.total == |content| || (r.total == 0 && r.route != FromCache)
  }

  ghost predicate Transparent(content: Bytes, r: Response)
  {
    Contiguous(content, r) && (r.route != FromNetwork ==> Exact(content, r)) && TotalTold(content, r)
  }

  /** What a cache read streams: origin bytes from its start, all of them exactly if it does not err. */
  ghost predicate Streams(content: Bytes, start: nat, end: nat, items: Stream)
  {
    && end < |content| && |Payload(items)| <= end - start + 1 && At(content, start, Payload(items))
    && (Clean(items) <==> |Payload(items)| == end - start + 1)
  }

  lemma ReadStreamIsOrigin(origin: Key -> Bytes, read: CacheRead, key: Key, start: u64, end: u64)
    requires TrustyRead(origin, key, read) && start <= end != OPEN_ENDED && ReadStream(read, key, start, end).Ok?
    ensures Streams(origin(key), start, end, ReadStream(read, key, start, end).value)
  {
    hide Believable, KeepsFile, Covered, OpenExtent, Payload, Clean;
    ReadAcrossIsOrigin(origin, read.looked, read.open, key, start, end);
    var items := read.io(start, end).items;
    assert LegalRead(read.open, key, start, end, read.io(start, end));
    PrefixIsAt(origin(key), start, end, Payload(items));
  }

  lemma PrefixIsAt(content: Bytes, start: nat, end: nat, bytes: Bytes)
    requires start <= end < |content| && bytes <= content[start..end + 1]
    ensures At(content, start, bytes)
  {
    assert content[start..start + |bytes|] == content[start..end + 1][..|bytes|];
  }

  lemma CacheRouteExact(origin: Key -> Bytes, check: Engine, read: CacheRead, key: Key, total: Option<u64>, start: u64, requestedEnd: u64)
    requires TrustyRead(origin, key, read) && start <= requestedEnd
    ensures match TryServeFromCache(check, read, key, total, start, requestedEnd)
      case Ok(Some(r)) =>
        && Exact(origin(key), r) && r.route == FromCache
        && total.Some? && r.start == start && r.end == Min(requestedEnd, total.value - 1) && r.total == total.value
      case _ => true
  {
    hide CheckRange, ReadStream, TrustyRead, At, Payload, Clean;
    if total.Some? && ResolveRange(start, requestedEnd, total).Ok? {
      var (s, e) := ResolveRange(start, requestedEnd, total).value;
      if CheckRange(check, key, s, e) && ReadStream(read, key, s, e).Ok? {
        ReadStreamIsOrigin(origin, read, key, s, e);
      }
    }
  }

  /** The guard of the mixed handler cannot fire on a plan made from a resolved range. */
  lemma MixedGuardNeverFires(start: u64, requestedEnd: u64, total: u64, cachedSize: u64)
    requires start <= requestedEnd && ResolveRange(start, requestedEnd, Some(total)).Ok?
    ensures var (s, e) := ResolveRange(start, requestedEnd, Some(total)).value;
      PlanMixed(s, e, cachedSize).Stitch? ==> !MixedGuard(s, e, cachedSize)
  {
  }

  /** The handler refuses anything but a closed range with a proper seam inside it. */
  lemma MixedArgumentsChecked(read: CacheRead, key: Key, fetched: Result<Fetched>, start: u64, end: u64, cachedEnd: u64)
    requires !(start < cachedEnd <= end && end != OPEN_ENDED)
    ensures HandleMixed(read, key, fetched, start, end, cachedEnd) == Err(InvalidRange)
  {
  }

  /** Nothing is lost at the seam: all the cached part gives, and if that is whole, all of the network part that is asked for. */
  ghost predicate StitchesAll(cached: Stream, network: Stream, networkSize: nat, body: Stream)
  {
    && (Clean(body) <==> Clean(cached) && |Payload(network)| >= networkSize)
    && (!Clean(cached) ==> Payload(body) == Payload(cached))
    && (Clean(cached) ==> Payload(body) == Payload(cached) + Payload(network)[..Min(networkSize, |Payload(network)|)])
  }

  /** A stitched body is the cached part followed by the network part, and errs exactly if either falls short. */
  lemma MixedStreamExact(content: Bytes, cached: Stream, network: Stream, start: nat, cachedEnd: nat, end: nat)
    requires start < cachedEnd <= end < |content|
    requires Streams(content, start, cachedEnd - 1, cached)
    requires Faithful(content, cachedEnd, network)
    ensures var body := MixedStream(cached, network, cachedEnd - start, end - cachedEnd + 1);
      && |Payload(body)| <= end - start + 1 && At(content, start, Payload(body))
      && (Clean(body) <==> |Payload(body)| == end - start + 1)
      && StitchesAll(cached, network, end - cachedEnd + 1, body)
  {
    hide TakeBytes, At, Payload, Clean;
    var a := TakeBytes(cached, cachedEnd - start, 0);
    var b := TakeBytes(network, end - cachedEnd + 1, 0);
    assert MixedStream(cached, network, cachedEnd - start, end - cachedEnd + 1) == a + b;
    TakeBytesExact(cached, cachedEnd - start, 0);
    assert Payload(a) == Payload(cached)[..|Payload(cached)|] == Payload(cached);
    CutIsAt(content, cachedEnd, network, end - cachedEnd + 1);
    TakeBytesExact(network, end - cachedEnd + 1, 0);
    PayloadChain(a, b);
    AtSplit(content, start, Payload(a), Payload(b));
  }

  lemma CutIsAt(content: Bytes, offset: nat, network: Stream, n: nat)
    requires Faithful(content, offset, network) && offset + n <= |content|
    ensures var b := TakeBytes(network, n, 0);
      At(content, offset, Payload(b)) && |Payload(b)| <= n && (Clean(b) <==> |Payload(b)| == n)
  {
    TakeBytesExact(network, n, 0);
    var p := Payload(network);
    var m := Min(n, |p|);
    assert p == p[..m] + p[m..];
    AtSplit(content, offset, p[..m], p[m..]);
  }

  lemma StitchExact(origin: Key -> Bytes, read: CacheRead, key: Key, fetched: Result<Fetched>, start: u64, end: u64, cachedEnd: u64)
    requires TrustyRead(origin, key, read) && start < cachedEnd <= end < |origin(key)| && end != OPEN_ENDED
    requires FaithfulFetch(origin(key), cachedEnd, fetched)
    ensures match HandleMixed(read, key, fetched, start, end, cachedEnd)
      case Ok(r) => Exact(origin(key), r) && r.route == Stitched && r.start == start && cachedEnd <= r.end <= end && TotalTold(origin(key), r)
      case Err(_) => true
  {
    hide ReadStream, TrustyRead, At, Payload, Clean, MixedStream;
    if fetched.Ok? && ReadStream(read, key, start, cachedEnd - 1).Ok? {
      ReadStreamIsOrigin(origin, read, key, start, cachedEnd - 1);
      UpToErrorKeeps(fetched.value.body);
      var end' := ClampEnd(cachedEnd, end, fetched.value.contentLength);
      assert cachedEnd <= end' <= end;
      MixedStreamExact(origin(key), ReadStream(read, key, start, cachedEnd - 1).value, UpToError(fetched.value.body), start, cachedEnd, end');
    }
  }

  lemma MixedRouteExact(origin: Key -> Bytes, pass: Pass, key: Key, total: Option<u64>, start: u64, requestedEnd: u64)
    requires TrustyPass(origin, key, pass) && start <= requestedEnd
    requires FaithfulStitch(origin(key), pass) && (total.Some? ==> total.value == |origin(key)|)
    ensures match TryServeMixed(pass, key, total, start, requestedEnd)
      case Ok(Some(r)) =>
        && Exact(origin(key), r) && r.route != FromNetwork
        && total.Some? && r.start == start && r.end <= Min(requestedEnd, total.value - 1) && TotalTold(origin(key), r)
      case _ => true
  {
    hide CheckRange, HandleMixed, TryServeFromCache, View, Coherent, Exact, FaithfulFetch, TrustyRead;
    if total.Some? && ResolveRange(start, requestedEnd, total).Ok? {
      var (s, e) := ResolveRange(start, requestedEnd, total).value;
      CacheRouteExact(origin, pass.wholeCheck, pass.wholeRead, key, total, s, requestedEnd);
      if PlanMixed(s, e, GetOr(pass.size)).Stitch? {
        StitchExact(origin, pass.stitchRead, key, pass.stitchFetch, s, e, GetOr(pass.size));
      }
    }
  }

  lemma CacheRoutesTransparent(origin: Key -> Bytes, pass: Pass, key: Key, total: Option<u64>, start: u64, requestedEnd: u64)
    requires TrustyPass(origin, key, pass) && start <= requestedEnd
    requires FaithfulStitch(origin(key), pass) && (total.Some? ==> total.value == |origin(key)|)
    ensures match CacheRoutes(pass, key, total, start, requestedEnd)
      case Ok(Some(r)) => Transparent(origin(key), r) && r.route != FromNetwork && r.start == start
      case _ => true
  {
    hide TryServeFromCache, TryServeMixed, Trusty, TrustyRead, FaithfulFetch, At, Payload;
    CacheRouteExact(origin, pass.cacheCheck, pass.cacheRead, key, total, start, requestedEnd);
    MixedRouteExact(origin, pass, key, total, start, requestedEnd);
  }

  lemma NetworkRouteContiguous(content: Bytes, fetched: Result<Fetched>, start: u64, requestedEnd: u64)
    requires FaithfulFetch(content, start, fetched) && start <= requestedEnd
    ensures match FetchFromNetwork(fetched, start, requestedEnd)
      case Ok(r) => Transparent(content, r) && r.start == start
      case Err(_) => true
  {
    if fetched.Ok? { UpToErrorKeeps(fetched.value.body); }
  }

  /**
   Route transparency: whichever route answers, and however the cache changed between
   its calls, the body is the origin's bytes from the requested start.
   */
  lemma EveryRouteServesOrigin(origin: Key -> Bytes, spec: RangeSpec, key: Key, first: Pass, probe: Result<Fetched>, leads: bool, second: Pass, network: Result<Fetched>, start: u64)
    requires spec.Offset? ==> spec.start <= spec.end && start == spec.start
    requires spec.Suffix? ==> spec.length > 0 && start == Max(0, |origin(key)| - spec.length)
    requires TrustyPass(origin, key, first) && TrustyPass(origin, key, second)
    requires FaithfulFetch(origin(key), 0, probe) && FaithfulFetch(origin(key), start, network)
    requires FaithfulStitch(origin(key), first) && FaithfulStitch(origin(key), second)
    ensures match ProcessRequest(spec, key, first, probe, leads, second, network)
      case Ok(r) => Transparent(origin(key), r) && r.start == start
      case Err(_) => true
  {
    hide CacheRoutes, FetchFromNetwork, Coherent, View, FaithfulStitch, Transparent, At, Payload, TrustyRead;
    var known := View(first.meta, key).total;
    if spec.Suffix? && known.None? && probe.Err? { return; }
    var total := if spec.Suffix? && known.None? then probe.value.total else known;
    if Endpoints(spec, total).Ok? {
      var (s, requestedEnd) := Endpoints(spec, total).value;
      CacheRoutesTransparent(origin, first, key, total, s, requestedEnd);
      CacheRoutesTransparent(origin, second, key, View(second.meta, key).total, s, requestedEnd);
      NetworkRouteContiguous(origin(key), network, s, requestedEnd);
    }
  }

  /**
   A range that is cached when asked for is served from the cache, whatever the network
   does: if the file opens the response announces the whole range, and it carries all of
   it unless reading the file fails.
   */
  lemma CachedIsServedOffline(origin: Key -> Bytes, spec: RangeSpec, key: Key, first: Pass, probe: Result<Fetched>, leads: bool, second: Pass, network: Result<Fetched>, start: u64, end: u64)
    requires TrustyRead(origin, key, first.cacheRead) && View(first.meta, key).total.Some?
    requires spec.Offset? ==> spec.start <= spec.end
    requires spec.Suffix? ==> spec.length > 0
    requires var total := View(first.meta, key).total;
      Endpoints(spec, total).Ok? && ResolveRange(Endpoints(spec, total).value.0, Endpoints(spec, total).value.1, total) == Ok((start, end))
    requires CheckRange(first.cacheCheck, key, start, end) && Covered(first.cacheRead.looked, key, start, end) && key in first.cacheRead.open.disk.data
    ensures var io := first.cacheRead.io(start, end);
      match ProcessRequest(spec, key, first, probe, leads, second, network)
      case Ok(r) =>
        && io.opens && r.route == FromCache && r.start == start && r.end == end && Exact(origin(key), r)
        && (Clean(r.body) <==> Clean(io.items))
        && (Clean(r.body) ==> Payload(r.body) == origin(key)[start..end + 1])
      case Err(_) => !io.opens
  {
    hide CheckRange, Covered, View, Believable, KeepsFile, TryServeMixed, FetchFromNetwork, ReadAcross, LegalRead;
    var total := View(first.meta, key).total;
    var (s, requestedEnd) := Endpoints(spec, total).value;
    ReadAcrossIsOrigin(origin, first.cacheRead.looked, first.cacheRead.open, key, start, end);
    CacheRouteExact(origin, first.cacheCheck, first.cacheRead, key, total, s, requestedEnd);
  }

  /** When the cache holds a proper prefix of the range and the network the rest, the answer is the stitch. */
  lemma PartlyCachedIsStitched(origin: Key -> Bytes, pass: Pass, key: Key, total: u64, start: u64, requestedEnd: u64, end: u64)
    requires TrustyRead(origin, key, pass.stitchRead) && start <= requestedEnd && ResolveRange(start, requestedEnd, Some(total)) == Ok((start, end))
    requires !CheckRange(pass.cacheCheck, key, start, end)
    requires pass.size.Some? && start < pass.size.value <= end && pass.stitchFetch.Ok? && pass.stitchRead.io(start, pass.size.value - 1).opens
    requires CheckRange(pass.stitchCheck, key, start, pass.size.value - 1)
    requires Covered(pass.stitchRead.looked, key, start, pass.size.value - 1) && key in pass.stitchRead.open.disk.data
    ensures match CacheRoutes(pass, key, Some(total), start, requestedEnd)
      case Ok(Some(r)) => r.route == Stitched && r.start == start && r.end == ClampEnd(pass.size.value, end, pass.stitchFetch.value.contentLength)
      case _ => false
  {
    hide CheckRange, Covered, Believable, KeepsFile, ReadAcross, LegalRead, MixedStream, UpToError;
    ReadAcrossIsOrigin(origin, pass.stitchRead.looked, pass.stitchRead.open, key, start, pass.size.value - 1);
  }

  // ----- where the faithful fetches come from -----

  /** NetworkHandler::fetch: the total is the one in Content-Range, or the length of a plain 200. */
  function FetchedFrom(reply: Reply, contentLength: u64, body: Stream): Fetched
  {
    var declared := if reply.contentRange.Some? && reply.contentRange.value.total.Some? then reply.contentRange.value.total.value else 0;
    var total := if declared == 0 && reply.status == 200 then contentLength else declared;
    Fetched(contentLength, if total > 0 then Some(total) else None, body)
  }

  /** The total is the one that Content-Range names, else the length of a plain 200; zero counts as unknown. */
  lemma FetchedTotal(reply: Reply, contentLength: u64, body: Stream)
    ensures var f := FetchedFrom(reply, contentLength, body);
      var named := if reply.contentRange.Some? && reply.contentRange.value.total.Some? then reply.contentRange.value.total.value else 0;
      && f.contentLength == contentLength && f.body == body
      && (named > 0 ==> f.total == Some(named))
      && (named == 0 && reply.status == 200 && contentLength > 0 ==> f.total == Some(contentLength))
      && (named == 0 && (reply.status != 200 || contentLength == 0) ==> f.total == None)
  {
  }

  /** A resumable download from an honest server is a faithful fetch, whichever connections broke on the way. */
  lemma HonestFetchIsFaithful(content: Bytes, reply: Reply, job: Job, trace: seq<Event>)
    requires Honest(content, reply) && Accept(reply, job.start, job.end).Ok? && job.body == reply.body
    requires HonestServer(content, job.end, job.retry)
    requires Streamed(content, job, trace)
    ensures FaithfulFetch(content, job.start, Ok(FetchedFrom(reply, Accept(reply, job.start, job.end).value, Items(trace))))
  {
    hide At, Payload, Items, Received, Complete, ResumesExactly;
    AcceptedIsAligned(content, reply, job.start, job.end);
    ItemsCarryReceived(trace);
  }

  /** What the tee hands the cache writer is a faithful write at the fetched offset. */
  lemma TeeWritesFaithfully(origin: Key -> Bytes, key: Key, from: u64, end: u64, f: Fetched, accepts: nat -> bool, io: WriteIo)
    requires FaithfulFetch(origin(key), from, Ok(f))
    ensures FaithfulOp(origin, Write(key, from, end, Seen(f.body, accepts), io))
  {
    SeenIsFaithful(origin(key), from, f.body, accepts);
  }

  /** A request and all that the environment decides about serving it. */
  datatype Exchange = Exchange(first: Pass, probe: Result<Fetched>, leads: bool, second: Pass, network: Result<Fetched>)

  function Serve(spec: RangeSpec, key: Key, x: Exchange): Result<Response>
  {
    ProcessRequest(spec, key, x.first, x.probe, x.leads, x.second, x.network)
  }

  ghost predicate TrustyExchange(origin: Key -> Bytes, key: Key, start: u64, x: Exchange)
  {
    && TrustyPass(origin, key, x.first) && TrustyPass(origin, key, x.second)
    && FaithfulFetch(origin(key), 0, x.probe) && FaithfulFetch(origin(key), start, x.network)
    && FaithfulStitch(origin(key), x.first) && FaithfulStitch(origin(key), x.second)
  }

  /**
   Two answers to the same request, served at different times by whatever routes, never
   disagree: one body is a prefix of the other, and two error-free ones that do not come
   from the network alone and announce the same end are equal.
   */
  lemma RoutesAgree(origin: Key -> Bytes, spec: RangeSpec, key: Key, start: u64, x: Exchange, y: Exchange)
    requires spec.Offset? ==> spec.start <= spec.end && start == spec.start
    requires spec.Suffix? ==> spec.length > 0 && start == Max(0, |origin(key)| - spec.length)
    requires TrustyExchange(origin, key, start, x) && TrustyExchange(origin, key, start, y)
    ensures Serve(spec, key, x).Ok? && Serve(spec, key, y).Ok? ==>
      var a, b := Serve(spec, key, x).value, Serve(spec, key, y).value;
      && a.start == b.start && (Payload(a.body) <= Payload(b.body) || Payload(b.body) <= Payload(a.body))
      && (a.route != FromNetwork && b.route != FromNetwork && a.end == b.end && Clean(a.body) && Clean(b.body) ==>
            Payload(a.body) == Payload(b.body))
  {
    hide ProcessRequest, TrustyPass, FaithfulFetch, FaithfulStitch, At, Payload, Clean;
    EveryRouteServesOrigin(origin, spec, key, x.first, x.probe, x.leads, x.second, x.network, start);
    EveryRouteServesOrigin(origin, spec, key, y.first, y.probe, y.leads, y.second, y.network, start);
    if Serve(spec, key, x).Ok? && Serve(spec, key, y).Ok? {
      SameStartAgrees(origin(key), start, Payload(Serve(spec, key, x).value.body), Payload(Serve(spec, key, y).value.body));
    }
  }

  lemma SameStartAgrees(content: Bytes, start: nat, a: Bytes, b: Bytes)
    requires (a == [] || At(content, start, a)) && (b == [] || At(content, start, b))
    ensures a <= b || b <= a
    ensures |a| == |b| ==> a == b
  {
    if |a| <= |b| {
      if a != [] { assert b[..|a|] == content[start..start + |a|] == a; }
    } else {
      if b != [] { assert a[..|b|] == content[start..start + |b|] == b; }
    }
  }
}
