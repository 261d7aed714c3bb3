/** Which requests are answered, by which route and with what: the positive side of Serving. */
module Answers {
  import opened Base
  import opened Ranges
  import opened DiskEngine
  import opened DiskCoherence
  import opened Tee
  import opened Serving

  /** The part of a request that lies in a resource of known length. */
  function LastOf(total: u64, requestedEnd: u64): int { Min(requestedEnd, total - 1) }

  /**
   An attempt at the cache routes meets nothing it can use: no total is known, or the range
   is not covered when it looks, nor when the file turns out to reach beyond the range, and
   the prefix the file reaches is empty or not covered.
   */
  predicate NothingCached(pass: Pass, key: Key, total: Option<u64>, start: u64, requestedEnd: u64)
  {
    total.Some? ==>
      var last := LastOf(total.value, requestedEnd);
      && 0 <= start <= last
      && !CheckRange(pass.cacheCheck, key, start, last)
      && var size := GetOr(pass.size);
         (size <= start || !CheckRange(if size > last then pass.wholeCheck else pass.stitchCheck, key, start, if size > last then last else size - 1))
  }

  lemma NothingIsFound(pass: Pass, key: Key, total: Option<u64>, start: u64, requestedEnd: u64)
    requires start <= requestedEnd && NothingCached(pass, key, total, start, requestedEnd)
    ensures CacheRoutes(pass, key, total, start, requestedEnd) == Ok(None)
  {
    hide CheckRange, HandleMixed, ReadStream;
  }

  /** The total a request is resolved with: the recorded one, or for a suffix the probed one. */
  predicate TotalKnown(spec: RangeSpec, key: Key, first: Pass, probe: Result<Fetched>, total: Option<u64>)
  {
    var known := View(first.meta, key).total;
    if spec.Suffix? && known.None? then probe.Ok? && total == probe.value.total else total == known
  }

  /** The bytes the request asks for: an offset range as it stands, a suffix as the last bytes of the resource. */
  predicate Asks(spec: RangeSpec, total: Option<u64>, start: u64, requestedEnd: u64)
  {
    match spec
    case Offset(s, e) => start == s && requestedEnd == e
    case Suffix(length) => total.Some? && total.value > 0 && start == Max(0, total.value - length) && requestedEnd == total.value - 1
  }

  /** A fetch can answer the request: it starts inside the resource, and an open end can be closed. */
  predicate Resolvable(f: Fetched, start: u64, requestedEnd: u64)
  {
    if f.total.Some? then start < f.total.value else requestedEnd != OPEN_ENDED
  }

  /** The last byte that was asked for, that exists, and that the upstream announced. */
  function FetchedEnd(f: Fetched, start: u64, requestedEnd: u64): int
  {
    var last := if f.total.Some? then LastOf(f.total.value, requestedEnd) else requestedEnd;
    if f.contentLength == 0 then last else Min(last, start + f.contentLength - 1)
  }

  ghost predicate FromFetch(f: Fetched, start: u64, requestedEnd: u64, r: Response)
  {
    && r.route == FromNetwork && r.start == start && r.end == FetchedEnd(f, start, requestedEnd)
    && r.length == r.end - r.start + 1 && r.total == GetOr(f.total)
    && Payload(r.body) == Payload(f.body) && (Clean(r.body) <==> Clean(f.body))
  }

  lemma FetchAnswers(f: Fetched, start: u64, requestedEnd: u64)
    requires start <= requestedEnd
    ensures var r := FetchFromNetwork(Ok(f), start, requestedEnd);
      if Resolvable(f, start, requestedEnd) then r.Ok? && FromFetch(f, start, requestedEnd, r.value) else r == Err(InvalidRange)
  {
    hide Payload, Clean;
    UpToErrorKeeps(f.body);
  }

  /**
   A request the cache cannot help with is answered from the network, by the leader at once
   and by a follower after its second attempt: whole and exact as the upstream answers, or
   with the upstream's own error.
   */
  lemma UncachedIsFetched(spec: RangeSpec, key: Key, first: Pass, probe: Result<Fetched>, leads: bool, second: Pass, network: Result<Fetched>, total: Option<u64>, start: u64, requestedEnd: u64)
    requires TotalKnown(spec, key, first, probe, total) && Asks(spec, total, start, requestedEnd) && start <= requestedEnd
    requires NothingCached(first, key, total, start, requestedEnd)
    requires leads || NothingCached(second, key, View(second.meta, key).total, start, requestedEnd)
    ensures var r := ProcessRequest(spec, key, first, probe, leads, second, network);
      match network
      case Ok(f) => if Resolvable(f, start, requestedEnd) then r.Ok? && FromFetch(f, start, requestedEnd, r.value) else r == Err(InvalidRange)
      case Err(error) => r == Err(error)
  {
    hide CacheRoutes, FetchFromNetwork, View, NothingCached, Resolvable, FromFetch;
    NothingIsFound(first, key, total, start, requestedEnd);
    if !leads { NothingIsFound(second, key, View(second.meta, key).total, start, requestedEnd); }
    if network.Ok? { FetchAnswers(network.value, start, requestedEnd); } else { FetchFails(network, start, requestedEnd); }
  }

  lemma FetchFails(network: Result<Fetched>, start: u64, requestedEnd: u64)
    requires network.Err?
    ensures FetchFromNetwork(network, start, requestedEnd) == Err(network.error)
  {
  }

  // ----- requests that cannot be answered -----

  /** A known total refuses what lies beyond it at once, without asking the network. */
  lemma BeyondTheEndIsRefused(spec: RangeSpec, key: Key, first: Pass, probe: Result<Fetched>, leads: bool, second: Pass, network: Result<Fetched>, total: u64)
    requires TotalKnown(spec, key, first, probe, Some(total))
    requires total == 0 || (spec.Offset? && spec.start >= total)
    ensures ProcessRequest(spec, key, first, probe, leads, second, network) == Err(InvalidRange)
  {
    hide View, CheckRange;
  }

  /** A suffix of a resource whose length nobody knows is refused, with the probe's error if it failed. */
  lemma UnknownSuffixIsRefused(spec: RangeSpec, key: Key, first: Pass, probe: Result<Fetched>, leads: bool, second: Pass, network: Result<Fetched>)
    requires spec.Suffix? && View(first.meta, key).total.None? && (probe.Err? || probe.value.total.None?)
    ensures ProcessRequest(spec, key, first, probe, leads, second, network) == Err(if probe.Err? then probe.error else InvalidRange)
  {
    hide View, CacheRoutes;
  }

  // ----- cached ranges -----

  /** The read of a cached range finds it covered and the file there. */
  predicate Readable(read: CacheRead, key: Key, start: u64, end: u64)
  {
    Covered(read.looked, key, start, end) && key in read.open.disk.data
  }

  /** What a request for a cached range gets: all of it, or an error where the file cannot be opened or read. */
  ghost predicate GivesWhole(content: Bytes, read: CacheRead, start: u64, end: u64, r: Result<Response>)
  {
    var io := read.io(start, end);
    match r
    case Ok(response) =>
      && io.opens && response.route == FromCache && response.start == start && response.end == end && response.total == |content|
      && Exact(content, response) && Payload(response.body) == Payload(io.items) && (Clean(response.body) <==> Clean(io.items))
      && (Clean(response.body) ==> Payload(response.body) == content[start..end + 1])
    case Err(error) => !io.opens && error == Storage
  }

  ghost predicate FromCacheWhole(content: Bytes, read: CacheRead, start: u64, end: u64, r: Result<Option<Response>>)
  {
    (r.Ok? ==> r.value.Some?) && GivesWhole(content, read, start, end, if r.Err? then Err(r.error) else Ok(r.value.value))
  }

  lemma CoveredIsServed(origin: Key -> Bytes, check: Engine, read: CacheRead, key: Key, start: u64, requestedEnd: u64)
    requires TrustyRead(origin, key, read) && start <= requestedEnd && start < |origin(key)| <= U64_MAX
    requires var last := LastOf(|origin(key)|, requestedEnd); CheckRange(check, key, start, last) && Readable(read, key, start, last)
    ensures FromCacheWhole(origin(key), read, start, LastOf(|origin(key)|, requestedEnd), TryServeFromCache(check, read, key, Some(|origin(key)|), start, requestedEnd))
  {
    hide CheckRange, Covered, View, Believable, KeepsFile, ReadAcross, LegalRead, Payload, Clean, At;
    var total: u64 := |origin(key)|;
    var last := LastOf(total, requestedEnd);
    ReadAcrossIsOrigin(origin, read.looked, read.open, key, start, last);
    CacheRouteExact(origin, check, read, key, Some(total), start, requestedEnd);
    assert forall bytes: Bytes :: At(origin(key), start, bytes) && |bytes| == last - start + 1 ==> bytes == origin(key)[start..last + 1] by {
      AtWhole(origin(key), start, last);
    }
  }

  lemma AtWhole(content: Bytes, start: nat, last: nat)
    requires start <= last < |content|
    ensures forall bytes: Bytes :: At(content, start, bytes) && |bytes| == last - start + 1 ==> bytes == content[start..last + 1]
  {
  }

  /** An attempt finds the whole range cached: at its first look, or once the file turns out to reach beyond the range. */
  predicate WholeCached(pass: Pass, key: Key, start: u64, last: u64, late: bool)
  {
    if late then
      !CheckRange(pass.cacheCheck, key, start, last) && GetOr(pass.size) > last && CheckRange(pass.wholeCheck, key, start, last) && Readable(pass.wholeRead, key, start, last)
    else CheckRange(pass.cacheCheck, key, start, last) && Readable(pass.cacheRead, key, start, last)
  }

  lemma WholeIsServed(origin: Key -> Bytes, pass: Pass, key: Key, start: u64, requestedEnd: u64, late: bool)
    requires TrustyRead(origin, key, if late then pass.wholeRead else pass.cacheRead)
    requires start <= requestedEnd && start < |origin(key)| <= U64_MAX && WholeCached(pass, key, start, LastOf(|origin(key)|, requestedEnd), late)
    ensures FromCacheWhole(origin(key), if late then pass.wholeRead else pass.cacheRead, start, LastOf(|origin(key)|, requestedEnd),
      CacheRoutes(pass, key, Some(|origin(key)|), start, requestedEnd))
  {
    hide CheckRange, Readable, TrustyRead, FromCacheWhole;
    if late { CoveredIsServed(origin, pass.wholeCheck, pass.wholeRead, key, start, requestedEnd); }
    else { CoveredIsServed(origin, pass.cacheCheck, pass.cacheRead, key, start, requestedEnd); }
    LateIsMixed(pass, key, |origin(key)|, start, requestedEnd, late);
  }

  lemma LateIsMixed(pass: Pass, key: Key, total: u64, start: u64, requestedEnd: u64, late: bool)
    requires start <= requestedEnd && start < total && WholeCached(pass, key, start, LastOf(total, requestedEnd), late)
    ensures CacheRoutes(pass, key, Some(total), start, requestedEnd) ==
      if late then TryServeFromCache(pass.wholeCheck, pass.wholeRead, key, Some(total), start, requestedEnd)
      else TryServeFromCache(pass.cacheCheck, pass.cacheRead, key, Some(total), start, requestedEnd)
  {
    hide CheckRange, Readable, ReadStream, HandleMixed;
  }

  lemma FirstDecides(spec: RangeSpec, key: Key, first: Pass, probe: Result<Fetched>, leads: bool, second: Pass, network: Result<Fetched>, total: Option<u64>, start: u64, requestedEnd: u64)
    requires TotalKnown(spec, key, first, probe, total) && Asks(spec, total, start, requestedEnd)
    requires var served := CacheRoutes(first, key, total, start, requestedEnd); served.Err? || served.value.Some?
    ensures var served := CacheRoutes(first, key, total, start, requestedEnd);
      ProcessRequest(spec, key, first, probe, leads, second, network) == if served.Err? then Err(served.error) else Ok(served.value.value)
  {
    hide CacheRoutes, View;
  }

  lemma SecondDecides(spec: RangeSpec, key: Key, first: Pass, probe: Result<Fetched>, second: Pass, network: Result<Fetched>, total: Option<u64>, start: u64, requestedEnd: u64)
    requires TotalKnown(spec, key, first, probe, total) && Asks(spec, total, start, requestedEnd) && start <= requestedEnd
    requires NothingCached(first, key, total, start, requestedEnd)
    requires var served := CacheRoutes(second, key, View(second.meta, key).total, start, requestedEnd); served.Err? || served.value.Some?
    ensures var served := CacheRoutes(second, key, View(second.meta, key).total, start, requestedEnd);
      ProcessRequest(spec, key, first, probe, false, second, network) == if served.Err? then Err(served.error) else Ok(served.value.value)
  {
    hide CacheRoutes, View, NothingCached;
    NothingIsFound(first, key, total, start, requestedEnd);
  }

  /** A range that the first attempt finds cached is answered from the cache, whatever the network does and whoever leads. */
  lemma CachedIsAnswered(origin: Key -> Bytes, spec: RangeSpec, key: Key, first: Pass, probe: Result<Fetched>, leads: bool, second: Pass, network: Result<Fetched>, start: u64, requestedEnd: u64, late: bool)
    requires start <= requestedEnd && start < |origin(key)| <= U64_MAX
    requires TotalKnown(spec, key, first, probe, Some(|origin(key)|)) && Asks(spec, Some(|origin(key)|), start, requestedEnd)
    requires TrustyRead(origin, key, if late then first.wholeRead else first.cacheRead)
    requires WholeCached(first, key, start, LastOf(|origin(key)|, requestedEnd), late)
    ensures GivesWhole(origin(key), if late then first.wholeRead else first.cacheRead, start, LastOf(|origin(key)|, requestedEnd),
      ProcessRequest(spec, key, first, probe, leads, second, network))
  {
    hide CacheRoutes, View, TrustyRead, WholeCached, ProcessRequest, GivesWhole;
    WholeIsServed(origin, first, key, start, requestedEnd, late);
    FirstDecides(spec, key, first, probe, leads, second, network, Some(|origin(key)|), start, requestedEnd);
  }

  /** A follower that finds the range cached after its wait is answered from the cache. */
  lemma FollowerIsAnswered(origin: Key -> Bytes, spec: RangeSpec, key: Key, first: Pass, probe: Result<Fetched>, second: Pass, network: Result<Fetched>, total: Option<u64>, start: u64, requestedEnd: u64, late: bool)
    requires start <= requestedEnd && start < |origin(key)| <= U64_MAX
    requires TotalKnown(spec, key, first, probe, total) && Asks(spec, total, start, requestedEnd) && NothingCached(first, key, total, start, requestedEnd)
    requires View(second.meta, key).total == Some(|origin(key)|)
    requires TrustyRead(origin, key, if late then second.wholeRead else second.cacheRead)
    requires WholeCached(second, key, start, LastOf(|origin(key)|, requestedEnd), late)
    ensures GivesWhole(origin(key), if late then second.wholeRead else second.cacheRead, start, LastOf(|origin(key)|, requestedEnd),
      ProcessRequest(spec, key, first, probe, false, second, network))
  {
    hide CacheRoutes, View, TrustyRead, WholeCached, ProcessRequest, GivesWhole, NothingCached;
    WholeIsServed(origin, second, key, start, requestedEnd, late);
    SecondDecides(spec, key, first, probe, second, network, total, start, requestedEnd);
  }

  // ----- partly cached ranges -----

  /** An attempt finds a proper prefix of the range cached and reaches the rest on the network. */
  predicate PrefixCached(pass: Pass, key: Key, start: u64, last: u64)
  {
    && !CheckRange(pass.cacheCheck, key, start, last)
    && pass.size.Some? && start < pass.size.value <= last
    && CheckRange(pass.stitchCheck, key, start, pass.size.value - 1) && Readable(pass.stitchRead, key, start, pass.size.value - 1)
    && pass.stitchFetch.Ok? && pass.stitchRead.io(start, pass.size.value - 1).opens
  }

  /** The cached prefix, then the network's part, up to the last byte the upstream announced. */
  ghost predicate GivesStitch(content: Bytes, pass: Pass, start: u64, last: u64, r: Response)
    requires pass.size.Some? && start < pass.size.value <= last && pass.stitchFetch.Ok?
  {
    var size, f, cached := pass.size.value, pass.stitchFetch.value, pass.stitchRead.io(start, pass.size.value - 1).items;
    && r.route == Stitched && r.start == start
    && r.end == (if f.contentLength == 0 then last else Min(last, size + f.contentLength - 1))
    && r.total == GetOr(f.total) && Exact(content, r)
    && StitchesAll(cached, f.body, r.end - size + 1, r.body)
  }

  lemma PrefixIsStitched(origin: Key -> Bytes, pass: Pass, key: Key, start: u64, requestedEnd: u64)
    requires TrustyRead(origin, key, pass.stitchRead) && FaithfulStitch(origin(key), pass)
    requires start <= requestedEnd && start < |origin(key)| <= U64_MAX && PrefixCached(pass, key, start, LastOf(|origin(key)|, requestedEnd))
    ensures var served := CacheRoutes(pass, key, Some(|origin(key)|), start, requestedEnd);
      served.Ok? && served.value.Some? && GivesStitch(origin(key), pass, start, LastOf(|origin(key)|, requestedEnd), served.value.value)
  {
    hide CheckRange, Covered, Believable, KeepsFile, ReadAcross, LegalRead, MixedStream, Payload, Clean, At, StitchesAll, Exact;
    var total: u64, size := |origin(key)|, pass.size.value;
    var last := LastOf(total, requestedEnd);
    var f, cached := pass.stitchFetch.value, pass.stitchRead.io(start, size - 1).items;
    ReadAcrossIsOrigin(origin, pass.stitchRead.looked, pass.stitchRead.open, key, start, size - 1);
    assert ReadStream(pass.stitchRead, key, start, size - 1) == Ok(cached);
    ReadStreamIsOrigin(origin, pass.stitchRead, key, start, size - 1);
    PartlyCachedIsStitched(origin, pass, key, total, start, requestedEnd, last);
    StitchExact(origin, pass.stitchRead, key, pass.stitchFetch, start, last, size);
    UpToErrorKeeps(f.body);
    var end' := ClampEnd(size, last, f.contentLength);
    MixedStreamExact(origin(key), cached, UpToError(f.body), start, size, end');
    StitchesSame(cached, f.body, end' - size + 1, MixedStream(cached, UpToError(f.body), size - start, end' - size + 1));
  }

  lemma StitchesSame(cached: Stream, network: Stream, n: nat, body: Stream)
    requires StitchesAll(cached, UpToError(network), n, body)
    ensures StitchesAll(cached, network, n, body)
  {
    UpToErrorKeeps(network);
  }

  /** A partly cached range is answered with the stitch, at the first attempt or at a follower's second. */
  lemma PartlyCachedIsAnswered(origin: Key -> Bytes, spec: RangeSpec, key: Key, first: Pass, probe: Result<Fetched>, leads: bool, second: Pass, network: Result<Fetched>, total: Option<u64>, start: u64, requestedEnd: u64)
    requires start <= requestedEnd && start < |origin(key)| <= U64_MAX
    requires TotalKnown(spec, key, first, probe, total) && Asks(spec, total, start, requestedEnd)
    requires var last := LastOf(|origin(key)|, requestedEnd);
      if total == Some(|origin(key)|) && PrefixCached(first, key, start, last) then
        TrustyRead(origin, key, first.stitchRead) && FaithfulStitch(origin(key), first)
      else
        && !leads && NothingCached(first, key, total, start, requestedEnd) && View(second.meta, key).total == Some(|origin(key)|)
        && PrefixCached(second, key, start, last) && TrustyRead(origin, key, second.stitchRead) && FaithfulStitch(origin(key), second)
    ensures var last := LastOf(|origin(key)|, requestedEnd);
      var pass := if total == Some(|origin(key)|) && PrefixCached(first, key, start, last) then first else second;
      var r := ProcessRequest(spec, key, first, probe, leads, second, network);
      r.Ok? && GivesStitch(origin(key), pass, start, last, r.value)
  {
    hide CacheRoutes, View, TrustyRead, ProcessRequest, GivesStitch, NothingCached, CheckRange, FaithfulStitch, Readable;
    var last := LastOf(|origin(key)|, requestedEnd);
    if total == Some(|origin(key)|) && PrefixCached(first, key, start, last) {
      PrefixIsStitched(origin, first, key, start, requestedEnd);
      FirstDecides(spec, key, first, probe, leads, second, network, total, start, requestedEnd);
    } else {
      PrefixIsStitched(origin, second, key, start, requestedEnd);
      SecondDecides(spec, key, first, probe, second, network, total, start, requestedEnd);
    }
  }
}
