/**
 The whole proxy: what honest downloads bring is recorded and teed into the racing
 engine, and requests are served from whatever states the engine goes through.
 */
module Proxy {
  import opened Base
  import opened Ranges
  import opened DiskEngine
  import opened DiskCoherence
  import opened NetSource
  import opened Tee
  import opened Serving
  import opened EngineRaces
  import opened RaceRefinement
  import opened RaceReads
  import opened RaceTotals

  // ----- downloads and what they do to the cache -----

  /** A resumable download: the first accepted reply, the job that streams it, and what it streamed. */
  datatype Download = Download(reply: Reply, job: Job, trace: seq<Event>)

  ghost predicate HonestDownload(content: Bytes, d: Download)
  {
    && Honest(content, d.reply) && Accept(d.reply, d.job.start, d.job.end).Ok? && d.job.body == d.reply.body
    && HonestServer(content, d.job.end, d.job.retry) && Streamed(content, d.job, d.trace)
  }

  function Answer(d: Download): Fetched
  {
    var length := Accept(d.reply, d.job.start, d.job.end);
    FetchedFrom(d.reply, if length.Ok? then length.value else 0, Items(d.trace))
  }

  datatype Action =
    /** The total and the content type that a download announced are recorded. */
    | Note(key: Key, download: Download, contentType: Option<string>, lookup: Lookup)
    /** The cache side of a download's tee is written to disk. */
    | Store(key: Key, download: Download, end: u64, slots: nat -> CacheSlot, io: WriteIo)
    | Other(move: Move)

  function MoveOf(a: Action): Move
  {
    match a
    case Note(key, d, contentType, lookup) => BeginUpdate(key, Answer(d).total, contentType, lookup)
    case Store(key, d, end, slots, io) => OpenWrite(Write(key, d.job.start, end, Seen(Answer(d).body, CacheAccepts(slots)), io))
    case Other(move) => move
  }

  function Moves(actions: seq<Action>): (moves: seq<Move>)
    ensures |moves| == |actions| && forall i :: 0 <= i < |moves| ==> moves[i] == MoveOf(actions[i])
  {
    seq(|actions|, i requires 0 <= i < |actions| => MoveOf(actions[i]))
  }

  /** Bytes and totals enter the cache only from honest downloads. */
  ghost predicate HonestAction(origin: Key -> Bytes, a: Action)
  {
    if a.Other? then !a.move.OpenWrite? && !a.move.BeginUpdate? else HonestDownload(origin(a.key), a.download)
  }

  lemma HonestAnswer(content: Bytes, d: Download)
    requires HonestDownload(content, d)
    ensures FaithfulFetch(content, d.job.start, Ok(Answer(d)))
  {
    hide Honest, Accept, HonestServer, Streamed, FaithfulFetch, FetchedFrom, Items;
    HonestFetchIsFaithful(content, d.reply, d.job, d.trace);
  }

  // ----- runs -----

  /** Every promise about a file is true, every total is true, every open write is faithful. */
  ghost predicate Truthful(origin: Key -> Bytes, r: Racing)
  {
    AllSound(origin, r) && WellRun(origin, r) && TrueTotals(origin, r)
  }

  ghost predicate ToldMoves(origin: Key -> Bytes, moves: seq<Move>)
  {
    FaithfulMoves(origin, moves) && forall i :: 0 <= i < |moves| ==> ToldMove(origin, moves[i])
  }

  lemma ColdIsTruthful(origin: Key -> Bytes)
    ensures Truthful(origin, Idle(EMPTY))
  {
  }

  lemma {:induction false} RunTruthful(origin: Key -> Bytes, r: Racing, moves: seq<Move>)
    requires Truthful(origin, r) && LegalMoves(r, moves) && ToldMoves(origin, moves) && NeverRecreates(r, moves)
    ensures Truthful(origin, Exec(r, moves))
    decreases |moves|
  {
    hide Next, LegalMove, Recreates, AllSound, WellRun, TrueTotals, FaithfulMove, ToldMove;
    if moves != [] {
      MoveKeeps(origin, r, moves[0]);
      MoveRuns(origin, r, moves[0]);
      MoveKeepsTotals(origin, r, moves[0]);
      assert forall i :: 0 <= i < |moves[1..]| ==> moves[1..][i] == moves[i + 1];
      RunTruthful(origin, Next(r, moves[0]), moves[1..]);
    }
  }

  lemma HonestMove(origin: Key -> Bytes, a: Action)
    requires HonestAction(origin, a)
    ensures FaithfulMove(origin, MoveOf(a)) && ToldMove(origin, MoveOf(a))
  {
    hide HonestDownload, FaithfulOp, Answer;
    match a
    case Note(key, d, _, _) => HonestAnswer(origin(key), d);
    case Store(key, d, end, slots, io) =>
      HonestAnswer(origin(key), d);
      TeeWritesFaithfully(origin, key, d.job.start, end, Answer(d), CacheAccepts(slots), io);
    case Other(_) =>
  }

  lemma HonestMoves(origin: Key -> Bytes, actions: seq<Action>)
    requires forall i :: 0 <= i < |actions| ==> HonestAction(origin, actions[i])
    ensures ToldMoves(origin, Moves(actions))
  {
    hide HonestAction, FaithfulMove, ToldMove, MoveOf;
    forall i | 0 <= i < |actions| ensures FaithfulMove(origin, Moves(actions)[i]) && ToldMove(origin, Moves(actions)[i]) {
      HonestMove(origin, actions[i]);
    }
  }

  lemma {:induction false} NeverRecreatesPrefix(r: Racing, a: seq<Move>, b: seq<Move>)
    requires NeverRecreates(r, a + b)
    ensures NeverRecreates(r, a)
    decreases |a|
  {
    hide Next, Recreates;
    if a != [] {
      assert (a + b)[0] == a[0] && (a + b)[1..] == a[1..] + b;
      NeverRecreatesPrefix(Next(r, a[0]), a[1..], b);
    }
  }

  function After(moves: seq<Move>, i: nat): Racing
    requires i <= |moves|
  {
    Exec(Idle(EMPTY), moves[..i])
  }

  lemma AfterIsTruthful(origin: Key -> Bytes, moves: seq<Move>, i: nat)
    requires i <= |moves| && LegalMoves(Idle(EMPTY), moves) && ToldMoves(origin, moves) && NeverRecreates(Idle(EMPTY), moves)
    ensures Truthful(origin, After(moves, i))
  {
    hide Exec, LegalMoves, Truthful, FaithfulMove, ToldMove, NeverRecreates;
    assert moves == moves[..i] + moves[i..];
    ExecPlus(Idle(EMPTY), moves[..i], moves[i..]);
    NeverRecreatesPrefix(Idle(EMPTY), moves[..i], moves[i..]);
    ColdIsTruthful(origin);
    RunTruthful(origin, Idle(EMPTY), moves[..i]);
  }

  lemma AfterPlus(origin: Key -> Bytes, moves: seq<Move>, i: nat, j: nat)
    requires i <= j <= |moves| && LegalMoves(Idle(EMPTY), moves) && ToldMoves(origin, moves)
    ensures After(moves, j) == Exec(After(moves, i), moves[i..j]) && LegalMoves(After(moves, i), moves[i..j])
    ensures FaithfulMoves(origin, moves[i..j])
  {
    hide Exec, LegalMoves, FaithfulMove, ToldMove;
    assert moves == moves[..j] + moves[j..] && moves[..j] == moves[..i] + moves[i..j];
    ExecPlus(Idle(EMPTY), moves[..j], moves[j..]);
    ExecPlus(Idle(EMPTY), moves[..i], moves[i..j]);
  }

  // ----- requests -----

  /** A read of the cache: how far the run had got when it looked at the metadata and when it opened the file. */
  datatype ReadAt = ReadAt(look: nat, open: nat, io: (u64, u64) -> ReadIo)

  /** One attempt at the cache routes: when each of its calls was made, and the stitch's download. */
  datatype PassAt = PassAt(
    meta: nat,
    cacheCheck: nat, cacheRead: ReadAt,
    size: Option<u64>,
    wholeCheck: nat, wholeRead: ReadAt,
    stitchCheck: nat, stitchRead: ReadAt, stitch: Result<Download>)

  datatype Request = Request(first: PassAt, probe: Result<Download>, leads: bool, second: PassAt, network: Result<Download>)

  function FetchOf(d: Result<Download>): Result<Fetched>
  {
    match d
    case Ok(download) => Ok(Answer(download))
    case Err(error) => Err(error)
  }

  predicate ReadInRun(n: nat, read: ReadAt) { read.look <= read.open <= n }

  predicate PassInRun(n: nat, p: PassAt)
  {
    && p.meta <= n && p.cacheCheck <= n && p.wholeCheck <= n && p.stitchCheck <= n
    && ReadInRun(n, p.cacheRead) && ReadInRun(n, p.wholeRead) && ReadInRun(n, p.stitchRead)
  }

  function ReadOf(moves: seq<Move>, read: ReadAt): CacheRead
    requires ReadInRun(|moves|, read)
  {
    CacheRead(After(moves, read.look).engine, After(moves, read.open).engine, read.io)
  }

  function PassOf(moves: seq<Move>, p: PassAt): Pass
    requires PassInRun(|moves|, p)
  {
    Pass(After(moves, p.meta).engine, After(moves, p.cacheCheck).engine, ReadOf(moves, p.cacheRead), p.size,
         After(moves, p.wholeCheck).engine, ReadOf(moves, p.wholeRead),
         After(moves, p.stitchCheck).engine, ReadOf(moves, p.stitchRead), FetchOf(p.stitch))
  }

  predicate InRun(n: nat, x: Request) { PassInRun(n, x.first) && PassInRun(n, x.second) }

  function ExchangeOf(moves: seq<Move>, x: Request): Exchange
    requires InRun(|moves|, x)
  {
    Exchange(PassOf(moves, x.first), FetchOf(x.probe), x.leads, PassOf(moves, x.second), FetchOf(x.network))
  }

  /** A file that was promised anything at the look is not unlinked before the open, and the read streams what it holds. */
  ghost predicate SteadyRead(moves: seq<Move>, key: Key, read: ReadAt)
    requires ReadInRun(|moves|, read)
  {
    && (key in After(moves, read.open).engine.disk.data && View(After(moves, read.look).engine, key).completed != [] ==>
         Stays(After(moves, read.look), moves[read.look..read.open], key))
    && forall start: u64, end: u64 :: LegalRead(After(moves, read.open).engine, key, start, end, read.io(start, end))
  }

  ghost predicate SteadyPass(moves: seq<Move>, key: Key, p: PassAt)
    requires PassInRun(|moves|, p)
  {
    SteadyRead(moves, key, p.cacheRead) && SteadyRead(moves, key, p.wholeRead) && SteadyRead(moves, key, p.stitchRead)
  }

  /** An answer to a request for the bytes from an offset on. */
  ghost predicate HonestFetch(content: Bytes, from: u64, d: Result<Download>)
  {
    d.Ok? ==> HonestDownload(content, d.value) && d.value.job.start == from
  }

  ghost predicate HonestRequest(content: Bytes, start: u64, x: Request)
  {
    && HonestFetch(content, 0, x.probe) && HonestFetch(content, start, x.network)
    && HonestFetch(content, GetOr(x.first.size), x.first.stitch) && HonestFetch(content, GetOr(x.second.size), x.second.stitch)
  }

  ghost predicate HonestRun(origin: Key -> Bytes, actions: seq<Action>)
  {
    && (forall i :: 0 <= i < |actions| ==> HonestAction(origin, actions[i]))
    && LegalMoves(Idle(EMPTY), Moves(actions)) && NeverRecreates(Idle(EMPTY), Moves(actions))
  }

  lemma RunIsTold(origin: Key -> Bytes, actions: seq<Action>)
    requires HonestRun(origin, actions)
    ensures var moves := Moves(actions);
      LegalMoves(Idle(EMPTY), moves) && ToldMoves(origin, moves) && NeverRecreates(Idle(EMPTY), moves)
  {
    hide HonestAction, ToldMoves, MoveOf;
    HonestMoves(origin, actions);
  }

  lemma ReadIsTrusty(origin: Key -> Bytes, actions: seq<Action>, key: Key, read: ReadAt)
    requires HonestRun(origin, actions) && ReadInRun(|actions|, read) && SteadyRead(Moves(actions), key, read)
    ensures TrustyRead(origin, key, ReadOf(Moves(actions), read))
  {
    hide HonestRun, After, AllSound, WellRun, TrueTotals, KeepsFile, Believable, LegalRead, Stays, View, LegalMoves, ToldMoves, FaithfulMoves, NeverRecreates, Moves;
    var moves := Moves(actions);
    RunIsTold(origin, actions);
    var looked := After(moves, read.look);
    AfterIsTruthful(origin, moves, read.look);
    SoundIsBelievable(origin, looked, key);
    AfterPlus(origin, moves, read.look, read.open);
    if Stays(looked, moves[read.look..read.open], key) { FileStays(origin, looked, moves[read.look..read.open], key); }
  }

  lemma TotalIsTrue(origin: Key -> Bytes, r: Racing, key: Key)
    requires TrueTotals(origin, r)
    ensures TrueTotal(origin, key, r.engine)
  {
    hide MetadataIsValid;
  }

  lemma PassIsTrusty(origin: Key -> Bytes, actions: seq<Action>, key: Key, p: PassAt)
    requires HonestRun(origin, actions) && PassInRun(|actions|, p) && SteadyPass(Moves(actions), key, p)
    ensures TrustyPass(origin, key, PassOf(Moves(actions), p))
  {
    hide HonestRun, After, AllSound, WellRun, TrueTotals, SteadyRead, TrustyRead, TrueTotal, LegalMoves, ToldMoves, NeverRecreates, Moves, ReadOf;
    var moves := Moves(actions);
    RunIsTold(origin, actions);
    AfterIsTruthful(origin, moves, p.meta);
    TotalIsTrue(origin, After(moves, p.meta), key);
    ReadIsTrusty(origin, actions, key, p.cacheRead);
    ReadIsTrusty(origin, actions, key, p.wholeRead);
    ReadIsTrusty(origin, actions, key, p.stitchRead);
  }

  lemma FetchIsFaithful(content: Bytes, from: u64, d: Result<Download>)
    requires HonestFetch(content, from, d)
    ensures FaithfulFetch(content, from, FetchOf(d))
  {
    hide HonestDownload, Answer;
    if d.Ok? { HonestAnswer(content, d.value); }
  }

  /**
   The proxy serves the origin. Honest downloads come in, their tees are written and their
   totals recorded, and writes, updates, queries, deletes, the scan and crashes interleave
   in any way, with any call failing. A request may make each of its calls at any point of
   such a run. If no write recreates a file that is still promised, and no read has its
   file unlinked between look and open, then whatever the proxy answers is the origin's
   bytes from the requested start.
   */
  lemma ProxyServesOrigin(origin: Key -> Bytes, actions: seq<Action>, spec: RangeSpec, key: Key, start: u64, x: Request)
    requires spec.Offset? ==> spec.start <= spec.end && start == spec.start
    requires spec.Suffix? ==> spec.length > 0 && start == Max(0, |origin(key)| - spec.length)
    requires HonestRun(origin, actions) && InRun(|actions|, x)
    requires SteadyPass(Moves(actions), key, x.first) && SteadyPass(Moves(actions), key, x.second) && HonestRequest(origin(key), start, x)
    ensures match Serve(spec, key, ExchangeOf(Moves(actions), x))
      case Ok(response) => Transparent(origin(key), response) && response.start == start
      case Err(_) => true
  {
    hide HonestRun, SteadyPass, Moves, HonestFetch, FaithfulFetch, TrustyPass, ProcessRequest, Transparent, After, ReadOf;
    PassIsTrusty(origin, actions, key, x.first);
    PassIsTrusty(origin, actions, key, x.second);
    FetchIsFaithful(origin(key), 0, x.probe);
    FetchIsFaithful(origin(key), start, x.network);
    FetchIsFaithful(origin(key), GetOr(x.first.size), x.first.stitch);
    FetchIsFaithful(origin(key), GetOr(x.second.size), x.second.stitch);
    var e := ExchangeOf(Moves(actions), x);
    EveryRouteServesOrigin(origin, spec, key, e.first, e.probe, e.leads, e.second, e.network, start);
  }
}
