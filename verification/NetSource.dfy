/** The resumable upstream download of data_source/net_source.rs. */
module NetSource {
  import opened Base
  import opened Ranges

  const MAX_ATTEMPTS: nat := 3

  datatype ContentRange = ContentRange(start: u64, end: u64, total: Option<u64>)

  /** A response: its relevant headers and the body as the client library will stream it. */
  datatype Reply = Reply(status: nat, contentLength: Option<u64>, contentRange: Option<ContentRange>, body: Stream)

  predicate VerifyContentRange(header: Option<ContentRange>, start: u64, end: u64, contentLength: u64)
  {
    && header.Some?
    && var range := header.value;
    && range.start == start
    && range.end >= range.start
    && (end != OPEN_ENDED ==> range.end <= end)
    && RangeLength(range.start, range.end) == Ok(contentLength)
    && (range.total.Some? ==> range.total.value != 0 && range.end < range.total.value)
  }

  /** The checks try_download makes before it hands a body on; the value is the Content-Length. */
  function Accept(reply: Reply, start: u64, end: u64): Result<u64>
  {
    if reply.status == 416 then Err(InvalidRange)
    else if reply.status == 401 || reply.status == 403 then Err(Expired)
    else if !(200 <= reply.status < 300) then Err(BadRequest)
    else if reply.status != 206 && (start > 0 || end != OPEN_ENDED) then Err(Network)
    else if reply.contentLength.None? then Err(BadRequest)
    else if reply.status == 206 && !VerifyContentRange(reply.contentRange, start, end, reply.contentLength.value) then Err(Network)
    else Ok(reply.contentLength.value)
  }

  /** A partial reply to a request from `start`: its range starts there, ends inside the request and the resource, and has the declared length. */
  ghost predicate AnswersPart(reply: Reply, start: u64, end: u64)
  {
    && reply.status == 206 && reply.contentRange.Some? && reply.contentLength.Some?
    && var ContentRange(from, to, total) := reply.contentRange.value;
       && from == start <= to && (end != OPEN_ENDED ==> to <= end)
       && reply.contentLength.value == to - from + 1 && (total.Some? ==> to < total.value)
  }

  /** A whole reply to a request for everything. */
  ghost predicate AnswersWhole(reply: Reply, start: u64, end: u64)
  {
    200 <= reply.status < 300 && reply.status != 206 && reply.contentLength.Some? && start == 0 && end == OPEN_ENDED
  }

  /** Exactly the replies that answer the request are accepted. A 416 refuses the range and a 401 or 403 the credentials, whatever else they say. */
  lemma AcceptedAnswers(reply: Reply, start: u64, end: u64)
    ensures var r := Accept(reply, start, end);
      && (r.Ok? <==> AnswersPart(reply, start, end) || AnswersWhole(reply, start, end))
      && (r.Ok? ==> r.value == reply.contentLength.value)
      && (r == Err(InvalidRange) <==> reply.status == 416)
      && (r == Err(Expired) <==> reply.status == 401 || reply.status == 403)
      && (!(200 <= reply.status < 300) ==> r.Err? && (r.error == BadRequest || reply.status == 416 || reply.status == 401 || reply.status == 403))
      && (200 <= reply.status < 300 && r.Err? ==>
           r.error == if (reply.status == 206 || (start == 0 && end == OPEN_ENDED)) && reply.contentLength.None? then BadRequest else Network)
  {
  }

  /** A reply that tells the truth: its bytes are the ones its own headers say they are. */
  ghost predicate Honest(content: Bytes, reply: Reply)
  {
    && (reply.contentLength.Some? ==> |Payload(reply.body)| <= reply.contentLength.value)
    && (reply.contentRange.Some? && reply.contentRange.value.total.Some? ==> reply.contentRange.value.total.value == |content|)
    && (if reply.status == 206 && reply.contentRange.Some? then
          var range := reply.contentRange.value;
          Faithful(content, range.start, reply.body)
        else
          && Faithful(content, 0, reply.body)
          && (reply.contentLength.Some? ==> reply.contentLength.value == |content|))
  }

  /** What the upstream answers to the k-th attempt when it asks for bytes from an offset on. */
  type Server = (nat, u64) -> Result<Reply>

  /** A server whose accepted replies tell the truth. What it sends in a reply that is refused does not matter. */
  ghost predicate HonestServer(content: Bytes, end: u64, server: Server)
  {
    forall k: nat, from: u64 ::
      server(k, from).Ok? && Accept(server(k, from).value, from, end).Ok? ==> Honest(content, server(k, from).value)
  }

  /** An accepted reply of an honest server carries the requested offset and stays inside a closed request. */
  lemma AcceptedIsAligned(content: Bytes, reply: Reply, start: u64, end: u64)
    requires Honest(content, reply) && Accept(reply, start, end).Ok?
    ensures Faithful(content, start, reply.body)
    ensures end != OPEN_ENDED ==> start <= end && |Payload(reply.body)| <= Accept(reply, start, end).value <= end - start + 1
  {
  }

  /** Errors that a new attempt cannot cure are handed up at once. */
  predicate Retryable(error: Error) { error != InvalidRange && error != Expired }

  /** One attempt: the transport's error, or the verdict on the reply. */
  function TryDownload(answer: Result<Reply>, start: u64, end: u64): Result<u64>
  {
    if answer.Err? then Err(answer.error) else Accept(answer.value, start, end)
  }

  /** download_stream's attempts: the first acceptable reply, after nothing but retryable failures. */
  method DownloadStream(start: u64, end: u64, answer: nat -> Result<Reply>) returns (r: Result<Reply>, attempts: nat)
    ensures 1 <= attempts <= MAX_ATTEMPTS
    ensures forall k: nat :: 1 <= k < attempts ==>
      TryDownload(answer(k), start, end).Err? && Retryable(TryDownload(answer(k), start, end).error)
    ensures match TryDownload(answer(attempts), start, end)
      case Ok(_) => r == Ok(answer(attempts).value)
      case Err(error) => r == Err(error) && (attempts == MAX_ATTEMPTS || !Retryable(error))
    ensures r.Err? ==> attempts == 3 || r.error == InvalidRange || r.error == Expired
    ensures forall k: nat :: 1 <= k < attempts ==>
      answer(k).Err? ==> answer(k).error != InvalidRange && answer(k).error != Expired
    ensures forall k: nat :: 1 <= k < attempts ==>
      answer(k).Ok? ==> answer(k).value.status != 416 && answer(k).value.status != 401 && answer(k).value.status != 403
  {
    forall reply: Reply ensures reply.status == 416 || reply.status == 401 || reply.status == 403 ==>
      Accept(reply, start, end) == Err(if reply.status == 416 then InvalidRange else Expired)
    {
      AcceptedAnswers(reply, start, end);
    }
    hide Accept;
    attempts := 1;
    while true
      invariant 1 <= attempts <= MAX_ATTEMPTS
      invariant forall k: nat :: 1 <= k < attempts ==>
        TryDownload(answer(k), start, end).Err? && Retryable(TryDownload(answer(k), start, end).error)
      decreases MAX_ATTEMPTS - attempts
    {
      var verdict := TryDownload(answer(attempts), start, end);
      if verdict.Ok? { return Ok(answer(attempts).value), attempts; }
      if !Retryable(verdict.error) || attempts == MAX_ATTEMPTS { return Err(verdict.error), attempts; }
      attempts := attempts + 1;
    }
  }

  function AdvanceBytesRead(bytesRead: u64, chunk: nat, start: u64, end: u64): Result<u64>
  {
    if bytesRead + chunk > U64_MAX then Err(Network)
    else if end == OPEN_ENDED then Ok(bytesRead + chunk)
    else match RangeLength(start, end)
      case Err(_) => Err(InvalidRange)
      case Ok(expected) => if bytesRead + chunk > expected then Err(Network) else Ok(bytesRead + chunk)
  }

  /** The byte counter advances as long as it stays in 64 bits and in a closed range; anything more is a network error. */
  lemma AdvanceMeaning(bytesRead: u64, chunk: nat, start: u64, end: u64)
    requires start <= end
    ensures var r, n := AdvanceBytesRead(bytesRead, chunk, start, end), bytesRead + chunk;
      && (r.Ok? <==> n <= U64_MAX && (end != OPEN_ENDED ==> n <= end - start + 1))
      && r == if r.Ok? then Ok(n) else Err(Network)
  {
  }

  /** What the wrapped stream does, in order: chunks handed out, reconnects, and a final error. */
  datatype Event = Delivered(bytes: Bytes) | Resume(from: int, to: u64) | Failed(error: Error)

  function Received(trace: seq<Event>): Bytes
  {
    if trace == [] then []
    else
      var last := trace[|trace| - 1];
      var earlier := Received(trace[..|trace| - 1]);
      if last.Delivered? then earlier + last.bytes else earlier
  }

  function Resumes(trace: seq<Event>): nat
  {
    if trace == [] then 0
    else Resumes(trace[..|trace| - 1]) + (if trace[|trace| - 1].Resume? then 1 else 0)
  }

  lemma Snoc(trace: seq<Event>, event: Event)
    ensures Received(trace + [event]) == if event.Delivered? then Received(trace) + event.bytes else Received(trace)
    ensures Resumes(trace + [event]) == Resumes(trace) + (if event.Resume? then 1 else 0)
  {
    assert (trace + [event])[..|trace|] == trace;
  }

  /** Each reconnect asks for exactly the first byte not yet delivered and the original end. */
  ghost predicate ResumesExactly(trace: seq<Event>, start: u64, end: u64)
  {
    forall i :: 0 <= i < |trace| && trace[i].Resume? ==>
      trace[i].from == start + |Received(trace[..i])| && trace[i].to == end
  }

  lemma SnocExact(trace: seq<Event>, event: Event, start: u64, end: u64)
    requires ResumesExactly(trace, start, end)
    requires event.Resume? ==> event.from == start + |Received(trace)| && event.to == end
    ensures ResumesExactly(trace + [event], start, end)
  {
    var longer := trace + [event];
    forall i | 0 <= i < |longer| && longer[i].Resume?
      ensures longer[i].from == start + |Received(longer[..i])| && longer[i].to == end
    {
      assert longer[..i] == trace[..i];
      if i == |trace| { assert trace[..i] == trace; }
    }
  }

  /** An error can only be the last event. */
  predicate ErrorLast(trace: seq<Event>)
  {
    forall i :: 0 <= i < |trace| - 1 ==> !trace[i].Failed?
  }

  lemma FaithfulStep(content: Bytes, offset: nat, items: Stream)
    requires items != [] && items[0].Chunk? && Faithful(content, offset, items)
    ensures items[0].bytes == [] || At(content, offset, items[0].bytes)
    ensures Faithful(content, offset + |items[0].bytes|, items[1..])
  {
    if Payload(items) != [] { AtSplit(content, offset, items[0].bytes, Payload(items[1..])); }
  }

  lemma JoinAt(content: Bytes, start: nat, got: Bytes, chunk: Bytes)
    requires got == [] || At(content, start, got)
    requires chunk == [] || At(content, start + |got|, chunk)
    ensures got + chunk == [] || At(content, start, got + chunk)
  {
  }

  /** What holds between two polls: exact resume points, bounded counters, and origin bytes so far. */
  ghost predicate Progress(content: Bytes, honest: bool, trace: seq<Event>, start: u64, end: u64, bytesRead: u64, rest: Stream)
  {
    && (forall i :: 0 <= i < |trace| ==> !trace[i].Failed?)
    && ResumesExactly(trace, start, end)
    && |Received(trace)| == bytesRead
    && (end != OPEN_ENDED ==> bytesRead <= Max(0, end - start + 1))
    && (honest ==>
         && (Received(trace) == [] || At(content, start, Received(trace)))
         && Faithful(content, start + bytesRead, rest))
  }

  lemma ProgressChunk(content: Bytes, honest: bool, trace: seq<Event>, start: u64, end: u64, bytesRead: u64, rest: Stream)
    requires Progress(content, honest, trace, start, end, bytesRead, rest) && rest != [] && rest[0].Chunk?
    requires AdvanceBytesRead(bytesRead, |rest[0].bytes|, start, end).Ok?
    ensures Progress(content, honest, trace + [Delivered(rest[0].bytes)], start, end, bytesRead + |rest[0].bytes|, rest[1..])
  {
    hide At, Payload, ResumesExactly, Received, Resumes, Faithful;
    if honest {
      FaithfulStep(content, start + bytesRead, rest);
      JoinAt(content, start, Received(trace), rest[0].bytes);
    }
    Snoc(trace, Delivered(rest[0].bytes));
    SnocExact(trace, Delivered(rest[0].bytes), start, end);
  }

  lemma ProgressResume(content: Bytes, honest: bool, trace: seq<Event>, start: u64, end: u64, bytesRead: u64, rest: Stream, reply: Reply)
    requires Progress(content, honest, trace, start, end, bytesRead, rest) && start + bytesRead <= U64_MAX
    requires (honest ==> Honest(content, reply)) && Accept(reply, start + bytesRead, end).Ok?
    ensures Progress(content, honest, trace + [Resume(start + bytesRead, end)], start, end, bytesRead, reply.body)
  {
    hide At, Payload, ResumesExactly, Received, Resumes, Faithful;
    if honest { AcceptedIsAligned(content, reply, start + bytesRead, end); }
    Snoc(trace, Resume(start + bytesRead, end));
    SnocExact(trace, Resume(start + bytesRead, end), start, end);
  }

  /** How the stream ended: the trace's guarantees, whatever the last events were. */
  ghost predicate Delivers(content: Bytes, honest: bool, trace: seq<Event>, start: u64, end: u64)
  {
    && ErrorLast(trace) && ResumesExactly(trace, start, end)
    && (end != OPEN_ENDED ==> |Received(trace)| <= Max(0, end - start + 1))
    && (honest ==> Received(trace) == [] || At(content, start, Received(trace)))
  }

  lemma Fail(content: Bytes, honest: bool, trace: seq<Event>, start: u64, end: u64, bytesRead: u64, rest: Stream, resumed: bool, error: Error)
    requires Progress(content, honest, trace, start, end, bytesRead, rest)
    ensures var longer := (if resumed then trace + [Resume(start + bytesRead, end)] else trace) + [Failed(error)];
      && Delivers(content, honest, longer, start, end)
      && Resumes(longer) == Resumes(trace) + (if resumed then 1 else 0)
  {
    hide At, Faithful, ResumesExactly, Received, Resumes;
    var before := if resumed then trace + [Resume(start + bytesRead, end)] else trace;
    if resumed {
      Snoc(trace, Resume(start + bytesRead, end));
      SnocExact(trace, Resume(start + bytesRead, end), start, end);
    }
    Snoc(before, Failed(error));
    SnocExact(before, Failed(error), start, end);
  }

  /** All bytes the connections would supply, each resumed at the first missing byte, and whether the last one ended cleanly. */
  datatype Whole = Whole(bytes: Bytes, clean: bool)

  function Expected(rest: Stream, got: nat, attempt: nat, start: u64, end: u64, maxAttempts: nat, retry: Server): Whole
    decreases Max(0, maxAttempts - attempt)
  {
    var here := Payload(rest);
    var next := start + got + |here|;
    if Clean(rest) then Whole(here, true)
    else if attempt >= maxAttempts || next > U64_MAX then Whole(here, false)
    else match retry(attempt + 1, next)
      case Err(_) => Whole(here, false)
      case Ok(reply) =>
        if Accept(reply, next, end).Err? then Whole(here, false)
        else
          var more := Expected(reply.body, got + |here|, attempt + 1, start, end, maxAttempts, retry);
          Whole(here + more.bytes, more.clean)
  }

  lemma ExpectedChunk(rest: Stream, got: nat, attempt: nat, start: u64, end: u64, maxAttempts: nat, retry: Server)
    requires rest != [] && rest[0].Chunk?
    ensures var whole := Expected(rest, got, attempt, start, end, maxAttempts, retry);
      var tail := Expected(rest[1..], got + |rest[0].bytes|, attempt, start, end, maxAttempts, retry);
      whole.bytes == rest[0].bytes + tail.bytes && whole.clean == tail.clean
  {
    hide Accept;
    CleanStep(rest);
  }

  lemma ExpectedFault(rest: Stream, got: nat, attempt: nat, start: u64, end: u64, maxAttempts: nat, retry: Server)
    requires rest != [] && rest[0].Fault?
    ensures var whole := Expected(rest, got, attempt, start, end, maxAttempts, retry);
      if attempt >= maxAttempts || start + got > U64_MAX || retry(attempt + 1, start + got).Err?
        || Accept(retry(attempt + 1, start + got).value, start + got, end).Err? then whole == Whole([], false)
      else whole == Expected(retry(attempt + 1, start + got).value.body, got, attempt + 1, start, end, maxAttempts, retry)
  {
    hide Accept;
  }

  predicate InRange(n: nat, start: u64, end: u64)
  {
    n <= U64_MAX && (end != OPEN_ENDED ==> start <= end && n <= end - start + 1)
  }

  predicate NoError(trace: seq<Event>)
  {
    forall i :: 0 <= i < |trace| ==> !trace[i].Failed?
  }

  /** Nothing is lost: unless the server overruns the range, everything it supplied was handed on. */
  ghost predicate Complete(trace: seq<Event>, whole: Whole, start: u64, end: u64)
  {
    InRange(|whole.bytes|, start, end) ==> Received(trace) == whole.bytes && (NoError(trace) <==> whole.clean)
  }

  /** The whole is what was handed on plus what the remaining connections would supply. */
  ghost predicate Owes(whole: Whole, trace: seq<Event>, rest: Stream, got: nat, attempt: nat, start: u64, end: u64, maxAttempts: nat, retry: Server)
  {
    && |Received(trace)| == got && NoError(trace)
    && var owed := Expected(rest, got, attempt, start, end, maxAttempts, retry);
    && whole.bytes == Received(trace) + owed.bytes && whole.clean == owed.clean
  }

  lemma OwesChunk(whole: Whole, trace: seq<Event>, rest: Stream, got: u64, attempt: nat, start: u64, end: u64, maxAttempts: nat, retry: Server)
    requires Owes(whole, trace, rest, got, attempt, start, end, maxAttempts, retry) && rest != [] && rest[0].Chunk?
    ensures Owes(whole, trace + [Delivered(rest[0].bytes)], rest[1..], got + |rest[0].bytes|, attempt, start, end, maxAttempts, retry)
    ensures AdvanceBytesRead(got, |rest[0].bytes|, start, end).Err? ==> !InRange(|whole.bytes|, start, end)
  {
    hide Expected, Received;
    ExpectedChunk(rest, got, attempt, start, end, maxAttempts, retry);
    Snoc(trace, Delivered(rest[0].bytes));
  }

  /** At an error of the connection: the stream fails with everything handed on, or resumes owing the same bytes. */
  lemma OwesFault(whole: Whole, trace: seq<Event>, rest: Stream, got: u64, attempt: nat, start: u64, end: u64, maxAttempts: nat, retry: Server, error: Error)
    requires Owes(whole, trace, rest, got, attempt, start, end, maxAttempts, retry) && rest != [] && rest[0].Fault?
    ensures attempt >= maxAttempts || start + got > U64_MAX ==> Complete(trace + [Failed(error)], whole, start, end)
    ensures attempt < maxAttempts && start + got <= U64_MAX ==>
      var longer := trace + [Resume(start + got, end)];
      var reply := retry(attempt + 1, start + got);
      if reply.Err? || Accept(reply.value, start + got, end).Err? then Complete(longer + [Failed(error)], whole, start, end)
      else Owes(whole, longer, reply.value.body, got, attempt + 1, start, end, maxAttempts, retry)
  {
    hide Expected, Received, Accept;
    ExpectedFault(rest, got, attempt, start, end, maxAttempts, retry);
    Snoc(trace, Resume(start + got, end));
    FailedIsError(trace, error);
    FailedIsError(trace + [Resume(start + got, end)], error);
  }

  lemma OwesNothing(whole: Whole, trace: seq<Event>, got: u64, attempt: nat, start: u64, end: u64, maxAttempts: nat, retry: Server)
    requires Owes(whole, trace, [], got, attempt, start, end, maxAttempts, retry)
    ensures Complete(trace, whole, start, end)
  {
  }

  lemma FailedIsError(trace: seq<Event>, error: Error)
    ensures !NoError(trace + [Failed(error)]) && Received(trace + [Failed(error)]) == Received(trace)
  {
    Snoc(trace, Failed(error));
    assert (trace + [Failed(error)])[|trace|].Failed?;
  }

  /** One resumable download: the first body, the request and the server's answers to reconnects. */
  datatype Job = Job(body: Stream, start: u64, end: u64, maxAttempts: nat, retry: Server)

  ghost predicate HonestJob(content: Bytes, job: Job)
  {
    Faithful(content, job.start, job.body) && HonestServer(content, job.end, job.retry)
  }

  function AllOf(job: Job): Whole
  {
    Expected(job.body, 0, 1, job.start, job.end, job.maxAttempts, job.retry)
  }

  /** The loop invariant of the wrapped stream. */
  ghost predicate Polling(content: Bytes, job: Job, trace: seq<Event>, bytesRead: u64, attempt: nat, rest: Stream)
  {
    && Progress(content, HonestJob(content, job), trace, job.start, job.end, bytesRead, rest)
    && Owes(AllOf(job), trace, rest, bytesRead, attempt, job.start, job.end, job.maxAttempts, job.retry)
    && Resumes(trace) == attempt - 1 && (attempt == 1 || attempt <= job.maxAttempts)
  }

  /** What a finished stream guarantees: exact resumes, origin bytes, bounded reconnects, nothing lost. */
  ghost predicate Streamed(content: Bytes, job: Job, trace: seq<Event>)
  {
    && Delivers(content, HonestJob(content, job), trace, job.start, job.end)
    && Resumes(trace) <= Max(0, job.maxAttempts - 1)
    && Complete(trace, AllOf(job), job.start, job.end)
  }

  lemma PollChunk(content: Bytes, job: Job, trace: seq<Event>, bytesRead: u64, attempt: nat, rest: Stream)
    requires Polling(content, job, trace, bytesRead, attempt, rest) && rest != [] && rest[0].Chunk?
    ensures match AdvanceBytesRead(bytesRead, |rest[0].bytes|, job.start, job.end)
      case Err(error) => Streamed(content, job, trace + [Failed(error)])
      case Ok(next) => Polling(content, job, trace + [Delivered(rest[0].bytes)], next, attempt, rest[1..])
  {
    hide Progress, Owes, HonestJob, AllOf, Delivers, InRange, Received, Resumes;
    var advanced := AdvanceBytesRead(bytesRead, |rest[0].bytes|, job.start, job.end);
    OwesChunk(AllOf(job), trace, rest, bytesRead, attempt, job.start, job.end, job.maxAttempts, job.retry);
    if advanced.Err? {
      Fail(content, HonestJob(content, job), trace, job.start, job.end, bytesRead, rest, false, advanced.error);
    } else {
      ProgressChunk(content, HonestJob(content, job), trace, job.start, job.end, bytesRead, rest);
      Snoc(trace, Delivered(rest[0].bytes));
    }
  }

  lemma PollGivesUp(content: Bytes, job: Job, trace: seq<Event>, bytesRead: u64, attempt: nat, rest: Stream)
    requires Polling(content, job, trace, bytesRead, attempt, rest) && rest != [] && rest[0].Fault?
    requires attempt >= job.maxAttempts || job.start + bytesRead > U64_MAX
    ensures Streamed(content, job, trace + [Failed(Network)])
  {
    hide Progress, Owes, HonestJob, AllOf, Delivers, Complete, Received, Resumes;
    OwesFault(AllOf(job), trace, rest, bytesRead, attempt, job.start, job.end, job.maxAttempts, job.retry, Network);
    Fail(content, HonestJob(content, job), trace, job.start, job.end, bytesRead, rest, false, Network);
  }

  lemma PollResumes(content: Bytes, job: Job, trace: seq<Event>, bytesRead: u64, attempt: nat, rest: Stream, error: Error)
    requires Polling(content, job, trace, bytesRead, attempt, rest) && rest != [] && rest[0].Fault?
    requires attempt < job.maxAttempts && job.start + bytesRead <= U64_MAX
    ensures var longer := trace + [Resume(job.start + bytesRead, job.end)];
      var reply := job.retry(attempt + 1, job.start + bytesRead);
      if reply.Err? || Accept(reply.value, job.start + bytesRead, job.end).Err? then Streamed(content, job, longer + [Failed(error)])
      else Polling(content, job, longer, bytesRead, attempt + 1, reply.value.body)
  {
    hide Progress, Owes, AllOf, Delivers, Complete, Received, Resumes, Accept, Honest;
    var reply := job.retry(attempt + 1, job.start + bytesRead);
    OwesFault(AllOf(job), trace, rest, bytesRead, attempt, job.start, job.end, job.maxAttempts, job.retry, error);
    if reply.Err? || Accept(reply.value, job.start + bytesRead, job.end).Err? {
      Fail(content, HonestJob(content, job), trace, job.start, job.end, bytesRead, rest, true, error);
    } else {
      ProgressResume(content, HonestJob(content, job), trace, job.start, job.end, bytesRead, rest, reply.value);
      Snoc(trace, Resume(job.start + bytesRead, job.end));
    }
  }

  lemma PollEnds(content: Bytes, job: Job, trace: seq<Event>, bytesRead: u64, attempt: nat)
    requires Polling(content, job, trace, bytesRead, attempt, [])
    ensures Streamed(content, job, trace)
  {
    OwesNothing(AllOf(job), trace, bytesRead, attempt, job.start, job.end, job.maxAttempts, job.retry);
  }

  /**
   The stream of wrap_with_retry up to its first error. `job.retry(k, from)` is what
   the server answers to the k-th attempt.
   */
  method WrapWithRetry(ghost content: Bytes, job: Job) returns (trace: seq<Event>)
    ensures Streamed(content, job, trace)
  {
    var rest, bytesRead: u64, attempt: nat := job.body, 0, 1;
    trace := [];
    assert Polling(content, job, trace, bytesRead, attempt, rest);
    hide Polling, Streamed, Accept;
    while rest != []
      invariant Polling(content, job, trace, bytesRead, attempt, rest)
      decreases job.maxAttempts - attempt, |rest|
    {
      var item := rest[0];
      if item.Chunk? {
        PollChunk(content, job, trace, bytesRead, attempt, rest);
        var advanced := AdvanceBytesRead(bytesRead, |item.bytes|, job.start, job.end);
        if advanced.Err? { return trace + [Failed(advanced.error)]; }
        trace, bytesRead, rest := trace + [Delivered(item.bytes)], advanced.value, rest[1..];
      } else {
        if attempt >= job.maxAttempts || job.start + bytesRead > U64_MAX {
          PollGivesUp(content, job, trace, bytesRead, attempt, rest);
          return trace + [Failed(Network)];
        }
        var resume, reply := Resume(job.start + bytesRead, job.end), job.retry(attempt + 1, job.start + bytesRead);
        var accepted := if reply.Err? then Err(reply.error) else Accept(reply.value, job.start + bytesRead, job.end);
        PollResumes(content, job, trace, bytesRead, attempt, rest, if accepted.Err? then accepted.error else Network);
        if accepted.Err? { return trace + [resume] + [Failed(accepted.error)]; }
        trace, rest, attempt := trace + [resume], reply.value.body, attempt + 1;
      }
    }
    PollEnds(content, job, trace, bytesRead, attempt);
  }

  /** The items a consumer of the wrapped stream sees. */
  function Items(trace: seq<Event>): Stream
  {
    if trace == [] then []
    else
      var last := trace[|trace| - 1];
      Items(trace[..|trace| - 1]) +
        match last
        case Delivered(bytes) => [Chunk(bytes)]
        case Resume(_, _) => []
        case Failed(error) => [Fault(error)]
  }

  /** The consumer sees exactly the delivered bytes, and an error iff the stream failed. */
  lemma {:induction false} ItemsCarryReceived(trace: seq<Event>)
    requires ErrorLast(trace)
    ensures Payload(Items(trace)) == Received(trace)
    ensures Clean(Items(trace)) <==> (forall i :: 0 <= i < |trace| ==> !trace[i].Failed?)
  {
    if trace != [] {
      var n := |trace| - 1;
      ItemsCarryReceived(trace[..n]);
      assert forall i :: 0 <= i < n ==> trace[..n][i] == trace[i];
      assert Clean(Items(trace[..n]));
      match trace[n]
      case Delivered(bytes) => PayloadSnoc(Items(trace[..n]), Chunk(bytes));
      case Resume(_, _) => assert Items(trace) == Items(trace[..n]);
      case Failed(error) =>
        PayloadSnoc(Items(trace[..n]), Fault(error));
        assert Items(trace)[|Items(trace)| - 1].Fault?;
    }
  }
}
