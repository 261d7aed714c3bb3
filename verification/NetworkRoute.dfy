/**
 When the body of the network route is the span its headers announce. The announced
 span comes from the first reply, the bytes from every connection the download used.
 */
module NetworkRoute {
  import opened Base
  import opened NetSource
  import opened Tee
  import opened Serving

  /** An honest reply behind an HTTP client: its range lies inside the content, and a body that ends early ends in an error. */
  ghost predicate WellBehaved(content: Bytes, reply: Reply)
  {
    && Honest(content, reply)
    && (reply.contentRange.Some? ==> reply.contentRange.value.end < |content|)
    && (reply.contentLength.Some? && Clean(reply.body) ==> |Payload(reply.body)| == reply.contentLength.value)
  }

  /** Every reply that the download would accept is well behaved. */
  ghost predicate WellBehavedServer(content: Bytes, end: u64, server: Server)
  {
    forall k: nat, from: u64 ::
      server(k, from).Ok? && Accept(server(k, from).value, from, end).Ok? ==> WellBehaved(content, server(k, from).value)
  }

  /** The offset after the last byte announced by the last connection the download uses. */
  function LastEnd(rest: Stream, announced: int, got: nat, attempt: nat, start: u64, end: u64, maxAttempts: nat, retry: Server): int
    decreases Max(0, maxAttempts - attempt)
  {
    var next := start + got + |Payload(rest)|;
    if Clean(rest) || attempt >= maxAttempts || next > U64_MAX || retry(attempt + 1, next).Err? then announced
    else
      var reply := retry(attempt + 1, next).value;
      match Accept(reply, next, end)
      case Err(_) => announced
      case Ok(length) => LastEnd(reply.body, next + length, got + |Payload(rest)|, attempt + 1, start, end, maxAttempts, retry)
  }

  /** Where an accepted reply of a well-behaved server says it ends. */
  lemma AcceptedEnd(content: Bytes, reply: Reply, from: u64, end: u64)
    requires WellBehaved(content, reply) && Accept(reply, from, end).Ok? && |content| <= U64_MAX
    ensures var announced := from + Accept(reply, from, end).value;
      && from + |Payload(reply.body)| <= announced <= Max(from, |content|)
      && (Clean(reply.body) ==> from + |Payload(reply.body)| == announced)
      && (end != OPEN_ENDED ==> announced <= end + 1)
  {
  }

  /** The supplied bytes stay inside content and range, and a clean end is the last announced end. */
  lemma {:induction false} SuppliedEnd(content: Bytes, rest: Stream, announced: int, got: nat, attempt: nat, start: u64, end: u64, maxAttempts: nat, retry: Server)
    requires |content| <= U64_MAX && WellBehavedServer(content, end, retry)
    requires start + got + |Payload(rest)| <= announced <= Max(start + got, |content|)
    requires Clean(rest) ==> start + got + |Payload(rest)| == announced
    requires end != OPEN_ENDED ==> announced <= end + 1
    ensures var whole := Expected(rest, got, attempt, start, end, maxAttempts, retry);
      var reached := start + got + |whole.bytes|;
      && reached <= Max(start + got, |content|) && (end != OPEN_ENDED ==> reached <= end + 1)
      && (whole.clean ==> reached == LastEnd(rest, announced, got, attempt, start, end, maxAttempts, retry))
    decreases Max(0, maxAttempts - attempt)
  {
    hide WellBehaved, Accept, Payload, Clean;
    var next := start + got + |Payload(rest)|;
    if !Clean(rest) && attempt < maxAttempts && next <= U64_MAX && retry(attempt + 1, next).Ok? {
      var reply := retry(attempt + 1, next).value;
      if Accept(reply, next, end).Ok? {
        AcceptedEnd(content, reply, next, end);
        SuppliedEnd(content, reply.body, next + Accept(reply, next, end).value, got + |Payload(rest)|, attempt + 1, start, end, maxAttempts, retry);
      }
    }
  }

  /** A download: the accepted first reply and the job that streams it. */
  ghost predicate Download(content: Bytes, reply: Reply, job: Job)
  {
    && |content| <= U64_MAX
    && WellBehaved(content, reply) && Accept(reply, job.start, job.end).Ok? && job.body == reply.body
    && WellBehavedServer(content, job.end, job.retry)
  }

  /** Every connection the download used announced the end of the first reply, or the download failed. */
  predicate KeepsAnnouncedEnd(reply: Reply, job: Job)
    requires Accept(reply, job.start, job.end).Ok?
  {
    var announced := job.start + Accept(reply, job.start, job.end).value;
    AllOf(job).clean ==> LastEnd(job.body, announced, 0, 1, job.start, job.end, job.maxAttempts, job.retry) == announced
  }

  /** A complete answer to a whole-resource request, or a range with a total. */
  predicate NamesTotal(reply: Reply)
  {
    || (reply.status == 200 && reply.contentLength.Some? && reply.contentLength.value > 0)
    || (reply.contentRange.Some? && reply.contentRange.value.total.Some?)
  }

  /**
   The announced span of the response is the span of the first reply. The response is
   refused exactly when the request is open-ended and the reply names no total.
   */
  lemma AnnouncedSpan(content: Bytes, reply: Reply, job: Job, body: Stream)
    requires Download(content, reply, job) && job.start <= job.end
    ensures var n := Accept(reply, job.start, job.end).value;
      match FetchFromNetwork(Ok(FetchedFrom(reply, n, body)), job.start, job.end)
      case Ok(r) =>
        && n > 0 && r.start == job.start && r.length == n && r.end == job.start + n - 1 < |content| && r.body == UpToError(body)
        && (job.end != OPEN_ENDED || NamesTotal(reply))
      case Err(_) => job.end == OPEN_ENDED && !NamesTotal(reply)
  {
    hide Payload, Clean, Faithful, UpToError;
  }

  /**
   An error-free network body is exactly the announced span iff the last connection
   announced the same end as the first: a reconnect that is answered with a shorter
   range is accepted and ends the body early without an error.
   */
  lemma NetworkRouteExact(content: Bytes, reply: Reply, job: Job, trace: seq<Event>)
    requires Download(content, reply, job) && job.start <= job.end && Streamed(content, job, trace)
    ensures match FetchFromNetwork(Ok(FetchedFrom(reply, Accept(reply, job.start, job.end).value, Items(trace))), job.start, job.end)
      case Ok(r) => (Clean(r.body) ==> |Payload(r.body)| == r.length) <==> KeepsAnnouncedEnd(reply, job)
      case Err(_) => true
  {
    var n := Accept(reply, job.start, job.end).value;
    AnnouncedSpan(content, reply, job, Items(trace));
    UpToErrorKeeps(Items(trace));
    ItemsCarryReceived(trace);
    hide FetchFromNetwork, Items, Payload, Clean, Accept, Received, Expected, LastEnd, UpToError, Resumes;
    AcceptedEnd(content, reply, job.start, job.end);
    SuppliedEnd(content, job.body, job.start + n, 0, 1, job.start, job.end, job.maxAttempts, job.retry);
  }

  const FOUR: Bytes := [1, 2, 3, 4]
  const FIRST := Reply(206, Some(4), Some(ContentRange(0, 3, Some(4))), [Chunk([1, 2]), Fault(Network)])
  const SHORT := Reply(206, Some(1), Some(ContentRange(2, 2, Some(4))), [Chunk([3])])

  /** A request for four bytes whose connection breaks after two; reconnects get one byte. */
  function BrokenJob(): Job { Job(FIRST.body, 0, 3, MAX_ATTEMPTS, (k, from) => Ok(SHORT)) }

  lemma BrokenBodies()
    ensures Payload(FIRST.body) == [1, 2] && !Clean(FIRST.body)
    ensures Payload(SHORT.body) == [3] && Clean(SHORT.body)
    ensures WellBehaved(FOUR, FIRST) && WellBehaved(FOUR, SHORT)
  {
    assert FIRST.body[1..] == [Fault(Network)] && FIRST.body[1].Fault?;
    assert SHORT.body[1..] == [];
    assert FOUR[0..2] == [1, 2] && FOUR[2..3] == [3];
  }

  lemma BrokenSupply()
    ensures Download(FOUR, FIRST, BrokenJob())
    ensures AllOf(BrokenJob()).clean && |AllOf(BrokenJob()).bytes| == 3
  {
    BrokenBodies();
    hide Payload, Clean, WellBehaved;
    var job := BrokenJob();
    assert Expected(SHORT.body, 2, 2, 0, 3, MAX_ATTEMPTS, job.retry) == Whole([3], true);
  }

  /** The announced four bytes are answered with three and no error. */
  lemma ShortResumeEndsEarly(trace: seq<Event>)
    requires Streamed(FOUR, BrokenJob(), trace)
    ensures match FetchFromNetwork(Ok(FetchedFrom(FIRST, 4, Items(trace))), 0, 3)
      case Ok(r) => r.length == 4 && Clean(r.body) && |Payload(r.body)| == 3
      case Err(_) => false
  {
    BrokenSupply();
    UpToErrorKeeps(Items(trace));
    ItemsCarryReceived(trace);
    hide AllOf, Items, Payload, Clean, Received, UpToError, Delivers, BrokenJob, Download;
    BrokenRange();
  }

  lemma BrokenRange()
    ensures BrokenJob().start == 0 && BrokenJob().end == 3
  {
  }
}
