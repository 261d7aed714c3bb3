/** When the index and the sidecars stay equal although queries, updates, deletes and the scan interleave. */
module IndexRaces {
  import opened Base
  import opened DiskEngine
  import opened EngineRaces

  /** The key's update has committed its sidecar and not yet reached the index. */
  predicate InFlight(r: Racing, key: Key) { key in r.updates && r.updates[key].Committed? }

  predicate SidecarIs(r: Racing, key: Key, m: RangeMetadata)
  {
    key in r.engine.disk.sidecar && r.engine.disk.sidecar[key] == m
  }

  /** The index says what the sidecars say, except where an update is on its way to it. */
  ghost predicate Matches(r: Racing)
  {
    forall k :: k in r.engine.index && !InFlight(r, k) ==> SidecarIs(r, k, r.engine.index[k])
  }

  /** The move brings outdated metadata into the index, or removes the sidecar of an indexed key. */
  predicate Outdates(r: Racing, move: Move)
  {
    match move
    case EndQuery(q, _) => q in r.queries && r.queries[q].checked && !InFlight(r, r.queries[q].key) && !SidecarIs(r, r.queries[q].key, r.queries[q].m)
    case Finish(key, _) => InFlight(r, key) && !SidecarIs(r, key, r.updates[key].m)
    case DeleteSidecar(key, works) => key in r.deletions && r.deletions[key].AtSidecar? && works && key in r.engine.index && !InFlight(r, key)
    case ScanUnlink(key, works) => key in r.doomed && r.doomed[key].Both? && works && key in r.engine.index && !InFlight(r, key)
    case _ => false
  }

  /** One entry more, the rest of the index no larger, the sidecars the same. */
  lemma IndexedMatches(r: Racing, key: Key, m: RangeMetadata, victim: Key)
    requires Matches(r)
    ensures var r' := Indexed(r, key, m, victim); Matches(r') <==> InFlight(r, key) || SidecarIs(r, key, m)
  {
    var r' := Indexed(r, key, m, victim);
    assert forall k :: k in r'.engine.index && k != key ==> k in r.engine.index && r'.engine.index[k] == r.engine.index[k];
    assert key in r'.engine.index && r'.engine.index[key] == m;
    hide IndexInsert;
    assert forall k :: InFlight(r', k) == InFlight(r, k);
  }

  lemma QueryMatches(r: Racing, move: Move)
    requires Matches(r) && (move.BeginQuery? || move.StatQuery? || move.EndQuery?)
    ensures Matches(QueryMove(r, move)) <==> !Outdates(r, move)
  {
    hide MetadataIsValid, Indexed, Matches;
    var q := move.query;
    if move.EndQuery? && q in r.queries && r.queries[q].checked {
      IndexedMatches(r, r.queries[q].key, r.queries[q].m, move.victim);
      QueriesDoNotMatter(Indexed(r, r.queries[q].key, r.queries[q].m, move.victim), r.queries - {q});
    } else {
      QueriesDoNotMatter(r, QueryMove(r, move).queries);
      assert QueryMove(r, move) == r.(queries := QueryMove(r, move).queries);
    }
  }

  lemma QueriesDoNotMatter(r: Racing, queries: map<nat, Hand>)
    ensures Matches(r.(queries := queries)) <==> Matches(r)
  {
    assert forall k :: InFlight(r.(queries := queries), k) == InFlight(r, k);
  }

  /** Starting, checking and giving up an update touch neither the index nor a sidecar. */
  lemma EditMatches(r: Racing, r': Racing)
    requires Matches(r) && r'.engine == r.engine
    requires forall k :: InFlight(r, k) ==> InFlight(r', k)
    ensures Matches(r')
  {
  }

  lemma StartKeepsFlights(r: Racing, key: Key, edit: Edit, base: RangeMetadata)
    requires !InFlight(r, key)
    ensures StartEdit(r, key, edit, base).engine == r.engine && forall k :: InFlight(r, k) ==> InFlight(StartEdit(r, key, edit, base), k)
  {
    hide EditMetadata;
  }

  lemma CommitMatches(r: Racing, key: Key)
    requires Matches(r) && key in r.updates && r.updates[key].Editing?
    ensures Matches(UpdateMove(r, Commit(key, true))) && Matches(EndUpdate(r, key, r.updates[key].edit))
  {
    var r' := UpdateMove(r, Commit(key, true));
    assert InFlight(r', key);
    assert forall k :: k != key ==> InFlight(r', k) == InFlight(r, k);
    var ended := EndUpdate(r, key, r.updates[key].edit);
    assert forall k :: InFlight(r, k) ==> InFlight(ended, k);
    EditMatches(r, ended);
  }

  lemma FinishMatches(r: Racing, key: Key, victim: Key)
    requires Matches(r) && InFlight(r, key)
    ensures Matches(EndUpdate(Indexed(r, key, r.updates[key].m, victim), key, r.updates[key].edit)) <==> SidecarIs(r, key, r.updates[key].m)
  {
    var m := r.updates[key].m;
    var r' := EndUpdate(Indexed(r, key, m, victim), key, r.updates[key].edit);
    assert forall k :: k in r'.engine.index && k != key ==> k in r.engine.index && r'.engine.index[k] == r.engine.index[k];
    assert key in r'.engine.index && r'.engine.index[key] == m && !InFlight(r', key);
    hide IndexInsert;
    assert forall k :: k != key ==> InFlight(r', k) == InFlight(r, k);
  }

  lemma BeginMatches(r: Racing, key: Key, edit: Edit, lookup: Lookup)
    requires Matches(r) && key !in r.updates
    ensures Matches(BeginEdit(r, key, edit, lookup))
  {
    hide StartEdit, Matches;
    if key in r.engine.index { StartKeepsFlights(r, key, edit, r.engine.index[key]); }
    StartKeepsFlights(r, key, edit, DEFAULT);
    EditMatches(r, BeginEdit(r, key, edit, lookup));
  }

  lemma UpdateMatches(r: Racing, move: Move)
    requires Matches(r) && (move.BeginUpdate? || move.BeginRecord? || move.StatUpdate? || move.Commit? || move.Finish?)
    ensures Matches(UpdateMove(r, move)) <==> !Outdates(r, move)
  {
    hide Matches, MetadataIsValid, BeginEdit, StartEdit, EndUpdate, Indexed;
    var key := move.key;
    match move
    case BeginUpdate(_, total, contentType, lookup) => if key !in r.updates { BeginMatches(r, key, SetMeta(total, contentType), lookup); }
    case BeginRecord(_, lookup) =>
      if key !in r.updates && key in r.writers && r.writers[key].Synced? { BeginMatches(r, key, AddRange(r.writers[key].lo, r.writers[key].hi), lookup); }
    case StatUpdate(_, works) =>
      if key in r.updates && r.updates[key].Reading? {
        var u := r.updates[key];
        StartKeepsFlights(r, key, u.edit, u.raw);
        StartKeepsFlights(r, key, u.edit, DEFAULT);
        EditMatches(r, UpdateMove(r, move));
      }
    case Commit(_, works) => if key in r.updates && r.updates[key].Editing? { CommitMatches(r, key); }
    case Finish(_, victim) => if InFlight(r, key) { FinishMatches(r, key, victim); }
  }

  lemma WriteMatches(r: Racing, move: Move)
    requires Matches(r) && (move.OpenWrite? || move.Progress? || move.Sync?)
    ensures Matches(WriteMove(r, move))
  {
    hide WriteMove;
    WriteKeepsMetadata(r, move);
    var r' := WriteMove(r, move);
    assert forall k :: InFlight(r', k) == InFlight(r, k);
  }

  lemma GoneMatches(r: Racing, key: Key)
    requires Matches(r)
    ensures Matches(SidecarGone(r, key)) <==> !(key in r.engine.index && !InFlight(r, key))
    ensures Matches(DataGone(r, key))
  {
    var r' := SidecarGone(r, key);
    assert forall k :: InFlight(r', k) == InFlight(r, k) && InFlight(DataGone(r, key), k) == InFlight(r, k);
  }

  lemma FlagsDoNotMatter(r: Racing, deletions: map<Key, Deletion>, doomed: map<Key, Doom>)
    ensures Matches(r.(deletions := deletions, doomed := doomed)) <==> Matches(r)
  {
    assert forall k :: InFlight(r.(deletions := deletions, doomed := doomed), k) == InFlight(r, k);
  }

  lemma UnindexedMatches(r: Racing, key: Key)
    requires Matches(r)
    ensures Matches(r.(engine := r.engine.(index := r.engine.index - {key})))
  {
    var r' := r.(engine := r.engine.(index := r.engine.index - {key}));
    assert forall k :: InFlight(r', k) == InFlight(r, k);
  }

  lemma DeleteMatches(r: Racing, move: Move)
    requires Matches(r) && (move.BeginDelete? || move.DeleteData? || move.DeleteSidecar?)
    ensures Matches(DeleteMove(r, move)) <==> !Outdates(r, move)
  {
    hide Matches, SidecarGone, DataGone;
    var key, deletions := move.key, DeleteMove(r, move).deletions;
    GoneMatches(r, key);
    UnindexedMatches(r, key);
    GoneFields(r, key);
    FlagsDoNotMatter(r, deletions, r.doomed);
    FlagsDoNotMatter(SidecarGone(r, key), deletions, r.doomed);
    FlagsDoNotMatter(DataGone(r, key), deletions, r.doomed);
    FlagsDoNotMatter(r.(engine := r.engine.(index := r.engine.index - {key})), deletions, r.doomed);
  }

  lemma ScanMatches(r: Racing, move: Move)
    requires Matches(r) && (move.ScanLook? || move.ScanUnlink?)
    ensures Matches(ScanMove(r, move)) <==> !Outdates(r, move)
  {
    hide Matches, SidecarGone, DataGone, Keeps;
    var key, doomed := move.key, ScanMove(r, move).doomed;
    GoneMatches(r, key);
    GoneFields(r, key);
    FlagsDoNotMatter(r, r.deletions, doomed);
    FlagsDoNotMatter(SidecarGone(r, key), r.deletions, doomed);
    FlagsDoNotMatter(DataGone(r, key), r.deletions, doomed);
  }

  /** Every move keeps index and sidecars equal exactly when it does not bring in outdated metadata or unlink an indexed sidecar. */
  lemma MoveMatches(r: Racing, move: Move)
    requires Matches(r)
    ensures Matches(Next(r, move)) <==> !Outdates(r, move)
  {
    hide Matches, QueryMove, UpdateMove, WriteMove, DeleteMove, ScanMove;
    if move.BeginQuery? || move.StatQuery? || move.EndQuery? { QueryMatches(r, move); }
    else if move.BeginUpdate? || move.BeginRecord? || move.StatUpdate? || move.Commit? || move.Finish? { UpdateMatches(r, move); }
    else if move.OpenWrite? || move.Progress? || move.Sync? { WriteMatches(r, move); }
    else if move.BeginDelete? || move.DeleteData? || move.DeleteSidecar? { DeleteMatches(r, move); }
    else if move.ScanLook? || move.ScanUnlink? { ScanMatches(r, move); }
    else { CrashMatches(r); }
  }

  lemma CrashMatches(r: Racing)
    ensures Matches(Idle(r.engine.(index := map[])))
  {
  }

  ghost predicate AlwaysMatches(r: Racing, moves: seq<Move>)
    decreases |moves|
  {
    Matches(r) && (moves == [] || AlwaysMatches(Next(r, moves[0]), moves[1..]))
  }

  predicate NeverOutdates(r: Racing, moves: seq<Move>)
    decreases |moves|
  {
    moves == [] || (!Outdates(r, moves[0]) && NeverOutdates(Next(r, moves[0]), moves[1..]))
  }

  /** Over every interleaving the index equals the sidecars throughout iff no move outdates it. */
  lemma {:induction false} IndexFollows(r: Racing, moves: seq<Move>)
    requires Matches(r)
    ensures AlwaysMatches(r, moves) <==> NeverOutdates(r, moves)
    decreases |moves|
  {
    if moves != [] {
      hide Next, Matches, Outdates;
      MoveMatches(r, moves[0]);
      if !Outdates(r, moves[0]) { IndexFollows(Next(r, moves[0]), moves[1..]); }
    }
  }
}
