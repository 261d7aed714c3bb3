/** Recorded totals stay true over every interleaving, as long as the totals that come in are. */
module RaceTotals {
  import opened Base
  import opened IntervalTable
  import opened DiskEngine
  import opened EngineRaces

  ghost predicate Told(origin: Key -> Bytes, key: Key, total: Option<u64>)
  {
    total.Some? ==> total.value == |origin(key)|
  }

  function TotalOf(u: Update): Option<u64> { if u.Reading? then u.raw.total else u.m.total }

  ghost predicate ToldEdit(origin: Key -> Bytes, key: Key, edit: Edit) { edit.SetMeta? ==> Told(origin, key, edit.total) }

  /** Every recorded total, and every one about to be, is the origin's length. */
  ghost predicate TrueTotals(origin: Key -> Bytes, r: Racing)
  {
    && (forall k :: k in r.engine.disk.sidecar ==> Told(origin, k, r.engine.disk.sidecar[k].total))
    && (forall k :: k in r.engine.index ==> Told(origin, k, r.engine.index[k].total))
    && (forall q :: q in r.queries ==> Told(origin, r.queries[q].key, r.queries[q].m.total))
    && (forall k :: k in r.updates ==> Told(origin, k, TotalOf(r.updates[k])) && ToldEdit(origin, k, r.updates[k].edit))
  }

  ghost predicate ToldMove(origin: Key -> Bytes, move: Move)
  {
    move.BeginUpdate? ==> Told(origin, move.key, move.total)
  }

  lemma EditKeepsTotals(origin: Key -> Bytes, r: Racing, key: Key, edit: Edit, base: RangeMetadata)
    requires TrueTotals(origin, r) && ToldEdit(origin, key, edit) && Told(origin, key, base.total)
    ensures TrueTotals(origin, StartEdit(r, key, edit, base))
  {
    hide Merge;
  }

  lemma BeginKeepsTotals(origin: Key -> Bytes, r: Racing, key: Key, edit: Edit, lookup: Lookup)
    requires TrueTotals(origin, r) && ToldEdit(origin, key, edit)
    ensures TrueTotals(origin, BeginEdit(r, key, edit, lookup))
  {
    hide StartEdit;
    if key in r.engine.index { EditKeepsTotals(origin, r, key, edit, r.engine.index[key]); }
    EditKeepsTotals(origin, r, key, edit, DEFAULT);
  }

  lemma IndexedKeepsTotals(origin: Key -> Bytes, r: Racing, key: Key, m: RangeMetadata, victim: Key)
    requires TrueTotals(origin, r) && Told(origin, key, m.total)
    ensures TrueTotals(origin, Indexed(r, key, m, victim))
  {
  }

  lemma UpdateKeepsTotals(origin: Key -> Bytes, r: Racing, move: Move)
    requires TrueTotals(origin, r) && ToldMove(origin, move)
    requires move.BeginUpdate? || move.BeginRecord? || move.StatUpdate? || move.Commit? || move.Finish?
    ensures TrueTotals(origin, UpdateMove(r, move))
  {
    hide BeginEdit, StartEdit, MetadataIsValid, IndexInsert;
    var key := move.key;
    match move
    case BeginUpdate(_, total, contentType, lookup) => BeginKeepsTotals(origin, r, key, SetMeta(total, contentType), lookup);
    case BeginRecord(_, lookup) =>
      if key in r.writers && r.writers[key].Synced? { BeginKeepsTotals(origin, r, key, AddRange(r.writers[key].lo, r.writers[key].hi), lookup); }
    case StatUpdate(_, _) =>
      if key in r.updates && r.updates[key].Reading? {
        EditKeepsTotals(origin, r, key, r.updates[key].edit, r.updates[key].raw);
        EditKeepsTotals(origin, r, key, r.updates[key].edit, DEFAULT);
      }
    case Commit(_, _) =>
    case Finish(_, victim) =>
      if key in r.updates && r.updates[key].Committed? { IndexedKeepsTotals(origin, r, key, r.updates[key].m, victim); }
  }

  lemma QueryKeepsTotals(origin: Key -> Bytes, r: Racing, move: Move)
    requires TrueTotals(origin, r) && (move.BeginQuery? || move.StatQuery? || move.EndQuery?)
    ensures TrueTotals(origin, QueryMove(r, move))
  {
    hide MetadataIsValid, IndexInsert;
    if move.EndQuery? && move.query in r.queries {
      IndexedKeepsTotals(origin, r, r.queries[move.query].key, r.queries[move.query].m, move.victim);
    }
  }

  /** No metadata is new. */
  ghost predicate NoNewMetadata(r: Racing, r': Racing)
  {
    && (forall k :: k in r'.engine.disk.sidecar ==> k in r.engine.disk.sidecar && r'.engine.disk.sidecar[k] == r.engine.disk.sidecar[k])
    && (forall k :: k in r'.engine.index ==> k in r.engine.index && r'.engine.index[k] == r.engine.index[k])
    && r'.queries == r.queries && r'.updates == r.updates
  }

  lemma SameIsNotNew(r: Racing, r': Racing)
    requires SameMetadata(r, r')
    ensures NoNewMetadata(r, r')
  {
  }

  lemma SidecarGoneAddsNone(r: Racing, key: Key, doomed: map<Key, Doom>)
    ensures NoNewMetadata(r, SidecarGone(r, key).(doomed := doomed))
  {
  }

  lemma DeleteAddsNoMetadata(r: Racing, move: Move)
    requires move.BeginDelete? || move.DeleteData? || move.DeleteSidecar?
    ensures NoNewMetadata(r, DeleteMove(r, move))
  {
  }

  lemma ScanAddsNoMetadata(r: Racing, move: Move)
    requires move.ScanLook? || move.ScanUnlink?
    ensures NoNewMetadata(r, ScanMove(r, move))
  {
    hide Keeps, NoNewMetadata;
    var r' := ScanMove(r, move);
    if SameMetadata(r, r') { SameIsNotNew(r, r'); } else { SidecarGoneAddsNone(r, move.key, r'.doomed); }
  }

  lemma NoNewKeepsTotals(origin: Key -> Bytes, r: Racing, r': Racing)
    requires TrueTotals(origin, r) && NoNewMetadata(r, r')
    ensures TrueTotals(origin, r')
  {
  }

  lemma MoveKeepsTotals(origin: Key -> Bytes, r: Racing, move: Move)
    requires TrueTotals(origin, r) && ToldMove(origin, move)
    ensures TrueTotals(origin, Next(r, move))
  {
    hide QueryMove, UpdateMove, WriteMove, DeleteMove, ScanMove, ToldMove, NoNewMetadata;
    var r' := Next(r, move);
    if move.BeginQuery? || move.StatQuery? || move.EndQuery? { QueryKeepsTotals(origin, r, move); }
    else if move.BeginUpdate? || move.BeginRecord? || move.StatUpdate? || move.Commit? || move.Finish? { UpdateKeepsTotals(origin, r, move); }
    else if move.OpenWrite? || move.Progress? || move.Sync? { WriteKeepsMetadata(r, move); SameIsNotNew(r, r'); NoNewKeepsTotals(origin, r, r'); }
    else if move.BeginDelete? || move.DeleteData? || move.DeleteSidecar? { DeleteAddsNoMetadata(r, move); NoNewKeepsTotals(origin, r, r'); }
    else if move.ScanLook? || move.ScanUnlink? { ScanAddsNoMetadata(r, move); NoNewKeepsTotals(origin, r, r'); }
  }
}
