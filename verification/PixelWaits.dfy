/** When overlapping syncs wait for one another in a circle. */
module PixelWaits {
  import opened Prelude
  import opened Domain
  import opened MetaAdapter
  import opened Pixels
  import opened PixelRuns

  // ----- Lists in one order -----

  /** The lists go through Meta ids in one order, repeating them or not. */
  ghost predicate Ordered(order: string -> nat, fetched: seq<MetaPixel>) {
    forall i, j :: 0 <= i < j < |fetched| ==> order(fetched[i].id) <= order(fetched[j].id)
  }

  ghost predicate Injective(order: string -> nat) {
    forall a, b :: order(a) == order(b) ==> a == b
  }

  /** A sync that has flushed a Meta id of an ordered list is at it or past it. */
  lemma FlushedIsPast(order: string -> nat, table: Table, s: Sync, id: Uuid)
    requires SyncOk(table, s) && Ordered(order, s.fetched) && id in s.writes && s.Busy()
    ensures s.Live() && order(s.writes[id].metaId) <= order(s.Current().id)
  {
    var done := s.fetched[..|s.saw|];
    OverrideKeys(s.advertiser, done);
    assert RowOk(table, s, id);
    assert s.writes[id].metaId in MetaIds(done);
    var i :| 0 <= i < |done| && done[i].id == s.writes[id].metaId;
    assert s.fetched[i] == done[i];
  }

  /** A sync that waits, unless for a UUID drawn twice, waits for a row that the other has
      flushed for the very Meta id it is at. */
  lemma WaitsForRow(table: Table, s: Sync, other: Sync, drawn: Uuid) returns (id: Uuid)
    requires UniqueMetaIds(table) && SyncOk(table, s) && SyncOk(table, other) && Apart(s.writes, other.writes)
    requires Waits(s, other, drawn) && drawn !in other.writes
    ensures s.Busy() && id in other.writes && other.writes[id].metaId == s.Current().id
  {
    if s.stage == Inserting {
      id :| id in other.writes && other.writes[id].metaId == s.Current().id;
    } else {
      id := s.stage.id;
    }
  }

  /** A sync that has flushed the Meta id it is at waits for nobody. */
  lemma HolderIsFree(table: Table, s: Sync, id: Uuid, other: Sync, drawn: Uuid)
    requires UniqueMetaIds(table) && SyncOk(table, s) && SyncOk(table, other) && Apart(s.writes, other.writes)
    requires s.Busy() && id in s.writes && s.writes[id].metaId == s.Current().id && drawn !in other.writes
    ensures !Waits(s, other, drawn)
  {
    assert forall row :: row in other.writes ==> other.writes[row].metaId != s.writes[id].metaId;
    if Waits(s, other, drawn) {
      var row := WaitsForRow(table, s, other, drawn);
    }
  }

  ghost predicate Drawn(s: State, id: Uuid) {
    exists sid :: sid in s.syncs && id in s.syncs[sid].writes
  }

  ghost predicate CanGo(s: State, sid: nat) {
    sid in s.syncs && s.syncs[sid].Live() && forall drawn :: !Drawn(s, drawn) ==> Enabled(s, Statement(sid, drawn))
  }

  lemma HolderCanGo(s: State, sid: nat, id: Uuid)
    requires Inv(s) && sid in s.syncs && id in s.syncs[sid].writes
    requires s.syncs[sid].Busy() ==> s.syncs[sid].writes[id].metaId == s.syncs[sid].Current().id
    ensures CanGo(s, sid)
  {
    var sync := s.syncs[sid];
    assert SyncOk(s.table, sync);
    forall drawn, other | !Drawn(s, drawn) && other in s.syncs && other != sid
      ensures !Waits(sync, s.syncs[other], drawn)
    {
      if sync.Busy() {
        HolderIsFree(s.table, sync, id, s.syncs[other], drawn);
      }
    }
  }

  /** Syncs whose lists go through Meta ids in one order never wait for one another in a
      circle: one of those in flight can do its next statement with any fresh UUID. */
  lemma {:induction false} OrderedSyncsMove(s: State, order: string -> nat, bound: nat, sid: nat) returns (free: nat)
    requires Inv(s) && Injective(order) && sid in s.syncs && s.syncs[sid].Live()
    requires forall other :: other in s.syncs ==> Ordered(order, s.syncs[other].fetched)
    requires forall other, i :: other in s.syncs && 0 <= i < |s.syncs[other].fetched| ==> order(s.syncs[other].fetched[i].id) < bound
    ensures CanGo(s, free)
    decreases if s.syncs[sid].Busy() then bound - order(s.syncs[sid].Current().id) else 0
  {
    if CanGo(s, sid) {
      free := sid;
    } else {
      var drawn :| !Drawn(s, drawn) && Blocked(s, sid, drawn);
      var other :| other in s.syncs && other != sid && Waits(s.syncs[sid], s.syncs[other], drawn);
      var id := WaitsForRow(s.table, s.syncs[sid], s.syncs[other], drawn);
      if s.syncs[other].Busy() && s.syncs[other].Current().id != s.syncs[other].writes[id].metaId {
        FlushedIsPast(order, s.table, s.syncs[other], id);
        free := OrderedSyncsMove(s, order, bound, other);
      } else {
        HolderCanGo(s, other, id);
        free := other;
      }
    }
  }

  // ----- A sync of known pixels that nobody disturbs -----

  ghost predicate KnownList(table: Table, fetched: seq<MetaPixel>) {
    forall i :: 0 <= i < |fetched| ==> HasRow(table, fetched[i].id)
  }

  /** The row as a sync sees it after the first n entries of its list. */
  function Shown(table: Table, advertiser: Uuid, fetched: seq<MetaPixel>, n: nat, id: Uuid): Pixel
    requires n <= |fetched| && id in table
  {
    var last := Override(advertiser, fetched[..n]);
    if table[id].metaId in last then last[table[id].metaId] else table[id]
  }

  /** Entry i changes the row of its Meta id as the entries before it have left that row. */
  ghost predicate Alters(table: Table, advertiser: Uuid, fetched: seq<MetaPixel>, i: nat)
    requires i < |fetched|
  {
    exists id :: id in table && table[id].metaId == fetched[i].id && Shown(table, advertiser, fetched, i, id) != Row(advertiser, fetched[i])
  }

  /** The Meta ids that the first n entries change, and so lock. */
  ghost function Locked(table: Table, advertiser: Uuid, fetched: seq<MetaPixel>, n: nat): set<string>
    requires n <= |fetched|
  {
    set i | 0 <= i < n && Alters(table, advertiser, fetched, i) :: fetched[i].id
  }

  ghost predicate ShowsOwn(table: Table, s: Sync)
    requires |s.saw| <= |s.fetched|
  {
    && (forall id :: id in s.writes ==> id in table)
    && (forall id :: id in table ==> (table + s.writes)[id] == Shown(table, s.advertiser, s.fetched, |s.saw|, id))
    && (forall id :: id in table ==>
          (id in s.writes <==> table[id].metaId in Locked(table, s.advertiser, s.fetched, |s.saw|)))
  }

  ghost predicate StageAlone(table: Table, s: Sync)
    requires |s.saw| <= |s.fetched|
  {
    match s.stage
    case Looking => true
    case Updating(id, seen) =>
      && s.Busy() && id in table && table[id].metaId == s.Current().id
      && seen == Shown(table, s.advertiser, s.fetched, |s.saw|, id)
    case _ => false
  }

  ghost predicate AloneOn(table: Table, s: Sync) {
    |s.saw| <= |s.fetched| && ShowsOwn(table, s) && StageAlone(table, s)
  }

  lemma ShownMetaId(table: Table, advertiser: Uuid, fetched: seq<MetaPixel>, n: nat, id: Uuid)
    requires n <= |fetched| && id in table
    ensures Shown(table, advertiser, fetched, n, id).metaId == table[id].metaId
  {
    if table[id].metaId in Override(advertiser, fetched[..n]) {
      var _ := OverrideRows(advertiser, fetched[..n], table[id].metaId);
    }
  }

  lemma ShownSnoc(table: Table, advertiser: Uuid, fetched: seq<MetaPixel>, n: nat, id: Uuid)
    requires n < |fetched| && id in table
    ensures Shown(table, advertiser, fetched, n + 1, id)
         == if table[id].metaId == fetched[n].id then Row(advertiser, fetched[n]) else Shown(table, advertiser, fetched, n, id)
  {
    OverrideSnoc(advertiser, fetched, n);
  }

  lemma LockedSnoc(table: Table, advertiser: Uuid, fetched: seq<MetaPixel>, n: nat)
    requires n < |fetched|
    ensures Locked(table, advertiser, fetched, n + 1)
         == Locked(table, advertiser, fetched, n) + if Alters(table, advertiser, fetched, n) then {fetched[n].id} else {}
  {
  }

  lemma LockedGrows(table: Table, advertiser: Uuid, fetched: seq<MetaPixel>, m: nat, n: nat)
    requires m <= n <= |fetched|
    ensures Locked(table, advertiser, fetched, m) <= Locked(table, advertiser, fetched, n)
  {
  }

  lemma BeginsAlone(table: Table, advertiser: Uuid, fetched: seq<MetaPixel>)
    ensures AloneOn(table, NewSync(advertiser, fetched))
  {
    assert fetched[..0] == [];
    assert Locked(table, advertiser, fetched, 0) == {};
  }

  /** What the SELECT finds is the row that the table has. */
  lemma FindsAlone(table: Table, s: Sync, metaId: string) returns (id: Uuid)
    requires UniqueMetaIds(table) && AloneOn(table, s) && HasRow(table, metaId)
    ensures id in table && table[id].metaId == metaId && ByMetaId(table + s.writes, metaId) == Some(id)
  {
    id :| id in table && table[id].metaId == metaId;
    forall i | i in table + s.writes
      ensures i in table && (table + s.writes)[i].metaId == table[i].metaId
    {
      ShownMetaId(table, s.advertiser, s.fetched, |s.saw|, i);
    }
    Finds(table + s.writes, metaId, id);
  }

  lemma LooksAlone(table: Table, s: Sync)
    requires UniqueMetaIds(table) && AloneOn(table, s) && s.stage == Looking && s.Busy() && KnownList(table, s.fetched)
    ensures LookUp(table, s).stage.Updating? && AloneOn(table, LookUp(table, s))
  {
    var id := FindsAlone(table, s, s.Current().id);
    assert LookUp(table, s) == s.(stage := Updating(id, Seen(table, s, id)));
    if s.saw != [] && s.fetched[|s.saw| - 1].id == s.Current().id {
      PreviousIsLast(s);
    }
  }

  lemma PatchedWanted(seen: Pixel, wanted: Pixel)
    requires seen.metaId == wanted.metaId
    ensures Patched(seen, seen, wanted) == wanted && (Changes(seen, wanted) <==> seen != wanted)
  {
  }

  lemma AltersExactly(table: Table, s: Sync)
    requires UniqueMetaIds(table) && AloneOn(table, s) && s.stage.Updating?
    ensures Changes(s.stage.seen, s.Wanted()) <==> Alters(table, s.advertiser, s.fetched, |s.saw|)
    ensures s.stage.seen.metaId == s.Wanted().metaId
  {
    ShownMetaId(table, s.advertiser, s.fetched, |s.saw|, s.stage.id);
    PatchedWanted(s.stage.seen, s.Wanted());
  }

  lemma UpdateShows(table: Table, s: Sync, id: Uuid, seen: Pixel, other: Uuid)
    requires UniqueMetaIds(table) && AloneOn(table, s) && s.stage == Updating(id, seen) && other in table
    ensures (table + Update(table, s, id, seen).writes)[other] == Shown(table, s.advertiser, s.fetched, |s.saw| + 1, other)
  {
    AltersExactly(table, s);
    PatchedWanted(seen, s.Wanted());
    ShownSnoc(table, s.advertiser, s.fetched, |s.saw|, other);
  }

  lemma UpdateLocks(table: Table, s: Sync, id: Uuid, seen: Pixel, other: Uuid)
    requires UniqueMetaIds(table) && AloneOn(table, s) && s.stage == Updating(id, seen) && other in table
    ensures other in Update(table, s, id, seen).writes
       <==> table[other].metaId in Locked(table, s.advertiser, s.fetched, |s.saw| + 1)
  {
    AltersExactly(table, s);
    LockedSnoc(table, s.advertiser, s.fetched, |s.saw|);
  }

  lemma UpdateShape(table: Table, s: Sync, id: Uuid, seen: Pixel)
    requires AloneOn(table, s) && s.stage == Updating(id, seen)
    ensures var s' := Update(table, s, id, seen);
            && s' == s.(saw := s.saw + [Some(seen)], stage := Looking, writes := s'.writes)
            && forall other :: other in s'.writes ==> other in table
  {
  }

  lemma UpdatesAlone(table: Table, s: Sync, id: Uuid, seen: Pixel)
    requires UniqueMetaIds(table) && AloneOn(table, s) && s.stage == Updating(id, seen)
    ensures AloneOn(table, Update(table, s, id, seen))
  {
    var s' := Update(table, s, id, seen);
    UpdateShape(table, s, id, seen);
    forall other | other in table
      ensures (table + s'.writes)[other] == Shown(table, s.advertiser, s.fetched, |s.saw| + 1, other)
      ensures other in s'.writes <==> table[other].metaId in Locked(table, s.advertiser, s.fetched, |s.saw| + 1)
    {
      UpdateShows(table, s, id, seen, other);
      UpdateLocks(table, s, id, seen, other);
    }
  }

  lemma AdvancesAlone(table: Table, s: Sync, drawn: Uuid)
    requires UniqueMetaIds(table) && AloneOn(table, s) && KnownList(table, s.fetched)
    ensures AloneOn(table, Advance(table, s, drawn))
  {
    if s.Busy() {
      if s.stage == Looking {
        LooksAlone(table, s);
      } else {
        UpdatesAlone(table, s, s.stage.id, s.stage.seen);
      }
    }
  }

  /** While nobody else commits, a sync of known pixels overrides the table whole. */
  lemma UndisturbedOverrides(table: Table, s: Sync, metaId: string)
    requires UniqueMetaIds(table) && AloneOn(table, s) && s.Commits() && KnownList(table, s.fetched)
    ensures Says(table, table + s.writes, s, metaId)
  {
    var table' := table + s.writes;
    assert s.fetched[..|s.saw|] == s.fetched;
    forall id | id in table'
      ensures id in table && table'[id].metaId == table[id].metaId
    {
      ShownMetaId(table, s.advertiser, s.fetched, |s.saw|, id);
    }
    if id :| id in table && table[id].metaId == metaId {
      Finds(table, metaId, id);
      Finds(table', metaId, id);
    } else {
      OverrideKeys(s.advertiser, s.fetched);
      assert forall i :: 0 <= i < |s.fetched| ==> HasRow(table, s.fetched[i].id);
    }
  }

  // ----- Runs before anyone has ended -----

  ghost predicate AllLive(table: Table, s: State) {
    forall sid :: sid in s.syncs ==> s.syncs[sid].Live() && KnownList(table, s.syncs[sid].fetched)
  }

  ghost predicate AllAlone(table: Table, s: State) {
    s.table == table && forall sid :: sid in s.syncs ==> AloneOn(table, s.syncs[sid])
  }

  lemma Ends(s: State, step: Step)
    requires Enabled(s, step)
    ensures step.Break? || (step.Statement? && s.syncs[step.sid].Commits()) ==>
              step.sid in Apply(s, step).syncs && !Apply(s, step).syncs[step.sid].Live()
  {
  }

  lemma WasLive(table: Table, s: State, step: Step)
    requires Enabled(s, step) && AllLive(table, Apply(s, step))
    ensures AllLive(table, s)
    ensures !step.Break? && (step.Statement? ==> !s.syncs[step.sid].Commits())
  {
    var s' := Apply(s, step);
    forall sid | sid in s.syncs
      ensures s.syncs[sid].Live() && KnownList(table, s.syncs[sid].fetched)
    {
      assert sid in s'.syncs && s'.syncs[sid].fetched == s.syncs[sid].fetched;
    }
    Ends(s, step);
  }

  lemma StepAlone(table: Table, s: State, step: Step)
    requires UniqueMetaIds(table) && AllAlone(table, s) && Enabled(s, step) && AllLive(table, Apply(s, step))
    ensures AllAlone(table, Apply(s, step))
  {
    WasLive(table, s, step);
    match step
    case Begin(_, advertiser, fetched) => BeginsAlone(table, advertiser, fetched);
    case Statement(sid, drawn) => AdvancesAlone(table, s.syncs[sid], drawn);
  }

  lemma {:induction false} RunAlone(run: seq<State>, steps: seq<Step>, i: nat)
    requires IsRun(run, steps) && i < |run| && AllLive(run[0].table, run[i])
    ensures AllAlone(run[0].table, run[i])
  {
    if i > 0 {
      WasLive(run[0].table, run[i - 1], steps[i - 1]);
      RunAlone(run, steps, i - 1);
      StepAlone(run[0].table, run[i - 1], steps[i - 1]);
    }
  }

  // ----- Two syncs -----

  /** At these entries each sync is about to change a row that the other has changed, and until
      then they have changed different rows. */
  ghost predicate BlockAt(table: Table, x: Uuid, v: seq<MetaPixel>, a: nat, y: Uuid, w: seq<MetaPixel>, b: nat)
    requires a < |v| && b < |w|
  {
    && Alters(table, x, v, a) && v[a].id in Locked(table, y, w, b)
    && Alters(table, y, w, b) && w[b].id in Locked(table, x, v, a)
    && Locked(table, x, v, a) !! Locked(table, y, w, b)
  }

  ghost predicate MayBlock(table: Table, x: Uuid, v: seq<MetaPixel>, y: Uuid, w: seq<MetaPixel>) {
    exists a, b :: 0 <= a < |v| && 0 <= b < |w| && BlockAt(table, x, v, a, y, w, b)
  }

  /** The two syncs are the only ones, and each waits for the other. */
  ghost predicate Stuck(s: State, x: Uuid, v: seq<MetaPixel>, y: Uuid, w: seq<MetaPixel>) {
    && s.syncs.Keys == {1, 2}
    && s.syncs[1].advertiser == x && s.syncs[1].fetched == v && s.syncs[1].Live()
    && s.syncs[2].advertiser == y && s.syncs[2].fetched == w && s.syncs[2].Live()
    && forall drawn :: Waits(s.syncs[1], s.syncs[2], drawn) && Waits(s.syncs[2], s.syncs[1], drawn)
  }

  /** What a sync of known pixels waits for. */
  lemma WaitsAlone(table: Table, s: Sync, other: Sync, drawn: Uuid)
    requires UniqueMetaIds(table) && AloneOn(table, s) && AloneOn(table, other)
    ensures Waits(s, other, drawn) <==>
              && s.stage.Updating? && Alters(table, s.advertiser, s.fetched, |s.saw|)
              && s.Current().id in Locked(table, other.advertiser, other.fetched, |other.saw|)
  {
    if s.stage.Updating? {
      AltersExactly(table, s);
    }
  }

  lemma LockedApart(table: Table, s: Sync, other: Sync)
    requires UniqueMetaIds(table) && AloneOn(table, s) && AloneOn(table, other)
    requires KnownList(table, s.fetched)
    ensures Apart(s.writes, other.writes) ==>
              Locked(table, s.advertiser, s.fetched, |s.saw|) !! Locked(table, other.advertiser, other.fetched, |other.saw|)
    ensures Locked(table, s.advertiser, s.fetched, |s.saw|) !! Locked(table, other.advertiser, other.fetched, |other.saw|) ==>
              forall id :: id in s.writes ==> id !in other.writes
  {
    if Apart(s.writes, other.writes) {
      forall metaId | metaId in Locked(table, s.advertiser, s.fetched, |s.saw|)
        ensures metaId !in Locked(table, other.advertiser, other.fetched, |other.saw|)
      {
        var i :| 0 <= i < |s.saw| && Alters(table, s.advertiser, s.fetched, i) && s.fetched[i].id == metaId;
        var id :| id in table && table[id].metaId == metaId;
        assert id in s.writes;
      }
    }
  }

  lemma StuckMayBlock(run: seq<State>, steps: seq<Step>, x: Uuid, v: seq<MetaPixel>, y: Uuid, w: seq<MetaPixel>)
    requires IsRun(run, steps) && Stuck(End(run), x, v, y, w)
    requires KnownList(run[0].table, v) && KnownList(run[0].table, w)
    ensures MayBlock(run[0].table, x, v, y, w)
  {
    var table, s := run[0].table, End(run);
    RunAlone(run, steps, |run| - 1);
    RunInv(run, steps, |run| - 1);
    WaitsAlone(table, s.syncs[1], s.syncs[2], "");
    WaitsAlone(table, s.syncs[2], s.syncs[1], "");
    assert Waits(s.syncs[1], s.syncs[2], "") && Waits(s.syncs[2], s.syncs[1], "");
    LockedApart(table, s.syncs[1], s.syncs[2]);
    assert BlockAt(table, x, v, |s.syncs[1].saw|, y, w, |s.syncs[2].saw|);
  }

  // ----- The run that gets there -----

  ghost predicate Reachable(table: Table, s: State) {
    exists run: seq<State>, steps: seq<Step> :: IsRun(run, steps) && run[0].table == table && End(run) == s
  }

  lemma ReachStep(table: Table, s: State, step: Step)
    requires Reachable(table, s) && Enabled(s, step)
    ensures Reachable(table, Apply(s, step))
  {
    var run: seq<State>, steps: seq<Step> :| IsRun(run, steps) && run[0].table == table && End(run) == s;
    var run', steps' := Extend(run, steps, step);
  }

  function With(s: State, sid: nat, sync: Sync): State {
    s.(syncs := s.syncs[sid := sync])
  }

  lemma ReachGo(table: Table, s: State, sid: nat, sync: Sync)
    requires Reachable(table, s) && sid in s.syncs && s.syncs[sid] == sync && sync.Live() && !sync.Commits()
    requires forall other :: other in s.syncs && other != sid ==> !Waits(sync, s.syncs[other], "")
    ensures Reachable(table, With(s, sid, Advance(s.table, sync, "")))
  {
    ReachStep(table, s, Statement(sid, ""));
  }

  /** Nothing that the sync flushes in its first n entries is flushed by the others. */
  ghost predicate Clear(table: Table, s: State, sid: nat, advertiser: Uuid, fetched: seq<MetaPixel>, n: nat)
    requires n <= |fetched|
  {
    forall other, id :: other in s.syncs && other != sid && id in s.syncs[other].writes ==>
      id in table && table[id].metaId !in Locked(table, advertiser, fetched, n)
  }

  /** A sync at entry n of its list, looking, or with the row of that entry read. */
  ghost predicate AtEntry(table: Table, s: Sync, advertiser: Uuid, fetched: seq<MetaPixel>, n: nat, read: bool) {
    AloneOn(table, s) && s.advertiser == advertiser && s.fetched == fetched && |s.saw| == n
    && (if read then s.stage.Updating? else s.stage == Looking)
  }

  lemma LookStep(table: Table, s: State, sid: nat, advertiser: Uuid, fetched: seq<MetaPixel>, n: nat, sync: Sync) returns (next: Sync)
    requires UniqueMetaIds(table) && KnownList(table, fetched) && n < |fetched|
    requires Reachable(table, With(s, sid, sync)) && s.table == table && AtEntry(table, sync, advertiser, fetched, n, false)
    ensures Reachable(table, With(s, sid, next)) && AtEntry(table, next, advertiser, fetched, n, true)
  {
    LooksAlone(table, sync);
    next := LookUp(table, sync);
    ReachGo(table, With(s, sid, sync), sid, sync);
    WithTwice(s, sid, sync, next);
  }

  lemma WithTwice(s: State, sid: nat, sync: Sync, next: Sync)
    ensures With(With(s, sid, sync), sid, next) == With(s, sid, next)
  {
    assert s.syncs[sid := sync][sid := next] == s.syncs[sid := next];
  }

  lemma ClearMeansFree(table: Table, s: State, sid: nat, sync: Sync, other: nat)
    requires UniqueMetaIds(table) && AloneOn(table, sync) && sync.stage.Updating? && other in s.syncs && other != sid
    requires Clear(table, s, sid, sync.advertiser, sync.fetched, |sync.saw| + 1)
    ensures !Waits(sync, s.syncs[other], "")
  {
    AltersExactly(table, sync);
    LockedSnoc(table, sync.advertiser, sync.fetched, |sync.saw|);
  }

  lemma UpdateStep(table: Table, s: State, sid: nat, advertiser: Uuid, fetched: seq<MetaPixel>, n: nat, sync: Sync) returns (next: Sync)
    requires UniqueMetaIds(table) && n < |fetched| && Clear(table, s, sid, advertiser, fetched, n + 1)
    requires Reachable(table, With(s, sid, sync)) && s.table == table && AtEntry(table, sync, advertiser, fetched, n, true)
    ensures Reachable(table, With(s, sid, next)) && AtEntry(table, next, advertiser, fetched, n + 1, false)
  {
    UpdatesAlone(table, sync, sync.stage.id, sync.stage.seen);
    next := Update(table, sync, sync.stage.id, sync.stage.seen);
    forall other | other in s.syncs && other != sid
      ensures !Waits(sync, s.syncs[other], "")
    {
      ClearMeansFree(table, s, sid, sync, other);
    }
    ReachGo(table, With(s, sid, sync), sid, sync);
    WithTwice(s, sid, sync, next);
  }

  /** One sync works through the first n entries of its list and reads the row of the next. */
  lemma {:induction false} Rounds(table: Table, s: State, sid: nat, advertiser: Uuid, fetched: seq<MetaPixel>, n: nat) returns (sync: Sync)
    requires UniqueMetaIds(table) && KnownList(table, fetched) && n < |fetched| && Clear(table, s, sid, advertiser, fetched, n)
    requires Reachable(table, With(s, sid, NewSync(advertiser, fetched))) && s.table == table
    ensures Reachable(table, With(s, sid, sync)) && AtEntry(table, sync, advertiser, fetched, n, true)
  {
    if n == 0 {
      BeginsAlone(table, advertiser, fetched);
      sync := NewSync(advertiser, fetched);
    } else {
      LockedGrows(table, advertiser, fetched, n - 1, n);
      sync := Rounds(table, s, sid, advertiser, fetched, n - 1);
      sync := UpdateStep(table, s, sid, advertiser, fetched, n - 1, sync);
    }
    sync := LookStep(table, s, sid, advertiser, fetched, n, sync);
  }

  function Pair(table: Table, first: Sync, second: Sync): State {
    State(table, map[1 := first, 2 := second])
  }

  lemma PairWith(table: Table, first: Sync, second: Sync, sync: Sync)
    ensures With(Pair(table, first, second), 1, sync) == Pair(table, sync, second)
    ensures With(Pair(table, first, second), 2, sync) == Pair(table, first, sync)
  {
  }

  lemma BothBegin(table: Table, first: Sync, second: Sync)
    requires UniqueMetaIds(table)
    requires first == NewSync(first.advertiser, first.fetched) && second == NewSync(second.advertiser, second.fetched)
    ensures Reachable(table, Pair(table, first, second))
  {
    var run, steps := [State(table, map[])], [];
    assert IsRun(run, steps) && run[0].table == table && End(run) == State(table, map[]);
    ReachStep(table, State(table, map[]), Begin(1, first.advertiser, first.fetched));
    ReachStep(table, State(table, map[1 := first]), Begin(2, second.advertiser, second.fetched));
    assert map[1 := first][2 := second] == map[1 := first, 2 := second];
  }

  lemma ClearOfLocked(table: Table, first: Sync, second: Sync, y: Uuid, w: seq<MetaPixel>, b: nat)
    requires AloneOn(table, first) && b <= |w|
    requires Locked(table, first.advertiser, first.fetched, |first.saw|) !! Locked(table, y, w, b)
    ensures Clear(table, Pair(table, first, second), 2, y, w, b)
  {
  }

  lemma BothAt(table: Table, x: Uuid, v: seq<MetaPixel>, a: nat, y: Uuid, w: seq<MetaPixel>, b: nat) returns (first: Sync, second: Sync)
    requires UniqueMetaIds(table) && KnownList(table, v) && KnownList(table, w) && a < |v| && b < |w|
    requires Locked(table, x, v, a) !! Locked(table, y, w, b)
    ensures Reachable(table, Pair(table, first, second))
    ensures AtEntry(table, first, x, v, a, true) && AtEntry(table, second, y, w, b, true)
  {
    var begun := NewSync(y, w);
    BothBegin(table, NewSync(x, v), begun);
    PairWith(table, NewSync(x, v), begun, NewSync(x, v));
    first := Rounds(table, Pair(table, NewSync(x, v), begun), 1, x, v, a);
    PairWith(table, NewSync(x, v), begun, first);
    ClearOfLocked(table, first, begun, y, w, b);
    PairWith(table, first, begun, begun);
    second := Rounds(table, Pair(table, first, begun), 2, y, w, b);
    PairWith(table, first, begun, second);
  }

  lemma BlockedWait(table: Table, x: Uuid, v: seq<MetaPixel>, a: nat, y: Uuid, w: seq<MetaPixel>, b: nat,
                    first: Sync, second: Sync, drawn: Uuid)
    requires UniqueMetaIds(table) && a < |v| && b < |w|
    requires Alters(table, x, v, a) && v[a].id in Locked(table, y, w, b)
    requires AtEntry(table, first, x, v, a, true) && AtEntry(table, second, y, w, b, true)
    ensures Waits(first, second, drawn)
  {
    WaitsAlone(table, first, second, drawn);
  }

  lemma PairStuck(table: Table, first: Sync, second: Sync)
    requires first.Live() && second.Live() && forall drawn :: Waits(first, second, drawn) && Waits(second, first, drawn)
    ensures Stuck(Pair(table, first, second), first.advertiser, first.fetched, second.advertiser, second.fetched)
  {
  }

  lemma BlockedStick(table: Table, x: Uuid, v: seq<MetaPixel>, a: nat, y: Uuid, w: seq<MetaPixel>, b: nat) returns (s: State)
    requires UniqueMetaIds(table) && KnownList(table, v) && KnownList(table, w)
    requires a < |v| && b < |w| && BlockAt(table, x, v, a, y, w, b)
    ensures Reachable(table, s) && Stuck(s, x, v, y, w)
  {
    var first, second := BothAt(table, x, v, a, y, w, b);
    s := Pair(table, first, second);
    forall drawn
      ensures Waits(first, second, drawn) && Waits(second, first, drawn)
    {
      BlockedWait(table, x, v, a, y, w, b, first, second, drawn);
      BlockedWait(table, y, w, b, x, v, a, second, first, drawn);
    }
    PairStuck(table, first, second);
  }

  /** Two syncs of known pixels can end up waiting for each other, so that the database has to
      break one, exactly when their lists have two such entries. */
  lemma StuckExactly(table: Table, x: Uuid, v: seq<MetaPixel>, y: Uuid, w: seq<MetaPixel>)
    requires UniqueMetaIds(table) && KnownList(table, v) && KnownList(table, w)
    ensures (exists s :: Reachable(table, s) && Stuck(s, x, v, y, w)) <==> MayBlock(table, x, v, y, w)
  {
    if MayBlock(table, x, v, y, w) {
      var a, b :| 0 <= a < |v| && 0 <= b < |w| && BlockAt(table, x, v, a, y, w, b);
      var s := BlockedStick(table, x, v, a, y, w, b);
    }
    if s :| Reachable(table, s) && Stuck(s, x, v, y, w) {
      var run: seq<State>, steps: seq<Step> :| IsRun(run, steps) && run[0].table == table && End(run) == s;
      StuckMayBlock(run, steps, x, v, y, w);
    }
  }

  // ----- For example -----

  const P := MetaPixel("P", "", "")
  const Q := MetaPixel("Q", "", "")
  const STALE: Table := map["p" := Pixel("adv", "P", "old", ""), "q" := Pixel("adv", "Q", "old", "")]

  lemma StaleShown(first: MetaPixel, second: MetaPixel, id: Uuid)
    requires id in STALE
    ensures Shown(STALE, "adv", [first, second], 0, id) == STALE[id]
    ensures STALE[id].metaId != first.id ==> Shown(STALE, "adv", [first, second], 1, id) == STALE[id]
  {
    var list := [first, second];
    assert list[..0] == [] && list[..1] == [first] && [first][..0] == [];
    assert Override("adv", [first]) == map[first.id := Row("adv", first)];
  }

  lemma AltersStale(first: MetaPixel, firstId: Uuid, second: MetaPixel, secondId: Uuid)
    requires first.id != second.id && firstId in STALE && secondId in STALE
    requires STALE[firstId].metaId == first.id && STALE[firstId] != Row("adv", first)
    requires STALE[secondId].metaId == second.id && STALE[secondId] != Row("adv", second)
    ensures Alters(STALE, "adv", [first, second], 1) && Locked(STALE, "adv", [first, second], 1) == {first.id}
  {
    StaleShown(first, second, firstId);
    StaleShown(first, second, secondId);
    assert Alters(STALE, "adv", [first, second], 0);
  }

  /** Two syncs that got the same two stale pixels in opposite orders can. */
  lemma OppositeOrdersCanBlock()
    ensures exists s :: Reachable(STALE, s) && Stuck(s, "adv", [P, Q], "adv", [Q, P])
  {
    assert "P"[0] != "Q"[0];
    assert STALE["p"].metaId == "P" && STALE["q"].metaId == "Q" && |"old"| != |""|;
    assert HasRow(STALE, "P") && HasRow(STALE, "Q");
    AltersStale(P, "p", Q, "q");
    AltersStale(Q, "q", P, "p");
    assert BlockAt(STALE, "adv", [P, Q], 1, "adv", [Q, P], 1);
    StuckExactly(STALE, "adv", [P, Q], "adv", [Q, P]);
  }
}
