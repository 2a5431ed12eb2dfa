/** Pixel syncs that overlap: sessions that flush pixel columns into one table, under READ
    COMMITTED. Each sync advances one statement at a time. */
module PixelRuns {
  import opened Prelude
  import opened Domain
  import opened MetaAdapter
  import opened Pixels
  import Hub

  // ----- Columns -----

  /** The columns a sync assigns. */
  datatype Column = OwnerColumn | NameColumn | StatusColumn

  function Value(row: Pixel, c: Column): string {
    match c
    case OwnerColumn => row.advertiser
    case NameColumn => row.name
    case StatusColumn => row.status
  }

  /** An assignment changes the object that the session read. */
  predicate Changes(seen: Pixel, wanted: Pixel) {
    seen.advertiser != wanted.advertiser || seen.name != wanted.name || seen.status != wanted.status
  }

  /** The UPDATE sets the columns that differ from what the session read, on the row as it is. */
  function Patched(row: Pixel, seen: Pixel, wanted: Pixel): Pixel {
    row.(advertiser := if seen.advertiser != wanted.advertiser then wanted.advertiser else row.advertiser,
         name := if seen.name != wanted.name then wanted.name else row.name,
         status := if seen.status != wanted.status then wanted.status else row.status)
  }

  lemma PatchedValue(row: Pixel, seen: Pixel, wanted: Pixel, c: Column)
    ensures Value(Patched(row, seen, wanted), c) == if Value(seen, c) != Value(wanted, c) then Value(wanted, c) else Value(row, c)
  {
  }

  // ----- The machine -----

  /** About to look a Meta id up (or to commit, at the end of the list), to insert a row for it,
      to assign the row found, which was read as `seen`; or over. */
  datatype Stage = Looking | Inserting | Updating(id: Uuid, seen: Pixel) | Ended(committed: bool)

  /** A session: the list it works through, what it read for each entry already done (nothing
      for an insert), and the rows it has flushed. */
  datatype Sync = Sync(advertiser: Uuid, fetched: seq<MetaPixel>, saw: seq<Option<Pixel>>, stage: Stage, writes: Table) {
    predicate Live() {
      !stage.Ended?
    }

    /** Within the list. */
    predicate Busy() {
      |saw| < |fetched|
    }

    predicate Commits() {
      stage == Looking && !Busy()
    }

    /** The Meta pixel at hand. */
    function Current(): MetaPixel
      requires Busy()
    {
      fetched[|saw|]
    }

    function Wanted(): Pixel
      requires Busy()
    {
      Row(advertiser, Current())
    }
  }

  datatype State = State(table: Table, syncs: map<nat, Sync>)

  /** A sync begins, does its next statement (with the UUID it would draw), or dies. */
  datatype Step =
    | Begin(sid: nat, advertiser: Uuid, fetched: seq<MetaPixel>)
    | Statement(sid: nat, drawn: Uuid)
    | Break(sid: nat)

  function NewSync(advertiser: Uuid, fetched: seq<MetaPixel>): Sync {
    Sync(advertiser, fetched, [], Looking, map[])
  }

  /** The object that the SELECT yields: the one of the previous entry when that had the same
      Meta id, for the session still holds it; else the row as the SELECT finds it. */
  function Seen(table: Table, s: Sync, id: Uuid): Pixel
    requires s.Busy() && id in table + s.writes
  {
    if s.saw != [] && s.fetched[|s.saw| - 1].id == s.Current().id then Row(s.advertiser, s.fetched[|s.saw| - 1])
    else (table + s.writes)[id]
  }

  /** The SELECT by Meta id looks among the committed rows and the session's own. */
  ghost function LookUp(table: Table, s: Sync): Sync
    requires s.Busy()
  {
    match ByMetaId(table + s.writes, s.Current().id)
    case Some(id) => s.(stage := Updating(id, Seen(table, s, id)))
    case None => s.(stage := Inserting)
  }

  function Insert(s: Sync, id: Uuid): Sync
    requires s.Busy()
  {
    s.(writes := s.writes[id := s.Wanted()], saw := s.saw + [None], stage := Looking)
  }

  /** Without a difference nothing is flushed. */
  function Update(table: Table, s: Sync, id: Uuid, seen: Pixel): Sync
    requires s.Busy()
  {
    var next := s.(saw := s.saw + [Some(seen)], stage := Looking);
    if id in table + s.writes && Changes(seen, s.Wanted()) then
      next.(writes := s.writes[id := Patched((table + s.writes)[id], seen, s.Wanted())])
    else next
  }

  /** A taken id or Meta id breaks a unique key, and the sync ends. */
  ghost predicate Refused(table: Table, s: Sync, drawn: Uuid)
    requires s.Busy()
  {
    drawn in table + s.writes || exists id :: id in table && table[id].metaId == s.Current().id
  }

  ghost function Advance(table: Table, s: Sync, drawn: Uuid): Sync
    requires s.Live()
  {
    if !s.Busy() then s
    else match s.stage
    case Looking => LookUp(table, s)
    case Inserting => if Refused(table, s, drawn) then s.(writes := map[], stage := Ended(false)) else Insert(s, drawn)
    case Updating(id, seen) => Update(table, s, id, seen)
  }

  /** The statement needs a key or a row that the other session has flushed and not committed. */
  ghost predicate Waits(s: Sync, other: Sync, drawn: Uuid) {
    s.Busy() &&
    match s.stage
    case Inserting => drawn in other.writes || exists id :: id in other.writes && other.writes[id].metaId == s.Current().id
    case Updating(id, seen) => Changes(seen, s.Wanted()) && id in other.writes
    case _ => false
  }

  ghost predicate Blocked(s: State, sid: nat, drawn: Uuid)
    requires sid in s.syncs
  {
    exists other :: other in s.syncs && other != sid && Waits(s.syncs[sid], s.syncs[other], drawn)
  }

  ghost predicate Enabled(s: State, step: Step) {
    match step
    case Begin(sid, _, _) => sid !in s.syncs
    case Statement(sid, drawn) => sid in s.syncs && s.syncs[sid].Live() && !Blocked(s, sid, drawn)
    case Break(sid) => sid in s.syncs && s.syncs[sid].Live()
  }

  ghost function Apply(s: State, step: Step): State
    requires Enabled(s, step)
  {
    match step
    case Begin(sid, advertiser, fetched) => s.(syncs := s.syncs[sid := NewSync(advertiser, fetched)])
    case Break(sid) => s.(syncs := s.syncs[sid := s.syncs[sid].(writes := map[], stage := Ended(false))])
    case Statement(sid, drawn) =>
      var sync := s.syncs[sid];
      if sync.Commits() then
        State(s.table + sync.writes, s.syncs[sid := sync.(writes := map[], stage := Ended(true))])
      else
        s.(syncs := s.syncs[sid := Advance(s.table, sync, drawn)])
  }

  ghost predicate IsRun(run: seq<State>, steps: seq<Step>) {
    && |run| == |steps| + 1
    && UniqueMetaIds(run[0].table) && run[0].syncs == map[]
    && forall i :: 0 <= i < |steps| ==> Enabled(run[i], steps[i]) && run[i + 1] == Apply(run[i], steps[i])
  }

  // ----- The invariant: keys -----

  /** Flushed rows update committed rows under their own Meta id, or bring new Meta ids. */
  ghost predicate Fits(table: Table, writes: Table) {
    && UniqueMetaIds(writes)
    && forall id :: id in writes ==>
         if id in table then table[id].metaId == writes[id].metaId
         else forall other :: other in table ==> table[other].metaId != writes[id].metaId
  }

  /** No row and no Meta id is flushed by two sessions. */
  ghost predicate Apart(v: Table, w: Table) {
    forall i, j :: i in v && j in w ==> i != j && v[i].metaId != w[j].metaId
  }

  /** What the session knows of the pixel at hand. */
  ghost predicate StageOk(table: Table, s: Sync) {
    match s.stage
    case Looking => true
    case Inserting => s.Busy() && forall id :: id in s.writes ==> s.writes[id].metaId != s.Current().id
    case Updating(id, seen) =>
      s.Busy() && id in table + s.writes && (table + s.writes)[id].metaId == s.Current().id == seen.metaId
    case Ended(_) => s.writes == map[]
  }

  // ----- The invariant: columns -----

  predicate Sent(seen: Option<Pixel>, wanted: Pixel, c: Column) {
    seen.None? || Value(seen.value, c) != Value(wanted, c)
  }

  /** For some entry with this Meta id the session read another value in the column, or inserted. */
  ghost predicate SendsIn(advertiser: Uuid, fetched: seq<MetaPixel>, saw: seq<Option<Pixel>>, metaId: string, c: Column)
    requires |saw| <= |fetched|
  {
    exists i :: 0 <= i < |saw| && fetched[i].id == metaId && Sent(saw[i], Row(advertiser, fetched[i]), c)
  }

  ghost predicate Sends(s: Sync, metaId: string, c: Column)
    requires |s.saw| <= |s.fetched|
  {
    SendsIn(s.advertiser, s.fetched, s.saw, metaId, c)
  }

  /** What Meta said last in the part of the list already done. */
  function Last(s: Sync): map<string, Pixel>
    requires |s.saw| <= |s.fetched|
  {
    Override(s.advertiser, s.fetched[..|s.saw|])
  }

  /** A flushed row holds what was said last in the columns sent, and in others what is committed. */
  ghost predicate RowOk(table: Table, s: Sync, id: Uuid)
    requires |s.saw| <= |s.fetched| && id in s.writes
  {
    var row := s.writes[id];
    && row.metaId in Last(s)
    && forall c ::
         if Sends(s, row.metaId, c) then Value(row, c) == Value(Last(s)[row.metaId], c)
         else id in table && Value(row, c) == Value(table[id], c)
  }

  ghost predicate RowsOk(table: Table, s: Sync)
    requires |s.saw| <= |s.fetched|
  {
    forall id :: id in s.writes ==> RowOk(table, s, id)
  }

  ghost predicate HasRow(table: Table, metaId: string) {
    exists id :: id in table && table[id].metaId == metaId
  }

  /** Every entry done has a row, and one of the session's own if anything was sent for it. */
  ghost predicate IdsOk(table: Table, s: Sync)
    requires |s.saw| <= |s.fetched|
  {
    && (forall metaId :: metaId in Last(s) ==> HasRow(table + s.writes, metaId))
    && (forall metaId, c :: Sends(s, metaId, c) ==> metaId in Last(s) && HasRow(s.writes, metaId))
  }

  /** The object at hand agrees with what was sent before. */
  ghost predicate SeenOk(s: Sync)
    requires |s.saw| <= |s.fetched|
  {
    s.stage.Updating? && s.Busy() ==>
      forall c :: Sends(s, s.Current().id, c) && s.Current().id in Last(s) ==>
        Value(s.stage.seen, c) == Value(Last(s)[s.Current().id], c)
  }

  ghost predicate ColumnsOk(table: Table, s: Sync)
    requires |s.saw| <= |s.fetched|
  {
    RowsOk(table, s) && IdsOk(table, s) && SeenOk(s)
  }

  ghost predicate SyncOk(table: Table, s: Sync) {
    && |s.saw| <= |s.fetched|
    && Fits(table, s.writes)
    && StageOk(table, s)
    && (s.Live() ==> ColumnsOk(table, s))
  }

  ghost predicate AllOk(table: Table, syncs: map<nat, Sync>) {
    forall sid :: sid in syncs ==> SyncOk(table, syncs[sid])
  }

  ghost predicate AllApart(syncs: map<nat, Sync>) {
    forall a, b :: a in syncs && b in syncs && a != b ==> Apart(syncs[a].writes, syncs[b].writes)
  }

  ghost predicate Inv(s: State) {
    UniqueMetaIds(s.table) && AllOk(s.table, s.syncs) && AllApart(s.syncs)
  }

  // ----- Another session commits -----

  lemma CommitUnique(table: Table, writes: Table)
    requires UniqueMetaIds(table) && Fits(table, writes)
    ensures UniqueMetaIds(table + writes) && Evolves(table, table + writes)
  {
  }

  lemma FitsAfter(table: Table, writes: Table, other: Table)
    requires Fits(table, writes) && Fits(table, other) && Apart(writes, other)
    ensures Fits(table + writes, other)
  {
  }

  lemma StageAfter(table: Table, writes: Table, s: Sync)
    requires StageOk(table, s) && Fits(table, writes) && Apart(writes, s.writes)
    ensures StageOk(table + writes, s)
  {
  }

  lemma RowsAfter(table: Table, writes: Table, s: Sync)
    requires |s.saw| <= |s.fetched| && RowsOk(table, s) && Apart(writes, s.writes)
    ensures RowsOk(table + writes, s)
  {
    forall id | id in s.writes
      ensures RowOk(table + writes, s, id)
    {
      assert RowOk(table, s, id);
    }
  }

  lemma IdsAfter(table: Table, writes: Table, s: Sync)
    requires |s.saw| <= |s.fetched| && IdsOk(table, s) && Fits(table, writes) && Apart(writes, s.writes)
    ensures IdsOk(table + writes, s)
  {
    forall metaId | metaId in Last(s)
      ensures HasRow(table + writes + s.writes, metaId)
    {
      var id :| id in table + s.writes && (table + s.writes)[id].metaId == metaId;
      assert id in table + writes + s.writes && (table + writes + s.writes)[id].metaId == metaId;
    }
  }

  lemma OtherAfter(table: Table, writes: Table, s: Sync)
    requires SyncOk(table, s) && Fits(table, writes) && Apart(writes, s.writes)
    ensures SyncOk(table + writes, s)
  {
    FitsAfter(table, writes, s.writes);
    StageAfter(table, writes, s);
    if s.Live() {
      RowsAfter(table, writes, s);
      IdsAfter(table, writes, s);
    }
  }

  // ----- A statement of the session -----

  lemma LookUpStage(table: Table, s: Sync)
    requires StageOk(table, s) && s.stage == Looking && s.Busy()
    ensures StageOk(table, LookUp(table, s))
  {
    var found := ByMetaId(table + s.writes, s.Current().id);
    if found.None? {
      assert forall id :: id in s.writes ==> id in table + s.writes && (table + s.writes)[id] == s.writes[id];
    }
  }

  lemma OverrideSnoc(advertiser: Uuid, fetched: seq<MetaPixel>, n: nat)
    requires n < |fetched|
    ensures Override(advertiser, fetched[..n + 1])
         == Override(advertiser, fetched[..n])[fetched[n].id := Row(advertiser, fetched[n])]
  {
    assert fetched[..n + 1][..n] == fetched[..n];
  }

  /** The previous entry is what was said last about its Meta id. */
  lemma PreviousIsLast(s: Sync)
    requires 0 < |s.saw| <= |s.fetched|
    ensures var p := s.fetched[|s.saw| - 1]; p.id in Last(s) && Last(s)[p.id] == Row(s.advertiser, p)
  {
    OverrideSnoc(s.advertiser, s.fetched, |s.saw| - 1);
  }

  lemma LookUpSeen(table: Table, s: Sync, id: Uuid)
    requires UniqueMetaIds(table) && Fits(table, s.writes) && s.Busy() && RowsOk(table, s) && IdsOk(table, s)
    requires id in table + s.writes && (table + s.writes)[id].metaId == s.Current().id
    ensures forall c :: Sends(s, s.Current().id, c) && s.Current().id in Last(s) ==>
              Value(Seen(table, s, id), c) == Value(Last(s)[s.Current().id], c)
  {
    if s.saw != [] && s.fetched[|s.saw| - 1].id == s.Current().id {
      PreviousIsLast(s);
    } else {
      CommitUnique(table, s.writes);
      forall c | Sends(s, s.Current().id, c) && s.Current().id in Last(s)
        ensures Value((table + s.writes)[id], c) == Value(Last(s)[s.Current().id], c)
      {
        var own :| own in s.writes && s.writes[own].metaId == s.Current().id;
        assert own in table + s.writes && (table + s.writes)[own] == s.writes[own];
        assert RowOk(table, s, own);
      }
    }
  }

  lemma SameColumns(table: Table, s: Sync, s': Sync)
    requires |s.saw| <= |s.fetched| && RowsOk(table, s) && IdsOk(table, s)
    requires s' == s.(stage := s'.stage)
    ensures Last(s') == Last(s)
    ensures forall metaId, c :: Sends(s', metaId, c) <==> Sends(s, metaId, c)
    ensures RowsOk(table, s') && IdsOk(table, s')
  {
    assert s'.saw == s.saw && s'.fetched == s.fetched && s'.advertiser == s.advertiser && s'.writes == s.writes;
    forall metaId, c
      ensures Sends(s', metaId, c) <==> Sends(s, metaId, c)
    {
      assert Sends(s, metaId, c) == SendsIn(s.advertiser, s.fetched, s.saw, metaId, c);
      assert Sends(s', metaId, c) == SendsIn(s'.advertiser, s'.fetched, s'.saw, metaId, c);
    }
    forall id | id in s'.writes
      ensures RowOk(table, s', id)
    {
      assert RowOk(table, s, id);
    }
  }

  lemma LookUpOk(table: Table, s: Sync)
    requires UniqueMetaIds(table) && SyncOk(table, s) && s.stage == Looking && s.Busy()
    ensures SyncOk(table, LookUp(table, s))
  {
    var s' := LookUp(table, s);
    LookUpStage(table, s);
    SameColumns(table, s, s');
    if s'.stage.Updating? {
      LookUpSeen(table, s, s'.stage.id);
      assert s'.Current() == s.Current();
    }
  }

  lemma SendsSnoc(s: Sync, s': Sync, seen: Option<Pixel>, metaId: string, c: Column)
    requires s.Busy() && s'.fetched == s.fetched && s'.advertiser == s.advertiser && s'.saw == s.saw + [seen]
    ensures Sends(s', metaId, c) <==> Sends(s, metaId, c) || (metaId == s.Current().id && Sent(seen, s.Wanted(), c))
  {
    if Sends(s, metaId, c) {
      var i :| 0 <= i < |s.saw| && s.fetched[i].id == metaId && Sent(s.saw[i], Row(s.advertiser, s.fetched[i]), c);
      assert s'.saw[i] == s.saw[i];
    }
    if metaId == s.Current().id && Sent(seen, s.Wanted(), c) {
      assert s'.saw[|s.saw|] == seen;
    }
  }

  /** The row of the pixel at hand: its own if the session has one, else the committed one, or
      a new one; nothing else has its Meta id. */
  ghost predicate Free(table: Table, s: Sync, id: Uuid)
    requires s.Busy()
  {
    && (forall other :: other in s.writes && s.writes[other].metaId == s.Current().id ==> other == id)
    && (id in s.writes ==> s.writes[id].metaId == s.Current().id)
    && (forall other :: other in table && table[other].metaId == s.Current().id ==> other == id)
    && (id in table ==> table[id].metaId == s.Current().id)
  }

  lemma UpdatingIsFree(table: Table, s: Sync)
    requires UniqueMetaIds(table) && SyncOk(table, s) && s.stage.Updating?
    ensures Free(table, s, s.stage.id)
  {
  }

  lemma InsertingIsFree(table: Table, s: Sync, drawn: Uuid)
    requires SyncOk(table, s) && s.stage == Inserting && !Refused(table, s, drawn)
    ensures Free(table, s, drawn) && drawn !in table + s.writes
  {
  }

  /** The session after an entry, with the row of that entry flushed or left. */
  ghost predicate Advanced(s: Sync, s': Sync, id: Uuid, seen: Option<Pixel>)
    requires s.Busy()
  {
    && s' == s.(saw := s.saw + [seen], stage := Looking, writes := s'.writes)
    && (s'.writes == s.writes || (id in s'.writes && s'.writes == s.writes[id := s'.writes[id]]))
    && (id in s'.writes ==> s'.writes[id].metaId == s.Current().id)
  }

  lemma OtherRowOk(table: Table, s: Sync, s': Sync, id: Uuid, seen: Option<Pixel>, other: Uuid)
    requires s.Busy() && Advanced(s, s', id, seen) && Free(table, s, id)
    requires other in s.writes && other != id && RowOk(table, s, other)
    ensures RowOk(table, s', other)
  {
    OverrideSnoc(s.advertiser, s.fetched, |s.saw|);
    forall c
      ensures Sends(s', s.writes[other].metaId, c) <==> Sends(s, s.writes[other].metaId, c)
    {
      SendsSnoc(s, s', seen, s.writes[other].metaId, c);
    }
  }

  lemma RowsRemain(table: Table, s: Sync, s': Sync, id: Uuid, seen: Option<Pixel>, metaId: string)
    requires s.Busy() && Advanced(s, s', id, seen) && Free(table, s, id) && metaId != s.Current().id
    ensures HasRow(table + s.writes, metaId) ==> HasRow(table + s'.writes, metaId)
    ensures HasRow(s.writes, metaId) ==> HasRow(s'.writes, metaId)
  {
    if i :| i in table + s.writes && (table + s.writes)[i].metaId == metaId {
      assert i in table + s'.writes && (table + s'.writes)[i].metaId == metaId;
    }
    if i :| i in s.writes && s.writes[i].metaId == metaId {
      assert i in s'.writes && s'.writes[i].metaId == metaId;
    }
  }

  lemma SentHasRow(table: Table, s: Sync, s': Sync, id: Uuid, seen: Option<Pixel>, metaId: string, c: Column)
    requires s.Busy() && Advanced(s, s', id, seen) && Free(table, s, id) && IdsOk(table, s)
    requires Sent(seen, s.Wanted(), c) ==> id in s'.writes
    requires Sends(s', metaId, c)
    ensures metaId in Last(s') && HasRow(s'.writes, metaId)
  {
    OverrideSnoc(s.advertiser, s.fetched, |s.saw|);
    SendsSnoc(s, s', seen, metaId, c);
    if metaId != s.Current().id {
      RowsRemain(table, s, s', id, seen, metaId);
    } else if Sends(s, metaId, c) {
      var own :| own in s.writes && s.writes[own].metaId == metaId;
      assert own in s'.writes && s'.writes[own].metaId == metaId;
    } else {
      assert s'.writes[id].metaId == metaId;
    }
  }

  lemma IdsOn(table: Table, s: Sync, s': Sync, id: Uuid, seen: Option<Pixel>)
    requires s.Busy() && Advanced(s, s', id, seen) && Free(table, s, id) && IdsOk(table, s)
    requires id in table + s'.writes && (table + s'.writes)[id].metaId == s.Current().id
    requires forall c :: Sent(seen, s.Wanted(), c) ==> id in s'.writes
    ensures IdsOk(table, s')
  {
    OverrideSnoc(s.advertiser, s.fetched, |s.saw|);
    forall metaId | metaId in Last(s')
      ensures HasRow(table + s'.writes, metaId)
    {
      if metaId != s.Current().id {
        RowsRemain(table, s, s', id, seen, metaId);
      }
    }
    forall metaId, c | Sends(s', metaId, c)
      ensures metaId in Last(s') && HasRow(s'.writes, metaId)
    {
      SentHasRow(table, s, s', id, seen, metaId, c);
    }
  }

  lemma InsertedRowOk(table: Table, s: Sync, id: Uuid)
    requires s.Busy()
    ensures RowOk(table, Insert(s, id), id)
  {
    OverrideSnoc(s.advertiser, s.fetched, |s.saw|);
    forall c
      ensures Sends(Insert(s, id), s.Current().id, c)
    {
      SendsSnoc(s, Insert(s, id), None, s.Current().id, c);
    }
  }

  lemma InsertOk(table: Table, s: Sync, drawn: Uuid)
    requires SyncOk(table, s) && s.stage == Inserting && !Refused(table, s, drawn)
    ensures SyncOk(table, Insert(s, drawn))
  {
    var s' := Insert(s, drawn);
    InsertingIsFree(table, s, drawn);
    InsertedRowOk(table, s, drawn);
    forall id | id in s'.writes
      ensures RowOk(table, s', id)
    {
      if id != drawn {
        OtherRowOk(table, s, s', drawn, None, id);
      }
    }
    IdsOn(table, s, s', drawn, None);
  }

  /** A column of the row at hand, sent now or before, or left as committed. */
  lemma UpdatedRowOk(table: Table, s: Sync, id: Uuid, seen: Pixel)
    requires SyncOk(table, s) && s.stage == Updating(id, seen) && Free(table, s, id)
    requires id in Update(table, s, id, seen).writes
    ensures RowOk(table, Update(table, s, id, seen), id)
  {
    var s', m := Update(table, s, id, seen), s.Current().id;
    OverrideSnoc(s.advertiser, s.fetched, |s.saw|);
    forall c
      ensures if Sends(s', m, c) then Value(s'.writes[id], c) == Value(s.Wanted(), c)
              else id in table && Value(s'.writes[id], c) == Value(table[id], c)
    {
      SendsSnoc(s, s', Some(seen), m, c);
      PatchedValue((table + s.writes)[id], seen, s.Wanted(), c);
      if id in s.writes {
        assert RowOk(table, s, id);
      }
      assert HasRow(s.writes, m) ==> id in s.writes;
    }
  }

  lemma UpdateRowsOk(table: Table, s: Sync, id: Uuid, seen: Pixel, s': Sync)
    requires SyncOk(table, s) && s.stage == Updating(id, seen) && Free(table, s, id)
    requires s' == Update(table, s, id, seen) && Advanced(s, s', id, Some(seen))
    ensures RowsOk(table, s')
  {
    forall other | other in s'.writes
      ensures RowOk(table, s', other)
    {
      if other == id {
        UpdatedRowOk(table, s, id, seen);
      } else {
        OtherRowOk(table, s, s', id, Some(seen), other);
      }
    }
  }

  lemma UpdateFits(table: Table, s: Sync, id: Uuid, seen: Pixel)
    requires SyncOk(table, s) && s.stage == Updating(id, seen) && Free(table, s, id)
    ensures Fits(table, Update(table, s, id, seen).writes)
    ensures Advanced(s, Update(table, s, id, seen), id, Some(seen))
    ensures forall c :: Sent(Some(seen), s.Wanted(), c) ==> id in Update(table, s, id, seen).writes
  {
  }

  lemma UpdateOk(table: Table, s: Sync, id: Uuid, seen: Pixel)
    requires UniqueMetaIds(table) && SyncOk(table, s) && s.stage == Updating(id, seen)
    ensures SyncOk(table, Update(table, s, id, seen))
  {
    var s' := Update(table, s, id, seen);
    UpdatingIsFree(table, s);
    UpdateFits(table, s, id, seen);
    UpdateRowsOk(table, s, id, seen, s');
    IdsOn(table, s, s', id, Some(seen));
  }

  lemma AdvanceOk(table: Table, s: Sync, drawn: Uuid)
    requires UniqueMetaIds(table) && SyncOk(table, s) && s.Live()
    ensures SyncOk(table, Advance(table, s, drawn))
  {
    if s.Busy() {
      match s.stage
      case Looking => LookUpOk(table, s);
      case Updating(id, seen) => UpdateOk(table, s, id, seen);
      case Inserting =>
        if !Refused(table, s, drawn) {
          InsertOk(table, s, drawn);
        }
    }
  }

  lemma FlushApart(writes: Table, id: Uuid, row: Pixel, other: Table)
    requires Apart(writes, other) && id !in other
    requires forall i :: i in other ==> other[i].metaId != row.metaId
    ensures Apart(writes[id := row], other)
  {
  }

  lemma RowIsOurs(table: Table, s: Sync, id: Uuid, other: Table)
    requires UniqueMetaIds(table) && Fits(table, other) && Apart(s.writes, other) && id !in other
    requires s.Busy() && id in table + s.writes && (table + s.writes)[id].metaId == s.Current().id
    ensures forall i :: i in other ==> other[i].metaId != s.Current().id
  {
  }

  lemma UpdateApart(table: Table, s: Sync, id: Uuid, seen: Pixel, other: Sync)
    requires UniqueMetaIds(table) && SyncOk(table, s) && s.stage == Updating(id, seen) && Fits(table, other.writes)
    requires Apart(s.writes, other.writes) && (Changes(seen, s.Wanted()) ==> id !in other.writes)
    ensures Apart(Update(table, s, id, seen).writes, other.writes)
  {
    if Changes(seen, s.Wanted()) {
      RowIsOurs(table, s, id, other.writes);
      FlushApart(s.writes, id, Patched((table + s.writes)[id], seen, s.Wanted()), other.writes);
    }
  }

  /** What is flushed is nobody else's: the statement would have waited. */
  lemma AdvanceApart(table: Table, s: Sync, drawn: Uuid, other: Sync)
    requires UniqueMetaIds(table) && SyncOk(table, s) && s.Live() && Fits(table, other.writes)
    requires Apart(s.writes, other.writes) && !Waits(s, other, drawn)
    ensures Apart(Advance(table, s, drawn).writes, other.writes)
  {
    if s.stage.Updating? {
      UpdateApart(table, s, s.stage.id, s.stage.seen, other);
    } else if s.stage == Inserting {
      FlushApart(s.writes, drawn, s.Wanted(), other.writes);
    }
  }

  // ----- Every step -----

  lemma Replaced(s: State, sid: nat, sync: Sync)
    requires Inv(s) && SyncOk(s.table, sync)
    requires forall other :: other in s.syncs && other != sid ==>
               Apart(sync.writes, s.syncs[other].writes)
    ensures Inv(s.(syncs := s.syncs[sid := sync]))
  {
  }

  lemma OthersAfter(s: State, sid: nat)
    requires AllOk(s.table, s.syncs) && AllApart(s.syncs) && sid in s.syncs
    ensures AllOk(s.table + s.syncs[sid].writes, s.syncs - {sid})
  {
    var writes := s.syncs[sid].writes;
    forall other | other in s.syncs - {sid}
      ensures SyncOk(s.table + writes, s.syncs[other])
    {
      assert SyncOk(s.table, s.syncs[sid]) && SyncOk(s.table, s.syncs[other]);
      OtherAfter(s.table, writes, s.syncs[other]);
    }
  }

  lemma Assembled(table: Table, syncs: map<nat, Sync>, sid: nat, ended: Sync)
    requires UniqueMetaIds(table) && AllOk(table, syncs - {sid}) && AllApart(syncs)
    requires SyncOk(table, ended) && ended.writes == map[]
    ensures Inv(State(table, syncs[sid := ended]))
  {
    assert forall other :: other in syncs && other != sid ==> other in syncs - {sid};
  }

  lemma IdleOk(table: Table, s: Sync)
    requires |s.saw| <= |s.fetched| && s.writes == map[] && (s.stage.Ended? || (s.stage == Looking && s.saw == []))
    ensures SyncOk(table, s)
  {
  }

  lemma CommitKeeps(s: State, sid: nat, table: Table, ended: Sync)
    requires Inv(s) && sid in s.syncs && s.syncs[sid].Commits()
    requires table == s.table + s.syncs[sid].writes
    requires ended == s.syncs[sid].(writes := map[], stage := Ended(true))
    ensures Inv(State(table, s.syncs[sid := ended]))
  {
    assert SyncOk(s.table, s.syncs[sid]);
    CommitUnique(s.table, s.syncs[sid].writes);
    OthersAfter(s, sid);
    IdleOk(table, ended);
    Assembled(table, s.syncs, sid, ended);
  }

  lemma AdvanceKeeps(s: State, sid: nat, drawn: Uuid)
    requires Inv(s) && sid in s.syncs && s.syncs[sid].Live() && !Blocked(s, sid, drawn)
    ensures Inv(s.(syncs := s.syncs[sid := Advance(s.table, s.syncs[sid], drawn)]))
  {
    AdvanceOk(s.table, s.syncs[sid], drawn);
    forall other | other in s.syncs && other != sid
      ensures Apart(Advance(s.table, s.syncs[sid], drawn).writes, s.syncs[other].writes)
    {
      AdvanceApart(s.table, s.syncs[sid], drawn, s.syncs[other]);
    }
    Replaced(s, sid, Advance(s.table, s.syncs[sid], drawn));
  }

  lemma IdleKeeps(s: State, sid: nat, sync: Sync)
    requires Inv(s) && SyncOk(s.table, sync) && sync.writes == map[]
    ensures Inv(s.(syncs := s.syncs[sid := sync]))
  {
    Replaced(s, sid, sync);
  }

  lemma StepKeeps(s: State, step: Step)
    requires Inv(s) && Enabled(s, step)
    ensures Inv(Apply(s, step))
  {
    match step
    case Begin(sid, advertiser, fetched) =>
      IdleOk(s.table, NewSync(advertiser, fetched));
      IdleKeeps(s, sid, NewSync(advertiser, fetched));
    case Break(sid) =>
      assert SyncOk(s.table, s.syncs[sid]);
      IdleOk(s.table, s.syncs[sid].(writes := map[], stage := Ended(false)));
      IdleKeeps(s, sid, s.syncs[sid].(writes := map[], stage := Ended(false)));
    case Statement(sid, drawn) =>
      if s.syncs[sid].Commits() {
        var sync := s.syncs[sid];
        CommitKeeps(s, sid, s.table + sync.writes, sync.(writes := map[], stage := Ended(true)));
      } else {
        AdvanceKeeps(s, sid, drawn);
      }
  }

  /** However syncs overlap, no two rows ever share a Meta id, committed or flushed. */
  lemma {:induction false} RunInv(run: seq<State>, steps: seq<Step>, i: nat)
    requires IsRun(run, steps) && i < |run|
    ensures Inv(run[i])
  {
    if i > 0 {
      RunInv(run, steps, i - 1);
      StepKeeps(run[i - 1], steps[i - 1]);
    }
  }

  // ----- What a commit does -----

  /** Between two tables the row of a Meta id took, column by column, what Meta said last where
      the session sent it, and kept what it had elsewhere; a row that is new took it all. */
  ghost predicate Taken(table: Table, table': Table, s: Sync, metaId: string)
    requires |s.saw| <= |s.fetched|
  {
    var last := Override(s.advertiser, s.fetched);
    match (ByMetaId(table, metaId), ByMetaId(table', metaId))
    case (Some(id), Some(id')) =>
      && id' == id
      && (forall c :: Value(table'[id], c) == (if Sends(s, metaId, c) && metaId in last then Value(last[metaId], c) else Value(table[id], c)))
    case (None, Some(id')) => metaId in last && table'[id'] == last[metaId]
    case (Some(_), None) => false
    case (None, None) => metaId !in last
  }

  lemma SameRow(a: Pixel, b: Pixel)
    ensures a == b <==> a.metaId == b.metaId && forall c :: Value(a, c) == Value(b, c)
  {
    if forall c :: Value(a, c) == Value(b, c) {
      assert Value(a, OwnerColumn) == Value(b, OwnerColumn) && Value(a, NameColumn) == Value(b, NameColumn)
          && Value(a, StatusColumn) == Value(b, StatusColumn);
    }
  }

  lemma FlushedTaken(table: Table, s: Sync, metaId: string, id: Uuid)
    requires UniqueMetaIds(table) && SyncOk(table, s) && s.Commits()
    requires id in s.writes && s.writes[id].metaId == metaId
    ensures Taken(table, table + s.writes, s, metaId)
  {
    CommitUnique(table, s.writes);
    assert s.fetched[..|s.saw|] == s.fetched;
    assert RowOk(table, s, id) && (table + s.writes)[id] == s.writes[id];
    if id !in table {
      var _ := OverrideRows(s.advertiser, s.fetched, metaId);
      SameRow(s.writes[id], Last(s)[metaId]);
    }
  }

  lemma UnflushedTaken(table: Table, s: Sync, metaId: string)
    requires UniqueMetaIds(table) && SyncOk(table, s) && s.Commits() && !HasRow(s.writes, metaId)
    ensures Taken(table, table + s.writes, s, metaId)
  {
    CommitUnique(table, s.writes);
    assert s.fetched[..|s.saw|] == s.fetched;
    assert metaId in Last(s) ==> HasRow(table + s.writes, metaId);
    if id :| id in table && table[id].metaId == metaId {
      assert id !in s.writes && (table + s.writes)[id] == table[id];
    }
  }

  lemma CommitTakes(table: Table, s: Sync, metaId: string)
    requires UniqueMetaIds(table) && SyncOk(table, s) && s.Commits()
    ensures Taken(table, table + s.writes, s, metaId)
  {
    if id :| id in s.writes && s.writes[id].metaId == metaId {
      FlushedTaken(table, s, metaId, id);
    } else {
      UnflushedTaken(table, s, metaId);
    }
  }

  /** Every column of a fetched row was sent, or is in the table as fetched. */
  ghost predicate Covered(table: Table, s: Sync, metaId: string)
    requires |s.saw| <= |s.fetched|
  {
    var (last, id) := (Override(s.advertiser, s.fetched), ByMetaId(table, metaId));
    metaId in last && id.Some? ==>
      forall c :: Sends(s, metaId, c) || Value(table[id.value], c) == Value(last[metaId], c)
  }

  /** The row of the Meta id is the one fetched last, or as before if none was fetched. */
  ghost predicate Says(table: Table, table': Table, s: Sync, metaId: string) {
    Settled(table, table', metaId, At(Override(s.advertiser, s.fetched), metaId))
  }

  ghost predicate Overrides(table: Table, table': Table, s: Sync) {
    forall metaId :: Says(table, table', s, metaId)
  }

  lemma TakenExactly(table: Table, table': Table, s: Sync, metaId: string)
    requires |s.saw| <= |s.fetched| && Taken(table, table', s, metaId)
    ensures Says(table, table', s, metaId) <==> Covered(table, s, metaId)
  {
    var last := Override(s.advertiser, s.fetched);
    if ByMetaId(table, metaId).Some? {
      var id := ByMetaId(table, metaId).value;
      if metaId in last {
        var _ := OverrideRows(s.advertiser, s.fetched, metaId);
        SameRow(table'[id], last[metaId]);
      } else {
        SameRow(table'[id], table[id]);
      }
    }
  }

  /** Step i is the commit of a sync. */
  predicate CommitsAt(run: seq<State>, steps: seq<Step>, i: nat) {
    && i < |steps| && i < |run| && steps[i].Statement? && steps[i].sid in run[i].syncs
    && run[i].syncs[steps[i].sid].Commits() && |run[i].syncs[steps[i].sid].saw| <= |run[i].syncs[steps[i].sid].fetched|
  }

  lemma CommitTable(run: seq<State>, steps: seq<Step>, i: nat)
    requires IsRun(run, steps) && i < |steps|
    ensures run[i + 1].table == if CommitsAt(run, steps, i) then run[i].table + run[i].syncs[steps[i].sid].writes
                                else run[i].table
  {
    RunInv(run, steps, i);
    if steps[i].Statement? {
      assert SyncOk(run[i].table, run[i].syncs[steps[i].sid]);
    }
  }

  /** However syncs overlap, only commits change the table; each brings the columns that its
      session sent, and leaves the others as other syncs have made them by then. */
  lemma CommitsByColumn(run: seq<State>, steps: seq<Step>, i: nat, metaId: string)
    requires IsRun(run, steps) && i < |steps|
    ensures UniqueMetaIds(run[i].table) && Evolves(run[i].table, run[i + 1].table)
    ensures if CommitsAt(run, steps, i) then Taken(run[i].table, run[i + 1].table, run[i].syncs[steps[i].sid], metaId)
            else run[i + 1].table == run[i].table
  {
    RunInv(run, steps, i);
    CommitTable(run, steps, i);
    if CommitsAt(run, steps, i) {
      assert SyncOk(run[i].table, run[i].syncs[steps[i].sid]);
      CommitUnique(run[i].table, run[i].syncs[steps[i].sid].writes);
      CommitTakes(run[i].table, run[i].syncs[steps[i].sid], metaId);
    }
  }

  /** A commit makes the table say all that Meta told its sync exactly when, for every column of
      every fetched row, the session read another value and so sent it, or the table still has
      the fetched one. */
  lemma CommitIsOverrideExactly(run: seq<State>, steps: seq<Step>, i: nat)
    requires IsRun(run, steps) && CommitsAt(run, steps, i)
    ensures var sync := run[i].syncs[steps[i].sid];
            Overrides(run[i].table, run[i + 1].table, sync) <==> forall metaId :: Covered(run[i].table, sync, metaId)
  {
    var (t, t', sync) := (run[i].table, run[i + 1].table, run[i].syncs[steps[i].sid]);
    forall metaId
      ensures Says(t, t', sync, metaId) <==> Covered(t, sync, metaId)
    {
      CommitsByColumn(run, steps, i, metaId);
      TakenExactly(t, t', sync, metaId);
    }
  }

  /** Each commit of overlapping syncs is a step that the create machine allows for. */
  lemma CommitIsHubStep(run: seq<State>, steps: seq<Step>, i: nat, s: Hub.State)
    requires IsRun(run, steps) && i < |steps| && s.db.pixels == run[i].table
    ensures Hub.Enabled(s, Hub.SyncPixels(run[i + 1].table))
  {
    CommitsByColumn(run, steps, i, "");
    RunInv(run, steps, i + 1);
  }

  // ----- Building runs -----

  ghost function End(run: seq<State>): State
    requires run != []
  {
    run[|run| - 1]
  }

  lemma Extend(run: seq<State>, steps: seq<Step>, step: Step) returns (run': seq<State>, steps': seq<Step>)
    requires IsRun(run, steps) && Enabled(End(run), step)
    ensures IsRun(run', steps') && End(run') == Apply(End(run), step) && run'[0] == run[0]
  {
    run', steps' := run + [Apply(End(run), step)], steps + [step];
    forall i | 0 <= i < |steps'|
      ensures Enabled(run'[i], steps'[i]) && run'[i + 1] == Apply(run'[i], steps'[i])
    {
      if i < |steps| {
        assert run'[i] == run[i] && run'[i + 1] == run[i + 1] && steps'[i] == steps[i];
      }
    }
  }

  /** A sync in nobody's way does its next statement, or commits. */
  lemma Go(run: seq<State>, steps: seq<Step>, s: State, sid: nat, sync: Sync) returns (run': seq<State>, steps': seq<Step>)
    requires IsRun(run, steps) && End(run) == s && sid in s.syncs && s.syncs[sid] == sync && sync.Live() && !sync.Commits()
    requires forall other :: other in s.syncs && other != sid ==> !Waits(sync, s.syncs[other], "")
    ensures IsRun(run', steps') && run'[0] == run[0]
    ensures End(run') == s.(syncs := s.syncs[sid := Advance(s.table, sync, "")])
  {
    run', steps' := Extend(run, steps, Statement(sid, ""));
  }

  lemma Commit(run: seq<State>, steps: seq<Step>, s: State, sid: nat, sync: Sync) returns (run': seq<State>, steps': seq<Step>)
    requires IsRun(run, steps) && End(run) == s && sid in s.syncs && s.syncs[sid] == sync && sync.Commits()
    ensures IsRun(run', steps') && run'[0] == run[0]
    ensures End(run') == State(s.table + sync.writes, s.syncs[sid := sync.(writes := map[], stage := Ended(true))])
  {
    run', steps' := Extend(run, steps, Statement(sid, ""));
  }

  lemma Finds(table: Table, metaId: string, id: Uuid)
    requires UniqueMetaIds(table) && id in table && table[id].metaId == metaId
    ensures ByMetaId(table, metaId) == Some(id)
  {
  }
}
