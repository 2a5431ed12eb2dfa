/** Pixel rows and what reconciling them with Meta amounts to
    (app/repositories/pixel.py and app/services/pixel_sync_service.py). */
module Pixels {
  import opened Prelude
  import opened Domain
  import opened MetaAdapter

  datatype Pixel = Pixel(advertiser: Uuid, metaId: string, name: string, status: string)

  /** Rows by Hub id. */
  type Table = map<Uuid, Pixel>

  ghost predicate UniqueMetaIds(t: Table) {
    forall i, j :: i in t && j in t && t[i].metaId == t[j].metaId ==> i == j
  }

  /** `get_by_meta_id`: the id of the row with this Meta id. */
  ghost function ByMetaId(t: Table, metaId: string): Option<Uuid> {
    if id :| id in t && t[id].metaId == metaId then Some(id) else None
  }

  ghost function Known(t: Table): set<string> {
    set id | id in t :: t[id].metaId
  }

  function MetaIds(fetched: seq<MetaPixel>): set<string> {
    set i | 0 <= i < |fetched| :: fetched[i].id
  }

  /** What Meta last said about each fetched pixel, for the advertiser that asked. */
  function Override(advertiser: Uuid, fetched: seq<MetaPixel>): map<string, Pixel> {
    if fetched == [] then map[]
    else
      var p := fetched[|fetched| - 1];
      Override(advertiser, fetched[..|fetched| - 1])[p.id := Row(advertiser, p)]
  }

  /** How far a sync has come: the rows it sees, the ids drawn for new rows, and its counts. */
  datatype Progress = Progress(rows: Table, drawn: nat, created: nat, updated: nat)

  /** A drawn id that is already a primary key. */
  datatype IntegrityError = IntegrityError

  function Row(advertiser: Uuid, pixel: MetaPixel): Pixel {
    Pixel(advertiser, pixel.id, pixel.name, pixel.status)
  }

  /** Insert, or update by Meta id. */
  ghost function Upsert(ids: nat -> Uuid, p: Progress, advertiser: Uuid, pixel: MetaPixel): Result<Progress, IntegrityError> {
    match ByMetaId(p.rows, pixel.id)
    case Some(id) =>
      Ok(p.(rows := p.rows[id := Row(advertiser, pixel)], updated := p.updated + 1))
    case None =>
      if ids(p.drawn) in p.rows then
        Err(IntegrityError)
      else
        Ok(p.(rows := p.rows[ids(p.drawn) := Row(advertiser, pixel)], drawn := p.drawn + 1, created := p.created + 1))
  }

  /** The whole loop. */
  ghost function Synced(ids: nat -> Uuid, start: Progress, advertiser: Uuid, fetched: seq<MetaPixel>)
    : Result<Progress, IntegrityError>
  {
    if fetched == [] then Ok(start)
    else
      match Synced(ids, start, advertiser, fetched[..|fetched| - 1])
      case Err(e) => Err(e)
      case Ok(p) => Upsert(ids, p, advertiser, fetched[|fetched| - 1])
  }

  /** The counts are only carried along. */
  lemma UpsertCounts(ids: nat -> Uuid, p: Progress, advertiser: Uuid, pixel: MetaPixel)
    requires UniqueMetaIds(p.rows)
    ensures match Upsert(ids, p.(created := 0, updated := 0), advertiser, pixel)
            case Err(e) => Upsert(ids, p, advertiser, pixel) == Err(e)
            case Ok(q) =>
              && q.created + q.updated == 1
              && Upsert(ids, p, advertiser, pixel)
                 == Ok(q.(created := p.created + q.created, updated := p.updated + q.updated))
  {
  }

  /** Once an upsert of the list fails, so does the sync. */
  lemma {:induction false} SyncedFails(ids: nat -> Uuid, start: Progress, advertiser: Uuid, fetched: seq<MetaPixel>, n: nat)
    requires n <= |fetched| && Synced(ids, start, advertiser, fetched[..n]).Err?
    ensures Synced(ids, start, advertiser, fetched).Err?
    decreases |fetched| - n
  {
    if n == |fetched| {
      assert fetched[..n] == fetched;
    } else {
      assert fetched[..n + 1][..n] == fetched[..n];
      SyncedFails(ids, start, advertiser, fetched, n + 1);
    }
  }

  lemma UpsertKeepsUnique(ids: nat -> Uuid, p: Progress, advertiser: Uuid, pixel: MetaPixel)
    requires UniqueMetaIds(p.rows)
    ensures var q := Upsert(ids, p, advertiser, pixel);
            q.Ok? ==> UniqueMetaIds(q.value.rows)
  {
  }

  /** One upsert settles the row of one Meta id, keeps its Hub id if it had one, and leaves
      the rows of all others alone. */
  lemma UpsertSettles(ids: nat -> Uuid, p: Progress, advertiser: Uuid, pixel: MetaPixel, metaId: string)
    requires UniqueMetaIds(p.rows) && Upsert(ids, p, advertiser, pixel).Ok?
    ensures Settled(p.rows, Upsert(ids, p, advertiser, pixel).value.rows, metaId,
                    if metaId == pixel.id then Some(Row(advertiser, pixel)) else None)
  {
    UpsertKeepsUnique(ids, p, advertiser, pixel);
    var t, t' := p.rows, Upsert(ids, p, advertiser, pixel).value.rows;
    var id := if ByMetaId(t, pixel.id).Some? then ByMetaId(t, pixel.id).value else ids(p.drawn);
    assert t' == t[id := Row(advertiser, pixel)];
    if metaId == pixel.id {
      assert t'[id].metaId == metaId;
    } else {
      var found := ByMetaId(t, metaId);
      if found.Some? {
        assert t'[found.value] == t[found.value];
      } else {
        assert forall i :: i in t' && i != id ==> i in t && t'[i] == t[i];
      }
    }
  }

  /** Between two tables the row of metaId became `row`, or stayed as it was when row is None. */
  ghost predicate Settled(t: Table, t': Table, metaId: string, row: Option<Pixel>) {
    match (ByMetaId(t, metaId), ByMetaId(t', metaId))
    case (Some(id), Some(id')) => id' == id && t'[id'] == if row.Some? then row.value else t[id]
    case (None, Some(id')) => row == Some(t'[id'])
    case (Some(id), None) => false
    case (None, None) => row.None?
  }

  lemma OverrideKeys(advertiser: Uuid, fetched: seq<MetaPixel>)
    ensures Override(advertiser, fetched).Keys == MetaIds(fetched)
  {
    if fetched != [] {
      var init, p := fetched[..|fetched| - 1], fetched[|fetched| - 1];
      OverrideKeys(advertiser, init);
      MetaIdsSnoc(fetched);
    }
  }

  /** The entry is the last one about its pixel. */
  ghost predicate LastOf(fetched: seq<MetaPixel>, i: nat) {
    i < |fetched| && forall j :: i < j < |fetched| ==> fetched[j].id != fetched[i].id
  }

  /** The override has the last entry about each pixel. */
  lemma {:induction false} OverrideRows(advertiser: Uuid, fetched: seq<MetaPixel>, metaId: string) returns (i: nat)
    requires metaId in Override(advertiser, fetched)
    ensures LastOf(fetched, i) && fetched[i].id == metaId
    ensures Override(advertiser, fetched)[metaId] == Pixel(advertiser, metaId, fetched[i].name, fetched[i].status)
  {
    i := |fetched| - 1;
    if metaId != fetched[i].id {
      i := OverrideRows(advertiser, fetched[..i], metaId);
    }
  }

  lemma OverrideLast(advertiser: Uuid, fetched: seq<MetaPixel>, i: nat)
    requires LastOf(fetched, i)
    ensures fetched[i].id in Override(advertiser, fetched)
    ensures Override(advertiser, fetched)[fetched[i].id] == Pixel(advertiser, fetched[i].id, fetched[i].name, fetched[i].status)
  {
    OverrideKeys(advertiser, fetched);
    assert fetched[i].id in MetaIds(fetched);
    var last := OverrideRows(advertiser, fetched, fetched[i].id);
  }

  lemma MetaIdsSnoc(fetched: seq<MetaPixel>)
    requires fetched != []
    ensures MetaIds(fetched) == MetaIds(fetched[..|fetched| - 1]) + {fetched[|fetched| - 1].id}
  {
    var init, p := fetched[..|fetched| - 1], fetched[|fetched| - 1];
    forall x | x in MetaIds(init) + {p.id}
      ensures x in MetaIds(fetched)
    {
      if x in MetaIds(init) {
        var i :| 0 <= i < |init| && init[i].id == x;
        assert fetched[i].id == x;
      } else {
        assert fetched[|fetched| - 1].id == x;
      }
    }
    forall x | x in MetaIds(fetched)
      ensures x in MetaIds(init) + {p.id}
    {
      var i :| 0 <= i < |fetched| && fetched[i].id == x;
      assert i < |init| ==> init[i].id == x;
    }
  }

  function At(m: map<string, Pixel>, metaId: string): Option<Pixel> {
    if metaId in m then Some(m[metaId]) else None
  }

  lemma {:induction false} SyncKeepsUnique(ids: nat -> Uuid, start: Progress, advertiser: Uuid, fetched: seq<MetaPixel>)
    requires UniqueMetaIds(start.rows) && Synced(ids, start, advertiser, fetched).Ok?
    ensures UniqueMetaIds(Synced(ids, start, advertiser, fetched).value.rows)
  {
    if fetched != [] {
      var init := fetched[..|fetched| - 1];
      SyncKeepsUnique(ids, start, advertiser, init);
      UpsertKeepsUnique(ids, Synced(ids, start, advertiser, init).value, advertiser, fetched[|fetched| - 1]);
    }
  }

  /** The sync is a map override: the row of every Meta id ends as Meta last described it, under
      the Hub id it had, and the rows of ids that were not fetched stay as they were. */
  lemma {:induction false} SyncIsOverride(ids: nat -> Uuid, start: Progress, advertiser: Uuid, fetched: seq<MetaPixel>,
                                          metaId: string)
    requires UniqueMetaIds(start.rows) && Synced(ids, start, advertiser, fetched).Ok?
    ensures Settled(start.rows, Synced(ids, start, advertiser, fetched).value.rows, metaId,
                    At(Override(advertiser, fetched), metaId))
  {
    if fetched != [] {
      var init := fetched[..|fetched| - 1];
      SyncIsOverride(ids, start, advertiser, init, metaId);
      SyncKeepsUnique(ids, start, advertiser, init);
      UpsertSettles(ids, Synced(ids, start, advertiser, init).value, advertiser, fetched[|fetched| - 1], metaId);
    }
  }

  lemma KnownByMetaId(t: Table, metaId: string)
    ensures metaId in Known(t) <==> ByMetaId(t, metaId).Some?
  {
  }

  lemma SyncKnows(ids: nat -> Uuid, start: Progress, advertiser: Uuid, fetched: seq<MetaPixel>)
    requires UniqueMetaIds(start.rows) && Synced(ids, start, advertiser, fetched).Ok?
    ensures Known(Synced(ids, start, advertiser, fetched).value.rows) == Known(start.rows) + MetaIds(fetched)
  {
    var end := Synced(ids, start, advertiser, fetched).value;
    OverrideKeys(advertiser, fetched);
    forall metaId
      ensures metaId in Known(end.rows) <==> metaId in Known(start.rows) + MetaIds(fetched)
    {
      SyncIsOverride(ids, start, advertiser, fetched, metaId);
      KnownByMetaId(start.rows, metaId);
      KnownByMetaId(end.rows, metaId);
    }
  }

  /** The counts are exact: created rows are the distinct fetched ids that were unknown, and
      every fetched entry, repeated or not, counts once. */
  lemma {:induction false} SyncCounts(ids: nat -> Uuid, start: Progress, advertiser: Uuid, fetched: seq<MetaPixel>)
    requires UniqueMetaIds(start.rows) && Synced(ids, start, advertiser, fetched).Ok?
    ensures var end := Synced(ids, start, advertiser, fetched).value;
            && end.created - start.created == |MetaIds(fetched) - Known(start.rows)|
            && end.created + end.updated == start.created + start.updated + |fetched|
            && end.drawn - start.drawn == end.created - start.created
  {
    if fetched == [] {
      assert MetaIds(fetched) - Known(start.rows) == {};
    } else {
      var init, pixel := fetched[..|fetched| - 1], fetched[|fetched| - 1];
      var mid := Synced(ids, start, advertiser, init).value;
      SyncCounts(ids, start, advertiser, init);
      SyncKnows(ids, start, advertiser, init);
      KnownByMetaId(mid.rows, pixel.id);
      MetaIdsSnoc(fetched);
      NewIds(MetaIds(init), Known(start.rows), pixel.id);
    }
  }

  lemma NewIds(seen: set<string>, known: set<string>, id: string)
    ensures |seen + {id} - known| == |seen - known| + if id in known + seen then 0 else 1
  {
    if id in known + seen {
      assert seen + {id} - known == seen - known;
    } else {
      assert seen + {id} - known == (seen - known) + {id};
    }
  }

  /** Where the loop is after i rounds. */
  ghost predicate Reaches(ids: nat -> Uuid, start: Progress, advertiser: Uuid, fetched: seq<MetaPixel>, i: nat, p: Progress)
    requires i <= |fetched|
  {
    Synced(ids, start, advertiser, fetched[..i]) == Ok(p) && UniqueMetaIds(p.rows)
  }

  /** Its next round, and what the same upsert does when it counts from zero. */
  lemma ReachesNext(ids: nat -> Uuid, start: Progress, advertiser: Uuid, fetched: seq<MetaPixel>, i: nat, p: Progress)
    requires i < |fetched| && Reaches(ids, start, advertiser, fetched, i, p)
    ensures match Upsert(ids, p.(created := 0, updated := 0), advertiser, fetched[i])
            case Err(_) => Synced(ids, start, advertiser, fetched).Err?
            case Ok(q) =>
              var next := q.(created := p.created + q.created, updated := p.updated + q.updated);
              && q.created + q.updated == 1
              && Upsert(ids, p, advertiser, fetched[i]) == Ok(next)
              && Reaches(ids, start, advertiser, fetched, i + 1, next)
  {
    assert fetched[..i + 1][..i] == fetched[..i];
    UpsertKeepsUnique(ids, p, advertiser, fetched[i]);
    UpsertCounts(ids, p, advertiser, fetched[i]);
    if Upsert(ids, p, advertiser, fetched[i]).Err? {
      SyncedFails(ids, start, advertiser, fetched, i + 1);
    }
  }

  /** Rows are never removed, and none ever changes its Meta id. */
  ghost predicate Evolves(t: Table, t': Table) {
    forall id :: id in t ==> id in t' && t'[id].metaId == t[id].metaId
  }

  lemma {:induction false} SyncEvolves(ids: nat -> Uuid, start: Progress, advertiser: Uuid, fetched: seq<MetaPixel>)
    requires Synced(ids, start, advertiser, fetched).Ok?
    ensures Evolves(start.rows, Synced(ids, start, advertiser, fetched).value.rows)
  {
    if fetched != [] {
      SyncEvolves(ids, start, advertiser, fetched[..|fetched| - 1]);
    }
  }

  // ----- When a sync fails -----

  /** One of the first n ids drawn is in the table already, or was drawn before. */
  ghost predicate Clashes(ids: nat -> Uuid, rows: Table, n: nat) {
    exists j :: 0 <= j < n && Taken(ids, rows, j)
  }

  ghost predicate Taken(ids: nat -> Uuid, rows: Table, j: nat) {
    ids(j) in rows || exists k :: 0 <= k < j && ids(k) == ids(j)
  }

  lemma {:induction false} DrawnKeys(ids: nat -> Uuid, start: Progress, advertiser: Uuid, fetched: seq<MetaPixel>, id: Uuid)
    requires start.drawn == 0 && Synced(ids, start, advertiser, fetched).Ok?
    ensures var end := Synced(ids, start, advertiser, fetched).value;
            id in end.rows <==> id in start.rows || exists k :: 0 <= k < end.drawn && ids(k) == id
  {
    if fetched != [] {
      var init := fetched[..|fetched| - 1];
      DrawnKeys(ids, start, advertiser, init, id);
    }
  }

  lemma OneMoreClash(ids: nat -> Uuid, rows: Table, n: nat)
    ensures Clashes(ids, rows, n + 1) <==> Clashes(ids, rows, n) || Taken(ids, rows, n)
  {
  }

  /** The next upsert fails exactly when its pixel is unknown and the next id taken. */
  lemma NextFails(ids: nat -> Uuid, start: Progress, advertiser: Uuid, init: seq<MetaPixel>, mid: Progress, pixel: MetaPixel)
    requires UniqueMetaIds(start.rows) && start.drawn == 0 && Synced(ids, start, advertiser, init) == Ok(mid)
    ensures mid.drawn == |MetaIds(init) - Known(start.rows)|
    ensures Upsert(ids, mid, advertiser, pixel).Err?
       <==> pixel.id !in Known(start.rows) + MetaIds(init) && Taken(ids, start.rows, mid.drawn)
  {
    SyncCounts(ids, start, advertiser, init);
    SyncKnows(ids, start, advertiser, init);
    KnownByMetaId(mid.rows, pixel.id);
    DrawnKeys(ids, start, advertiser, init, ids(mid.drawn));
  }

  /** A sync fails exactly when an id that it draws for an unknown pixel is taken. */
  lemma {:induction false} SyncFailsExactly(ids: nat -> Uuid, start: Progress, advertiser: Uuid, fetched: seq<MetaPixel>)
    requires UniqueMetaIds(start.rows) && start.drawn == 0
    ensures Synced(ids, start, advertiser, fetched).Err?
       <==> Clashes(ids, start.rows, |MetaIds(fetched) - Known(start.rows)|)
  {
    if fetched == [] {
      assert MetaIds(fetched) - Known(start.rows) == {};
    } else {
      var init, pixel := fetched[..|fetched| - 1], fetched[|fetched| - 1];
      SyncFailsExactly(ids, start, advertiser, init);
      MetaIdsSnoc(fetched);
      NewIds(MetaIds(init), Known(start.rows), pixel.id);
      OneMoreClash(ids, start.rows, |MetaIds(init) - Known(start.rows)|);
      if Synced(ids, start, advertiser, init).Ok? {
        NextFails(ids, start, advertiser, init, Synced(ids, start, advertiser, init).value, pixel);
      }
    }
  }

  /** When every fetched pixel is known no id is drawn, so nothing can fail. */
  lemma {:induction false} KnownPixelsNeverFail(ids: nat -> Uuid, start: Progress, advertiser: Uuid, fetched: seq<MetaPixel>)
    requires UniqueMetaIds(start.rows) && MetaIds(fetched) <= Known(start.rows)
    ensures Synced(ids, start, advertiser, fetched).Ok?
    ensures Synced(ids, start, advertiser, fetched).value.rows.Keys == start.rows.Keys
  {
    if fetched != [] {
      var init, pixel := fetched[..|fetched| - 1], fetched[|fetched| - 1];
      MetaIdsSnoc(fetched);
      KnownPixelsNeverFail(ids, start, advertiser, init);
      SyncKnows(ids, start, advertiser, init);
      KnownByMetaId(Synced(ids, start, advertiser, init).value.rows, pixel.id);
    }
  }

  lemma SettledTwice(t: Table, t': Table, t'': Table, id: Uuid, row: Option<Pixel>)
    requires id in t' && id in t'' && UniqueMetaIds(t')
    requires Settled(t, t', t'[id].metaId, row) && Settled(t', t'', t'[id].metaId, row)
    ensures t''[id] == t'[id]
  {
    KnownByMetaId(t', t'[id].metaId);
  }

  /** Repeating a sync creates nothing and leaves the table as it is. */
  lemma SecondSyncIsIdle(ids: nat -> Uuid, start: Progress, advertiser: Uuid, fetched: seq<MetaPixel>)
    requires UniqueMetaIds(start.rows) && Synced(ids, start, advertiser, fetched).Ok?
    ensures var first := Synced(ids, start, advertiser, fetched).value.(created := 0, updated := 0);
            Synced(ids, first, advertiser, fetched) == Ok(first.(updated := |fetched|))
  {
    var first := Synced(ids, start, advertiser, fetched).value.(created := 0, updated := 0);
    SyncKeepsUnique(ids, start, advertiser, fetched);
    SyncKnows(ids, start, advertiser, fetched);
    KnownPixelsNeverFail(ids, first, advertiser, fetched);
    var second := Synced(ids, first, advertiser, fetched).value;
    SyncCounts(ids, first, advertiser, fetched);
    assert MetaIds(fetched) - Known(first.rows) == {};
    forall id | id in first.rows
      ensures second.rows[id] == first.rows[id]
    {
      SyncIsOverride(ids, start, advertiser, fetched, first.rows[id].metaId);
      SyncIsOverride(ids, first, advertiser, fetched, first.rows[id].metaId);
      SettledTwice(start.rows, first.rows, second.rows, id, At(Override(advertiser, fetched), first.rows[id].metaId));
    }
    assert second.rows == first.rows;
  }
}
