/** A run in which two syncs leave a row that neither of them described: each sends only the
    columns that differ from what it read before the other committed. */
module TornRow {
  import opened Prelude
  import opened MetaAdapter
  import opened Pixels
  import opened PixelRuns

  const BEFORE := Pixel("a", "P", "old", "s")
  const RENAMED := MetaPixel("P", "new", "s")
  const MOVED := MetaPixel("P", "old", "s")
  const TABLE: Table := map["p" := BEFORE]

  /** The sync that renames, for the advertiser the row has; and the one that moves it. */
  function Renaming(stage: Stage, saw: seq<Option<Pixel>>, writes: Table): Sync {
    Sync("a", [RENAMED], saw, stage, writes)
  }

  function Moving(stage: Stage, saw: seq<Option<Pixel>>, writes: Table): Sync {
    Sync("b", [MOVED], saw, stage, writes)
  }

  function Both(table: Table, first: Sync, second: Sync): State {
    State(table, map[1 := first, 2 := second])
  }

  lemma BothReplaced(table: Table, first: Sync, second: Sync, sync: Sync)
    ensures Both(table, first, second).(syncs := Both(table, first, second).syncs[1 := sync]) == Both(table, sync, second)
    ensures Both(table, first, second).(syncs := Both(table, first, second).syncs[2 := sync]) == Both(table, first, sync)
  {
  }

  const RENAMING := Renaming(Updating("p", BEFORE), [], map[])
  const MOVING := Moving(Updating("p", BEFORE), [], map[])

  lemma Reads(s: Sync)
    requires s == Renaming(Looking, [], map[]) || s == Moving(Looking, [], map[])
    ensures Advance(TABLE, s, "") == s.(stage := Updating("p", BEFORE))
  {
    assert TABLE + s.writes == TABLE;
    Finds(TABLE, "P", "p");
  }

  /** Both read the row before either writes. */
  lemma BothRead() returns (run: seq<State>, steps: seq<Step>)
    ensures IsRun(run, steps) && End(run) == Both(TABLE, RENAMING, MOVING)
  {
    var first, second := NewSync("a", [RENAMED]), NewSync("b", [MOVED]);
    run, steps := [State(TABLE, map[])], [];
    run, steps := Extend(run, steps, Begin(1, "a", [RENAMED]));
    run, steps := Extend(run, steps, Begin(2, "b", [MOVED]));
    assert End(run) == Both(TABLE, first, second);
    Reads(first);
    run, steps := Go(run, steps, Both(TABLE, first, second), 1, first);
    BothReplaced(TABLE, first, second, RENAMING);
    Reads(second);
    run, steps := Go(run, steps, Both(TABLE, RENAMING, second), 2, second);
    BothReplaced(TABLE, RENAMING, second, MOVING);
  }

  const NEW_NAME := Pixel("a", "P", "new", "s")
  const TORN := Pixel("b", "P", "new", "s")

  lemma RenamingSends()
    ensures Advance(TABLE, RENAMING, "") == Renaming(Looking, [Some(BEFORE)], map["p" := NEW_NAME])
    ensures TABLE + map["p" := NEW_NAME] == map["p" := NEW_NAME]
  {
    assert "old"[0] != "new"[0];
    assert TABLE + map[] == TABLE;
  }

  lemma MovingSends()
    ensures Advance(map["p" := NEW_NAME], MOVING, "") == Moving(Looking, [Some(BEFORE)], map["p" := TORN])
    ensures map["p" := NEW_NAME] + map["p" := TORN] == map["p" := TORN]
  {
    assert "a"[0] != "b"[0];
    assert map["p" := NEW_NAME] + map[] == map["p" := NEW_NAME];
  }

  lemma FirstCommits() returns (run: seq<State>, steps: seq<Step>)
    ensures IsRun(run, steps)
    ensures End(run) == Both(map["p" := NEW_NAME], Renaming(Ended(true), [Some(BEFORE)], map[]), MOVING)
  {
    var sent := Renaming(Looking, [Some(BEFORE)], map["p" := NEW_NAME]);
    run, steps := BothRead();
    RenamingSends();
    run, steps := Go(run, steps, Both(TABLE, RENAMING, MOVING), 1, RENAMING);
    BothReplaced(TABLE, RENAMING, MOVING, sent);
    run, steps := Commit(run, steps, Both(TABLE, sent, MOVING), 1, sent);
    BothReplaced(map["p" := NEW_NAME], sent, MOVING, Renaming(Ended(true), [Some(BEFORE)], map[]));
  }

  /** The row ends with the name of the one sync and the advertiser of the other. */
  lemma NeitherDescribed() returns (run: seq<State>, steps: seq<Step>)
    ensures IsRun(run, steps)
    ensures var s := End(run);
            && 1 in s.syncs && s.syncs[1].stage == Ended(true) && s.syncs[1].fetched == [RENAMED] && s.syncs[1].advertiser == "a"
            && 2 in s.syncs && s.syncs[2].stage == Ended(true) && s.syncs[2].fetched == [MOVED] && s.syncs[2].advertiser == "b"
            && s.table == map["p" := TORN] && TORN != Row("a", RENAMED) && TORN != Row("b", MOVED)
  {
    var renamed := Renaming(Ended(true), [Some(BEFORE)], map[]);
    var sent := Moving(Looking, [Some(BEFORE)], map["p" := TORN]);
    run, steps := FirstCommits();
    MovingSends();
    run, steps := Go(run, steps, Both(map["p" := NEW_NAME], renamed, MOVING), 2, MOVING);
    BothReplaced(map["p" := NEW_NAME], renamed, MOVING, sent);
    run, steps := Commit(run, steps, Both(map["p" := NEW_NAME], renamed, sent), 2, sent);
    assert "a"[0] != "b"[0] && "old"[0] != "new"[0];
  }
}
