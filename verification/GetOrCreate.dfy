/** Seen from its answers, the protocol is a map from (advertiser, name) to a tag id that is
    only ever extended: a 201 carries the id under the request's own advertiser and name. This
    needs the requests in flight under one key to ask for the same thing; without that, a 201
    can name a tag that was thrown away. */
module GetOrCreate {
  import opened Prelude
  import opened Domain
  import opened Requests
  import opened MetaAdapter
  import opened Hub
  import opened HubInvariant
  import opened HubRuns

  /** The abstract map. */
  ghost function TagUnder(tags: map<Uuid, Tag>, advertiser: Uuid, name: string): Option<Uuid> {
    if id :| id in tags && SameName(tags[id], advertiser, name) then Some(id) else None
  }

  // ----- Hypotheses on a state -----

  predicate SameRequest(a: Input, b: Input) {
    a.advertiser == b.advertiser && a.payload == b.payload
  }

  /** Requests in flight that share a key ask for the same thing. A state with at most one
      request in flight satisfies this. */
  ghost predicate KeysAgree(s: State) {
    forall a, b :: a in s.requests && b in s.requests && Live(s.requests[a]) && Live(s.requests[b])
      && KeyOf(s.requests[a].input).Some? && KeyOf(s.requests[a].input) == KeyOf(s.requests[b].input)
      ==> SameRequest(s.requests[a].input, s.requests[b].input)
  }

  /** The request hash tells the requests that have arrived apart. */
  ghost predicate HashesTell(env: Env, s: State) {
    forall a, b :: a in s.requests && b in s.requests
      && env.requestHash(s.requests[a].input) == env.requestHash(s.requests[b].input)
      ==> SameRequest(s.requests[a].input, s.requests[b].input)
  }

  /** With the hash of app/services/idempotency.py this holds as long as SHA-256 does not collide. */
  lemma HashesTellApart(hashing: Hashing, env: Env, s: State)
    requires env.requestHash == EnvOf(hashing, env.digest, env.oauth).requestHash
    requires hashing.FaithfulDecimals()
    requires forall a, b :: a in s.requests && b in s.requests ==> hashing.Separates(s.requests[a].input, s.requests[b].input)
    ensures HashesTell(env, s)
  {
    forall a, b | a in s.requests && b in s.requests
      && env.requestHash(s.requests[a].input) == env.requestHash(s.requests[b].input)
      ensures SameRequest(s.requests[a].input, s.requests[b].input)
    {
      hashing.SameHashSameRequest(s.requests[a].input, s.requests[b].input);
    }
  }

  // ----- What the answers satisfy -----

  predicate About(body: Body, input: Input) {
    body.advertiser == input.advertiser && body.columns.name == input.payload.columns.name
  }

  /** Past its lookup, a request only ever finds its key taken by a tag of its own name. */
  predicate OwnKey(db: Db, r: Request) {
    match KeyOf(r.input)
    case None => true
    case Some(key) => (ENDPOINT, key) in db.records ==> About(db.records[(ENDPOINT, key)].body, r.input)
  }

  predicate AnswerOk(db: Db, r: Request) {
    match r.stage
    case AtKey => true
    case AtRollback(_) => true
    case AtStore(out) => OwnKey(db, r) && About(out, r.input)
    case AtCommit(out) => OwnKey(db, r) && About(out, r.input) && (r.writes.tag.None? ==> Names(db, out))
    case Done(outcome) => outcome.Created? ==> About(outcome.body, r.input) && Names(db, outcome.body)
    case _ => OwnKey(db, r) && (r.writes.tag.Some? ==> r.writes.tag.value.1 == NewTag(r.input))
  }

  /** A record answers for a request that has arrived: its hash, and its advertiser and name. */
  ghost predicate Written(env: Env, record: Record, requests: map<nat, Request>) {
    exists rid :: rid in requests && env.requestHash(requests[rid].input) == record.requestHash
      && About(record.body, requests[rid].input)
  }

  ghost predicate AllAnswersOk(db: Db, requests: map<nat, Request>) {
    forall rid :: rid in requests ==> AnswerOk(db, requests[rid])
  }

  ghost predicate AllWritten(env: Env, db: Db, requests: map<nat, Request>) {
    forall key :: key in db.records ==> Written(env, db.records[key], requests)
  }

  ghost predicate Faithful(env: Env, s: State) {
    AllAnswersOk(s.db, s.requests) && AllWritten(env, s.db, s.requests)
  }

  // ----- One statement -----

  lemma WrittenIsAbout(env: Env, s: State, rid: nat, record: Record)
    requires HashesTell(env, s) && Written(env, record, s.requests) && rid in s.requests
    requires record.requestHash == env.requestHash(s.requests[rid].input)
    ensures About(record.body, s.requests[rid].input)
  {
    var w :| w in s.requests && env.requestHash(s.requests[w].input) == record.requestHash
          && About(record.body, s.requests[w].input);
    assert SameRequest(s.requests[w].input, s.requests[rid].input);
  }

  /** A key found with the request's own hash was recorded for the request's own name. */
  lemma ReplayIsAbout(env: Env, s: State, rid: nat)
    requires AllNamed(s.db) && AllWritten(env, s.db, s.requests) && HashesTell(env, s)
    requires rid in s.requests && s.requests[rid].stage == AtKey && s.requests[rid].writes == NO_WRITES
    ensures AnswerOk(s.db, env.LookUpKey(s.db, s.requests[rid]))
  {
    var r := s.requests[rid];
    var r' := env.LookUpKey(s.db, r);
    if r'.stage.Done? {
      var record := s.db.records[(ENDPOINT, KeyOf(r.input).value)];
      WrittenIsAbout(env, s, rid, record);
      assert Names(s.db, record.body);
    }
  }

  /** A new tag and a record about the same name cannot both be there. */
  lemma NothingDiscarded(env: Env, db: Db, meta: MetaState, r: Request)
    requires AllNamed(db) && RequestOk(env, db, meta, r) && r.stage.AtStore? && AnswerOk(db, r)
    ensures AnswerOk(db, env.StoreRecord(db, r, r.stage.out))
  {
    if KeyOf(r.input).Some? && (ENDPOINT, KeyOf(r.input).value) in db.records {
      var record := db.records[(ENDPOINT, KeyOf(r.input).value)];
      assert Names(db, record.body);
      assert SameName(db.tags[record.body.id], r.input.advertiser, r.input.payload.columns.name);
    }
  }

  lemma LookUpNameIsAbout(env: Env, db: Db, meta: MetaState, r: Request)
    requires AllSettled(db, meta) && RequestOk(env, db, meta, r) && r.stage == AtName && AnswerOk(db, r)
    ensures AnswerOk(db, env.LookUpName(db, r))
  {
    LookUpNameShape(env, db, meta, r);
  }

  lemma CallMetaIsAbout(env: Env, db: Db, meta: MetaState, r: Request, answer: Answer)
    requires RequestOk(env, db, meta, r) && r.stage == AtMeta && AnswerOk(db, r)
    ensures AnswerOk(db, env.CallMeta(meta, r, answer).1)
  {
  }

  lemma NameAnswers(env: Env, db: Db, meta: MetaState, r: Request, c: Choice)
    requires AllSettled(db, meta) && RequestOk(env, db, meta, r) && r.stage == AtName && AnswerOk(db, r)
    ensures AnswerOk(db, env.Advance(db, meta, r, c).1)
  {
    LookUpNameIsAbout(env, db, meta, r);
    assert env.Advance(db, meta, r, c) == (meta, env.LookUpName(db, r));
  }

  lemma MetaAnswers(env: Env, db: Db, meta: MetaState, r: Request, c: Choice)
    requires RequestOk(env, db, meta, r) && r.stage == AtMeta && AnswerOk(db, r)
    ensures AnswerOk(db, env.Advance(db, meta, r, c).1)
  {
    CallMetaIsAbout(env, db, meta, r, c.answer);
    assert env.Advance(db, meta, r, c) == env.CallMeta(meta, r, c.answer);
  }

  lemma StoreAnswers(env: Env, db: Db, meta: MetaState, r: Request, c: Choice)
    requires AllNamed(db) && RequestOk(env, db, meta, r) && r.stage.AtStore? && AnswerOk(db, r)
    ensures AnswerOk(db, env.Advance(db, meta, r, c).1)
  {
    NothingDiscarded(env, db, meta, r);
    assert env.Advance(db, meta, r, c) == (meta, env.StoreRecord(db, r, r.stage.out));
  }

  lemma OtherStagesAnswer(env: Env, db: Db, meta: MetaState, r: Request, c: Choice)
    requires RequestOk(env, db, meta, r) && AnswerOk(db, r) && Live(r)
    requires !r.stage.AtKey? && !r.stage.AtName? && !r.stage.AtMeta? && !r.stage.AtStore? && !r.stage.AtCommit?
    ensures AnswerOk(db, env.Advance(db, meta, r, c).1)
  {
  }

  lemma AdvanceAnswers(env: Env, s: State, rid: nat, c: Choice)
    requires Inv(env, s) && Faithful(env, s) && HashesTell(env, s)
    requires rid in s.requests && Live(s.requests[rid]) && !s.requests[rid].stage.AtCommit?
    ensures AnswerOk(s.db, env.Advance(s.db, s.meta, s.requests[rid], c).1)
  {
    var r := s.requests[rid];
    assert RequestOk(env, s.db, s.meta, r) && AnswerOk(s.db, r);
    if r.stage.AtKey? {
      ReplayIsAbout(env, s, rid);
    } else if r.stage.AtName? {
      NameAnswers(env, s.db, s.meta, r, c);
    } else if r.stage.AtMeta? {
      MetaAnswers(env, s.db, s.meta, r, c);
    } else if r.stage.AtStore? {
      StoreAnswers(env, s.db, s.meta, r, c);
    } else {
      OtherStagesAnswer(env, s.db, s.meta, r, c);
    }
  }

  // ----- Commit -----

  /** Another request's answer survives a commit: a record it brings under this request's key
      is about the same name. */
  lemma CommitKeepsAnswer(env: Env, db: Db, meta: MetaState, w: Request, r: Request)
    requires RequestOk(env, db, meta, w) && w.stage.AtCommit? && About(w.stage.out, w.input)
    requires AnswerOk(db, r) && Grows(db, Commit(db, w.writes))
    requires Live(r) && KeyOf(r.input).Some? && KeyOf(r.input) == KeyOf(w.input) ==> SameRequest(r.input, w.input)
    ensures AnswerOk(Commit(db, w.writes), r)
  {
  }

  lemma CommitAnswers(env: Env, s: State, rid: nat)
    requires Inv(env, s) && Faithful(env, s) && KeysAgree(s)
    requires rid in s.requests && s.requests[rid].stage.AtCommit?
    ensures var r := s.requests[rid];
            var db' := Commit(s.db, r.writes);
            && AllAnswersOk(db', s.requests)
            && Names(db', r.stage.out)
  {
    var r := s.requests[rid];
    CommitTablesOk(env, s.db, s.meta, r);
    OthersAnswer(env, s, rid, r);
    assert AnswerOk(s.db, r);
  }

  lemma OthersAnswer(env: Env, s: State, rid: nat, r: Request)
    requires AllAnswersOk(s.db, s.requests) && KeysAgree(s) && RequestOk(env, s.db, s.meta, r) && AnswerOk(s.db, r)
    requires rid in s.requests && s.requests[rid] == r && r.stage.AtCommit? && Grows(s.db, Commit(s.db, r.writes))
    ensures AllAnswersOk(Commit(s.db, r.writes), s.requests)
  {
    forall other | other in s.requests
      ensures AnswerOk(Commit(s.db, r.writes), s.requests[other])
    {
      CommitKeepsAnswer(env, s.db, s.meta, r, s.requests[other]);
    }
  }

  // ----- Runs -----

  lemma AnswersReplaced(db: Db, requests: map<nat, Request>, rid: nat, r: Request)
    requires AllAnswersOk(db, requests) && AnswerOk(db, r)
    ensures AllAnswersOk(db, requests[rid := r])
  {
  }

  lemma WrittenReplaced(env: Env, db: Db, requests: map<nat, Request>, rid: nat, r: Request)
    requires AllWritten(env, db, requests)
    requires rid in requests ==> requests[rid].input == r.input
    ensures AllWritten(env, db, requests[rid := r])
  {
    forall key | key in db.records
      ensures Written(env, db.records[key], requests[rid := r])
    {
      var w :| w in requests && env.requestHash(requests[w].input) == db.records[key].requestHash
            && About(db.records[key].body, requests[w].input);
      assert requests[rid := r][w].input == requests[w].input;
    }
  }

  lemma CommitWrites(env: Env, db: Db, meta: MetaState, requests: map<nat, Request>, rid: nat)
    requires AllWritten(env, db, requests) && rid in requests && requests[rid].stage.AtCommit?
    requires RequestOk(env, db, meta, requests[rid]) && About(requests[rid].stage.out, requests[rid].input)
    ensures AllWritten(env, Commit(db, requests[rid].writes), requests)
  {
    var w := requests[rid].writes;
    forall key | key in Commit(db, w).records
      ensures Written(env, Commit(db, w).records[key], requests)
    {
      if w.record.Some? && w.record.value.0 == key {
        assert env.requestHash(requests[rid].input) == w.record.value.1.requestHash;
      } else {
        assert Written(env, db.records[key], requests);
      }
    }
  }

  lemma MoveIsFaithful(env: Env, s: State, rid: nat, c: Choice)
    requires Inv(env, s) && Faithful(env, s) && KeysAgree(s) && HashesTell(env, s) && Enabled(s, Move(rid, c))
    ensures Faithful(env, MoveRequest(env, s, rid, c))
  {
    var r := s.requests[rid];
    if r.stage.AtCommit? {
      var db' := Commit(s.db, r.writes);
      var r' := r.(writes := NO_WRITES, stage := Done(Created(r.stage.out)));
      CommitAnswers(env, s, rid);
      AnswersReplaced(db', s.requests, rid, r');
      CommitWrites(env, s.db, s.meta, s.requests, rid);
      WrittenReplaced(env, db', s.requests, rid, r');
    } else {
      var r' := env.Advance(s.db, s.meta, r, c).1;
      AdvanceAnswers(env, s, rid, c);
      AdvanceOk(env, s.db, s.meta, r, c);
      AnswersReplaced(s.db, s.requests, rid, r');
      WrittenReplaced(env, s.db, s.requests, rid, r');
    }
  }

  lemma StepIsFaithful(env: Env, s: State, step: Step)
    requires Inv(env, s) && Faithful(env, s) && KeysAgree(s) && HashesTell(env, s) && Enabled(s, step)
    ensures Faithful(env, Apply(env, s, step))
  {
    match step
    case Move(rid, c) => MoveIsFaithful(env, s, rid, c);
    case Arrive(rid, input) =>
      AnswersReplaced(s.db, s.requests, rid, NewRequest(input));
      WrittenReplaced(env, s.db, s.requests, rid, NewRequest(input));
    case Crash(rid) =>
      var r' := Broken(s.requests[rid]);
      AnswersReplaced(s.db, s.requests, rid, r');
      WrittenReplaced(env, s.db, s.requests, rid, r');
    case _ =>
      var s' := Apply(env, s, step);
      SameTablesFaithful(env, s.db, s'.db, s.requests);
  }

  lemma SameTablesFaithful(env: Env, db: Db, db': Db, requests: map<nat, Request>)
    requires AllAnswersOk(db, requests) && AllWritten(env, db, requests)
    requires db'.tags == db.tags && db'.records == db.records
    ensures AllAnswersOk(db', requests) && AllWritten(env, db', requests)
  {
    forall rid | rid in requests
      ensures AnswerOk(db', requests[rid])
    {
      assert AnswerOk(db, requests[rid]);
    }
  }

  ghost predicate Tame(env: Env, run: seq<State>) {
    forall i :: 0 <= i < |run| ==> KeysAgree(run[i]) && HashesTell(env, run[i])
  }

  lemma {:induction false} RunIsFaithful(env: Env, run: seq<State>, steps: seq<Step>, i: nat)
    requires IsRun(env, run, steps) && i < |run| && Tame(env, run)
    ensures Faithful(env, run[i])
  {
    if i > 0 {
      RunIsFaithful(env, run, steps, i - 1);
      RunInv(env, run, steps, i - 1);
      StepIsFaithful(env, run[i - 1], steps[i - 1]);
    }
  }

  /** Every 201, keyed or not, fresh or replayed, carries the id that is and stays under the
      request's own advertiser and name. */
  lemma CreatedNamesTheTag(env: Env, run: seq<State>, steps: seq<Step>, i: nat, j: nat, rid: nat)
    requires IsRun(env, run, steps) && i <= j < |run| && Tame(env, run)
    requires rid in run[i].requests && run[i].requests[rid].stage.Done? && run[i].requests[rid].stage.outcome.Created?
    ensures var input := run[i].requests[rid].input;
            TagUnder(run[j].db.tags, input.advertiser, input.payload.columns.name)
            == Some(run[i].requests[rid].stage.outcome.body.id)
  {
    RunIsFaithful(env, run, steps, i);
    RunInv(env, run, steps, j);
    RunGrows(env, run, steps, i, j);
    var r := run[i].requests[rid];
    assert AnswerOk(run[i].db, r);
    NamedUnder(run[i].db, run[j].db, r.stage.outcome.body, r.input);
  }

  lemma NamedUnder(db: Db, db': Db, body: Body, input: Input)
    requires Names(db, body) && About(body, input) && Grows(db, db') && UniqueNames(db'.tags)
    ensures TagUnder(db'.tags, input.advertiser, input.payload.columns.name) == Some(body.id)
  {
    assert SameName(db'.tags[body.id], input.advertiser, input.payload.columns.name);
  }

  /** So two 201s for one advertiser and name carry one tag id. */
  lemma SameNameSameTag(env: Env, run: seq<State>, steps: seq<Step>, i: nat, j: nat, a: nat, b: nat)
    requires IsRun(env, run, steps) && i <= j < |run| && Tame(env, run)
    requires a in run[i].requests && run[i].requests[a].stage.Done? && run[i].requests[a].stage.outcome.Created?
    requires b in run[j].requests && run[j].requests[b].stage.Done? && run[j].requests[b].stage.outcome.Created?
    requires var (x, y) := (run[i].requests[a].input, run[j].requests[b].input);
             x.advertiser == y.advertiser && x.payload.columns.name == y.payload.columns.name
    ensures run[i].requests[a].stage.outcome.body.id == run[j].requests[b].stage.outcome.body.id
  {
    CreatedNamesTheTag(env, run, steps, i, j, a);
    CreatedNamesTheTag(env, run, steps, j, j, b);
  }

  /** The id that a step adds to the map, if it does: that of the tag it commits. */
  ghost function AddedTag(s: State, step: Step): Option<(Uuid, Tag)> {
    if step.Move? && step.rid in s.requests && s.requests[step.rid].stage.AtCommit? then
      s.requests[step.rid].writes.tag
    else None
  }

  /** The map is only extended, one absent entry at a time, and only by a commit. */
  lemma MapIsOnlyExtended(env: Env, run: seq<State>, steps: seq<Step>, i: nat, advertiser: Uuid, name: string)
    requires IsRun(env, run, steps) && i < |steps|
    ensures var before := TagUnder(run[i].db.tags, advertiser, name);
            var after := TagUnder(run[i + 1].db.tags, advertiser, name);
            match AddedTag(run[i], steps[i])
            case None => after == before
            case Some((id, tag)) =>
              if SameName(tag, advertiser, name) then before == None && after == Some(id) else after == before
  {
    RunInv(env, run, steps, i);
    RunInv(env, run, steps, i + 1);
    StepTags(env, run[i], steps[i]);
    TagUnderExtended(run[i].db, run[i + 1].db, AddedTag(run[i], steps[i]), advertiser, name);
  }

  lemma StepTags(env: Env, s: State, step: Step)
    requires AllOk(env, s.db, s.meta, s.requests) && Enabled(s, step)
    ensures Apply(env, s, step).db.tags == CommitTag(s.db.tags, AddedTag(s, step))
    ensures var added := AddedTag(s, step);
            added.Some? ==> Fresh(s.db.tags, added.value.0, added.value.1.advertiser, added.value.1.columns.name)
  {
    if step.Move? {
      assert RequestOk(env, s.db, s.meta, s.requests[step.rid]);
    }
  }

  lemma TagUnderExtended(db: Db, db': Db, added: Option<(Uuid, Tag)>, advertiser: Uuid, name: string)
    requires UniqueNames(db.tags) && UniqueNames(db'.tags)
    requires db'.tags == CommitTag(db.tags, added)
    requires added.Some? ==> Fresh(db.tags, added.value.0, added.value.1.advertiser, added.value.1.columns.name)
    ensures var before := TagUnder(db.tags, advertiser, name);
            var after := TagUnder(db'.tags, advertiser, name);
            match added
            case None => after == before
            case Some((id, tag)) =>
              if SameName(tag, advertiser, name) then before == None && after == Some(id) else after == before
  {
    if added.Some? {
      var (id, tag) := added.value;
      assert db'.tags[id] == StoredTag(tag);
      assert forall other :: other in db'.tags && other != id ==> other in db.tags && db'.tags[other] == db.tags[other];
    }
  }
}
