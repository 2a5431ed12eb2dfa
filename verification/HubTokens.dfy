/** OAuth rows while create requests refresh them concurrently. */
module HubTokens {
  import opened Prelude
  import opened MetaAdapter
  import opened Hub
  import OAuth

  ghost predicate WriteReadable(c: OAuth.Config, w: Writes) {
    w.token.Some? ==> c.decrypt(w.token.value.access).Ok?
  }

  ghost predicate TokensReadable(env: Env, s: State) {
    && OAuth.Readable(env.oauth, s.db.tokens)
    && forall rid :: rid in s.requests ==> WriteReadable(env.oauth, s.requests[rid].writes)
  }

  lemma AdvanceReadable(env: Env, db: Db, meta: MetaState, r: Request, c: Choice)
    requires env.oauth.Valid() && WriteReadable(env.oauth, r.writes) && !r.stage.AtCommit? && !r.stage.Done?
    ensures WriteReadable(env.oauth, env.Advance(db, meta, r, c).1.writes)
  {
  }

  lemma StepReadable(env: Env, s: State, step: Step)
    requires env.oauth.Valid() && TokensReadable(env, s) && Enabled(s, step)
    ensures TokensReadable(env, Apply(env, s, step))
  {
    if step.Move? && !s.requests[step.rid].stage.AtCommit? {
      AdvanceReadable(env, s.db, s.meta, s.requests[step.rid], step.choice);
    }
  }

  /** Stored ciphertexts always decrypt, however refreshes and new tokens interleave. */
  lemma {:induction false} TokensStayReadable(env: Env, run: seq<State>, steps: seq<Step>, i: nat)
    requires IsRun(env, run, steps) && i < |run| && env.oauth.Valid()
    requires OAuth.Readable(env.oauth, run[0].db.tokens)
    ensures TokensReadable(env, run[i])
  {
    if i > 0 {
      TokensStayReadable(env, run, steps, i - 1);
      StepReadable(env, run[i - 1], steps[i - 1]);
    }
  }

  /** A new token that comes with a refresh token. */
  predicate BringsRefresh(step: Step, key: OAuth.Key) {
    step.SaveToken? && step.key == key && step.refresh.Some? && step.refresh.value != ""
  }

  /** A new token that comes with other scopes than these. */
  predicate BringsScopes(step: Step, key: OAuth.Key, scopes: Option<string>) {
    step.SaveToken? && step.key == key && step.scopes.Some? && step.scopes != scopes
  }

  /** What a step may do to a row: a new token replaces it, keeping what it does not bring; all
      else leaves its refresh token and scopes alone. */
  lemma StepKeepsRow(env: Env, s: State, step: Step, key: OAuth.Key)
    requires Enabled(s, step) && key in s.db.tokens
    ensures var (before, rows) := (s.db.tokens[key], Apply(env, s, step).db.tokens);
            && key in rows
            && (before.refresh.Some? ==> rows[key].refresh.Some?)
            && (!BringsRefresh(step, key) ==> rows[key].refresh == before.refresh)
            && (!BringsScopes(step, key, before.scopes) ==> rows[key].scopes == before.scopes)
  {
  }

  /** Under every interleaving a stored refresh token is never dropped. Refreshes, of create
      requests or of syncs and even two at once, change neither it nor the scopes: only a new
      token that brings others does. */
  lemma {:induction false} RefreshTokenKept(env: Env, run: seq<State>, steps: seq<Step>, i: nat, j: nat, key: OAuth.Key)
    requires IsRun(env, run, steps) && i <= j < |run| && key in run[i].db.tokens
    ensures var before := run[i].db.tokens[key];
            && key in run[j].db.tokens
            && (before.refresh.Some? ==> run[j].db.tokens[key].refresh.Some?)
            && ((forall k :: i <= k < j ==> !BringsRefresh(steps[k], key)) ==> run[j].db.tokens[key].refresh == before.refresh)
            && ((forall k :: i <= k < j ==> !BringsScopes(steps[k], key, before.scopes)) ==>
                  run[j].db.tokens[key].scopes == before.scopes)
    decreases j
  {
    if i < j {
      RefreshTokenKept(env, run, steps, i, j - 1, key);
      RunStepKeepsRow(env, run, steps, j - 1, key);
    }
  }

  lemma RunStepKeepsRow(env: Env, run: seq<State>, steps: seq<Step>, k: nat, key: OAuth.Key)
    requires IsRun(env, run, steps) && k < |steps| && key in run[k].db.tokens
    ensures var (before, rows) := (run[k].db.tokens[key], run[k + 1].db.tokens);
            && key in rows
            && (before.refresh.Some? ==> rows[key].refresh.Some?)
            && (!BringsRefresh(steps[k], key) ==> rows[key].refresh == before.refresh)
            && (!BringsScopes(steps[k], key, before.scopes) ==> rows[key].scopes == before.scopes)
  {
    StepKeepsRow(env, run[k], steps[k], key);
  }

  /** So once a row has a refresh token, no create request of its advertiser ever fails for
      want of a token. */
  lemma TokenNeverMissing(env: Env, run: seq<State>, steps: seq<Step>, i: nat, j: nat, rid: nat, now: int)
    requires IsRun(env, run, steps) && i <= j < |run| && env.oauth.Valid()
    requires OAuth.Readable(env.oauth, run[0].db.tokens)
    requires rid in run[j].requests && run[j].requests[rid].stage == AtToken
    requires var key := TokenKey(run[j].requests[rid]);
             key in run[i].db.tokens && run[i].db.tokens[key].refresh.Some?
    ensures !env.FetchToken(run[j].db, run[j].requests[rid], now).stage.AtRollback?
  {
    RefreshTokenKept(env, run, steps, i, j, TokenKey(run[j].requests[rid]));
    TokensStayReadable(env, run, steps, j);
  }
}
