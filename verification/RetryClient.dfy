/** `MetaApiClient` of app/integrations/meta/client.py: requests retried by tenacity. */
module RetryClient {
  import opened Prelude
  import opened Domain
  import opened MetaAdapter

  /** The Retry-After header: missing or empty, a number, or text that `float` refuses. */
  datatype RetryAfter = Absent | Seconds(seconds: real) | Unparsable

  datatype Reply = Response(status: int, retryAfter: RetryAfter, isJson: bool) | TransportError

  /** One request on the wire: whether Meta applied it, and what came back. */
  datatype Wire = Wire(applied: bool, reply: Reply)

  datatype Outcome =
    | Json
    | RateLimitedFor(seconds: Option<real>)
    | AuthFailed
    | Missing
    | Refused
    | BadValue
    | Disconnected

  /** `_do_request`: the first branch that matches decides. */
  function Classify(reply: Reply): Outcome {
    if reply.TransportError? then Disconnected
    else if reply.status == 429 then
      match reply.retryAfter
      case Absent => RateLimitedFor(None)
      case Seconds(s) => RateLimitedFor(Some(s))
      case Unparsable => BadValue
    else if reply.status == 401 || reply.status == 403 then AuthFailed
    else if reply.status == 404 then Missing
    else if reply.status >= 500 then RateLimitedFor(None)
    else if reply.status >= 400 then Refused
    else if reply.isJson then Json
    else BadValue
  }

  predicate Retryable(o: Outcome) {
    o.RateLimitedFor? || o.Disconnected?
  }

  /** Retried are lost connections, server errors, and 429 unless its Retry-After is not a number;
      the other statuses from 400 up, and answers that are no JSON, end the call. */
  lemma OutcomeExactly(reply: Reply)
    ensures Retryable(Classify(reply)) <==>
              reply.TransportError? || reply.status >= 500 || (reply.status == 429 && !reply.retryAfter.Unparsable?)
    ensures Classify(reply).Json? <==> reply.Response? && reply.status < 400 && reply.isJson
    ensures Classify(reply).AuthFailed? <==> reply.Response? && reply.status in {401, 403}
    ensures Classify(reply).Missing? <==> reply.Response? && reply.status == 404
    ensures Classify(reply).Refused? <==> reply.Response? && 400 <= reply.status < 500 && reply.status !in {401, 403, 404, 429}
    ensures Classify(reply).RateLimitedFor? && Classify(reply).seconds.Some? <==>
              reply.Response? && reply.status == 429 && reply.retryAfter.Seconds?
  {
  }

  function Max(a: real, b: real): real {
    if a < b then b else a
  }

  function Min(a: real, b: real): real {
    if a < b then a else b
  }

  function Pow2(k: nat): nat {
    if k == 0 then 1 else 2 * Pow2(k - 1)
  }

  const MAX_WAIT := 10.0

  /** d * 2^(k - 1); see `BackoffPower`. */
  function Backoff(d: real, k: nat): real
    requires k >= 1
  {
    if k == 1 then d else Backoff(d, k - 1) + Backoff(d, k - 1)
  }

  /** `wait_exponential(multiplier=d, min=d, max=10)` after attempt k; Retry-After plays no part. */
  function Wait(d: real, k: nat): real
    requires k >= 1
  {
    Max(Max(0.0, d), Min(Backoff(d, k), MAX_WAIT))
  }

  /** The waits after the first n attempts. */
  function Waits(d: real, n: nat): (w: seq<real>)
    ensures |w| == n
  {
    if n == 0 then [] else Waits(d, n - 1) + [Wait(d, n)]
  }

  function Sum(w: seq<real>): real {
    if w == [] then 0.0 else Sum(w[..|w| - 1]) + w[|w| - 1]
  }

  /** What Meta holds after the attempts wires(first), ..., wires(last - 1) of one POST. */
  function After(digest: string -> string, server: MetaState, wires: nat -> Wire, first: nat, last: nat,
                 account: string, input: MetaInput): MetaState
    requires first <= last
    decreases last
  {
    if first == last then server
    else
      var before := After(digest, server, wires, first, last - 1, account, input);
      if wires(last - 1).applied then Create(digest, before, account, input).0 else before
  }

  class MetaApiClient {
    const digest: string -> string
    const maxRetries: int
    const baseDelay: real
    const wires: nat -> Wire
    var sent: nat
    var waited: seq<real>
    var server: MetaState

    constructor (digest: string -> string, maxRetries: int, baseDelay: real, wires: nat -> Wire, server: MetaState)
      ensures this.digest == digest && this.maxRetries == maxRetries && this.baseDelay == baseDelay
      ensures this.wires == wires && this.server == server && sent == 0 && waited == []
    {
      this.digest, this.maxRetries, this.baseDelay := digest, maxRetries, baseDelay;
      this.wires, this.server, sent, waited := wires, server, 0, [];
    }

    method DoRequest(account: string, input: MetaInput) returns (o: Outcome)
      modifies this`sent, this`server
      ensures sent == old(sent) + 1
      ensures server == if wires(old(sent)).applied then Create(digest, old(server), account, input).0 else old(server)
      ensures o == Classify(wires(old(sent)).reply)
    {
      var wire := wires(sent);
      sent := sent + 1;
      if wire.applied {
        server := Create(digest, server, account, input).0;
      }
      o := Classify(wire.reply);
    }

    /** Attempts up to the first outcome that is not retryable, or to the last one allowed; at
        least one is always made. */
    method Post(account: string, input: MetaInput) returns (o: Outcome)
      modifies this
      ensures var calls := sent - old(sent);
              && 1 <= calls && (calls > 1 ==> calls <= maxRetries)
              && (forall k :: old(sent) <= k < sent - 1 ==> Retryable(Classify(wires(k).reply)))
              && (calls < maxRetries ==> !Retryable(o))
              && o == Classify(wires(sent - 1).reply)
              && waited == old(waited) + Waits(baseDelay, calls - 1)
              && server == After(digest, old(server), wires, old(sent), sent, account, input)
    {
      var attempt := 1;
      o := DoRequest(account, input);
      while Retryable(o) && attempt < maxRetries
        invariant attempt >= 1 && sent == old(sent) + attempt
        invariant attempt > 1 ==> attempt <= maxRetries
        invariant o == Classify(wires(sent - 1).reply)
        invariant forall k :: old(sent) <= k < sent - 1 ==> Retryable(Classify(wires(k).reply))
        invariant waited == old(waited) + Waits(baseDelay, attempt - 1)
        invariant server == After(digest, old(server), wires, old(sent), sent, account, input)
        decreases maxRetries - attempt
      {
        waited := waited + [Wait(baseDelay, attempt)];
        attempt := attempt + 1;
        o := DoRequest(account, input);
      }
    }
  }

  // ----- The waits -----

  lemma {:induction false} BackoffPower(d: real, k: nat)
    requires k >= 1
    ensures Backoff(d, k) == d * Pow2(k - 1) as real
  {
    if k > 1 {
      BackoffPower(d, k - 1);
      assert Pow2(k - 1) as real == Pow2(k - 2) as real + Pow2(k - 2) as real;
      Doubled(d, Pow2(k - 2) as real);
    }
  }

  lemma Doubled(d: real, x: real)
    ensures d * (x + x) == d * x + d * x
  {
  }

  /** The backoff has the sign of d, and never less than its size. */
  lemma {:induction false} BackoffGrows(d: real, k: nat)
    requires k >= 1
    ensures d >= 0.0 ==> Backoff(d, k) >= d
    ensures d < 0.0 ==> Backoff(d, k) < 0.0
  {
    if k > 1 {
      BackoffGrows(d, k - 1);
    }
  }

  lemma WaitNeverDecreases(d: real, k: nat)
    requires k >= 1
    ensures Wait(d, k) <= Wait(d, k + 1)
  {
    BackoffGrows(d, k);
  }

  /** The wait after attempt k in closed form: d doubled k - 1 times, between d and ten. */
  lemma WaitExactly(d: real, k: nat)
    requires k >= 1
    ensures var power := d * Pow2(k - 1) as real;
            Wait(d, k) == if d < 0.0 then 0.0 else if d >= 10.0 then d else if power >= 10.0 then 10.0 else power
  {
    BackoffPower(d, k);
    BackoffGrows(d, k);
  }

  lemma WaitAtMost(d: real, n: nat, most: real)
    requires n >= 1 && most == Max(d, MAX_WAIT)
    ensures Wait(d, n) <= most
    ensures (n - 1) as real * most + most == n as real * most
  {
  }

  lemma {:induction false} WaitsBounded(d: real, n: nat)
    ensures Sum(Waits(d, n)) <= n as real * Max(d, MAX_WAIT)
  {
    if n > 0 {
      WaitsBounded(d, n - 1);
      assert Waits(d, n)[..n - 1] == Waits(d, n - 1);
      WaitAtMost(d, n, Max(d, MAX_WAIT));
    }
  }

  lemma WaitUncapped(d: real, k: nat)
    requires k >= 1 && d >= 0.0 && Backoff(d, k) <= MAX_WAIT
    ensures Wait(d, k) == Backoff(d, k)
    ensures k > 1 ==> Backoff(d, k - 1) <= MAX_WAIT
  {
    BackoffGrows(d, k);
    if k > 1 {
      BackoffGrows(d, k - 1);
    }
  }

  lemma {:induction false} WaitsTelescope(d: real, n: nat)
    requires d >= 0.0 && (n > 0 ==> Backoff(d, n) <= MAX_WAIT)
    ensures Sum(Waits(d, n)) == Backoff(d, n + 1) - d
  {
    if n > 0 {
      WaitUncapped(d, n);
      assert Waits(d, n)[..n - 1] == Waits(d, n - 1);
      WaitsTelescope(d, n - 1);
    }
  }

  /** While the cap is not reached the waits add up to d * (2^n - 1). */
  lemma WaitsUncapped(d: real, n: nat)
    requires d >= 0.0 && (n > 0 ==> Backoff(d, n) <= MAX_WAIT)
    ensures Sum(Waits(d, n)) == d * (Pow2(n) as real - 1.0)
  {
    WaitsTelescope(d, n);
    BackoffPower(d, n + 1);
    assert d * (Pow2(n) as real - 1.0) == d * Pow2(n) as real - d;
  }

  // ----- At-least-once delivery -----

  /** However often Meta applied the POST, the slot is the only one that may be new, nothing
      recorded before changes, and one application is as good as many. */
  lemma {:induction false} PostsBehaveAsOne(digest: string -> string, server: MetaState, wires: nat -> Wire,
                                            first: nat, last: nat, account: string, input: MetaInput)
    requires first <= last && Indexed(digest, server)
    ensures var end := After(digest, server, wires, first, last, account, input);
            && Indexed(digest, end)
            && end == if exists k :: first <= k < last && wires(k).applied
                      then Create(digest, server, account, input).0 else server
    decreases last
  {
    CreateKeeps(digest, server, account, input);
    if first < last {
      PostsBehaveAsOne(digest, server, wires, first, last - 1, account, input);
      CreateTwice(digest, server, account, input);
      if exists k :: first <= k < last && wires(k).applied {
        assert !wires(last - 1).applied ==> exists k :: first <= k < last - 1 && wires(k).applied;
      }
    }
  }

  lemma CreateFills(digest: string -> string, server: MetaState, account: string, input: MetaInput)
    requires HasPixel(server, account, input.pixelId)
    ensures var once := Create(digest, server, account, input).0;
            var slot := (account, input.columns.name);
            && once.byName.Keys == server.byName.Keys + {slot}
            && (slot in server.byName ==> once == server)
            && (forall s :: s in server.byName ==> once.byName[s] == server.byName[s])
  {
  }

  /** A second identical creation finds the first one. */
  lemma CreateTwice(digest: string -> string, server: MetaState, account: string, input: MetaInput)
    ensures var once := Create(digest, server, account, input);
            Create(digest, once.0, account, input) == once
  {
    var once := Create(digest, server, account, input).0;
    assert PixelsOf(once, account) == PixelsOf(server, account);
  }

  /** A success that Meta only reports for a request it applied leaves exactly one
      conversion in the slot, new or already there. */
  lemma SuccessLeavesOne(digest: string -> string, server: MetaState, wires: nat -> Wire,
                         first: nat, last: nat, account: string, input: MetaInput)
    requires first < last && Indexed(digest, server) && HasPixel(server, account, input.pixelId)
    requires wires(last - 1).applied
    ensures var end := After(digest, server, wires, first, last, account, input);
            var slot := (account, input.columns.name);
            && end.byName.Keys == server.byName.Keys + {slot}
            && (slot in server.byName ==> end == server)
            && (forall s :: s in server.byName ==> end.byName[s] == server.byName[s])
  {
    PostsBehaveAsOne(digest, server, wires, first, last, account, input);
    assert exists k :: first <= k < last && wires(k).applied by {
      assert wires(last - 1).applied;
    }
    CreateFills(digest, server, account, input);
  }

  /** Meta reports success only for a POST that it applied. */
  ghost predicate Honest(wires: nat -> Wire) {
    forall k :: Classify(wires(k).reply).Json? ==> wires(k).applied
  }

  /** Nothing recorded before changes, and the slot is the only one that may be new. */
  ghost predicate AddsAtMost(before: MetaState, after: MetaState, slot: Slot) {
    && before.byName.Keys <= after.byName.Keys <= before.byName.Keys + {slot}
    && (forall s :: s in before.byName ==> after.byName[s] == before.byName[s])
  }

  /** The slot holds one conversion, the one it held before if there was one. */
  ghost predicate HoldsOne(before: MetaState, after: MetaState, slot: Slot) {
    slot in after.byName && (slot in before.byName ==> after == before)
  }

  /** However the attempts of a POST went, and after an honest success. */
  lemma PostAdds(digest: string -> string, server: MetaState, wires: nat -> Wire,
                 first: nat, last: nat, account: string, input: MetaInput)
    requires first < last && Indexed(digest, server) && Honest(wires)
    ensures var end := After(digest, server, wires, first, last, account, input);
            var slot := (account, input.columns.name);
            && AddsAtMost(server, end, slot)
            && (Classify(wires(last - 1).reply).Json? && HasPixel(server, account, input.pixelId) ==> HoldsOne(server, end, slot))
  {
    PostsBehaveAsOne(digest, server, wires, first, last, account, input);
    CreateKeeps(digest, server, account, input);
    if Classify(wires(last - 1).reply).Json? && HasPixel(server, account, input.pixelId) {
      SuccessLeavesOne(digest, server, wires, first, last, account, input);
    }
  }

  /** `create_custom_conversion` of app/integrations/meta/real_adapter.py. */
  class RealMetaAdapter {
    const client: MetaApiClient

    constructor (client: MetaApiClient)
      ensures this.client == client
    {
      this.client := client;
    }

    /** At most one conversion in the slot whatever the outcome, exactly one after a success. */
    method CreateCustomConversion(account: string, input: MetaInput) returns (o: Outcome)
      requires Indexed(client.digest, client.server) && Honest(client.wires)
      modifies client
      ensures AddsAtMost(old(client.server), client.server, (account, input.columns.name))
      ensures o.Json? && HasPixel(old(client.server), account, input.pixelId) ==>
                HoldsOne(old(client.server), client.server, (account, input.columns.name))
    {
      ghost var before, first := client.server, client.sent;
      o := client.Post(account, input);
      PostAdds(client.digest, before, client.wires, first, client.sent, account, input);
    }
  }
}
