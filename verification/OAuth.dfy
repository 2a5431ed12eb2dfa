/** `OAuthService` (app/services/oauth_service.py) over `OAuthTokenRepository`
    (app/repositories/oauth_token.py). Times are in microseconds. */
module OAuth {
  import opened Prelude
  import opened Domain
  import opened TokenCipher

  const SECOND := 1_000_000
  const DEFAULT_TTL := 3600 * SECOND
  const REFRESH_LEEWAY := 60 * SECOND
  const META_PROVIDER := "meta"

  /** An advertiser and a provider. */
  type Key = (Uuid, string)

  datatype TokenRow = TokenRow(access: string, refresh: Option<string>, expiresAt: int, scopes: Option<string>)

  datatype AccessToken = AccessToken(value: string, expiresAt: int)

  datatype TokenError = NoToken | NoRefreshToken | Unreadable(error: CipherError)

  type Rows = map<Key, TokenRow>

  /** The fields of a row that an upsert brings; an absent refresh token or scope is left alone. */
  function Merge(rows: Rows, key: Key, update: TokenRow): TokenRow {
    if key in rows then
      update.(refresh := if update.refresh.Some? then update.refresh else rows[key].refresh,
              scopes := if update.scopes.Some? then update.scopes else rows[key].scopes)
    else
      update
  }

  /** What the stored row offers at a given time. */
  datatype Offer = Cached(token: AccessToken) | Renewed(access: string) | Unavailable(error: TokenError)

  /** The cipher's two directions, and the provider's answer to a refresh token. */
  datatype Config = Config(encrypt: string -> string, decrypt: string -> Result<string, CipherError>,
                           provider: string -> string) {
    ghost predicate Valid() {
      forall text :: decrypt(encrypt(text)) == Ok(text)
    }

    function Offered(row: Option<TokenRow>, now: int): Offer
    {
      match row
      case None => Unavailable(NoToken)
      case Some(r) =>
        if r.expiresAt - now > REFRESH_LEEWAY then
          match decrypt(r.access)
          case Err(e) => Unavailable(Unreadable(e))
          case Ok(value) => Cached(AccessToken(value, r.expiresAt))
        else if r.refresh.None? then Unavailable(NoRefreshToken)
        else
          match decrypt(r.refresh.value)
          case Err(e) => Unavailable(Unreadable(e))
          case Ok(refresh) => Renewed(provider(refresh))
    }

    function StoredRow(access: string, refresh: Option<string>, expiresAt: int, scopes: Option<string>): TokenRow
    {
      TokenRow(encrypt(access),
               if refresh.Some? && refresh.value != "" then Some(encrypt(refresh.value)) else None,
               expiresAt, scopes)
    }

    /** `get_access_token`, which reads the clock twice when it refreshes. */
    function Get(rows: Rows, key: Key, now: int, later: int): (Rows, Result<AccessToken, TokenError>)
    {
      match Offered(if key in rows then Some(rows[key]) else None, now)
      case Unavailable(e) => (rows, Err(e))
      case Cached(token) => (rows, Ok(token))
      case Renewed(access) =>
        var scopes := if key in rows then rows[key].scopes else None;
        (rows[key := Merge(rows, key, StoredRow(access, None, later + DEFAULT_TTL, scopes))],
         Ok(AccessToken(access, later + DEFAULT_TTL)))
    }
  }

  /** There is no token, or it is not good for more than the leeway and cannot be refreshed. */
  predicate Missing(rows: Rows, key: Key, now: int) {
    key !in rows || (rows[key].expiresAt - now <= 60 * SECOND && rows[key].refresh.None?)
  }

  /** The ciphertext that a fetch would read does not decrypt. */
  predicate Garbled(c: Config, rows: Rows, key: Key, now: int) {
    && key in rows
    && if rows[key].expiresAt - now > 60 * SECOND then c.decrypt(rows[key].access).Err?
       else rows[key].refresh.Some? && c.decrypt(rows[key].refresh.value).Err?
  }

  /** What a fetch that returns a token leaves: the rows as they were while the token is good
      for more than the leeway, else a new access token in its row, for an hour. */
  predicate LeavesRows(c: Config, rows: Rows, key: Key, now: int, later: int, rows': Rows)
    requires !Missing(rows, key, now) && !Garbled(c, rows, key, now)
  {
    if rows[key].expiresAt - now > 60 * SECOND then rows' == rows
    else
      var access := c.provider(c.decrypt(rows[key].refresh.value).value);
      rows' == rows[key := rows[key].(access := c.encrypt(access), expiresAt := later + 3600 * SECOND)]
  }

  lemma GetExactly(c: Config, rows: Rows, key: Key, now: int, later: int)
    ensures var (rows', r) := c.Get(rows, key, now, later);
            && (r.Err? <==> Missing(rows, key, now) || Garbled(c, rows, key, now))
            && (r.Err? ==> rows' == rows && (r.error.Unreadable? <==> Garbled(c, rows, key, now)))
            && (r.Ok? ==> LeavesRows(c, rows, key, now, later, rows'))
  {
  }

  lemma OfferedExactly(c: Config, rows: Rows, key: Key, now: int)
    ensures var offer := c.Offered(if key in rows then Some(rows[key]) else None, now);
            && (offer.Unavailable? <==> Missing(rows, key, now) || Garbled(c, rows, key, now))
            && (offer.Unavailable? ==> (offer.error.Unreadable? <==> Garbled(c, rows, key, now)))
  {
  }

  function ConfigOf(cipher: Cipher, provider: string -> string): Config
    requires cipher.key != []
  {
    Config(text => cipher.Encrypt(text), token => cipher.Decrypt(token), provider)
  }

  lemma CipherConfigValid(cipher: Cipher, provider: string -> string)
    requires cipher.Valid()
    ensures ConfigOf(cipher, provider).Valid()
  {
    forall text
      ensures cipher.Decrypt(cipher.Encrypt(text)) == Ok(text)
    {
      DecryptEncrypt(cipher, text);
    }
  }

  /** So the service reads back what it writes under every configured key but the empty one. */
  lemma ConfiguredKeyIsValid(digests: Digests, key: string, provider: string -> string)
    requires digests.Valid() && key != ""
    ensures Make(digests, key).Ok? && Make(digests, key).value.key != []
    ensures ConfigOf(Make(digests, key).value, provider).Valid()
  {
    MakeValid(digests, key);
    CipherConfigValid(Make(digests, key).value, provider);
  }

  class OAuthService {
    const config: Config
    var rows: Rows

    constructor (config: Config, rows: Rows)
      ensures this.config == config && this.rows == rows
    {
      this.config, this.rows := config, rows;
    }

    /** `OAuthTokenRepository.upsert`: assigns the fields of the existing row in place. */
    method Upsert(key: Key, access: string, refresh: Option<string>, expiresAt: int, scopes: Option<string>)
      modifies this
      ensures rows == old(rows)[key := Merge(old(rows), key, TokenRow(access, refresh, expiresAt, scopes))]
    {
      if key !in rows {
        rows := rows[key := TokenRow(access, refresh, expiresAt, scopes)];
        return;
      }
      var existing := rows[key].(access := access);
      if refresh.Some? {
        existing := existing.(refresh := refresh);
      }
      existing := existing.(expiresAt := expiresAt);
      if scopes.Some? {
        existing := existing.(scopes := scopes);
      }
      rows := rows[key := existing];
    }

    method StoreInitialToken(key: Key, access: string, refresh: Option<string>, ttl: int, scopes: Option<string>, now: int)
      modifies this
      ensures rows == old(rows)[key := Merge(old(rows), key, config.StoredRow(access, refresh, now + ttl, scopes))]
    {
      var encrypted := None;
      if refresh.Some? && refresh.value != "" {
        encrypted := Some(config.encrypt(refresh.value));
      }
      Upsert(key, config.encrypt(access), encrypted, now + ttl, scopes);
    }

    /** Also says whether the row was written. */
    method GetAccessToken(key: Key, now: int, later: int) returns (r: Result<AccessToken, TokenError>, refreshed: bool)
      modifies this
      ensures (rows, r) == config.Get(old(rows), key, now, later)
      ensures key !in old(rows) ==> r == Err(NoToken) && rows == old(rows)
      ensures key in old(rows) && old(rows)[key].expiresAt - now > 60 * SECOND ==>
                && rows == old(rows)
                && match config.decrypt(old(rows)[key].access)
                   case Ok(text) => r == Ok(AccessToken(text, old(rows)[key].expiresAt))
                   case Err(e) => r == Err(Unreadable(e))
      ensures key in old(rows) && old(rows)[key].expiresAt - now <= 60 * SECOND ==>
                if old(rows)[key].refresh.None? then r == Err(NoRefreshToken) && rows == old(rows)
                else
                  match config.decrypt(old(rows)[key].refresh.value)
                  case Err(e) => r == Err(Unreadable(e)) && rows == old(rows)
                  case Ok(text) =>
                    var (access, expiresAt) := (config.provider(text), later + 3600 * SECOND);
                    && r == Ok(AccessToken(access, expiresAt))
                    && rows == old(rows)[key := old(rows)[key].(access := config.encrypt(access), expiresAt := expiresAt)]
      ensures refreshed <==> config.Offered(if key in old(rows) then Some(old(rows)[key]) else None, now).Renewed?
    {
      refreshed := false;
      if key !in rows {
        return Err(NoToken), false;
      }
      var token := rows[key];
      if token.expiresAt - now > REFRESH_LEEWAY {
        var value := config.decrypt(token.access);
        match value
        case Err(e) => return Err(Unreadable(e)), false;
        case Ok(text) => return Ok(AccessToken(text, token.expiresAt)), false;
      }
      if token.refresh.None? {
        return Err(NoRefreshToken), false;
      }
      var refresh := config.decrypt(token.refresh.value);
      match refresh
      case Err(e) => return Err(Unreadable(e)), false;
      case Ok(text) =>
        var access, expiresAt := config.provider(text), later + DEFAULT_TTL;
        Upsert(key, config.encrypt(access), None, expiresAt, token.scopes);
        r, refreshed := Ok(AccessToken(access, expiresAt)), true;
    }
  }

  // ----- Serial runs -----

  datatype Event =
    | Stored(key: Key, access: string, refresh: Option<string>, ttl: int, scopes: Option<string>, now: int)
    | Fetched(key: Key, now: int, later: int)

  function EndOf(e: Event): int {
    if e.Stored? then e.now else e.later
  }

  /** The clock never runs backwards, within an event or between two. */
  ghost predicate Clocked(events: seq<Event>) {
    && (forall i :: 0 <= i < |events| ==> events[i].now <= EndOf(events[i]))
    && (forall i, j :: 0 <= i < j < |events| ==> EndOf(events[i]) <= events[j].now)
  }

  function Step(c: Config, rows: Rows, e: Event): Rows
  {
    match e
    case Stored(key, access, refresh, ttl, scopes, now) =>
      rows[key := Merge(rows, key, c.StoredRow(access, refresh, now + ttl, scopes))]
    case Fetched(key, now, later) => c.Get(rows, key, now, later).0
  }

  /** The rows before event i. */
  function Before(c: Config, events: seq<Event>, i: nat): Rows
    requires i <= |events|
  {
    if i == 0 then map[] else Step(c, Before(c, events, i - 1), events[i - 1])
  }

  /** Whether event i refreshes the token under key. */
  predicate Refreshes(c: Config, events: seq<Event>, i: nat, key: Key)
    requires i < |events|
  {
    && events[i].Fetched? && events[i].key == key
    && var rows := Before(c, events, i);
       c.Offered(if key in rows then Some(rows[key]) else None, events[i].now).Renewed?
  }

  ghost predicate Readable(c: Config, rows: Rows)
  {
    forall key :: key in rows ==>
      && c.decrypt(rows[key].access).Ok?
      && (rows[key].refresh.Some? ==> c.decrypt(rows[key].refresh.value).Ok?)
  }

  /** Stored ciphertexts always decrypt. */
  lemma {:induction false} AlwaysReadable(c: Config, events: seq<Event>, i: nat)
    requires c.Valid() && i <= |events|
    ensures Readable(c, Before(c, events, i))
  {
    if i > 0 {
      AlwaysReadable(c, events, i - 1);
    }
  }

  /** A fetch changes neither refresh tokens nor scopes, of any key, and removes no row. */
  lemma FetchKeeps(c: Config, rows: Rows, key: Key, now: int, later: int, other: Key)
    ensures var rows' := c.Get(rows, key, now, later).0;
            && rows'.Keys == rows.Keys
            && (other in rows ==> rows'[other].refresh == rows[other].refresh && rows'[other].scopes == rows[other].scopes)
  {
  }

  /** A refresh token once stored is never dropped, and from then on a token is always returned. */
  lemma {:induction false} RefreshableForever(c: Config, events: seq<Event>, i: nat, j: nat, key: Key, now: int, later: int)
    requires c.Valid() && i <= j <= |events|
    requires key in Before(c, events, i) && Before(c, events, i)[key].refresh.Some?
    ensures key in Before(c, events, j) && Before(c, events, j)[key].refresh.Some?
    ensures c.Get(Before(c, events, j), key, now, later).1.Ok?
    decreases j
  {
    AlwaysReadable(c, events, j);
    if i < j {
      RefreshableForever(c, events, i, j - 1, key, now, later);
      var e := events[j - 1];
      if e.Fetched? {
        FetchKeeps(c, Before(c, events, j - 1), e.key, e.now, e.later, key);
      }
    }
  }

  /** Without a new initial token, a fetch sees the very refresh token and scopes it started with. */
  lemma {:induction false} RefreshTokenUnchanged(c: Config, events: seq<Event>, i: nat, j: nat, key: Key)
    requires i <= j <= |events| && key in Before(c, events, i)
    requires forall k :: i <= k < j ==> !(events[k].Stored? && events[k].key == key)
    ensures key in Before(c, events, j)
    ensures Before(c, events, j)[key].refresh == Before(c, events, i)[key].refresh
    ensures Before(c, events, j)[key].scopes == Before(c, events, i)[key].scopes
    decreases j
  {
    if i < j {
      RefreshTokenUnchanged(c, events, i, j - 1, key);
      var e := events[j - 1];
      if e.Fetched? {
        FetchKeeps(c, Before(c, events, j - 1), e.key, e.now, e.later, key);
      }
    }
  }

  /** A returned token had more than the leeway left when the fetch first read the clock. */
  lemma ReturnedTokenIsFresh(c: Config, rows: Rows, key: Key, now: int, later: int)
    requires now <= later
    ensures var r := c.Get(rows, key, now, later).1;
            r.Ok? ==> r.value.expiresAt - now > REFRESH_LEEWAY
  {
  }

  // ----- In plaintext -----

  /** What the service keeps under a key, in plaintext. */
  datatype Held = Held(access: string, refresh: Option<string>, expiresAt: int, scopes: Option<string>)

  function HeldAfter(provider: string -> string, held: map<Key, Held>, e: Event): map<Key, Held> {
    match e
    case Stored(key, access, refresh, ttl, scopes, now) =>
      var (oldRefresh, oldScopes) := if key in held then (held[key].refresh, held[key].scopes) else (None, None);
      held[key := Held(access, if refresh.Some? && refresh.value != "" then refresh else oldRefresh, now + ttl,
                       if scopes.Some? then scopes else oldScopes)]
    case Fetched(key, now, later) =>
      if key in held && held[key].expiresAt - now <= REFRESH_LEEWAY && held[key].refresh.Some? then
        held[key := held[key].(access := provider(held[key].refresh.value), expiresAt := later + DEFAULT_TTL)]
      else held
  }

  function HeldBefore(provider: string -> string, events: seq<Event>, i: nat): map<Key, Held>
    requires i <= |events|
  {
    if i == 0 then map[] else HeldAfter(provider, HeldBefore(provider, events, i - 1), events[i - 1])
  }

  /** The row has what is held, both tokens encrypted. */
  predicate Opens(c: Config, row: TokenRow, held: Held) {
    && row.access == c.encrypt(held.access)
    && row.expiresAt == held.expiresAt && row.scopes == held.scopes
    && match (row.refresh, held.refresh)
       case (None, None) => true
       case (Some(token), Some(text)) => token == c.encrypt(text)
       case _ => false
  }

  ghost predicate Represents(c: Config, rows: Rows, held: map<Key, Held>) {
    rows.Keys == held.Keys && forall key :: key in rows ==> Opens(c, rows[key], held[key])
  }

  lemma StepRepresents(c: Config, rows: Rows, held: map<Key, Held>, e: Event)
    requires c.Valid() && Represents(c, rows, held)
    ensures Represents(c, Step(c, rows, e), HeldAfter(c.provider, held, e))
  {
  }

  /** Over every serial run the rows are the encryption of what is held: a new refresh token
      replaces the old one, an absent or empty one leaves it, absent scopes leave the old ones,
      a refresh touches access token and expiry alone. */
  lemma {:induction false} RunRepresents(c: Config, events: seq<Event>, i: nat)
    requires c.Valid() && i <= |events|
    ensures Represents(c, Before(c, events, i), HeldBefore(c.provider, events, i))
  {
    if i > 0 {
      RunRepresents(c, events, i - 1);
      StepRepresents(c, Before(c, events, i - 1), HeldBefore(c.provider, events, i - 1), events[i - 1]);
    }
  }

  /** With the cipher of app/core/security.py, then, the rows hold its tokens. */
  lemma RowsAreEncrypted(cipher: Cipher, provider: string -> string, events: seq<Event>, i: nat, key: Key)
    requires cipher.Valid() && i <= |events|
    ensures var rows := Before(ConfigOf(cipher, provider), events, i);
            var held := HeldBefore(provider, events, i);
            && (key in rows <==> key in held)
            && (key in rows ==>
                  && rows[key].access == cipher.Encrypt(held[key].access)
                  && (rows[key].refresh.Some? <==> held[key].refresh.Some?)
                  && (rows[key].refresh.Some? ==> rows[key].refresh.value == cipher.Encrypt(held[key].refresh.value)))
  {
    var c := ConfigOf(cipher, provider);
    CipherConfigValid(cipher, provider);
    RunRepresents(c, events, i);
    if key in Before(c, events, i) {
      assert Opens(c, Before(c, events, i)[key], HeldBefore(provider, events, i)[key]);
    }
  }

  /** What fetch j answers. */
  function Answer(c: Config, events: seq<Event>, j: nat): Result<AccessToken, TokenError>
    requires j < |events| && events[j].Fetched?
  {
    c.Get(Before(c, events, j), events[j].key, events[j].now, events[j].later).1
  }

  /** In terms of what is held. */
  lemma AnswerInPlaintext(c: Config, events: seq<Event>, j: nat)
    requires c.Valid() && j < |events| && events[j].Fetched?
    ensures var (e, held) := (events[j], HeldBefore(c.provider, events, j));
            Answer(c, events, j) ==
              if e.key !in held then Err(NoToken)
              else if held[e.key].expiresAt - e.now > REFRESH_LEEWAY then
                Ok(AccessToken(held[e.key].access, held[e.key].expiresAt))
              else if held[e.key].refresh.None? then Err(NoRefreshToken)
              else Ok(AccessToken(c.provider(held[e.key].refresh.value), e.later + DEFAULT_TTL))
  {
    RunRepresents(c, events, j);
  }

  /** The event stores a new token under the key, or one that comes with a refresh token. */
  predicate StoresFor(e: Event, key: Key) {
    e.Stored? && e.key == key
  }

  predicate StoresRefresh(e: Event, key: Key) {
    StoresFor(e, key) && e.refresh.Some? && e.refresh.value != ""
  }

  predicate FetchesFor(e: Event, key: Key) {
    e.Fetched? && e.key == key
  }

  lemma {:induction false} RefreshHeld(c: Config, events: seq<Event>, m: nat, j: nat, key: Key)
    requires m < j <= |events| && StoresRefresh(events[m], key)
    requires forall k :: m < k < j ==> !StoresRefresh(events[k], key)
    ensures key in HeldBefore(c.provider, events, j)
    ensures HeldBefore(c.provider, events, j)[key].refresh == events[m].refresh
    decreases j
  {
    if m + 1 < j {
      RefreshHeld(c, events, m, j - 1, key);
    }
  }

  /** What is held was last stored, or is what an earlier fetch answered. */
  ghost predicate HeldFrom(c: Config, events: seq<Event>, i: nat, j: nat, key: Key, held: Held)
    requires i < j <= |events| && events[i].Stored?
  {
    || (held.access == events[i].access && held.expiresAt == events[i].now + events[i].ttl)
    || exists k :: i < k < j && FetchesFor(events[k], key)
                   && Answer(c, events, k) == Ok(AccessToken(held.access, held.expiresAt))
  }

  lemma HeldFromEarlier(c: Config, events: seq<Event>, i: nat, j: nat, key: Key, held: Held)
    requires i + 1 < j <= |events| && events[i].Stored?
    requires HeldFrom(c, events, i, j - 1, key, held)
      || (FetchesFor(events[j - 1], key) && Answer(c, events, j - 1) == Ok(AccessToken(held.access, held.expiresAt)))
    ensures HeldFrom(c, events, i, j, key, held)
  {
  }

  lemma {:induction false} HeldIsAnswered(c: Config, events: seq<Event>, i: nat, j: nat, key: Key)
    requires c.Valid() && i < j <= |events| && StoresFor(events[i], key)
    requires forall k :: i < k < j ==> !StoresFor(events[k], key)
    ensures key in HeldBefore(c.provider, events, j)
    ensures HeldFrom(c, events, i, j, key, HeldBefore(c.provider, events, j)[key])
    decreases j
  {
    if i + 1 < j {
      HeldIsAnswered(c, events, i, j - 1, key);
      if FetchesFor(events[j - 1], key) {
        AnswerInPlaintext(c, events, j - 1);
      }
      HeldFromEarlier(c, events, i, j, key, HeldBefore(c.provider, events, j)[key]);
    }
  }

  /** When neither the token last stored nor any that was answered since is good for more than
      the leeway, a fetch returns the provider's answer to the refresh token last stored, for
      an hour from the second clock read. */
  lemma StaleTokenIsRefreshed(c: Config, events: seq<Event>, i: nat, m: nat, j: nat, key: Key)
    requires c.Valid() && m <= i < j < |events| && FetchesFor(events[j], key)
    requires StoresFor(events[i], key) && forall k :: i < k < j ==> !StoresFor(events[k], key)
    requires StoresRefresh(events[m], key) && forall k :: m < k < j ==> !StoresRefresh(events[k], key)
    requires events[i].now + events[i].ttl - events[j].now <= 60 * SECOND
    requires forall k :: i < k < j && FetchesFor(events[k], key) && Answer(c, events, k).Ok? ==>
               Answer(c, events, k).value.expiresAt - events[j].now <= 60 * SECOND
    ensures Answer(c, events, j)
         == Ok(AccessToken(c.provider(events[m].refresh.value), events[j].later + 3600 * SECOND))
  {
    HeldIsAnswered(c, events, i, j, key);
    RefreshHeld(c, events, m, j, key);
    AnswerInPlaintext(c, events, j);
  }

  /** While it is good for more than the leeway, what is held stays as it is. */
  lemma {:induction false} GoodStaysHeld(c: Config, events: seq<Event>, i: nat, j: nat, key: Key, access: string, expiresAt: int)
    requires Clocked(events) && i <= j < |events|
    requires forall k :: i <= k < j ==> !StoresFor(events[k], key)
    requires var held := HeldBefore(c.provider, events, i);
             key in held && held[key].access == access && held[key].expiresAt == expiresAt
    requires expiresAt - events[j].now > REFRESH_LEEWAY
    ensures var held := HeldBefore(c.provider, events, j);
            key in held && held[key].access == access && held[key].expiresAt == expiresAt
    decreases j
  {
    if i < j {
      assert events[j - 1].now <= EndOf(events[j - 1]) <= events[j].now;
      GoodStaysHeld(c, events, i, j - 1, key, access, expiresAt);
    }
  }

  /** While the token last stored is good for more than the leeway, a fetch returns its text
      and expiry. */
  lemma StoredTokenIsReturned(c: Config, events: seq<Event>, i: nat, j: nat, key: Key)
    requires c.Valid() && Clocked(events) && i < j < |events| && FetchesFor(events[j], key)
    requires StoresFor(events[i], key) && forall k :: i < k < j ==> !StoresFor(events[k], key)
    requires events[i].now + events[i].ttl - events[j].now > 60 * SECOND
    ensures Answer(c, events, j) == Ok(AccessToken(events[i].access, events[i].now + events[i].ttl))
  {
    GoodStaysHeld(c, events, i + 1, j, key, events[i].access, events[i].now + events[i].ttl);
    AnswerInPlaintext(c, events, j);
  }

  /** And while an answered token is, the next fetch returns the same text and expiry. */
  lemma AnsweredTokenIsReturned(c: Config, events: seq<Event>, i: nat, j: nat, key: Key)
    requires c.Valid() && Clocked(events) && i < j < |events|
    requires FetchesFor(events[i], key) && FetchesFor(events[j], key) && Answer(c, events, i).Ok?
    requires forall k :: i < k < j ==> !StoresFor(events[k], key)
    requires Answer(c, events, i).value.expiresAt - events[j].now > 60 * SECOND
    ensures Answer(c, events, j) == Answer(c, events, i)
  {
    var token := Answer(c, events, i).value;
    AnswerInPlaintext(c, events, i);
    GoodStaysHeld(c, events, i + 1, j, key, token.value, token.expiresAt);
    AnswerInPlaintext(c, events, j);
  }

  /** A fetch finds no token exactly when none was ever stored under the key. */
  lemma {:induction false} NoTokenExactly(c: Config, events: seq<Event>, j: nat, key: Key)
    requires j <= |events|
    ensures key in Before(c, events, j) <==> exists k :: 0 <= k < j && StoresFor(events[k], key)
  {
    if j > 0 {
      NoTokenExactly(c, events, j - 1, key);
      if StoresFor(events[j - 1], key) {
        assert exists k :: 0 <= k < j && StoresFor(events[k], key);
      }
    }
  }

  // ----- How often a token is refreshed -----

  const MIN_GAP := DEFAULT_TTL - REFRESH_LEEWAY

  /** After a refresh, and until a new initial token, the expiry only moves forward. */
  lemma {:induction false} ExpiryAfterRefresh(c: Config, events: seq<Event>, i: nat, j: nat, key: Key)
    requires Clocked(events) && i < j <= |events|
    requires Refreshes(c, events, i, key)
    requires forall k :: i < k < j ==> !(events[k].Stored? && events[k].key == key)
    ensures key in Before(c, events, j)
    ensures Before(c, events, j)[key].expiresAt >= events[i].later + DEFAULT_TTL
    decreases j
  {
    if j > i + 1 {
      ExpiryAfterRefresh(c, events, i, j - 1, key);
      assert EndOf(events[i]) <= events[j - 1].now;
    }
  }

  /** Two refreshes of one token are at least 3540 seconds apart. */
  lemma RefreshesAreSpaced(c: Config, events: seq<Event>, i: nat, j: nat, key: Key)
    requires Clocked(events) && i < j < |events|
    requires Refreshes(c, events, i, key) && Refreshes(c, events, j, key)
    requires forall k :: i < k < j ==> !(events[k].Stored? && events[k].key == key)
    ensures events[j].now - events[i].later >= MIN_GAP == 3540 * SECOND
  {
    ExpiryAfterRefresh(c, events, i, j, key);
  }

  function RefreshCount(c: Config, events: seq<Event>, i: nat, j: nat, key: Key): nat
    requires i <= j <= |events|
    decreases j
  {
    if i == j then 0
    else RefreshCount(c, events, i, j - 1, key) + if Refreshes(c, events, j - 1, key) then 1 else 0
  }

  lemma {:induction false} RefreshesPushExpiry(c: Config, events: seq<Event>, i: nat, j: nat, key: Key, start: int)
    requires Clocked(events) && i <= j <= |events|
    requires forall k :: i <= k < j ==> !(events[k].Stored? && events[k].key == key)
    requires forall k :: i <= k < j ==> start <= events[k].now
    ensures var n := RefreshCount(c, events, i, j, key);
            n > 0 ==> && key in Before(c, events, j)
                      && Before(c, events, j)[key].expiresAt - DEFAULT_TTL >= start + (n - 1) * MIN_GAP
                      && exists k :: i <= k < j && Before(c, events, j)[key].expiresAt == EndOf(events[k]) + DEFAULT_TTL
    decreases j
  {
    if i < j {
      RefreshesPushExpiry(c, events, i, j - 1, key, start);
      assert Refreshes(c, events, j - 1, key) ==>
        Before(c, events, j)[key].expiresAt == EndOf(events[j - 1]) + DEFAULT_TTL;
    }
  }

  /** A window of `length` microseconds holds at most 1 + length / 3540 s refreshes of one token. */
  lemma RefreshRate(c: Config, events: seq<Event>, i: nat, j: nat, key: Key, start: int, length: nat)
    requires Clocked(events) && i <= j <= |events|
    requires forall k :: i <= k < j ==> !(events[k].Stored? && events[k].key == key)
    requires forall k :: i <= k < j ==> start <= events[k].now && EndOf(events[k]) <= start + length
    ensures RefreshCount(c, events, i, j, key) <= 1 + length / MIN_GAP
  {
    RefreshesPushExpiry(c, events, i, j, key, start);
    var n := RefreshCount(c, events, i, j, key);
    if n > 0 {
      assert (n - 1) * MIN_GAP <= length;
    }
  }
}
