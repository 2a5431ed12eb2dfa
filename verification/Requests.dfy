/** Create requests (app/schemas/conversion_tag.py) and the hash that identifies them
    (app/services/idempotency.py:29-31, app/api/routes/conversion_tags.py:30-32). */
module Requests {
  import opened Prelude
  import opened Domain
  import opened CanonicalJson

  datatype Payload = Payload(pixelId: Uuid, columns: Columns)

  datatype Input = Input(advertiser: Uuid, payload: Payload, key: Option<string>)

  /** The route tests the header for truth, so an empty key is no key. */
  function KeyOf(input: Input): Option<string> {
    if input.key == Some("") then None else input.key
  }

  /** The validator `_value_requires_currency`. */
  predicate ValidColumns(columns: Columns) {
    columns.value.None? <==> columns.currency.None?
  }

  const RULE_KEYS := ["field", "operator", "value"]
  const REQUEST_KEYS :=
    ["advertiser_id", "pixel_id", "name", "event_type", "category", "value", "currency", "rule"]

  /** Functions the service calls but does not define: the hex digest of SHA-256, and the text
      of a decimal. */
  datatype Hashing = Hashing(sha256: string -> string, decimalText: Decimal -> string) {

    function TextJson(text: Option<string>): Json {
      match text
      case None => Null
      case Some(s) => Str(s)
    }

    function ValueJson(value: Option<Decimal>): Json {
      match value
      case None => Null
      case Some(d) => Str(decimalText(d))
    }

    function RuleJson(rule: Option<Rule>): Json {
      match rule
      case None => Null
      case Some(r) => Obj(Zip(RULE_KEYS, [Str(r.field), Str(r.operator), Str(r.value)]))
    }

    function RequestValues(advertiser: Uuid, payload: Payload): seq<Json> {
      var c := payload.columns;
      [Str(advertiser), Str(payload.pixelId), Str(c.name), Str(c.eventType), Str(c.category),
       ValueJson(c.value), TextJson(c.currency), RuleJson(c.rule)]
    }

    /** `{"advertiser_id": ..., **payload.model_dump(mode="json")}`. */
    function RequestJson(advertiser: Uuid, payload: Payload): Json {
      Obj(Zip(REQUEST_KEYS, RequestValues(advertiser, payload)))
    }

    function RequestHash(input: Input): string {
      sha256(Canonical(RequestJson(input.advertiser, input.payload)))
    }

    ghost predicate FaithfulDecimals() {
      forall d, e :: decimalText(d) == decimalText(e) ==> d == e
    }

    /** The digest tells the canonical texts of two requests apart. */
    ghost predicate Separates(a: Input, b: Input) {
      var x := Canonical(RequestJson(a.advertiser, a.payload));
      var y := Canonical(RequestJson(b.advertiser, b.payload));
      sha256(x) == sha256(y) ==> x == y
    }

    lemma KeysDistinct()
      ensures Distinct(RULE_KEYS) && Distinct(REQUEST_KEYS)
    {
      assert "name"[0] != "rule"[0];
      assert "pixel_id"[0] != "category"[0] && "pixel_id"[0] != "currency"[0] && "category"[1] != "currency"[1];
    }

    /** What the dict has under its keys. */
    lemma RequestJsonSays(advertiser: Uuid, payload: Payload)
      ensures var (ms, c) := (RequestJson(advertiser, payload).members, payload.columns);
              && Find(ms, "advertiser_id") == Some(Str(advertiser)) && Find(ms, "pixel_id") == Some(Str(payload.pixelId))
              && Find(ms, "name") == Some(Str(c.name)) && Find(ms, "event_type") == Some(Str(c.eventType))
              && Find(ms, "category") == Some(Str(c.category)) && Find(ms, "value") == Some(ValueJson(c.value))
              && Find(ms, "currency") == Some(TextJson(c.currency)) && Find(ms, "rule") == Some(RuleJson(c.rule))
      ensures payload.columns.rule.Some? ==>
                var (ms, rule) := (RuleJson(payload.columns.rule).members, payload.columns.rule.value);
                && Find(ms, "field") == Some(Str(rule.field)) && Find(ms, "operator") == Some(Str(rule.operator))
                && Find(ms, "value") == Some(Str(rule.value))
    {
      var keys, values := REQUEST_KEYS, RequestValues(advertiser, payload);
      KeysDistinct();
      forall i | 0 <= i < 8
        ensures Find(Zip(keys, values), keys[i]) == Some(values[i])
      {
        ZipFinds(keys, values, i);
      }
      assert keys[0] == "advertiser_id" && keys[1] == "pixel_id" && keys[2] == "name" && keys[3] == "event_type";
      assert keys[4] == "category" && keys[5] == "value" && keys[6] == "currency" && keys[7] == "rule";
      if payload.columns.rule.Some? {
        var rule := payload.columns.rule.value;
        var values := [Str(rule.field), Str(rule.operator), Str(rule.value)];
        ZipFinds(RULE_KEYS, values, 0);
        ZipFinds(RULE_KEYS, values, 1);
        ZipFinds(RULE_KEYS, values, 2);
      }
    }

    lemma RuleJsonInjective(a: Option<Rule>, b: Option<Rule>)
      ensures Valid(RuleJson(a))
      ensures Same(RuleJson(a), RuleJson(b)) ==> a == b
    {
      KeysDistinct();
      if a.Some? {
        var v := [Str(a.value.field), Str(a.value.operator), Str(a.value.value)];
        ZipValid(RULE_KEYS, v);
        if b.Some? && Same(RuleJson(a), RuleJson(b)) {
          var w := [Str(b.value.field), Str(b.value.operator), Str(b.value.value)];
          ZipSame(RULE_KEYS, v, w);
          assert Same(v[0], w[0]) && Same(v[1], w[1]) && Same(v[2], w[2]);
        }
      }
    }

    lemma RequestJsonInjective(a: Input, b: Input)
      requires FaithfulDecimals()
      ensures Valid(RequestJson(a.advertiser, a.payload))
      ensures Same(RequestJson(a.advertiser, a.payload), RequestJson(b.advertiser, b.payload))
          ==> a.advertiser == b.advertiser && a.payload == b.payload
    {
      var v, w := RequestValues(a.advertiser, a.payload), RequestValues(b.advertiser, b.payload);
      KeysDistinct();
      RuleJsonInjective(a.payload.columns.rule, b.payload.columns.rule);
      ZipValid(REQUEST_KEYS, v);
      if Same(RequestJson(a.advertiser, a.payload), RequestJson(b.advertiser, b.payload)) {
        ZipSame(REQUEST_KEYS, v, w);
        assert Same(v[0], w[0]) && Same(v[1], w[1]) && Same(v[2], w[2]) && Same(v[3], w[3]);
        assert Same(v[4], w[4]) && Same(v[5], w[5]) && Same(v[6], w[6]) && Same(v[7], w[7]);
      }
    }

    /** Two requests have one hash exactly when they ask the same of the same advertiser. */
    lemma SameHashSameRequest(a: Input, b: Input)
      requires FaithfulDecimals() && Separates(a, b)
      ensures RequestHash(a) == RequestHash(b) <==> a.advertiser == b.advertiser && a.payload == b.payload
    {
      RequestJsonInjective(a, b);
      RequestJsonInjective(b, a);
      CanonicalInjective(RequestJson(a.advertiser, a.payload), RequestJson(b.advertiser, b.payload));
    }
  }
}
