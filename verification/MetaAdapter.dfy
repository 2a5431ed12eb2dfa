/** `MockMetaAdapter` of app/integrations/meta/mock_adapter.py: Meta's side of the protocol. */
module MetaAdapter {
  import opened Prelude
  import opened Domain

  datatype MetaPixel = MetaPixel(id: string, name: string, status: string)

  datatype CustomConversion = CustomConversion(id: string, pixelId: string, columns: Columns)

  datatype MetaError = RateLimited | UnknownPixel

  /** An ad account and a conversion name. */
  type Slot = (string, string)

  /** The two indexes over conversions, and the pixels of every account. */
  datatype MetaState = MetaState(pixels: map<string, seq<MetaPixel>>,
                                 byId: map<string, CustomConversion>,
                                 byName: map<Slot, CustomConversion>)

  function PixelsOf(m: MetaState, account: string): seq<MetaPixel> {
    if account in m.pixels then m.pixels[account] else []
  }

  predicate HasPixel(m: MetaState, account: string, id: string) {
    exists i :: 0 <= i < |PixelsOf(m, account)| && PixelsOf(m, account)[i].id == id
  }

  /** `_stable_id("cc", account, name)`; digest is the first 16 hex digits of SHA-1. */
  function StableId(digest: string -> string, slot: Slot): string {
    "cc_" + digest(slot.0 + "|" + slot.1)
  }

  function Create(digest: string -> string, m: MetaState, account: string, input: MetaInput)
    : (MetaState, Result<CustomConversion, MetaError>)
  {
    var slot := (account, input.columns.name);
    if !HasPixel(m, account, input.pixelId) then
      (m, Err(UnknownPixel))
    else if slot in m.byName then
      (m, Ok(m.byName[slot]))
    else
      var conversion := CustomConversion(StableId(digest, slot), input.pixelId, input.columns);
      (m.(byId := m.byId[conversion.id := conversion], byName := m.byName[slot := conversion]), Ok(conversion))
  }

  // ----- The two indexes -----

  /** Every name leads to its stable id, and every id to a conversion some name leads to. */
  ghost predicate Indexed(digest: string -> string, m: MetaState) {
    && (forall slot :: slot in m.byName ==>
          && m.byName[slot].id == StableId(digest, slot)
          && m.byName[slot].columns.name == slot.1
          && m.byName[slot].id in m.byId)
    && (forall id :: id in m.byId ==> m.byId[id].id == id && m.byId[id] in m.byName.Values)
  }

  /** Both indexes hold the same conversions: each name's conversion is the one under its id. */
  ghost predicate Bijective(m: MetaState) {
    && (forall slot :: slot in m.byName ==> m.byName[slot].id in m.byId && m.byId[m.byName[slot].id] == m.byName[slot])
    && (forall s, t :: s in m.byName && t in m.byName && m.byName[s].id == m.byName[t].id ==> s == t)
    && (forall id :: id in m.byId ==> m.byId[id].id == id && m.byId[id] in m.byName.Values)
  }

  ghost predicate NoBar(s: string) {
    '|' !in s
  }

  /** Joining with "|" can be undone when the account has no "|" of its own. */
  lemma JoinInjective(a: string, x: string, b: string, y: string)
    requires NoBar(a) && NoBar(b)
    requires a + "|" + x == b + "|" + y
    ensures a == b && x == y
  {
    var s := a + "|" + x;
    assert s[|a|] == '|' && s[|b|] == '|';
    assert forall i :: 0 <= i < |a| ==> s[i] == a[i] && a[i] in a;
    assert forall i :: 0 <= i < |b| ==> s[i] == b[i] && b[i] in b;
    assert a == s[..|a|] && b == s[..|b|];
    assert x == s[|a| + 1..] && y == s[|b| + 1..];
  }

  /** The digest tells the texts of two slots apart. */
  ghost predicate Separates(digest: string -> string, s: Slot, t: Slot) {
    digest(s.0 + "|" + s.1) == digest(t.0 + "|" + t.1) ==> s.0 + "|" + s.1 == t.0 + "|" + t.1
  }

  lemma StableIdInjective(digest: string -> string, s: Slot, t: Slot)
    requires NoBar(s.0) && NoBar(t.0) && Separates(digest, s, t)
    ensures StableId(digest, s) == StableId(digest, t) <==> s == t
  {
    if StableId(digest, s) == StableId(digest, t) {
      var a, b := digest(s.0 + "|" + s.1), digest(t.0 + "|" + t.1);
      assert a == ("cc_" + a)[3..] && b == ("cc_" + b)[3..];
      JoinInjective(s.0, s.1, t.0, t.1);
    }
  }

  /** A new conversion takes its place in both indexes, in the first one perhaps over another. */
  lemma RecordKeeps(digest: string -> string, m: MetaState, slot: Slot, conversion: CustomConversion)
    requires Indexed(digest, m) && slot !in m.byName
    requires conversion.id == StableId(digest, slot) && conversion.columns.name == slot.1
    ensures Indexed(digest, m.(byId := m.byId[conversion.id := conversion], byName := m.byName[slot := conversion]))
  {
    var m' := m.(byId := m.byId[conversion.id := conversion], byName := m.byName[slot := conversion]);
    assert m'.byName[slot] in m'.byName.Values;
    forall id | id in m'.byId
      ensures m'.byId[id].id == id && m'.byId[id] in m'.byName.Values
    {
      if id != conversion.id {
        var s :| s in m.byName && m.byName[s] == m.byId[id];
        assert m'.byName[s] == m'.byId[id];
      }
    }
  }

  /** Creating keeps the indexes consistent, adds at most the asked slot, and answers from it. */
  lemma CreateKeeps(digest: string -> string, m: MetaState, account: string, input: MetaInput)
    requires Indexed(digest, m)
    ensures var (m', r) := Create(digest, m, account, input);
            var slot := (account, input.columns.name);
            && Indexed(digest, m')
            && m'.pixels == m.pixels
            && (forall s :: s in m'.byName && s != slot ==> s in m.byName)
            && (forall s :: s in m.byName ==> s in m'.byName && m'.byName[s] == m.byName[s])
            && (r.Ok? ==> slot in m'.byName && r.value == m'.byName[slot])
            && (r.Err? ==> m' == m)
  {
    var slot := (account, input.columns.name);
    if slot !in m.byName {
      RecordKeeps(digest, m, slot, CustomConversion(StableId(digest, slot), input.pixelId, input.columns));
    }
  }

  /** A conversion that is not there yet is recorded with the pixel and columns asked for, under
      both indexes; nothing is recorded for a pixel that the account does not have. */
  lemma CreateRecords(digest: string -> string, m: MetaState, account: string, input: MetaInput)
    ensures var (m', r) := Create(digest, m, account, input);
            var slot := (account, input.columns.name);
            && (r.Ok? <==> exists pixel :: pixel in PixelsOf(m, account) && pixel.id == input.pixelId)
            && (r.Err? ==> r == Err(UnknownPixel) && m' == m)
            && (r.Ok? && slot in m.byName ==> m' == m && r.value == m.byName[slot])
            && (r.Ok? && slot !in m.byName ==>
                  && r.value.pixelId == input.pixelId && r.value.columns == input.columns
                  && r.value.id == "cc_" + digest(account + "|" + input.columns.name)
                  && m'.byName == m.byName[slot := r.value] && m'.byId == m.byId[r.value.id := r.value]
                  && m'.pixels == m.pixels)
  {
    var pixels := PixelsOf(m, account);
    assert HasPixel(m, account, input.pixelId) <==> exists pixel :: pixel in pixels && pixel.id == input.pixelId by {
      if pixel :| pixel in pixels && pixel.id == input.pixelId {
        var i :| 0 <= i < |pixels| && pixels[i] == pixel;
      }
    }
  }

  /** The indexes are in bijection exactly when no two recorded names share a stable id. */
  lemma BijectiveExactly(digest: string -> string, m: MetaState)
    requires Indexed(digest, m)
    ensures Bijective(m) <==>
            forall s, t :: s in m.byName && t in m.byName && StableId(digest, s) == StableId(digest, t) ==> s == t
  {
    if forall s, t :: s in m.byName && t in m.byName && StableId(digest, s) == StableId(digest, t) ==> s == t {
      forall slot | slot in m.byName
        ensures m.byId[m.byName[slot].id] == m.byName[slot]
      {
        var t :| t in m.byName && m.byName[t] == m.byId[m.byName[slot].id];
      }
    } else {
      var s, t :| s in m.byName && t in m.byName && StableId(digest, s) == StableId(digest, t) && s != t;
      assert m.byName[s].id == m.byName[t].id;
    }
  }

  function Recorded(m: MetaState, slot: Slot, conversion: CustomConversion): MetaState {
    m.(byId := m.byId[conversion.id := conversion], byName := m.byName[slot := conversion])
  }

  lemma FreshIdKeeps(m: MetaState, slot: Slot, conversion: CustomConversion)
    requires Bijective(m) && slot !in m.byName && conversion.id !in m.byId
    ensures Bijective(Recorded(m, slot, conversion))
  {
    var m' := Recorded(m, slot, conversion);
    assert m'.byName[slot] in m'.byName.Values;
    forall id | id in m.byId
      ensures m'.byId[id] in m'.byName.Values
    {
      var s :| s in m.byName && m.byName[s] == m.byId[id];
      assert m'.byName[s] == m'.byId[id];
    }
  }

  lemma UsedIdBreaks(m: MetaState, slot: Slot, conversion: CustomConversion)
    requires Bijective(m) && slot !in m.byName && conversion.id in m.byId
    ensures !Bijective(Recorded(m, slot, conversion))
  {
    var m' := Recorded(m, slot, conversion);
    var s :| s in m.byName && m.byName[s] == m.byId[conversion.id];
    assert m'.byName[s].id == m'.byName[slot].id && s != slot;
  }

  /** The guard that the adapter does not have: one more creation keeps the bijection exactly
      when it records nothing or its id is not in use. */
  lemma CreateKeepsBijection(digest: string -> string, m: MetaState, account: string, input: MetaInput)
    requires Bijective(m)
    ensures var slot := (account, input.columns.name);
            Bijective(Create(digest, m, account, input).0) <==>
              !HasPixel(m, account, input.pixelId) || slot in m.byName || StableId(digest, slot) !in m.byId
  {
    var slot := (account, input.columns.name);
    var conversion := CustomConversion(StableId(digest, slot), input.pixelId, input.columns);
    if slot !in m.byName {
      if conversion.id in m.byId {
        UsedIdBreaks(m, slot, conversion);
      } else {
        FreshIdKeeps(m, slot, conversion);
      }
    }
  }

  /** In particular for accounts without "|", as long as the digest does not collide. */
  lemma NoBarBijective(digest: string -> string, m: MetaState)
    requires Indexed(digest, m)
    requires forall s :: s in m.byName ==> NoBar(s.0)
    requires forall s, t :: s in m.byName && t in m.byName ==> Separates(digest, s, t)
    ensures Bijective(m)
  {
    forall s, t | s in m.byName && t in m.byName
      ensures StableId(digest, s) == StableId(digest, t) ==> s == t
    {
      StableIdInjective(digest, s, t);
    }
    BijectiveExactly(digest, m);
  }

  const TWO_ACCOUNTS := MetaState(map["a" := [MetaPixel("p", "", "")], "a|b" := [MetaPixel("p", "", "")]], map[], map[])

  lemma BothHavePixel(m: MetaState)
    requires m.pixels == TWO_ACCOUNTS.pixels
    ensures HasPixel(m, "a", "p") && HasPixel(m, "a|b", "p")
  {
    assert PixelsOf(m, "a")[0].id == "p" && PixelsOf(m, "a|b")[0].id == "p";
  }

  lemma SharedId(digest: string -> string)
    ensures StableId(digest, ("a", "b|c")) == StableId(digest, ("a|b", "c")) && "a" != "a|b"
  {
    assert "a" + "|" + "b|c" == "a|b" + "|" + "c";
  }

  /** A "|" in an account id breaks it, whatever the digest: two names end up under one id. */
  lemma BarBreaksBijection(digest: string -> string, columns: Columns)
    ensures var (m1, r1) := Create(digest, TWO_ACCOUNTS, "a", MetaInput("p", columns.(name := "b|c")));
            var (m2, r2) := Create(digest, m1, "a|b", MetaInput("p", columns.(name := "c")));
            && Indexed(digest, m2)
            && r1.Ok? && r2.Ok? && r1.value != r2.value && r1.value.id == r2.value.id
            && !Bijective(m2)
  {
    var input1, input2 := MetaInput("p", columns.(name := "b|c")), MetaInput("p", columns.(name := "c"));
    var m1 := Create(digest, TWO_ACCOUNTS, "a", input1).0;
    var m2 := Create(digest, m1, "a|b", input2).0;
    BothHavePixel(TWO_ACCOUNTS);
    CreateKeeps(digest, TWO_ACCOUNTS, "a", input1);
    BothHavePixel(m1);
    CreateKeeps(digest, m1, "a|b", input2);
    SharedId(digest);
    var s, t := ("a", "b|c"), ("a|b", "c");
    assert s in m2.byName && t in m2.byName && m2.byName[s].id == m2.byName[t].id;
  }
}
