/** The adapter object of app/integrations/meta/mock_adapter.py, called by one thread. */
module MockAdapter {
  import opened Prelude
  import opened Domain
  import opened MetaAdapter
  import opened FaultInjection

  class MockMetaAdapter {
    const digest: string -> string
    const settings: Settings
    var pixels: map<string, seq<MetaPixel>>
    var conversions: map<string, CustomConversion>
    var conversionsByName: map<Slot, CustomConversion>
    var callCounter: nat

    function State(): MetaState
      reads this
    {
      MetaState(pixels, conversions, conversionsByName)
    }

    constructor (digest: string -> string, rateLimitEvery: int, failRate: real)
      ensures this.digest == digest && settings == Settings(rateLimitEvery, failRate)
      ensures State() == MetaState(map[], map[], map[]) && callCounter == 0
    {
      this.digest := digest;
      settings := Settings(rateLimitEvery, failRate);
      pixels, conversions, conversionsByName, callCounter := map[], map[], map[], 0;
    }

    method SeedPixels(account: string, seeded: seq<MetaPixel>)
      modifies this`pixels
      ensures pixels == old(pixels)[account := seeded]
    {
      pixels := pixels[account := seeded];
    }

    method MaybeFail() returns (failed: bool)
      modifies this`callCounter
      ensures callCounter == old(callCounter) + 1
      ensures failed == settings.Faulted(callCounter)
    {
      callCounter := callCounter + 1;
      var counter := callCounter;
      if settings.rateLimitEvery != 0 && counter % settings.rateLimitEvery == 0 {
        return true;
      }
      if settings.failRate > 0.0 {
        var threshold := settings.Threshold();
        if counter % threshold == 0 {
          return true;
        }
      }
      failed := false;
    }

    method ListPixels(account: string) returns (r: Result<seq<MetaPixel>, MetaError>)
      modifies this`callCounter
      ensures callCounter == old(callCounter) + 1
      ensures r == if settings.Faulted(callCounter) then Err(RateLimited) else Ok(PixelsOf(State(), account))
      ensures r.Ok? ==> r.value == if account in pixels then pixels[account] else []
    {
      var failed := MaybeFail();
      if failed {
        return Err(RateLimited);
      }
      r := Ok(PixelsOf(State(), account));
    }

    method CreateCustomConversion(account: string, input: MetaInput)
      returns (r: Result<CustomConversion, MetaError>)
      modifies this
      ensures callCounter == old(callCounter) + 1
      ensures if settings.Faulted(callCounter)
              then State() == old(State()) && r == Err(RateLimited)
              else (State(), r) == Create(digest, old(State()), account, input)
    {
      var failed := MaybeFail();
      if failed {
        return Err(RateLimited);
      }
      if !HasPixel(State(), account, input.pixelId) {
        return Err(UnknownPixel);
      }
      var slot := (account, input.columns.name);
      if slot in conversionsByName {
        return Ok(conversionsByName[slot]);
      }
      var conversion := CustomConversion(StableId(digest, slot), input.pixelId, input.columns);
      conversions := conversions[conversion.id := conversion];
      conversionsByName := conversionsByName[slot := conversion];
      r := Ok(conversion);
    }
  }
}
