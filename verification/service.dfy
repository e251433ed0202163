/** `LLMService`: the ordered registry of providers, the list of available
    ones, lookup by id, and dispatch of a generation request. */
module Service {
  import opened Wrappers
  import opened Reply
  import opened Providers

  /** One `key: provider` item of the `providers` dict. */
  datatype Entry = Entry(key: string, provider: Provider)

  /** The service; `providers` keeps the dict's insertion order. */
  datatype Service = Service(providers: seq<Entry>)

  /** One item of `get_available_providers`' result. */
  datatype ProviderSummary = ProviderSummary(id: string, name: string, models: seq<ModelInfo>)

  /** A dict never holds a key twice. */
  predicate UniqueKeys(entries: seq<Entry>) {
    forall i, j :: 0 <= i < j < |entries| ==> entries[i].key != entries[j].key
  }

  /** `LLMService.__init__`: openai, anthropic and gemini, in that order. */
  function NewService(env: Environment): (s: Service)
    ensures UniqueKeys(s.providers)
  {
    Service([
      Entry("openai", NewProvider(OpenAI, env)),
      Entry("anthropic", NewProvider(Anthropic, env)),
      Entry("gemini", NewProvider(Gemini, env))])
  }

  function Summarize(e: Entry): ProviderSummary {
    ProviderSummary(e.key, Name(e.provider.kind), Models(e.provider.kind))
  }

  // ---------------------------------------------------------------------
  // get_available_providers

  /** Reference definition: the summaries of the available entries, in
      registry order. */
  function AvailableSummaries(entries: seq<Entry>): seq<ProviderSummary>
    decreases |entries|
  {
    if |entries| == 0 then []
    else
      var n := |entries| - 1;
      AvailableSummaries(entries[..n])
        + (if IsAvailable(entries[n].provider) then [Summarize(entries[n])] else [])
  }

  /** The registry positions of the available entries, in increasing order. */
  function AvailableIndices(entries: seq<Entry>): (idx: seq<nat>)
    ensures forall j :: 0 <= j < |idx| ==> idx[j] < |entries| && IsAvailable(entries[idx[j]].provider)
    ensures forall j, k :: 0 <= j < k < |idx| ==> idx[j] < idx[k]
    ensures forall i :: 0 <= i < |entries| && IsAvailable(entries[i].provider) ==> i in idx
    decreases |entries|
  {
    if |entries| == 0 then []
    else
      var n := |entries| - 1;
      AvailableIndices(entries[..n]) + (if IsAvailable(entries[n].provider) then [n] else [])
  }

  /** The available summaries are exactly the summaries of the entries at
      the available positions, taken in increasing order. */
  lemma {:induction false} AvailableSummariesIndexed(entries: seq<Entry>)
    ensures |AvailableSummaries(entries)| == |AvailableIndices(entries)|
    ensures forall j :: 0 <= j < |AvailableIndices(entries)| ==>
      AvailableSummaries(entries)[j] == Summarize(entries[AvailableIndices(entries)[j]])
    decreases |entries|
  {
    if |entries| > 0 {
      var n := |entries| - 1;
      AvailableSummariesIndexed(entries[..n]);
      var idx := AvailableIndices(entries);
      var prev := AvailableIndices(entries[..n]);
      forall j | 0 <= j < |idx|
        ensures AvailableSummaries(entries)[j] == Summarize(entries[idx[j]])
      {
        if j < |prev| {
          assert idx[j] == prev[j];
          assert entries[..n][prev[j]] == entries[prev[j]];
        }
      }
    }
  }

  /** `get_available_providers`, with its loop over the registry. */
  method GetAvailableProviders(s: Service) returns (available: seq<ProviderSummary>)
    ensures available == AvailableSummaries(s.providers)
  {
    available := [];
    var i := 0;
    while i < |s.providers|
      invariant 0 <= i <= |s.providers|
      invariant available == AvailableSummaries(s.providers[..i])
    {
      var e := s.providers[i];
      assert s.providers[..i + 1][..i] == s.providers[..i];
      if IsAvailable(e.provider) {
        available := available + [Summarize(e)];
      }
      i := i + 1;
    }
    assert s.providers[..i] == s.providers;
  }

  // ---------------------------------------------------------------------
  // get_provider

  /** `self.providers.get(key)`. */
  function Lookup(entries: seq<Entry>, key: string): (found: Option<Provider>)
    ensures found.Some? ==> exists i :: 0 <= i < |entries| && entries[i] == Entry(key, found.value)
    ensures found.None? ==> forall i :: 0 <= i < |entries| ==> entries[i].key != key
    decreases |entries|
  {
    if |entries| == 0 then None
    else if entries[0].key == key then Some(entries[0].provider)
    else
      var rest := Lookup(entries[1..], key);
      assert rest.Some? ==> exists i :: 0 <= i < |entries| && entries[i] == Entry(key, rest.value) by {
        if rest.Some? {
          var i :| 0 <= i < |entries[1..]| && entries[1..][i] == Entry(key, rest.value);
          assert entries[i + 1] == Entry(key, rest.value);
        }
      }
      rest
  }

  /** `get_provider`: the registered provider, and only when it is available. */
  function GetProvider(s: Service, providerId: string): (provider: Option<Provider>)
    ensures provider.Some? ==> IsAvailable(provider.value) && Entry(providerId, provider.value) in s.providers
  {
    match Lookup(s.providers, providerId)
    case Some(p) => if IsAvailable(p) then Some(p) else None
    case None => None
  }

  /** An id has a provider exactly when it is registered and its provider is
      available. */
  lemma GetProviderSpec(s: Service, providerId: string)
    requires UniqueKeys(s.providers)
    ensures GetProvider(s, providerId).Some? <==>
      exists i :: 0 <= i < |s.providers| && s.providers[i].key == providerId
        && IsAvailable(s.providers[i].provider)
  {
  }

  /** `get_available_providers` lists an id exactly when `get_provider`
      finds a provider for it. */
  lemma AvailableListingMatchesLookup(s: Service, providerId: string)
    requires UniqueKeys(s.providers)
    ensures (exists j :: 0 <= j < |AvailableSummaries(s.providers)|
              && AvailableSummaries(s.providers)[j].id == providerId)
            <==> GetProvider(s, providerId).Some?
  {
    var entries := s.providers;
    var summaries := AvailableSummaries(entries);
    var idx := AvailableIndices(entries);
    AvailableSummariesIndexed(entries);
    GetProviderSpec(s, providerId);
    if j :| 0 <= j < |summaries| && summaries[j].id == providerId {
      assert entries[idx[j]].key == providerId;
    }
    if i :| 0 <= i < |entries| && entries[i].key == providerId && IsAvailable(entries[i].provider) {
      var j :| 0 <= j < |idx| && idx[j] == i;
      assert summaries[j].id == providerId;
    }
  }

  /** With the fixed registry, the listing is the available providers among
      openai, anthropic and gemini, in that order. */
  lemma NewServiceListing(env: Environment)
    ensures AvailableSummaries(NewService(env).providers) ==
      (if IsAvailable(NewProvider(OpenAI, env))
         then [ProviderSummary("openai", "OpenAI", Models(OpenAI))] else [])
      + (if IsAvailable(NewProvider(Anthropic, env))
         then [ProviderSummary("anthropic", "Anthropic", Models(Anthropic))] else [])
      + (if IsAvailable(NewProvider(Gemini, env))
         then [ProviderSummary("gemini", "Google", Models(Gemini))] else [])
  {
    var entries := NewService(env).providers;
    var a, b, g := entries[0], entries[1], entries[2];
    assert entries[..1] == [a] && [a][..0] == [];
    assert entries[..2] == [a, b] && [a, b][..1] == [a];
    assert entries == [a, b, g] && [a, b, g][..2] == [a, b];
    assert AvailableSummaries([a]) == (if IsAvailable(a.provider) then [Summarize(a)] else []);
    assert AvailableSummaries([a, b]) == AvailableSummaries([a])
      + (if IsAvailable(b.provider) then [Summarize(b)] else []);
  }

  // ---------------------------------------------------------------------
  // generate

  /** The `ValueError` message for an unknown or unavailable provider. */
  function NotAvailableMessage(providerId: string): string {
    "Provider '" + providerId + "' is not available"
  }

  /** `LLMService.generate`: raises when `get_provider` finds nothing,
      otherwise delegates to the provider. */
  function Generate(s: Service, decode: Decoder, complete: Completion,
                    message: string, providerId: string, model: string): (r: Result<Json, string>)
    ensures r.Failure? <==> GetProvider(s, providerId).None?
    ensures r.Failure? ==> r.error == NotAvailableMessage(providerId)
    ensures r.Success? ==> exists p :: (Entry(providerId, p) in s.providers && IsAvailable(p)
                                        && r.value == Providers.Generate(p, decode, complete, message, model))
  {
    match GetProvider(s, providerId)
    case None => Failure(NotAvailableMessage(providerId))
    case Some(p) => Success(Providers.Generate(p, decode, complete, message, model))
  }

  /** On a dict-shaped registry, `generate` raises exactly for ids that are
      unregistered or whose provider has no usable key. */
  lemma GenerateFailsIffUnavailable(s: Service, decode: Decoder, complete: Completion,
                                    message: string, providerId: string, model: string)
    requires UniqueKeys(s.providers)
    ensures Generate(s, decode, complete, message, providerId, model).Failure? <==>
      forall i :: 0 <= i < |s.providers| && s.providers[i].key == providerId ==>
        !IsAvailable(s.providers[i].provider)
  {
    GetProviderSpec(s, providerId);
  }
}
