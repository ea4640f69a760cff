/** The model catalogue, its load-time validation and indexes (src/adapters/config/local_model_catalogue.py),
    and alias resolution (src/adapters/common/model_resolution.py). */
module Catalogue {
  import opened Domain

  datatype Catalogue = Catalogue(
    models: seq<Model>,
    byAlias: map<string, Model>,
    byCapability: map<string, seq<Model>>)
  {
    function GetByAlias(alias: string): Option<Model> {
      if alias in byAlias then Some(byAlias[alias]) else None
    }

    function FindByCapability(tag: string): seq<Model> {
      if tag in byCapability then byCapability[tag] else []
    }
  }

  // ---- Reference definitions, by linear scan ----

  function ScanAlias(models: seq<Model>, alias: string): Option<Model> {
    if models == [] then None
    else if models[0].alias == alias then Some(models[0])
    else ScanAlias(models[1..], alias)
  }

  function Occurrences(tags: seq<string>, tag: string): nat
    decreases |tags|
  {
    if tags == [] then 0
    else Occurrences(tags[..|tags| - 1], tag) + (if tags[|tags| - 1] == tag then 1 else 0)
  }

  function Copies(m: Model, n: nat): (r: seq<Model>)
    ensures |r| == n && forall i | 0 <= i < n :: r[i] == m
  {
    if n == 0 then [] else Copies(m, n - 1) + [m]
  }

  /** One entry per declared occurrence of the tag, in catalogue order. */
  function Tagged(models: seq<Model>, tag: string): seq<Model>
    decreases |models|
  {
    if models == [] then []
    else
      var last := models[|models| - 1];
      Tagged(models[..|models| - 1], tag) + Copies(last, Occurrences(last.capabilities.tags, tag))
  }

  /** The models that declare the tag, in catalogue order. */
  function Filtered(models: seq<Model>, tag: string): seq<Model>
    decreases |models|
  {
    if models == [] then []
    else
      var last := models[|models| - 1];
      Filtered(models[..|models| - 1], tag) + (if tag in last.capabilities.tags then [last] else [])
  }

  predicate UniqueAliases(models: seq<Model>) {
    forall i, j | 0 <= i < j < |models| :: models[i].alias != models[j].alias
  }

  /** No router alias targets a catalogued model of another provider. */
  predicate RouterTargetsAgree(models: seq<Model>) {
    forall i, j | 0 <= i < |models| && 0 <= j < |models| && models[i].resolution.kind.RouterAlias? &&
                  models[j].alias == models[i].resolution.value :: models[i].provider == models[j].provider
  }

  ghost predicate IndexedByAlias(models: seq<Model>, byAlias: map<string, Model>) {
    && (forall i | 0 <= i < |models| :: models[i].alias in byAlias)
    && (forall alias | alias in byAlias :: byAlias[alias] in models && byAlias[alias].alias == alias)
  }

  function Lookup(index: map<string, seq<Model>>, tag: string): seq<Model> {
    if tag in index then index[tag] else []
  }

  lemma UniqueExtends(models: seq<Model>, n: nat)
    requires n < |models| && UniqueAliases(models[..n])
    requires forall i | 0 <= i < n :: models[i].alias != models[n].alias
    ensures UniqueAliases(models[..n + 1])
  {
    var longer := models[..n + 1];
    assert forall i | 0 <= i < n :: longer[i] == models[..n][i];
  }

  /** Loading: `None` is the configuration error. */
  method Load(models: seq<Model>) returns (r: Option<Catalogue>)
    ensures r.Some? <==> UniqueAliases(models) && RouterTargetsAgree(models)
    ensures r.Some? ==> r.value.models == models
    ensures r.Some? ==> IndexedByAlias(models, r.value.byAlias)
    ensures r.Some? ==> forall tag :: r.value.FindByCapability(tag) == Tagged(models, tag)
  {
    var byAlias: map<string, Model> := map[];
    var n := 0;
    while n < |models|
      invariant n <= |models| && UniqueAliases(models[..n])
      invariant forall i | 0 <= i < n :: models[i].alias in byAlias
      invariant forall alias | alias in byAlias :: byAlias[alias] in models[..n] && byAlias[alias].alias == alias
    {
      if models[n].alias in byAlias {
        assert byAlias[models[n].alias] in models[..n];
        return None;
      }
      UniqueExtends(models, n);
      byAlias := byAlias[models[n].alias := models[n]];
      assert models[..n + 1] == models[..n] + [models[n]];
      n := n + 1;
    }
    assert models[..n] == models;
    var agree := CheckRouters(models, byAlias);
    if !agree {
      return None;
    }
    var byCapability := IndexCapabilities(models);
    return Some(Catalogue(models, byAlias, byCapability));
  }

  method CheckRouters(models: seq<Model>, byAlias: map<string, Model>) returns (agree: bool)
    requires UniqueAliases(models) && IndexedByAlias(models, byAlias)
    ensures agree <==> RouterTargetsAgree(models)
  {
    for n := 0 to |models|
      invariant forall i, j | 0 <= i < n && 0 <= j < |models| && models[i].resolution.kind.RouterAlias? &&
                              models[j].alias == models[i].resolution.value :: models[i].provider == models[j].provider
    {
      var m := models[n];
      if m.resolution.kind == RouterAlias && m.resolution.value in byAlias {
        var target := byAlias[m.resolution.value];
        assert target in models;
        if target.provider != m.provider {
          return false;
        }
      }
    }
    return true;
  }

  /** The nested loops that build the capability index in place. */
  method IndexCapabilities(models: seq<Model>) returns (index: map<string, seq<Model>>)
    ensures forall tag :: Lookup(index, tag) == Tagged(models, tag)
  {
    index := map[];
    for n := 0 to |models|
      invariant forall tag :: Lookup(index, tag) == Tagged(models[..n], tag)
    {
      index := AppendUnderTags(index, models[n]);
      assert models[..n + 1][..n] == models[..n];
    }
    assert models[..|models|] == models;
  }

  method AppendUnderTags(initial: map<string, seq<Model>>, m: Model) returns (index: map<string, seq<Model>>)
    ensures Grown(initial, index, m, m.capabilities.tags)
  {
    index := initial;
    var tags := m.capabilities.tags;
    for k := 0 to |tags|
      invariant Grown(initial, index, m, tags[..k])
    {
      OneMoreTag(initial, index, m, tags, k);
      index := index[tags[k] := Lookup(index, tags[k]) + [m]];
    }
    assert tags[..|tags|] == tags;
  }

  /** `m` has been appended once under each of `tags`. */
  ghost predicate Grown(initial: map<string, seq<Model>>, index: map<string, seq<Model>>, m: Model, tags: seq<string>) {
    forall tag :: Lookup(index, tag) == Lookup(initial, tag) + Copies(m, Occurrences(tags, tag))
  }

  lemma OneMoreTag(initial: map<string, seq<Model>>, index: map<string, seq<Model>>, m: Model, tags: seq<string>, k: nat)
    requires k < |tags| && Grown(initial, index, m, tags[..k])
    ensures Grown(initial, index[tags[k] := Lookup(index, tags[k]) + [m]], m, tags[..k + 1])
  {
    var next := index[tags[k] := Lookup(index, tags[k]) + [m]];
    forall tag ensures Lookup(next, tag) == Lookup(initial, tag) + Copies(m, Occurrences(tags[..k + 1], tag)) {
      AppendedUnder(initial, index, m, tags, k, tag);
    }
  }

  lemma AppendedUnder(initial: map<string, seq<Model>>, index: map<string, seq<Model>>, m: Model, tags: seq<string>, k: nat,
                      tag: string)
    requires k < |tags| && Lookup(index, tag) == Lookup(initial, tag) + Copies(m, Occurrences(tags[..k], tag))
    ensures Lookup(index[tags[k] := Lookup(index, tags[k]) + [m]], tag) ==
            Lookup(initial, tag) + Copies(m, Occurrences(tags[..k + 1], tag))
  {
    OccurrencesExtend(tags, k, tag);
    OneMoreCopy(Lookup(initial, tag), m, Occurrences(tags[..k], tag));
  }

  lemma OccurrencesExtend(tags: seq<string>, k: nat, tag: string)
    requires k < |tags|
    ensures Occurrences(tags[..k + 1], tag) == Occurrences(tags[..k], tag) + if tags[k] == tag then 1 else 0
  {
    assert tags[..k + 1][..k] == tags[..k];
  }

  lemma OneMoreCopy(before: seq<Model>, m: Model, n: nat)
    ensures before + Copies(m, n + 1) == before + Copies(m, n) + [m]
  {
  }

  /** Alias lookup is the linear scan. */
  lemma AliasLookupIsScan(models: seq<Model>, byAlias: map<string, Model>, alias: string)
    requires UniqueAliases(models) && IndexedByAlias(models, byAlias)
    ensures ScanAlias(models, alias) == if alias in byAlias then Some(byAlias[alias]) else None
  {
    ScanFindsFirst(models, alias);
  }

  lemma {:induction false} ScanFindsFirst(models: seq<Model>, alias: string)
    ensures ScanAlias(models, alias).None? <==> forall i | 0 <= i < |models| :: models[i].alias != alias
    ensures ScanAlias(models, alias).Some? ==> ScanAlias(models, alias).value in models && ScanAlias(models, alias).value.alias == alias
  {
    if models != [] {
      ScanFindsFirst(models[1..], alias);
      assert models == [models[0]] + models[1..];
    }
  }

  lemma {:induction false} OccursIffMember(tags: seq<string>, tag: string)
    ensures 0 < Occurrences(tags, tag) <==> tag in tags
    decreases |tags|
  {
    if tags != [] {
      OccursIffMember(tags[..|tags| - 1], tag);
      assert tags == tags[..|tags| - 1] + [tags[|tags| - 1]];
    }
  }

  lemma {:induction false} TaggedAtLeastFiltered(models: seq<Model>, tag: string)
    ensures |Filtered(models, tag)| <= |Tagged(models, tag)|
    decreases |models|
  {
    if models != [] {
      var last := models[|models| - 1];
      TaggedAtLeastFiltered(models[..|models| - 1], tag);
      OccursIffMember(last.capabilities.tags, tag);
    }
  }

  lemma {:induction false} TaggedWithoutRepeats(models: seq<Model>, tag: string)
    requires forall i | 0 <= i < |models| :: Occurrences(models[i].capabilities.tags, tag) <= 1
    ensures Tagged(models, tag) == Filtered(models, tag)
    decreases |models|
  {
    if models != [] {
      var last := models[|models| - 1];
      TaggedWithoutRepeats(models[..|models| - 1], tag);
      OccursIffMember(last.capabilities.tags, tag);
      assert Copies(last, Occurrences(last.capabilities.tags, tag)) == if tag in last.capabilities.tags then [last] else [];
    }
  }

  lemma {:induction false} RepeatedTagIsLonger(models: seq<Model>, tag: string, i: nat)
    requires i < |models| && 1 < Occurrences(models[i].capabilities.tags, tag)
    ensures |Filtered(models, tag)| < |Tagged(models, tag)|
    decreases |models|
  {
    var front, last := models[..|models| - 1], models[|models| - 1];
    OccursIffMember(last.capabilities.tags, tag);
    if i < |front| {
      RepeatedTagIsLonger(front, tag, i);
    } else {
      TaggedAtLeastFiltered(front, tag);
    }
  }

  /** Capability lookup is the in-order filter if and only if no model repeats the tag. */
  lemma CapabilityLookupIsFilterIff(models: seq<Model>, tag: string)
    ensures Tagged(models, tag) == Filtered(models, tag)
            <==> forall i | 0 <= i < |models| :: Occurrences(models[i].capabilities.tags, tag) <= 1
  {
    if i :| 0 <= i < |models| && 1 < Occurrences(models[i].capabilities.tags, tag) {
      RepeatedTagIsLonger(models, tag, i);
    } else {
      TaggedWithoutRepeats(models, tag);
    }
  }

  lemma {:induction false} TaggedMembers(models: seq<Model>, tag: string, m: Model)
    ensures m in Tagged(models, tag) <==> m in models && tag in m.capabilities.tags
    decreases |models|
  {
    if models != [] {
      var front, last := models[..|models| - 1], models[|models| - 1];
      assert models == front + [last];
      TaggedMembers(front, tag, m);
      OccursIffMember(last.capabilities.tags, tag);
      var copies := Copies(last, Occurrences(last.capabilities.tags, tag));
      assert tag in last.capabilities.tags ==> copies[0] == last;
    }
  }

  // ---- Resolution ----

  datatype Resolved<T> = Ok(value: T) | Failed(category: ErrorCategory)

  function ResolveModel(alias: string, c: Catalogue): Resolved<Model> {
    match c.GetByAlias(alias)
    case Some(m) => Ok(m)
    case None => Failed(Permanent)
  }

  /** One bounded hop: a router alias must reach a catalogued, non-router entry. */
  function ResolveTarget(m: Model, c: Catalogue): Resolved<string> {
    if !m.resolution.kind.RouterAlias? then Ok(m.resolution.value)
    else
      match c.GetByAlias(m.resolution.value)
      case None => Failed(Permanent)
      case Some(target) => if target.resolution.kind.RouterAlias? then Failed(Permanent) else Ok(target.resolution.value)
  }

  function CheckCapabilities(request: ProviderRequest, m: Model): Resolved<()> {
    if request.requiresToolUse && !m.capabilities.supportsToolUse then Failed(Permanent)
    else if request.requiresStructuredOutput && !m.capabilities.supportsStructuredOutput then Failed(Permanent)
    else Ok(())
  }

  /** The provider whose adapter handles an alias, when one is registered. */
  function DispatchedProvider(alias: string, c: Catalogue, registered: set<ProviderName>): Resolved<ProviderName> {
    match ResolveModel(alias, c)
    case Failed(category) => Failed(category)
    case Ok(m) => if m.provider in registered then Ok(m.provider) else Failed(Permanent)
  }

  ghost predicate Loaded(c: Catalogue) {
    && UniqueAliases(c.models) && RouterTargetsAgree(c.models) && IndexedByAlias(c.models, c.byAlias)
    && (forall tag :: c.FindByCapability(tag) == Tagged(c.models, tag))
  }

  /** The index finds each catalogued model under its own alias. */
  lemma IndexFindsModel(c: Catalogue, m: Model)
    requires Loaded(c) && m in c.models
    ensures c.GetByAlias(m.alias) == Some(m)
  {
    var i :| 0 <= i < |c.models| && c.models[i] == m;
    var found := c.byAlias[c.models[i].alias];
    var j :| 0 <= j < |c.models| && c.models[j] == found;
  }

  /** An alias resolves exactly when it is catalogued, and then to its model. */
  lemma ResolvesIffCatalogued(c: Catalogue, alias: string)
    requires Loaded(c)
    ensures ResolveModel(alias, c).Ok? <==> exists m :: m in c.models && m.alias == alias
    ensures forall m | m in c.models && m.alias == alias :: ResolveModel(alias, c) == Ok(m)
  {
    forall m | m in c.models && m.alias == alias ensures ResolveModel(alias, c) == Ok(m) {
      IndexFindsModel(c, m);
    }
  }

  /** A model's identifier resolves exactly when it is no router, or routes to a catalogued model that is none;
      and then it is that entry's own value. Every failure is PERMANENT. */
  lemma TargetResolvesIff(c: Catalogue, m: Model)
    requires Loaded(c)
    ensures ResolveTarget(m, c).Ok? <==>
            || m.resolution.kind != RouterAlias
            || exists target :: target in c.models && target.alias == m.resolution.value && target.resolution.kind != RouterAlias
    ensures m.resolution.kind != RouterAlias ==> ResolveTarget(m, c) == Ok(m.resolution.value)
    ensures forall target | m.resolution.kind == RouterAlias && target in c.models && target.alias == m.resolution.value &&
                            target.resolution.kind != RouterAlias :: ResolveTarget(m, c) == Ok(target.resolution.value)
    ensures ResolveTarget(m, c).Failed? ==> ResolveTarget(m, c).category == Permanent
  {
    forall target | target in c.models && target.alias == m.resolution.value ensures c.GetByAlias(m.resolution.value) == Some(target) {
      IndexFindsModel(c, target);
    }
  }

  /** The capability check passes exactly when the model supports what the request needs. */
  lemma CheckPassesIff(request: ProviderRequest, m: Model)
    ensures CheckCapabilities(request, m).Ok? <==>
            && (request.requiresToolUse ==> m.capabilities.supportsToolUse)
            && (request.requiresStructuredOutput ==> m.capabilities.supportsStructuredOutput)
  {
  }

  /** Dispatch succeeds exactly for catalogued models of a registered provider. */
  lemma DispatchesIff(c: Catalogue, alias: string, registered: set<ProviderName>, provider: ProviderName)
    requires Loaded(c)
    ensures DispatchedProvider(alias, c, registered) == Ok(provider) <==>
            provider in registered && exists m :: m in c.models && m.alias == alias && m.provider == provider
  {
    ResolvesIffCatalogued(c, alias);
  }

  /** Whatever identifier an adapter sends is the value of a non-router entry of the dispatched
      provider, reached in at most one hop. */
  lemma IdentifierBelongsToDispatchedProvider(c: Catalogue, alias: string, registered: set<ProviderName>)
    requires Loaded(c) && DispatchedProvider(alias, c, registered).Ok?
    requires ResolveTarget(ResolveModel(alias, c).value, c).Ok?
    ensures exists entry :: && entry in c.models && !entry.resolution.kind.RouterAlias?
                            && entry.resolution.value == ResolveTarget(ResolveModel(alias, c).value, c).value
                            && entry.provider == DispatchedProvider(alias, c, registered).value
                            && (entry.alias == alias || entry.alias == ResolveModel(alias, c).value.resolution.value)
  {
  }
}
