/** What it takes for a region to qualify, told from the configuration and the live answers. */
module Requirements {
  import opened Wrappers
  import opened Sorting
  import opened Regions

  /** Named in a list, whatever the case of either. */
  ghost predicate Listed(w: World, name: string, names: set<string>) {
    exists n :: n in names && w.lower(n) == w.lower(name)
  }

  ghost predicate AllowedToStore(w: World, cfg: Config, f: Facts) {
    && !Listed(w, f.geography, cfg.blocked)
    && (cfg.groups == {} || Listed(w, f.geographyGroup, cfg.groups))
    && (cfg.geographies == {} || Listed(w, f.geography, cfg.geographies))
  }

  ghost predicate Reliable(cfg: Config, f: Facts) {
    (cfg.requirePair ==> |f.pairedRegions| > 0) && cfg.minZones <= f.zones
  }

  ghost predicate NearEnough(w: World, cfg: Config, f: Facts) {
    cfg.latency.Some? && cfg.latency.value.maxKm.Some? ==> w.distance(f) <= cfg.latency.value.maxKm.value
  }

  ghost predicate Creatable(w: World, t: TypeSpec, f: Facts) {
    exists place :: place in w.locations(t) && (place == w.normalise(f.displayName) || place == w.normalise(f.name))
  }

  /** Where a capability is documented: on its own list, or on that of the one it derives from. */
  ghost predicate DocumentedIn(w: World, id: string, region: string) {
    id in w.matrix &&
    match w.matrix[id].derivesFrom
    case None => region in w.matrix[id].regions
    case Some(source) => source in w.matrix && region in w.matrix[source].regions
  }

  ghost predicate Capable(w: World, id: string, f: Facts) {
    && (exists region :: DocumentedIn(w, id, region) && w.normalise(region) == w.normalise(f.displayName))
    && (id in w.matrix ==>
          forall region :: region in w.matrix[id].excluded ==> w.normalise(region) != w.normalise(f.displayName))
  }

  /** Some model on offer has the name, the life-cycle and the deployment type asked for. */
  ghost predicate ModelOffered(w: World, spec: ModelSpec, f: Facts) {
    w.models(f.name).Some? &&
    exists m :: m in w.models(f.name).value && spec.pattern(m.name)
                && (spec.lifecycles == {} || m.lifecycle in spec.lifecycles)
                && (spec.sku == "" || spec.sku in m.skus)
  }

  /** What is free of the quotas a specification names. */
  ghost predicate EnoughQuota(w: World, spec: QuotaSpec, f: Facts) {
    spec.minimum <= if w.usage(f.name).Some? then Headroom(w.usage(f.name).value, spec) else 0.0
  }

  /** The free units are summed over the named quotas, one row at a time. */
  lemma {:induction false} HeadroomAddsUp(rows: seq<Usage>, row: Usage, spec: QuotaSpec)
    ensures Headroom([], spec) == 0.0
    ensures Headroom(rows + [row], spec)
         == Headroom(rows, spec) + if spec.pattern(row.name) then row.limit - row.current else 0.0
  {
    if rows == [] {
      assert [] + [row] == [row] && [row][1..] == [];
    } else {
      assert (rows + [row])[1..] == rows[1..] + [row];
      HeadroomAddsUp(rows[1..], row, spec);
    }
  }

  /** And over the specifications, for the figure a region is ranked by. */
  lemma {:induction false} TotalHeadroomAddsUp(rows: seq<Usage>, spec: QuotaSpec, specs: seq<QuotaSpec>)
    ensures TotalHeadroom(rows, []) == 0.0
    ensures TotalHeadroom(rows, [spec] + specs) == Headroom(rows, spec) + TotalHeadroom(rows, specs)
  {
    hide Headroom;
    if specs == [] {
      assert [spec] + specs == [spec] && [spec][..0] == [];
    } else {
      assert ([spec] + specs)[..|specs|] == [spec] + specs[..|specs| - 1];
      TotalHeadroomAddsUp(rows, spec, specs[..|specs| - 1]);
    }
  }

  ghost predicate Suitable(w: World, cfg: Config, f: Facts) {
    && AllowedToStore(w, cfg, f) && Reliable(cfg, f) && NearEnough(w, cfg, f)
    && (forall t :: t in cfg.types ==> Creatable(w, t, f))
    && (forall id :: id in cfg.capabilities ==> Capable(w, id, f))
    && (forall m :: m in cfg.models ==> ModelOffered(w, m, f))
    && (forall q :: q in cfg.quotas ==> EnoughQuota(w, q, f))
  }

  // ----------------------------------------------------------- one requirement at a time

  lemma {:induction false} LoweredIsListed(w: World, name: string, names: set<string>)
    ensures Lowered(w, name, names) <==> Listed(w, name, names)
  {
    if n :| n in names && w.lower(n) == w.lower(name) {
      assert w.lower(name) in set n | n in names :: w.lower(n);
    }
  }

  lemma {:induction false} ResidencyMeans(w: World, cfg: Config, f: Facts)
    ensures Meets(w, cfg, NeedResidency, f) <==> AllowedToStore(w, cfg, f)
    ensures Meets(w, cfg, NeedReliability, f) <==> Reliable(cfg, f)
  {
    LoweredIsListed(w, f.geography, cfg.blocked);
    LoweredIsListed(w, f.geographyGroup, cfg.groups);
    LoweredIsListed(w, f.geography, cfg.geographies);
    hide Lowered, Listed;
  }

  lemma {:induction false} CapabilityMeans(w: World, cfg: Config, id: string, f: Facts)
    ensures Meets(w, cfg, NeedCapability(id), f) <==> Capable(w, id, f)
  {
    var key := w.normalise(f.displayName);
    assert key in Allowed(w, id) <==> exists region :: DocumentedIn(w, id, region) && w.normalise(region) == key by {
      AllowedMeans(w, id, key);
    }
    assert key in Excluded(w, id) <==>
             id in w.matrix && exists region :: region in w.matrix[id].excluded && w.normalise(region) == key;
    hide Allowed, Excluded, DocumentedIn;
  }

  lemma {:induction false} AllowedMeans(w: World, id: string, key: string)
    ensures key in Allowed(w, id) <==> exists region :: DocumentedIn(w, id, region) && w.normalise(region) == key
  {
    if key in Allowed(w, id) {
      var cap := w.matrix[id];
      var regions :=
        if cap.derivesFrom.None? then cap.regions
        else if cap.derivesFrom.value in w.matrix then w.matrix[cap.derivesFrom.value].regions
        else [];
      var r :| r in regions && w.normalise(r) == key;
      assert DocumentedIn(w, id, r);
    }
  }

  lemma {:induction false} ModelMeans(w: World, cfg: Config, spec: ModelSpec, f: Facts)
    ensures Meets(w, cfg, NeedModel(spec), f) <==> ModelOffered(w, spec, f)
  {
    if w.models(f.name).Some? {
      forall m
        ensures m in ModelsOf(w, f) && Offers(m, spec) <==>
                  m in w.models(f.name).value && spec.pattern(m.name)
                  && (spec.lifecycles == {} || m.lifecycle in spec.lifecycles) && (spec.sku == "" || spec.sku in m.skus)
      {
      }
    }
  }

  lemma {:induction false} QuotaMeans(w: World, cfg: Config, spec: QuotaSpec, f: Facts)
    ensures Meets(w, cfg, NeedQuota(spec), f) <==> EnoughQuota(w, spec, f)
  {
    assert Headroom([], spec) == 0.0;
  }

  lemma {:induction false} ModelNeedsMembers(specs: seq<ModelSpec>, req: Requirement)
    ensures req in ModelNeeds(specs) <==> req.NeedModel? && req.model in specs
  {
    if specs != [] {
      ModelNeedsMembers(specs[..|specs| - 1], req);
      assert specs == specs[..|specs| - 1] + [specs[|specs| - 1]];
    }
  }

  lemma {:induction false} QuotaNeedsMembers(specs: seq<QuotaSpec>, req: Requirement)
    ensures req in QuotaNeeds(specs) <==> req.NeedQuota? && req.quota in specs
  {
    if specs != [] {
      QuotaNeedsMembers(specs[..|specs| - 1], req);
      assert specs == specs[..|specs| - 1] + [specs[|specs| - 1]];
    }
  }

  lemma {:induction false} TypeNeedsMembers(specs: seq<TypeSpec>, req: Requirement)
    ensures req in TypeNeeds(specs) <==> req.NeedType? && req.typeSpec in specs
  {
    if specs != [] {
      TypeNeedsMembers(specs[..|specs| - 1], req);
      assert specs == specs[..|specs| - 1] + [specs[|specs| - 1]];
    }
  }

  lemma {:induction false} CapabilityNeedsMembers(ids: seq<string>, req: Requirement)
    ensures req in CapabilityNeeds(ids) <==> req.NeedCapability? && req.id in ids
  {
    if ids != [] {
      CapabilityNeedsMembers(ids[..|ids| - 1], req);
      assert ids == ids[..|ids| - 1] + [ids[|ids| - 1]];
    }
  }

  /** Whether a configuration asks for something. */
  ghost predicate Asked(cfg: Config, req: Requirement) {
    match req
    case NeedResidency | NeedReliability => true
    case NeedLatency(rule) => cfg.latency == Some(rule)
    case NeedType(t) => t in cfg.types
    case NeedCapability(id) => id in cfg.capabilities
    case NeedModel(m) => m in cfg.models
    case NeedQuota(q) => q in cfg.quotas
  }

  lemma {:induction false} NeedsMembers(cfg: Config, req: Requirement)
    ensures req in Needs(cfg) <==> Asked(cfg, req)
  {
    TypeNeedsMembers(cfg.types, req);
    CapabilityNeedsMembers(cfg.capabilities, req);
    ModelNeedsMembers(cfg.models, req);
    QuotaNeedsMembers(cfg.quotas, req);
    hide TypeNeeds, CapabilityNeeds, ModelNeeds, QuotaNeeds;
  }

  /** Main result on qualifying: a region qualifies exactly when its geography is allowed, it is
      reliable and near enough, and every resource type, capability, model and quota the
      configuration asks for is there. */
  lemma {:induction false} QualifyingMeans(w: World, cfg: Config, f: Facts)
    ensures Qualifies(w, cfg, f) <==> Suitable(w, cfg, f)
  {
    ResidencyMeans(w, cfg, f);
    hide AllowedToStore, Reliable, Needs, Allowed, Excluded, ResidencyHolds, ReliabilityHolds;
    forall req: Requirement
      ensures req in Needs(cfg) ==> (Meets(w, cfg, req, f) <==> MeetsPlainly(w, cfg, req, f))
    {
      NeedsMembers(cfg, req);
      match req
      case NeedCapability(id) => CapabilityMeans(w, cfg, id, f);
      case NeedModel(m) => ModelMeans(w, cfg, m, f);
      case NeedQuota(q) => QuotaMeans(w, cfg, q, f);
      case NeedType(t) => TypeMeans(w, cfg, t, f);
      case _ =>
    }
    hide Meets;
    NeedsCover(w, cfg, f);
  }

  lemma {:induction false} TypeMeans(w: World, cfg: Config, t: TypeSpec, f: Facts)
    ensures Meets(w, cfg, NeedType(t), f) <==> Creatable(w, t, f)
  {
  }

  ghost predicate MeetsPlainly(w: World, cfg: Config, req: Requirement, f: Facts) {
    match req
    case NeedResidency => AllowedToStore(w, cfg, f)
    case NeedReliability => Reliable(cfg, f)
    case NeedLatency(_) => NearEnough(w, cfg, f)
    case NeedType(t) => Creatable(w, t, f)
    case NeedCapability(id) => Capable(w, id, f)
    case NeedModel(m) => ModelOffered(w, m, f)
    case NeedQuota(q) => EnoughQuota(w, q, f)
  }

  lemma {:induction false} NeedsCover(w: World, cfg: Config, f: Facts)
    ensures (forall req :: req in Needs(cfg) ==> MeetsPlainly(w, cfg, req, f)) <==> Suitable(w, cfg, f)
  {
    hide MeetsPlainly, Suitable, Needs, Asked;
    forall req: Requirement
      ensures req in Needs(cfg) <==> Asked(cfg, req)
    {
      NeedsMembers(cfg, req);
    }
    if forall req :: req in Needs(cfg) ==> MeetsPlainly(w, cfg, req, f) {
      forall req | Asked(cfg, req)
        ensures MeetsPlainly(w, cfg, req, f)
      {
        assert req in Needs(cfg);
      }
      EachIsThere(w, cfg, f);
    }
    if Suitable(w, cfg, f) {
      forall req | req in Needs(cfg)
        ensures MeetsPlainly(w, cfg, req, f)
      {
        AskedIsMet(w, cfg, req, f);
      }
    }
  }

  lemma {:induction false} AskedIsMet(w: World, cfg: Config, req: Requirement, f: Facts)
    requires Suitable(w, cfg, f) && Asked(cfg, req)
    ensures MeetsPlainly(w, cfg, req, f)
  {
    hide AllowedToStore, Reliable, Creatable, Capable, ModelOffered, EnoughQuota;
  }

  lemma {:induction false} EachIsThere(w: World, cfg: Config, f: Facts)
    requires forall req :: Asked(cfg, req) ==> MeetsPlainly(w, cfg, req, f)
    ensures Suitable(w, cfg, f)
  {
    hide AllowedToStore, Reliable, Creatable, Capable, ModelOffered, EnoughQuota;
    assert Asked(cfg, NeedResidency) && Asked(cfg, NeedReliability);
    if cfg.latency.Some? {
      assert Asked(cfg, NeedLatency(cfg.latency.value));
    }
    assert forall t :: t in cfg.types ==> Asked(cfg, NeedType(t));
    assert forall id :: id in cfg.capabilities ==> Asked(cfg, NeedCapability(id));
    assert forall m :: m in cfg.models ==> Asked(cfg, NeedModel(m));
    assert forall q :: q in cfg.quotas ==> Asked(cfg, NeedQuota(q));
    forall t | t in cfg.types
      ensures Creatable(w, t, f)
    {
      assert MeetsPlainly(w, cfg, NeedType(t), f);
    }
    forall id | id in cfg.capabilities
      ensures Capable(w, id, f)
    {
      assert MeetsPlainly(w, cfg, NeedCapability(id), f);
    }
    forall m | m in cfg.models
      ensures ModelOffered(w, m, f)
    {
      assert MeetsPlainly(w, cfg, NeedModel(m), f);
    }
    forall q | q in cfg.quotas
      ensures EnoughQuota(w, q, f)
    {
      assert MeetsPlainly(w, cfg, NeedQuota(q), f);
    }
  }
}
