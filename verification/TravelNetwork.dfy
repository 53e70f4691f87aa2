/** The hub-and-spoke route network: which pairs of sites it links, how many there are, that
    any two sites are at most two hops apart, and what that means for bookings. */
module TravelNetwork {
  import opened Random
  import opened Roster
  import Relational
  import Sorting
  import Text

  type Pair = (Site, Site)

  function ById(): (Site, Site) -> bool {
    (a: Site, b: Site) => Sorting.StringLe(a.id, b.id)
  }

  /** A region's sites in id order; the first is its hub. */
  function Local(sites: seq<Site>, region: Region): seq<Site> {
    Sorting.Sort(SitesIn(sites, region), ById())
  }

  predicate EveryRegionHasASite(sites: seq<Site>) {
    forall r: Region :: SitesIn(sites, r) != []
  }

  predicate DistinctSites(sites: seq<Site>) {
    forall i, j | 0 <= i < j < |sites| :: sites[i].id != sites[j].id
  }

  lemma {:induction false} LocalSites(sites: seq<Site>, region: Region)
    ensures forall s :: s in Local(sites, region) <==> s in sites && s.region == region
    ensures |Local(sites, region)| == |SitesIn(sites, region)|
  {
    SitesInRegion(sites, region);
    Sorting.SortMembers(SitesIn(sites, region), ById());
    Sorting.SortMultiset(SitesIn(sites, region), ById());
  }

  function Hub(sites: seq<Site>, region: Region): Site
    requires EveryRegionHasASite(sites)
  {
    LocalSites(sites, region);
    Local(sites, region)[0]
  }

  // ------------------------------------------------------- the requests, in loop order

  function From(origin: Site, destinations: seq<Site>): seq<Pair> {
    if destinations == [] then []
    else
      var last := destinations[|destinations| - 1];
      From(origin, destinations[..|destinations| - 1]) + (if origin.id != last.id then [(origin, last)] else [])
  }

  function Mesh(origins: seq<Site>, destinations: seq<Site>): seq<Pair> {
    if origins == [] then []
    else Mesh(origins[..|origins| - 1], destinations) + From(origins[|origins| - 1], destinations)
  }

  function Spokes(hub: Site, destinations: seq<Site>): seq<Pair> {
    if destinations == [] then []
    else
      var last := destinations[|destinations| - 1];
      Spokes(hub, destinations[..|destinations| - 1]) + [(hub, last), (last, hub)]
  }

  function Meshes(sites: seq<Site>, regions: seq<Region>): seq<Pair> {
    if regions == [] then []
    else
      var local := Local(sites, regions[|regions| - 1]);
      Meshes(sites, regions[..|regions| - 1]) + Mesh(local, local)
  }

  function LinksOut(sites: seq<Site>, region: Region, others: seq<Region>): seq<Pair>
    requires EveryRegionHasASite(sites)
  {
    if others == [] then []
    else
      var other := others[|others| - 1];
      LinksOut(sites, region, others[..|others| - 1])
      + (if other == region then [] else Spokes(Hub(sites, region), Local(sites, other)))
  }

  function HubLinks(sites: seq<Site>, regions: seq<Region>): seq<Pair>
    requires EveryRegionHasASite(sites)
  {
    if regions == [] then []
    else HubLinks(sites, regions[..|regions| - 1]) + LinksOut(sites, regions[|regions| - 1], REGIONS)
  }

  function Requests(sites: seq<Site>): seq<Pair>
    requires EveryRegionHasASite(sites)
  {
    Meshes(sites, REGIONS) + HubLinks(sites, REGIONS)
  }

  function KeyOf(p: Pair): (string, string) {
    (p.0.id, p.1.id)
  }

  predicate HasKey(pairs: seq<Pair>, key: (string, string)) {
    exists i | 0 <= i < |pairs| :: KeyOf(pairs[i]) == key
  }

  /** The pairs kept: the first request for each pair of ids. */
  function Kept(requests: seq<Pair>): seq<Pair> {
    if requests == [] then []
    else
      var before := Kept(requests[..|requests| - 1]);
      var last := requests[|requests| - 1];
      if HasKey(before, KeyOf(last)) then before else before + [last]
  }

  // ------------------------------------------------------------------------ the builder

  class Builder {
    var pairs: seq<Pair>
    var seen: set<(string, string)>
    ghost var requests: seq<Pair>

    ghost predicate Valid()
      reads this
    {
      && pairs == Kept(requests)
      && forall k :: k in seen <==> HasKey(pairs, k)
    }

    constructor ()
      ensures Valid() && requests == []
    {
      pairs, seen, requests := [], {}, [];
    }

    method AddPair(origin: Site, destination: Site)
      requires Valid()
      modifies this
      ensures Valid() && requests == old(requests) + [(origin, destination)]
    {
      var key := (origin.id, destination.id);
      ghost var more := requests + [(origin, destination)];
      assert more[..|more| - 1] == requests;
      if key !in seen {
        seen := seen + {key};
        HasKeyAppend(pairs, (origin, destination));
        pairs := pairs + [(origin, destination)];
      }
      requests := more;
    }

    method AddFrom(origin: Site, destinations: seq<Site>)
      requires Valid()
      modifies this
      ensures Valid() && requests == old(requests) + From(origin, destinations)
    {
      hide Kept, HasKey;
      assert requests + [] == requests;
      for j := 0 to |destinations|
        invariant Valid() && requests == old(requests) + From(origin, destinations[..j])
      {
        assert destinations[..j + 1][..j] == destinations[..j];
        if origin.id != destinations[j].id {
          AddPair(origin, destinations[j]);
        } else {
          assert From(origin, destinations[..j]) + [] == From(origin, destinations[..j]);
        }
      }
      assert destinations[..|destinations|] == destinations;
    }

    method AddMesh(local: seq<Site>)
      requires Valid()
      modifies this
      ensures Valid() && requests == old(requests) + Mesh(local, local)
    {
      hide Kept, HasKey, From;
      assert requests + [] == requests;
      for i := 0 to |local|
        invariant Valid() && requests == old(requests) + Mesh(local[..i], local)
      {
        assert local[..i + 1][..i] == local[..i];
        AddFrom(local[i], local);
      }
      assert local[..|local|] == local;
    }

    method AddSpokes(hub: Site, destinations: seq<Site>)
      requires Valid()
      modifies this
      ensures Valid() && requests == old(requests) + Spokes(hub, destinations)
    {
      assert requests + [] == requests;
      for j := 0 to |destinations|
        invariant Valid() && requests == old(requests) + Spokes(hub, destinations[..j])
      {
        assert destinations[..j + 1][..j] == destinations[..j];
        ghost var before := requests;
        AddPair(hub, destinations[j]);
        AddPair(destinations[j], hub);
        assert requests == before + [(hub, destinations[j]), (destinations[j], hub)];
      }
      assert destinations[..|destinations|] == destinations;
    }

    method AddLinksOut(sites: seq<Site>, region: Region)
      requires Valid() && EveryRegionHasASite(sites)
      modifies this
      ensures Valid() && requests == old(requests) + LinksOut(sites, region, REGIONS)
    {
      hide Kept, HasKey, Local, Hub, Spokes, SitesIn;
      assert requests + [] == requests;
      for j := 0 to |REGIONS|
        invariant Valid() && requests == old(requests) + LinksOut(sites, region, REGIONS[..j])
      {
        assert REGIONS[..j + 1][..j] == REGIONS[..j];
        if REGIONS[j] != region {
          AddSpokes(Hub(sites, region), Local(sites, REGIONS[j]));
        } else {
          assert LinksOut(sites, region, REGIONS[..j]) + [] == LinksOut(sites, region, REGIONS[..j]);
        }
      }
      assert REGIONS[..|REGIONS|] == REGIONS;
    }
  }

  lemma {:induction false} HasKeyAppend(pairs: seq<Pair>, p: Pair)
    ensures forall k :: HasKey(pairs + [p], k) <==> HasKey(pairs, k) || k == KeyOf(p)
  {
    forall k
      ensures HasKey(pairs + [p], k) <==> HasKey(pairs, k) || k == KeyOf(p)
    {
      if HasKey(pairs, k) {
        var i :| 0 <= i < |pairs| && KeyOf(pairs[i]) == k;
        assert (pairs + [p])[i] == pairs[i];
      }
      if k == KeyOf(p) {
        assert (pairs + [p])[|pairs|] == p;
      }
    }
  }

  method Pairs(sites: seq<Site>) returns (pairs: seq<Pair>)
    requires EveryRegionHasASite(sites)
    ensures pairs == Kept(Requests(sites))
  {
    hide Kept, HasKey, Local, LinksOut, Mesh, SitesIn;
    var builder := new Builder();
    for i := 0 to |REGIONS|
      invariant builder.Valid() && fresh(builder) && builder.requests == Meshes(sites, REGIONS[..i])
    {
      assert REGIONS[..i + 1][..i] == REGIONS[..i];
      builder.AddMesh(Local(sites, REGIONS[i]));
    }
    assert REGIONS[..|REGIONS|] == REGIONS;
    assert Meshes(sites, REGIONS) + [] == Meshes(sites, REGIONS);
    for i := 0 to |REGIONS|
      invariant builder.Valid() && fresh(builder)
      invariant builder.requests == Meshes(sites, REGIONS) + HubLinks(sites, REGIONS[..i])
    {
      assert REGIONS[..i + 1][..i] == REGIONS[..i];
      builder.AddLinksOut(sites, REGIONS[i]);
    }
    pairs := builder.pairs;
  }

  // ---------------------------------------------------------------- which pairs are linked

  /** Two sites are linked when they differ and share a region, or one of them is a hub. */
  ghost predicate Linked(sites: seq<Site>, a: Site, b: Site)
    requires EveryRegionHasASite(sites)
  {
    && a in sites && b in sites && a.id != b.id
    && (a.region == b.region || a == Hub(sites, a.region) || b == Hub(sites, b.region))
  }

  lemma {:induction false} FromMembers(origin: Site, destinations: seq<Site>, p: Pair)
    ensures p in From(origin, destinations) <==> p.0 == origin && p.1 in destinations && p.0.id != p.1.id
  {
    if destinations != [] {
      var n := |destinations| - 1;
      FromMembers(origin, destinations[..n], p);
      assert destinations == destinations[..n] + [destinations[n]];
    }
  }

  lemma {:induction false} MeshMembers(origins: seq<Site>, destinations: seq<Site>, p: Pair)
    ensures p in Mesh(origins, destinations) <==> p.0 in origins && p.1 in destinations && p.0.id != p.1.id
  {
    if origins != [] {
      var n := |origins| - 1;
      MeshMembers(origins[..n], destinations, p);
      FromMembers(origins[n], destinations, p);
      assert origins == origins[..n] + [origins[n]];
    }
  }

  lemma {:induction false} SpokesMembers(hub: Site, destinations: seq<Site>, p: Pair)
    ensures p in Spokes(hub, destinations) <==>
            (p.0 == hub && p.1 in destinations) || (p.1 == hub && p.0 in destinations)
  {
    if destinations != [] {
      var n := |destinations| - 1;
      SpokesMembers(hub, destinations[..n], p);
      assert destinations == destinations[..n] + [destinations[n]];
    }
  }

  lemma {:induction false} MeshesMembers(sites: seq<Site>, regions: seq<Region>, p: Pair)
    ensures p in Meshes(sites, regions) <==>
            p.0 in sites && p.1 in sites && p.0.id != p.1.id && p.0.region == p.1.region && p.0.region in regions
  {
    hide Local, Mesh;
    if regions != [] {
      var n := |regions| - 1;
      var local := Local(sites, regions[n]);
      MeshesMembers(sites, regions[..n], p);
      LocalSites(sites, regions[n]);
      MeshMembers(local, local, p);
      assert regions == regions[..n] + [regions[n]];
    }
  }

  /** The pair runs between `region`'s hub and a site of another listed region, either way. */
  ghost predicate HubLink(sites: seq<Site>, region: Region, others: seq<Region>, p: Pair)
    requires EveryRegionHasASite(sites)
  {
    var hub := Hub(sites, region);
    || (p.0 == hub && p.1 in sites && p.1.region != region && p.1.region in others)
    || (p.1 == hub && p.0 in sites && p.0.region != region && p.0.region in others)
  }

  lemma {:induction false} LinksOutMembers(sites: seq<Site>, region: Region, others: seq<Region>, p: Pair)
    requires EveryRegionHasASite(sites)
    ensures p in LinksOut(sites, region, others) <==> HubLink(sites, region, others, p)
  {
    hide Local, Hub, Spokes;
    if others != [] {
      var n := |others| - 1;
      LinksOutMembers(sites, region, others[..n], p);
      LocalSites(sites, others[n]);
      SpokesMembers(Hub(sites, region), Local(sites, others[n]), p);
      assert others == others[..n] + [others[n]];
    }
  }

  lemma {:induction false} HubLinksMembers(sites: seq<Site>, regions: seq<Region>, p: Pair)
    requires EveryRegionHasASite(sites)
    ensures p in HubLinks(sites, regions) <==> exists r :: r in regions && HubLink(sites, r, REGIONS, p)
  {
    hide LinksOut, HubLink;
    if regions != [] {
      var n := |regions| - 1;
      HubLinksMembers(sites, regions[..n], p);
      LinksOutMembers(sites, regions[n], REGIONS, p);
      assert regions == regions[..n] + [regions[n]];
    }
  }

  lemma {:induction false} AllRegionsListed(r: Region)
    ensures r in REGIONS
  {
    assert REGIONS[0] == AMER && REGIONS[1] == EMEA && REGIONS[2] == APAC;
  }

  lemma {:induction false} HubIsLocal(sites: seq<Site>, region: Region)
    requires EveryRegionHasASite(sites)
    ensures Hub(sites, region) in sites && Hub(sites, region).region == region
  {
    LocalSites(sites, region);
    assert Local(sites, region)[0] in Local(sites, region);
  }

  lemma {:induction false} SameIdSameSite(sites: seq<Site>, a: Site, b: Site)
    requires DistinctSites(sites) && a in sites && b in sites && a.id == b.id
    ensures a == b
  {
    var i :| 0 <= i < |sites| && sites[i] == a;
    var j :| 0 <= j < |sites| && sites[j] == b;
  }

  lemma {:induction false} HubLinkLinks(sites: seq<Site>, r: Region, p: Pair)
    requires EveryRegionHasASite(sites) && DistinctSites(sites) && HubLink(sites, r, REGIONS, p)
    ensures Linked(sites, p.0, p.1) && p.0.region != p.1.region
  {
    hide Hub;
    HubIsLocal(sites, r);
    if p.0.id == p.1.id {
      SameIdSameSite(sites, p.0, p.1);
    }
  }

  lemma {:induction false} LinkAcrossIsHubLink(sites: seq<Site>, p: Pair)
    requires EveryRegionHasASite(sites) && Linked(sites, p.0, p.1) && p.0.region != p.1.region
    ensures HubLink(sites, p.0.region, REGIONS, p) || HubLink(sites, p.1.region, REGIONS, p)
  {
    hide Hub;
    AllRegionsListed(p.0.region);
    AllRegionsListed(p.1.region);
  }

  lemma {:induction false} RequestsMembers(sites: seq<Site>, p: Pair)
    requires EveryRegionHasASite(sites) && DistinctSites(sites)
    ensures p in Requests(sites) <==> Linked(sites, p.0, p.1)
  {
    hide Meshes, HubLinks, Hub, Local, HubLink, DistinctSites, EveryRegionHasASite;
    MeshesMembers(sites, REGIONS, p);
    HubLinksMembers(sites, REGIONS, p);
    AllRegionsListed(p.0.region);
    AllRegionsListed(p.1.region);
    if p in HubLinks(sites, REGIONS) {
      var r :| r in REGIONS && HubLink(sites, r, REGIONS, p);
      HubLinkLinks(sites, r, p);
    }
    if Linked(sites, p.0, p.1) && p.0.region != p.1.region {
      LinkAcrossIsHubLink(sites, p);
    }
  }

  ghost predicate NoRepeats(pairs: seq<Pair>) {
    forall i, j | 0 <= i < j < |pairs| :: KeyOf(pairs[i]) != KeyOf(pairs[j])
  }

  lemma {:induction false} KeptProperties(requests: seq<Pair>)
    ensures NoRepeats(Kept(requests))
    ensures forall p | p in Kept(requests) :: p in requests
    ensures forall p | p in requests :: HasKey(Kept(requests), KeyOf(p))
  {
    if requests != [] {
      var n := |requests| - 1;
      var before, last := Kept(requests[..n]), requests[n];
      KeptProperties(requests[..n]);
      assert requests == requests[..n] + [last];
      if !HasKey(before, KeyOf(last)) {
        HasKeyAppend(before, last);
      }
    }
  }

  /** Main result: the network links exactly the pairs it should, each once, and never a site to itself. */
  lemma {:induction false} NetworkLinksExactly(sites: seq<Site>)
    requires EveryRegionHasASite(sites) && DistinctSites(sites)
    ensures forall p :: p in Kept(Requests(sites)) <==> Linked(sites, p.0, p.1)
    ensures NoRepeats(Kept(Requests(sites)))
  {
    hide Requests, Kept, Linked;
    var pairs := Kept(Requests(sites));
    KeptProperties(Requests(sites));
    forall p
      ensures p in pairs <==> Linked(sites, p.0, p.1)
    {
      RequestsMembers(sites, p);
      if Linked(sites, p.0, p.1) {
        var i :| 0 <= i < |pairs| && KeyOf(pairs[i]) == KeyOf(p);
        assert pairs[i] in pairs;
        RequestsMembers(sites, pairs[i]);
        LinkedEnds(sites, p);
        LinkedEnds(sites, pairs[i]);
        SameIdSameSite(sites, p.0, pairs[i].0);
        SameIdSameSite(sites, p.1, pairs[i].1);
      }
    }
  }

  lemma {:induction false} LinkedEnds(sites: seq<Site>, p: Pair)
    requires EveryRegionHasASite(sites) && Linked(sites, p.0, p.1)
    ensures p.0 in sites && p.1 in sites && p.0.id != p.1.id
  {
  }

  /** Any two distinct sites are joined directly or through one intermediate site. */
  lemma {:induction false} TwoHops(sites: seq<Site>, a: Site, b: Site)
    requires EveryRegionHasASite(sites) && DistinctSites(sites)
    requires a in sites && b in sites && a.id != b.id
    ensures var pairs := Kept(Requests(sites));
            (a, b) in pairs || exists m :: m in sites && (a, m) in pairs && (m, b) in pairs
  {
    hide Kept, Requests, Hub, Local;
    NetworkLinksExactly(sites);
    if a.region != b.region {
      var hub := Hub(sites, b.region);
      HubIsLocal(sites, b.region);
      if hub == b {
        assert Linked(sites, (a, b).0, (a, b).1);
      } else {
        if a.id == hub.id {
          SameIdSameSite(sites, a, hub);
        }
        if hub.id == b.id {
          SameIdSameSite(sites, hub, b);
        }
        assert Linked(sites, (a, hub).0, (a, hub).1) && Linked(sites, (hub, b).0, (hub, b).1);
        assert (a, hub) in Kept(Requests(sites)) && (hub, b) in Kept(Requests(sites));
      }
    } else {
      assert Linked(sites, (a, b).0, (a, b).1);
    }
  }

  /** No site is without a departing route. */
  lemma {:induction false} EverySiteDeparts(sites: seq<Site>, a: Site) returns (b: Site)
    requires EveryRegionHasASite(sites) && DistinctSites(sites) && a in sites
    ensures (a, b) in Kept(Requests(sites))
  {
    hide Kept, Requests, Hub, Local;
    NetworkLinksExactly(sites);
    var other := if a.region == AMER then EMEA else AMER;
    b := Hub(sites, other);
    HubIsLocal(sites, other);
    if a.id == b.id {
      SameIdSameSite(sites, a, b);
    }
    assert Linked(sites, (a, b).0, (a, b).1);
  }

  // ---------------------------------------------------------------------- how many there are

  function Members(sites: seq<Site>, region: Region): set<Site> {
    set s | s in sites && s.region == region
  }

  function Product(a: set<Site>, b: set<Site>): set<Pair> {
    set x, y | x in a && y in b :: (x, y)
  }

  function Diagonal(a: set<Site>): set<Pair> {
    set x | x in a :: (x, x)
  }

  lemma {:induction false} DiagonalSize(a: set<Site>)
    ensures |Diagonal(a)| == |a|
  {
    if a != {} {
      var x :| x in a;
      DiagonalSize(a - {x});
      assert Diagonal(a) == Diagonal(a - {x}) + {(x, x)};
    }
  }

  lemma {:induction false} RowSize(x: Site, b: set<Site>)
    ensures |Product({x}, b)| == |b|
  {
    if b != {} {
      var y :| y in b;
      RowSize(x, b - {y});
      assert Product({x}, b) == Product({x}, b - {y}) + {(x, y)};
    }
  }

  lemma {:induction false} ProductSize(a: set<Site>, b: set<Site>)
    ensures |Product(a, b)| == |a| * |b|
  {
    if a == {} {
      assert Product(a, b) == {};
    } else {
      var x :| x in a;
      var rest := a - {x};
      ProductSize(rest, b);
      RowSize(x, b);
      assert Product(a, b) == Product(rest, b) + Product({x}, b);
      assert Product(rest, b) !! Product({x}, b);
      assert |a| == |rest| + 1;
      assert |rest| * |b| + |b| == (|rest| + 1) * |b|;
    }
  }

  /** The linked pairs from region r to region s. */
  ghost function Block(sites: seq<Site>, r: Region, s: Region): set<Pair>
    requires EveryRegionHasASite(sites)
  {
    var a, b := Members(sites, r), Members(sites, s);
    if r == s then Product(a, a) - Diagonal(a)
    else Product({Hub(sites, r)}, b) + Product(a, {Hub(sites, s)})
  }

  lemma {:induction false} BlockSize(sites: seq<Site>, r: Region, s: Region)
    requires EveryRegionHasASite(sites)
    ensures |Block(sites, r, s)| ==
            if r == s then |Members(sites, r)| * (|Members(sites, r)| - 1)
            else |Members(sites, r)| + |Members(sites, s)| - 1
  {
    hide Hub;
    var a, b := Members(sites, r), Members(sites, s);
    if r == s {
      ProductSize(a, a);
      DiagonalSize(a);
      assert Diagonal(a) <= Product(a, a);
      assert |a| * |a| - |a| == |a| * (|a| - 1);
    } else {
      var h, g := Hub(sites, r), Hub(sites, s);
      HubIsLocal(sites, r);
      HubIsLocal(sites, s);
      ProductSize({h}, b);
      ProductSize(a, {g});
      assert Product({h}, b) * Product(a, {g}) == {(h, g)};
    }
  }

  lemma {:induction false} BlockMembers(sites: seq<Site>, r: Region, s: Region, p: Pair)
    requires EveryRegionHasASite(sites) && DistinctSites(sites)
    ensures p in Block(sites, r, s) <==> Linked(sites, p.0, p.1) && p.0.region == r && p.1.region == s
  {
    HubIsLocal(sites, r);
    HubIsLocal(sites, s);
    hide Hub;
    if p.0 in sites && p.1 in sites && p.0.id == p.1.id {
      SameIdSameSite(sites, p.0, p.1);
    }
    if p.0 == p.1 {
      assert p.0 in Members(sites, r) ==> p in Diagonal(Members(sites, r));
    }
  }

  ghost function RowOfBlocks(sites: seq<Site>, r: Region): set<Pair>
    requires EveryRegionHasASite(sites)
  {
    Block(sites, r, AMER) + Block(sites, r, EMEA) + Block(sites, r, APAC)
  }

  lemma {:induction false} ThreeDisjoint(x: set<Pair>, y: set<Pair>, z: set<Pair>)
    requires x !! y && y !! z && x !! z
    ensures |x + y + z| == |x| + |y| + |z|
  {
    assert x + y !! z;
  }

  lemma {:induction false} RowOfBlocksMembers(sites: seq<Site>, r: Region, p: Pair)
    requires EveryRegionHasASite(sites) && DistinctSites(sites)
    ensures p in RowOfBlocks(sites, r) <==> Linked(sites, p.0, p.1) && p.0.region == r
  {
    BlockMembers(sites, r, AMER, p);
    BlockMembers(sites, r, EMEA, p);
    BlockMembers(sites, r, APAC, p);
    hide Block, Linked;
  }

  lemma {:induction false} RowOfBlocksSize(sites: seq<Site>, r: Region)
    requires EveryRegionHasASite(sites) && DistinctSites(sites)
    ensures |RowOfBlocks(sites, r)| == |Block(sites, r, AMER)| + |Block(sites, r, EMEA)| + |Block(sites, r, APAC)|
  {
    BlocksAreDisjoint(sites, r, AMER, EMEA);
    BlocksAreDisjoint(sites, r, EMEA, APAC);
    BlocksAreDisjoint(sites, r, AMER, APAC);
    hide Block;
    ThreeDisjoint(Block(sites, r, AMER), Block(sites, r, EMEA), Block(sites, r, APAC));
  }

  lemma {:induction false} BlocksAreDisjoint(sites: seq<Site>, r: Region, s: Region, t: Region)
    requires EveryRegionHasASite(sites) && DistinctSites(sites) && s != t
    ensures Block(sites, r, s) !! Block(sites, r, t)
  {
    hide Block, Linked;
    forall p | p in Block(sites, r, s)
      ensures p !in Block(sites, r, t)
    {
      BlockMembers(sites, r, s, p);
      BlockMembers(sites, r, t, p);
    }
  }

  lemma {:induction false} RowsAreDisjoint(sites: seq<Site>, r: Region, s: Region)
    requires EveryRegionHasASite(sites) && DistinctSites(sites) && r != s
    ensures RowOfBlocks(sites, r) !! RowOfBlocks(sites, s)
  {
    hide RowOfBlocks, Linked;
    forall p | p in RowOfBlocks(sites, r)
      ensures p !in RowOfBlocks(sites, s)
    {
      RowOfBlocksMembers(sites, r, p);
      RowOfBlocksMembers(sites, s, p);
    }
  }

  lemma {:induction false} NetworkIsTheRows(sites: seq<Site>)
    requires EveryRegionHasASite(sites) && DistinctSites(sites)
    ensures (set p | p in Kept(Requests(sites))) == RowOfBlocks(sites, AMER) + RowOfBlocks(sites, EMEA)
            + RowOfBlocks(sites, APAC)
  {
    hide Kept, Requests, RowOfBlocks, Linked;
    NetworkLinksExactly(sites);
    forall p
      ensures p in Kept(Requests(sites)) <==>
              p in RowOfBlocks(sites, AMER) || p in RowOfBlocks(sites, EMEA) || p in RowOfBlocks(sites, APAC)
    {
      RowOfBlocksMembers(sites, AMER, p);
      RowOfBlocksMembers(sites, EMEA, p);
      RowOfBlocksMembers(sites, APAC, p);
    }
  }

  lemma {:induction false} KeptAsSet(pairs: seq<Pair>)
    requires NoRepeats(pairs)
    ensures |set p | p in pairs| == |pairs|
  {
    if pairs != [] {
      var front, last := pairs[..|pairs| - 1], pairs[|pairs| - 1];
      assert NoRepeats(front);
      KeptAsSet(front);
      assert pairs == front + [last];
      SetOfAppend(front, last);
      forall i | 0 <= i < |front|
        ensures front[i] != last
      {
        assert KeyOf(pairs[i]) != KeyOf(pairs[|front|]);
      }
    }
  }

  lemma {:induction false} SetOfAppend<T>(front: seq<T>, last: T)
    ensures (set p | p in front + [last]) == (set p | p in front) + {last}
  {
  }

  /** The network has exactly n_r (n_r - 1) routes inside each region, and n_r + n_s - 1 from
      each region to each other. */
  lemma {:induction false} NetworkSize(sites: seq<Site>)
    requires EveryRegionHasASite(sites) && DistinctSites(sites)
    ensures var a, b, c := |Members(sites, AMER)|, |Members(sites, EMEA)|, |Members(sites, APAC)|;
            |Kept(Requests(sites))| == a * (a - 1) + b * (b - 1) + c * (c - 1)
                                       + 2 * ((a + b - 1) + (b + c - 1) + (c + a - 1))
  {
    hide RowOfBlocks, Block, Members, Linked, Kept, Requests;
    var pairs := Kept(Requests(sites));
    NetworkLinksExactly(sites);
    KeptAsSet(pairs);
    NetworkIsTheRows(sites);
    RowsAreDisjoint(sites, AMER, EMEA);
    RowsAreDisjoint(sites, EMEA, APAC);
    RowsAreDisjoint(sites, AMER, APAC);
    ThreeDisjoint(RowOfBlocks(sites, AMER), RowOfBlocks(sites, EMEA), RowOfBlocks(sites, APAC));
    RowOfBlocksSize(sites, AMER);
    RowOfBlocksSize(sites, EMEA);
    RowOfBlocksSize(sites, APAC);
    forall r: Region, s: Region
      ensures |Block(sites, r, s)| ==
              if r == s then |Members(sites, r)| * (|Members(sites, r)| - 1)
              else |Members(sites, r)| + |Members(sites, s)| - 1
    {
      BlockSize(sites, r, s);
    }
  }

  // ---------------------------------------------------------------------- routes and fares

  datatype Mode = Rail | Air

  datatype Route = Route(id: string, origin: string, destination: string, mode: Mode, duration: int, longHaul: bool)
  datatype Fare = Fare(id: string, route: string, fareClass: string)

  function RouteId(index: nat): string {
    "ROUTE-" + Text.Padded(4, index + 1)
  }

  lemma {:induction false} RouteIdInjective(i: nat, j: nat)
    requires RouteId(i) == RouteId(j)
    ensures i == j
  {
    hide Text.Padded, Text.ValueOf;
    PrefixInjective("ROUTE-", Text.Padded(4, i + 1), Text.Padded(4, j + 1));
    Text.PaddedRoundTrip(4, i + 1);
    Text.PaddedRoundTrip(4, j + 1);
  }

  ghost predicate Serves(route: Route, p: Pair, i: nat) {
    route.id == RouteId(i) && route.origin == p.0.id && route.destination == p.1.id
  }

  /** How long a route takes and how it is travelled: under four hours and twenty minutes within a
      region, seven to sixteen hours between regions; by rail within EMEA and by air elsewhere. */
  ghost predicate Timed(route: Route, p: Pair) {
    && (p.0.region == p.1.region ==> 55 <= route.duration < 260)
    && (p.0.region != p.1.region ==> 420 <= route.duration < 960)
    && (route.mode == Rail <==> p.0.region == EMEA && p.1.region == EMEA)
    && (route.longHaul <==> route.duration > 480)
  }

  function FareId(index: nat): string {
    "FARE-" + Text.Padded(5, index + 1)
  }

  function FareClasses(longHaul: bool): seq<string> {
    ["economy", "economy_plus"] + if longHaul then ["business"] else []
  }

  function FaresOf(fares: seq<Fare>, route: string): seq<Fare> {
    if fares == [] then []
    else if fares[0].route == route then [fares[0]] + FaresOf(fares[1..], route)
    else FaresOf(fares[1..], route)
  }

  lemma {:induction false} FaresOfAppend(fares: seq<Fare>, fare: Fare, route: string)
    ensures FaresOf(fares + [fare], route) == FaresOf(fares, route) + if fare.route == route then [fare] else []
  {
    if fares != [] {
      assert (fares + [fare])[1..] == fares[1..] + [fare];
      FaresOfAppend(fares[1..], fare, route);
    }
  }

  lemma {:induction false} NoFaresOf(fares: seq<Fare>, route: string)
    requires forall f :: f in fares ==> f.route != route
    ensures FaresOf(fares, route) == []
  {
    if fares != [] {
      NoFaresOf(fares[1..], route);
      assert fares[0] in fares;
    }
  }

  function ClassesOf(fares: seq<Fare>): seq<string> {
    if fares == [] then [] else ClassesOf(fares[..|fares| - 1]) + [fares[|fares| - 1].fareClass]
  }

  lemma {:induction false} NoClasses()
    ensures ClassesOf([]) == []
  {
  }

  lemma {:induction false} ClassesAppend(fares: seq<Fare>, fare: Fare)
    ensures ClassesOf(fares + [fare]) == ClassesOf(fares) + [fare.fareClass]
  {
    assert (fares + [fare])[..|fares|] == fares;
  }

  /** The fares carrying a route's identifier are one for each class sold on it, in order. */
  ghost predicate HasItsFares(fares: seq<Fare>, route: Route) {
    ClassesOf(FaresOf(fares, route.id))
    == if route.longHaul then ["economy", "economy_plus", "business"] else ["economy", "economy_plus"]
  }

  ghost predicate FareHasRoute(fare: Fare, routes: seq<Route>) {
    exists k :: 0 <= k < |routes| && routes[k].id == fare.route
  }

  /** One route per pair; every fare belongs to exactly one route, and each route has its own
      two or three fares, one for each class. */
  method Routes(rng: Rng, pairs: seq<Pair>) returns (routes: seq<Route>, fares: seq<Fare>)
    modifies rng
    ensures |routes| == |pairs|
    ensures forall i | 0 <= i < |pairs| :: Serves(routes[i], pairs[i], i) && Timed(routes[i], pairs[i])
    ensures forall i | 0 <= i < |routes| :: HasItsFares(fares, routes[i])
    ensures forall k | 0 <= k < |fares| :: fares[k].id == FareId(k)
    ensures forall r | r in routes :: FaresOf(fares, r.id) != []
    ensures forall f :: f in fares ==> FareHasRoute(f, routes)
    ensures forall i, j | 0 <= i < j < |routes| :: routes[i].id != routes[j].id
  {
    hide RouteId, FareId, HasItsFares, FareClasses;
    routes, fares := [], [];
    for i := 0 to |pairs|
      invariant |routes| == i
      invariant forall k | 0 <= k < i :: Serves(routes[k], pairs[k], k) && Timed(routes[k], pairs[k])
      invariant forall k | 0 <= k < i :: HasItsFares(fares, routes[k])
      invariant forall k | 0 <= k < |fares| :: fares[k].id == FareId(k)
      invariant forall f :: f in fares ==> FareHasRoute(f, routes)
    {
      var (origin, destination) := pairs[i];
      var sameRegion := origin.region == destination.region;
      var duration;
      if sameRegion {
        duration := rng.RandRange(55, 260);
      } else {
        duration := rng.RandRange(420, 960);
      }
      var mode := if sameRegion && origin.region == EMEA && duration < 300 then Rail else Air;
      var route := Route(RouteId(i), origin.id, destination.id, mode, duration, duration > 480);
      forall k: nat | k < i
        ensures routes[k].id != route.id
      {
        assert Serves(routes[k], pairs[k], k);
        if RouteId(k) == RouteId(i) {
          RouteIdInjective(k, i);
        }
      }
      assert forall f :: f in fares ==> f.route != route.id;
      assert Selling(routes, route, fares);
      fares := SellFares(routes, route, fares);
      forall f | f in fares
        ensures FareHasRoute(f, routes + [route])
      {
        if FareHasRoute(f, routes) {
          var k :| 0 <= k < |routes| && routes[k].id == f.route;
          assert (routes + [route])[k].id == f.route;
        } else {
          assert (routes + [route])[i].id == f.route;
        }
      }
      routes := routes + [route];
    }
    forall r | r in routes
      ensures FaresOf(fares, r.id) != []
    {
      HasFares(fares, r);
    }
    forall i: nat, j: nat | i < j < |routes|
      ensures routes[i].id != routes[j].id
    {
      assert Serves(routes[i], pairs[i], i) && Serves(routes[j], pairs[j], j);
      if RouteId(i) == RouteId(j) {
        RouteIdInjective(i, j);
      }
    }
  }

  lemma {:induction false} KeepsItsFares(fares: seq<Fare>, fare: Fare, route: Route)
    requires HasItsFares(fares, route) && fare.route != route.id
    ensures HasItsFares(fares + [fare], route)
  {
    hide FareClasses, ClassesOf, FaresOf;
    FaresOfAppend(fares, fare, route.id);
    assert FaresOf(fares, route.id) + [] == FaresOf(fares, route.id);
  }

  lemma {:induction false} SoldItsFares(fares: seq<Fare>, route: Route)
    requires ClassesOf(FaresOf(fares, route.id)) == FareClasses(route.longHaul)
    ensures HasItsFares(fares, route)
  {
  }

  lemma {:induction false} OneMoreFare(fares: seq<Fare>, fare: Fare)
    ensures ClassesOf(FaresOf(fares + [fare], fare.route)) == ClassesOf(FaresOf(fares, fare.route)) + [fare.fareClass]
  {
    FaresOfAppend(fares, fare, fare.route);
    ClassesAppend(FaresOf(fares, fare.route), fare);
  }

  /** While a route's fares are added, the earlier routes keep theirs. */
  ghost predicate Selling(routes: seq<Route>, route: Route, fares: seq<Fare>) {
    && (forall k | 0 <= k < |routes| :: routes[k].id != route.id && HasItsFares(fares, routes[k]))
    && forall f :: f in fares ==> FareHasRoute(f, routes) || f.route == route.id
  }

  lemma {:induction false} SellOne(routes: seq<Route>, route: Route, fares: seq<Fare>, fare: Fare)
    requires Selling(routes, route, fares) && fare.route == route.id
    ensures Selling(routes, route, fares + [fare])
  {
    hide HasItsFares, FareHasRoute;
    forall k | 0 <= k < |routes|
      ensures HasItsFares(fares + [fare], routes[k])
    {
      KeepsItsFares(fares, fare, routes[k]);
    }
  }

  method SellFares(ghost routes: seq<Route>, route: Route, before: seq<Fare>) returns (fares: seq<Fare>)
    requires Selling(routes, route, before)
    requires forall f :: f in before ==> f.route != route.id
    requires forall k | 0 <= k < |before| :: before[k].id == FareId(k)
    ensures Selling(routes, route, fares) && HasItsFares(fares, route)
    ensures forall k | 0 <= k < |fares| :: fares[k].id == FareId(k)
  {
    hide *;
    fares := before;
    NoFaresOf(fares, route.id);
    var classes := FareClasses(route.longHaul);
    NoClasses();
    for c := 0 to |classes|
      invariant Selling(routes, route, fares)
      invariant ClassesOf(FaresOf(fares, route.id)) == classes[..c]
      invariant forall k | 0 <= k < |fares| :: fares[k].id == FareId(k)
    {
      var fare := Fare(FareId(|fares|), route.id, classes[c]);
      SellOne(routes, route, fares, fare);
      OneMoreFare(fares, fare);
      assert classes[..c + 1] == classes[..c] + [classes[c]];
      fares := fares + [fare];
    }
    assert classes[..|classes|] == classes;
    SoldItsFares(fares, route);
  }

  /** So every route has at least two fares to book on. */
  lemma {:induction false} HasFares(fares: seq<Fare>, route: Route)
    requires HasItsFares(fares, route)
    ensures FaresOf(fares, route.id) != []
  {
    assert ClassesOf([]) == [];
  }

  lemma {:induction false} FaresOfMembers(fares: seq<Fare>, route: string, f: Fare)
    ensures f in FaresOf(fares, route) <==> f in fares && f.route == route
  {
    if fares != [] {
      FaresOfMembers(fares[1..], route, f);
      assert fares == [fares[0]] + fares[1..];
    }
  }

  // ------------------------------------------------------------------ the natural-key check

  datatype Finding = NaturalKeyDuplicate(origin: string, destination: string, mode: Mode)

  function NaturalKey(r: Route): (string, string, Mode) {
    (r.origin, r.destination, r.mode)
  }

  /** Nothing is reported exactly when no two routes share origin, destination and mode. */
  method CheckNaturalKeys(routes: seq<Route>) returns (findings: seq<Finding>)
    ensures findings == [] <==> forall i, j | 0 <= i < j < |routes| :: NaturalKey(routes[i]) != NaturalKey(routes[j])
  {
    findings := [];
    var seen: set<(string, string, Mode)> := {};
    for i := 0 to |routes|
      invariant forall k :: k in seen <==> exists j | 0 <= j < i :: NaturalKey(routes[j]) == k
      invariant findings == [] <==> forall j, k | 0 <= j < k < i :: NaturalKey(routes[j]) != NaturalKey(routes[k])
    {
      var key := NaturalKey(routes[i]);
      if key in seen {
        findings := findings + [NaturalKeyDuplicate(key.0, key.1, key.2)];
      }
      seen := seen + {key};
    }
  }

  /** Whatever the modes and durations drawn, the generated routes pass that check. */
  lemma {:induction false} RoutesPassNaturalKeys(sites: seq<Site>, routes: seq<Route>)
    requires EveryRegionHasASite(sites) && DistinctSites(sites)
    requires var pairs := Kept(Requests(sites));
             |routes| == |pairs| && forall i | 0 <= i < |pairs| :: Serves(routes[i], pairs[i], i)
    ensures forall i, j | 0 <= i < j < |routes| :: NaturalKey(routes[i]) != NaturalKey(routes[j])
  {
    hide Kept, Requests, RouteId;
    var pairs := Kept(Requests(sites));
    NetworkLinksExactly(sites);
    forall i, j | 0 <= i < j < |routes|
      ensures NaturalKey(routes[i]) != NaturalKey(routes[j])
    {
      assert Serves(routes[i], pairs[i], i) && Serves(routes[j], pairs[j], j);
      assert KeyOf(pairs[i]) != KeyOf(pairs[j]);
    }
  }

  // ------------------------------------------------------------------------------ bookings

  datatype Policy = Policy(id: string, region: Region)

  datatype Booking = Booking(traveller: string, route: Route, fare: Fare, policy: Policy)

  function RoutesFrom(routes: seq<Route>, origin: string): seq<Route> {
    if routes == [] then []
    else if routes[0].origin == origin then [routes[0]] + RoutesFrom(routes[1..], origin)
    else RoutesFrom(routes[1..], origin)
  }

  lemma {:induction false} RoutesFromMembers(routes: seq<Route>, origin: string, r: Route)
    ensures r in RoutesFrom(routes, origin) <==> r in routes && r.origin == origin
  {
    if routes != [] {
      RoutesFromMembers(routes[1..], origin, r);
      assert routes == [routes[0]] + routes[1..];
    }
  }

  function PoliciesOf(policies: seq<Policy>, region: Region): seq<Policy> {
    if policies == [] then []
    else if policies[0].region == region then [policies[0]] + PoliciesOf(policies[1..], region)
    else PoliciesOf(policies[1..], region)
  }

  lemma {:induction false} PoliciesOfMembers(policies: seq<Policy>, region: Region, p: Policy)
    ensures p in PoliciesOf(policies, region) <==> p in policies && p.region == region
  {
    if policies != [] {
      PoliciesOfMembers(policies[1..], region, p);
      assert policies == [policies[0]] + policies[1..];
    }
  }

  /** Field and customer support staff travel under the last policy of their region, everyone else
      under the first. */
  ghost predicate PolicyFits(policy: Policy, traveller: Employee, policies: seq<Policy>) {
    exists i | 0 <= i < |policies| ::
      && policies[i] == policy && policy.region == traveller.region
      && if traveller.department in {"Field Operations", "Customer Support"}
         then forall j | i < j < |policies| :: policies[j].region != traveller.region
         else forall j | 0 <= j < i :: policies[j].region != traveller.region
  }

  lemma {:induction false} FirstOfRegion(policies: seq<Policy>, region: Region) returns (i: nat)
    requires PoliciesOf(policies, region) != []
    ensures i < |policies| && policies[i] == PoliciesOf(policies, region)[0] && policies[i].region == region
    ensures forall j | 0 <= j < i :: policies[j].region != region
  {
    if policies[0].region == region {
      i := 0;
    } else {
      var k := FirstOfRegion(policies[1..], region);
      i := k + 1;
      forall j | 0 <= j < i
        ensures policies[j].region != region
      {
        assert j > 0 ==> policies[j] == policies[1..][j - 1];
      }
    }
  }

  lemma {:induction false} LastOfRegion(policies: seq<Policy>, region: Region) returns (i: nat)
    requires PoliciesOf(policies, region) != []
    ensures i < |policies| && policies[i].region == region
    ensures policies[i] == PoliciesOf(policies, region)[|PoliciesOf(policies, region)| - 1]
    ensures forall j | i < j < |policies| :: policies[j].region != region
  {
    var rest := PoliciesOf(policies[1..], region);
    if rest == [] {
      i := 0;
      forall j | 0 < j < |policies|
        ensures policies[j].region != region
      {
        PoliciesOfMembers(policies[1..], region, policies[j]);
        assert policies[j] == policies[1..][j - 1];
      }
    } else {
      var k := LastOfRegion(policies[1..], region);
      i := k + 1;
      forall j | i < j < |policies|
        ensures policies[j].region != region
      {
        assert policies[j] == policies[1..][j - 1];
      }
    }
  }

  ghost predicate Coherent(b: Booking, traveller: Employee, routes: seq<Route>, fares: seq<Fare>,
                           policies: seq<Policy>) {
    && b.traveller == traveller.id
    && b.route in routes && b.route.origin == traveller.location
    && b.fare in fares && b.fare.route == b.route.id
    && PolicyFits(b.policy, traveller, policies)
  }

  /** Every booking departs from the traveller's own site, on a fare of that route, under a
      policy of the traveller's region. The fallback for a site with no departures is never
      taken, because every site has a departing route. */
  method Bookings(rng: Rng, sites: seq<Site>, employees: seq<Employee>, routes: seq<Route>, fares: seq<Fare>,
                  policies: seq<Policy>, volume: int) returns (bookings: seq<Booking>)
    requires EveryRegionHasASite(sites) && DistinctSites(sites) && employees != []
    requires |routes| == |Kept(Requests(sites))|
    requires forall i | 0 <= i < |routes| :: Serves(routes[i], Kept(Requests(sites))[i], i)
    requires forall r | r in routes :: FaresOf(fares, r.id) != []
    requires forall e | e in employees :: PoliciesOf(policies, e.region) != []
    requires forall e | e in employees :: exists s :: s in sites && s.id == e.location
    modifies rng
    ensures |bookings| == if volume < 0 then 0 else volume
    ensures forall b | b in bookings :: exists e :: e in employees && Coherent(b, e, routes, fares, policies)
  {
    bookings := [];
    while |bookings| < volume
      invariant volume >= 0 ==> |bookings| <= volume
      invariant volume < 0 ==> bookings == []
      invariant forall b | b in bookings :: exists e :: e in employees && Coherent(b, e, routes, fares, policies)
    {
      var traveller := rng.Choice(employees);
      DeparturesExist(sites, routes, traveller.location);
      var available := RoutesFrom(routes, traveller.location);
      // The fallback, where a site has no departures.
      if available == [] {
        assert false;
      }
      var booking := Book(rng, traveller, routes, available, fares, policies);
      bookings := bookings + [booking];
    }
  }

  method Book(rng: Rng, traveller: Employee, ghost routes: seq<Route>, available: seq<Route>, fares: seq<Fare>,
              policies: seq<Policy>) returns (b: Booking)
    requires available == RoutesFrom(routes, traveller.location) && available != []
    requires forall r | r in routes :: FaresOf(fares, r.id) != []
    requires PoliciesOf(policies, traveller.region) != []
    modifies rng
    ensures Coherent(b, traveller, routes, fares, policies)
  {
    var route := rng.Choice(available);
    RoutesFromMembers(routes, traveller.location, route);
    var fare := rng.Choice(FaresOf(fares, route.id));
    FaresOfMembers(fares, route.id, fare);
    var candidates := PoliciesOf(policies, traveller.region);
    var wantsException := traveller.department in Relational.TRAVEL_EXCEPTION_DEPARTMENTS;
    var policy := if wantsException && |candidates| > 1 then candidates[|candidates| - 1] else candidates[0];
    ghost var first := FirstOfRegion(policies, traveller.region);
    ghost var last := LastOfRegion(policies, traveller.region);
    assert policies[if wantsException then last else first] == policy;
    b := Booking(traveller.id, route, fare, policy);
  }

  lemma {:induction false} DeparturesExist(sites: seq<Site>, routes: seq<Route>, location: string)
    requires EveryRegionHasASite(sites) && DistinctSites(sites)
    requires |routes| == |Kept(Requests(sites))|
    requires forall i | 0 <= i < |routes| :: Serves(routes[i], Kept(Requests(sites))[i], i)
    requires exists s :: s in sites && s.id == location
    ensures RoutesFrom(routes, location) != []
  {
    hide Kept, Requests, RouteId;
    var s :| s in sites && s.id == location;
    var b := EverySiteDeparts(sites, s);
    var i :| 0 <= i < |routes| && Kept(Requests(sites))[i] == (s, b);
    assert Serves(routes[i], Kept(Requests(sites))[i], i);
    RoutesFromMembers(routes, location, routes[i]);
  }
}
