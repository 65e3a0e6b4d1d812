/** How critical each service is, from the centrality metrics and the availability of
    the services; and the peers a service talks to most. */
module Criticality {
  import opened Wrappers
  import opened Sorting
  import opened Percentiles
  import opened Names

  datatype CentralityScore = CentralityScore(service: string, pagerank: real, betweenness: real, availability: Option<real>)

  datatype ServiceEntry = ServiceEntry(name: string, availability: int)

  datatype Peer = Peer(service: string, rate: real)

  datatype PeerWeight = PeerWeight(service: string, weight: real)

  // ----- criticality -----

  function Up(entry: ServiceEntry): real {
    if entry.availability > 0 then 1.0 else 0.0
  }

  function CatalogAvailability(catalog: seq<ServiceEntry>): map<string, real> {
    if catalog == [] then map[]
    else
      var last := catalog[|catalog| - 1];
      CatalogAvailability(catalog[..|catalog| - 1])[ToLower(last.name) := Up(last)]
  }

  /** Availabilities reported with the metrics override the catalog's. */
  function Availability(catalog: seq<ServiceEntry>, scores: seq<CentralityScore>): map<string, real> {
    if scores == [] then CatalogAvailability(catalog)
    else
      var last := scores[|scores| - 1];
      var before := Availability(catalog, scores[..|scores| - 1]);
      if last.availability.Some? then before[ToLower(last.service) := last.availability.value] else before
  }

  function AvailabilitySamples(catalog: seq<ServiceEntry>, scores: seq<CentralityScore>): seq<real> {
    if scores == [] then Map(Up, catalog)
    else
      var last := scores[|scores| - 1];
      var before := AvailabilitySamples(catalog, scores[..|scores| - 1]);
      if last.availability.Some? then before + [last.availability.value] else before
  }

  function PagerankOf(s: CentralityScore): real {
    s.pagerank
  }

  function BetweennessOf(s: CentralityScore): real {
    s.betweenness
  }

  /** The bands and availabilities every service is measured against. */
  datatype Scale = Scale(pagerank: (real, real), betweenness: (real, real), availability: (real, real),
                         available: map<string, real>)

  function ScaleOf(scores: seq<CentralityScore>, catalog: seq<ServiceEntry>): Scale {
    Scale(Band(Map(PagerankOf, scores)), Band(Map(BetweennessOf, scores)),
          Band(AvailabilitySamples(catalog, scores)), Availability(catalog, scores))
  }

  function AvailabilityNorm(s: CentralityScore, scale: Scale): real {
    var key := ToLower(s.service);
    if key in scale.available then Norm(scale.available[key], scale.availability.0, scale.availability.1) else NEUTRAL
  }

  function CriticalityOf(s: CentralityScore, scale: Scale): real {
    0.4 * Norm(s.pagerank, scale.pagerank.0, scale.pagerank.1)
    + 0.4 * Norm(s.betweenness, scale.betweenness.0, scale.betweenness.1)
    + 0.2 * (1.0 - AvailabilityNorm(s, scale))
  }

  function CriticalityMap(scores: seq<CentralityScore>, scale: Scale): map<string, real> {
    if scores == [] then map[]
    else
      var last := scores[|scores| - 1];
      CriticalityMap(scores[..|scores| - 1], scale)[ToLower(last.service) := CriticalityOf(last, scale)]
  }

  /** The service's own criticality; unknown or zero counts as neutral. */
  function TargetCriticality(byService: map<string, real>, service: string): real {
    var key := ToLower(service);
    if key in byService && byService[key] != 0.0 then byService[key] else NEUTRAL
  }

  lemma CriticalityInUnit(s: CentralityScore, scale: Scale)
    ensures 0.0 <= CriticalityOf(s, scale) <= 1.0
  {
    NormInUnit(s.pagerank, scale.pagerank.0, scale.pagerank.1);
    NormInUnit(s.betweenness, scale.betweenness.0, scale.betweenness.1);
  }

  /** A service's criticality: two fifths for each centrality and one fifth for its lack of
      availability, each measured against its band; an unknown availability counts as half. */
  lemma CriticalityExactly(s: CentralityScore, scale: Scale)
    ensures var key := ToLower(s.service);
            var rank := Norm(s.pagerank, scale.pagerank.0, scale.pagerank.1);
            var between := Norm(s.betweenness, scale.betweenness.0, scale.betweenness.1);
            var lack := if key in scale.available then 1.0 - Norm(scale.available[key], scale.availability.0, scale.availability.1) else 0.5;
            CriticalityOf(s, scale) == (2.0 * rank + 2.0 * between + lack) / 5.0
  {
  }

  /** The last report on a service counts, and without one the last catalog entry, as fully
      available or not at all. */
  lemma {:induction false} AvailabilityExactly(catalog: seq<ServiceEntry>, scores: seq<CentralityScore>, key: string)
    ensures var available := Availability(catalog, scores);
            var reports := Filter(Reports(key), scores);
            var entries := Filter(IsEntry(key), catalog);
            && (key in available <==> reports != [] || entries != [])
            && (reports != [] ==> reports[|reports| - 1].availability == Some(available[key]))
            && (reports == [] && entries != [] ==> available[key] == if entries[|entries| - 1].availability > 0 then 1.0 else 0.0)
  {
    if scores != [] {
      AvailabilityExactly(catalog, scores[..|scores| - 1], key);
    } else {
      CatalogExactly(catalog, key);
    }
  }

  lemma {:induction false} CatalogExactly(catalog: seq<ServiceEntry>, key: string)
    ensures var available := CatalogAvailability(catalog);
            var entries := Filter(IsEntry(key), catalog);
            && (key in available <==> entries != [])
            && (entries != [] ==> available[key] == if entries[|entries| - 1].availability > 0 then 1.0 else 0.0)
  {
    if catalog != [] {
      CatalogExactly(catalog[..|catalog| - 1], key);
    }
  }

  ghost function Reports(key: string): CentralityScore -> bool {
    (s: CentralityScore) => ToLower(s.service) == key && s.availability.Some?
  }

  ghost function IsEntry(key: string): ServiceEntry -> bool {
    (e: ServiceEntry) => ToLower(e.name) == key
  }

  /** The bands: of each centrality over all reported ones, and of the availabilities over the
      catalog's, as one or zero, and the reported ones. */
  lemma ScaleExactly(scores: seq<CentralityScore>, catalog: seq<ServiceEntry>)
    ensures var scale := ScaleOf(scores, catalog);
            && scale.pagerank == Band(Map((s: CentralityScore) => s.pagerank, scores))
            && scale.betweenness == Band(Map((s: CentralityScore) => s.betweenness, scores))
            && scale.availability == Band(Map((e: ServiceEntry) => if e.availability > 0 then 1.0 else 0.0, catalog)
                                          + Map(Reported, Filter((s: CentralityScore) => s.availability.Some?, scores)))
            && scale.available == Availability(catalog, scores)
  {
    SameMap(PagerankOf, (s: CentralityScore) => s.pagerank, scores);
    SameMap(BetweennessOf, (s: CentralityScore) => s.betweenness, scores);
    SameMap(Up, (e: ServiceEntry) => if e.availability > 0 then 1.0 else 0.0, catalog);
    SamplesExactly(catalog, scores);
    SameFilter(HasReport, (s: CentralityScore) => s.availability.Some?, scores);
  }

  ghost predicate HasReport(s: CentralityScore) {
    s.availability.Some?
  }

  ghost function Reported(s: CentralityScore): real {
    match s.availability
    case None => 0.0
    case Some(value) => value
  }

  lemma {:induction false} SamplesExactly(catalog: seq<ServiceEntry>, scores: seq<CentralityScore>)
    ensures AvailabilitySamples(catalog, scores) == Map(Up, catalog) + Map(Reported, Filter(HasReport, scores))
  {
    if scores != [] {
      var rest, last := scores[..|scores| - 1], scores[|scores| - 1];
      SamplesExactly(catalog, rest);
      MapOneMore(Reported, Filter(HasReport, rest), last);
    }
  }

  /** No higher on either centrality and no less available: no more critical. */
  lemma MoreCriticalIsHigher(s: CentralityScore, t: CentralityScore, scale: Scale)
    requires scale.pagerank.0 <= scale.pagerank.1 && scale.betweenness.0 <= scale.betweenness.1
    requires scale.availability.0 <= scale.availability.1
    requires s.pagerank <= t.pagerank && s.betweenness <= t.betweenness
    requires ToLower(s.service) in scale.available && ToLower(t.service) in scale.available
    requires scale.available[ToLower(s.service)] >= scale.available[ToLower(t.service)]
    ensures CriticalityOf(s, scale) <= CriticalityOf(t, scale)
  {
    NormMonotone(s.pagerank, t.pagerank, scale.pagerank.0, scale.pagerank.1);
    NormMonotone(s.betweenness, t.betweenness, scale.betweenness.0, scale.betweenness.1);
    NormMonotone(scale.available[ToLower(t.service)], scale.available[ToLower(s.service)], scale.availability.0, scale.availability.1);
  }

  /** Every criticality lies in the unit interval. */
  lemma {:induction false} CriticalitiesInUnit(scores: seq<CentralityScore>, scale: Scale)
    ensures forall k :: k in CriticalityMap(scores, scale) ==> 0.0 <= CriticalityMap(scores, scale)[k] <= 1.0
  {
    if scores != [] {
      CriticalitiesInUnit(scores[..|scores| - 1], scale);
      CriticalityInUnit(scores[|scores| - 1], scale);
    }
  }

  method ReadCatalog(catalog: seq<ServiceEntry>) returns (available: map<string, real>, availVals: seq<real>)
    ensures available == CatalogAvailability(catalog) && availVals == Map(Up, catalog)
  {
    available, availVals := map[], [];
    for i := 0 to |catalog|
      invariant available == CatalogAvailability(catalog[..i])
      invariant availVals == Map(Up, catalog[..i])
    {
      assert catalog[..i + 1][..i] == catalog[..i];
      var avail := 0.0;
      if catalog[i].availability > 0 {
        avail := 1.0;
      }
      available := available[ToLower(catalog[i].name) := avail];
      availVals := availVals + [avail];
    }
    assert catalog[..|catalog|] == catalog;
  }

  method MeasureScale(scores: seq<CentralityScore>, catalog: seq<ServiceEntry>) returns (scale: Scale)
    ensures scale == ScaleOf(scores, catalog)
  {
    var prVals: seq<real>, bcVals: seq<real> := [], [];
    var available, availVals := ReadCatalog(catalog);
    for i := 0 to |scores|
      invariant prVals == Map(PagerankOf, scores[..i])
      invariant bcVals == Map(BetweennessOf, scores[..i])
      invariant available == Availability(catalog, scores[..i])
      invariant availVals == AvailabilitySamples(catalog, scores[..i])
    {
      assert scores[..i + 1][..i] == scores[..i];
      prVals := prVals + [scores[i].pagerank];
      bcVals := bcVals + [scores[i].betweenness];
      if scores[i].availability.Some? {
        available := available[ToLower(scores[i].service) := scores[i].availability.value];
        availVals := availVals + [scores[i].availability.value];
      }
    }
    assert scores[..|scores|] == scores;
    return Scale(Band(prVals), Band(bcVals), Band(availVals), available);
  }

  method MeasureCriticality(s: CentralityScore, scale: Scale) returns (c: real)
    ensures c == CriticalityOf(s, scale) && 0.0 <= c <= 1.0
  {
    var prN := Norm(s.pagerank, scale.pagerank.0, scale.pagerank.1);
    var bcN := Norm(s.betweenness, scale.betweenness.0, scale.betweenness.1);
    var availN := NEUTRAL;
    if ToLower(s.service) in scale.available {
      availN := Norm(scale.available[ToLower(s.service)], scale.availability.0, scale.availability.1);
    }
    c := 0.4 * prN + 0.4 * bcN + 0.2 * (1.0 - availN);
    CriticalityInUnit(s, scale);
  }

  method ComputeCriticality(service: string, scores: seq<CentralityScore>, catalog: seq<ServiceEntry>)
    returns (byService: map<string, real>, target: real)
    ensures byService == CriticalityMap(scores, ScaleOf(scores, catalog))
    ensures target == TargetCriticality(byService, service)
    ensures target == if ToLower(service) in byService && byService[ToLower(service)] != 0.0 then byService[ToLower(service)] else 0.5
    ensures forall k :: k in byService ==> 0.0 <= byService[k] <= 1.0
    ensures 0.0 < target <= 1.0
  {
    var scale := MeasureScale(scores, catalog);
    byService := map[];
    for i := 0 to |scores|
      invariant byService == CriticalityMap(scores[..i], scale)
    {
      assert scores[..i + 1][..i] == scores[..i];
      var c := MeasureCriticality(scores[i], scale);
      byService := byService[ToLower(scores[i].service) := c];
    }
    assert scores[..|scores|] == scores;
    CriticalitiesInUnit(scores, scale);
    target := if ToLower(service) in byService then byService[ToLower(service)] else 0.0;
    if target == 0.0 {
      target := NEUTRAL;
    }
  }

  // ----- peers -----

  function Rate(agg: map<string, real>, service: string): real {
    if service in agg then agg[service] else 0.0
  }

  function AddRates(agg: map<string, real>, peers: seq<Peer>): map<string, real> {
    if peers == [] then agg
    else
      var before := AddRates(agg, peers[..|peers| - 1]);
      var last := peers[|peers| - 1];
      before[ToLower(last.service) := Rate(before, ToLower(last.service)) + last.rate]
  }

  ghost function PeersOf(service: string): Peer -> bool {
    (p: Peer) => ToLower(p.service) == service
  }

  ghost function RateOf(): Peer -> real {
    (p: Peer) => p.rate
  }

  /** A service's traffic is the sum of the rates of all its entries, in either direction. */
  lemma {:induction false} RatesAddUp(agg: map<string, real>, peers: seq<Peer>, service: string)
    ensures var all := AddRates(agg, peers);
            var before := if service in agg then agg[service] else 0.0;
            && (service in all <==> service in agg || Filter(PeersOf(service), peers) != [])
            && (service in all ==> all[service] == before + Sum(Map(RateOf(), Filter(PeersOf(service), peers))))
  {
    if peers != [] {
      RatesAddUp(agg, peers[..|peers| - 1], service);
      MapOneMore(RateOf(), Filter(PeersOf(service), peers[..|peers| - 1]), peers[|peers| - 1]);
      SumOneMore(Map(RateOf(), Filter(PeersOf(service), peers[..|peers| - 1])), peers[|peers| - 1].rate);
    }
  }

  lemma SumOneMore(s: seq<real>, x: real)
    ensures Sum(s + [x]) == Sum(s) + x
  {
    assert (s + [x])[..|s + [x]| - 1] == s;
  }

  function RatesOf(agg: map<string, real>): string -> real {
    service => Rate(agg, service)
  }

  function Weigher(agg: map<string, real>, band: (real, real)): string -> PeerWeight {
    service => PeerWeight(service, Norm(Rate(agg, service), band.0, band.1))
  }

  /** Heavier peers first, ties by name. */
  predicate PeerLe(p: PeerWeight, q: PeerWeight) {
    p.weight > q.weight || (p.weight == q.weight && LexLe(p.service, q.service))
  }

  lemma PeerTotalOrder()
    ensures TotalOrder(PeerLe)
  {
    LexTotalOrder();
  }

  function Take<T>(s: seq<T>, k: int): seq<T> {
    if k <= 0 then [] else if |s| > k then s[..k] else s
  }

  function Ranked(agg: map<string, real>, listing: seq<string>): seq<PeerWeight> {
    Sort(Map(Weigher(agg, Band(Map(RatesOf(agg), listing))), listing), PeerLe)
  }

  /** The k heaviest peers, by any listing of the aggregated services. */
  ghost function TopPeers(agg: map<string, real>, k: int): seq<PeerWeight> {
    Take(Ranked(agg, Listing(agg.Keys)), k)
  }

  lemma {:induction false} RankedPermutes(agg: map<string, real>, a: seq<string>, b: seq<string>)
    requires multiset(a) == multiset(b)
    ensures Ranked(agg, a) == Ranked(agg, b)
  {
    MapPermutes(RatesOf(agg), a, b);
    BandPermutes(Map(RatesOf(agg), a), Map(RatesOf(agg), b));
    var w := Weigher(agg, Band(Map(RatesOf(agg), a)));
    MapPermutes(w, a, b);
    PeerTotalOrder();
    SortCanonical(Map(w, a), Map(w, b), PeerLe);
  }

  /** What a service's traffic weighs against the band of all rates. */
  ghost function WeightOf(agg: map<string, real>, service: string): real {
    var band := Band(Map(RatesOf(agg), Listing(agg.Keys)));
    Norm(Rate(agg, service), band.0, band.1)
  }

  /** More traffic never weighs less. */
  lemma WeightMonotone(agg: map<string, real>, a: string, b: string)
    requires a in agg && b in agg && agg[a] <= agg[b]
    ensures 0.0 <= WeightOf(agg, a) <= WeightOf(agg, b) <= 1.0
  {
    var band := Band(Map(RatesOf(agg), Listing(agg.Keys)));
    BandOrdered(Map(RatesOf(agg), Listing(agg.Keys)));
    NormMonotone(agg[a], agg[b], band.0, band.1);
  }

  /** The k heaviest: as many as there are up to k, each a service with its weight, heavier
      ones first and equal ones by name; and no service left out would come before one kept. */
  ghost predicate KeepsHeaviest(peers: seq<PeerWeight>, agg: map<string, real>, k: int) {
    && |peers| == (if k <= 0 then 0 else if |agg| <= k then |agg| else k)
    && (forall i :: 0 <= i < |peers| ==> peers[i].service in agg && peers[i].weight == WeightOf(agg, peers[i].service))
    && (forall i, j :: 0 <= i < j < |peers| ==> Before(peers[i].weight, peers[i].service, peers[j].weight, peers[j].service))
    && forall i, svc :: 0 <= i < |peers| && svc in agg && (forall j :: 0 <= j < |peers| ==> peers[j].service != svc) ==>
                          Before(peers[i].weight, peers[i].service, WeightOf(agg, svc), svc)
  }

  ghost predicate Before(weight: real, service: string, weight': real, service': string) {
    weight > weight' || (weight == weight' && LexLe(service, service'))
  }

  lemma RankedMembers(agg: map<string, real>)
    ensures var ranked := Ranked(agg, Listing(agg.Keys));
            && Sorted(ranked, PeerLe) && |ranked| == |agg|
            && (forall p :: p in ranked ==> p.service in agg && p.weight == WeightOf(agg, p.service))
            && (forall svc :: svc in agg ==> PeerWeight(svc, WeightOf(agg, svc)) in ranked)
  {
    var listing := Listing(agg.Keys);
    var w := Weigher(agg, Band(Map(RatesOf(agg), listing)));
    ListingMembers(agg.Keys);
    PeerTotalOrder();
    SortedMap(w, listing, PeerLe);
    forall svc | svc in agg ensures PeerWeight(svc, WeightOf(agg, svc)) in Ranked(agg, listing) {
      assert w(svc) == PeerWeight(svc, WeightOf(agg, svc));
    }
    forall p | p in Ranked(agg, listing) ensures p.service in agg && p.weight == WeightOf(agg, p.service) {
      var svc :| svc in listing && w(svc) == p;
    }
  }

  lemma TopPeersKeepHeaviest(agg: map<string, real>, k: int)
    ensures KeepsHeaviest(TopPeers(agg, k), agg, k)
  {
    RankedMembers(agg);
    var ranked, peers := Ranked(agg, Listing(agg.Keys)), TopPeers(agg, k);
    assert forall i :: 0 <= i < |peers| ==> peers[i] == ranked[i] && ranked[i] in ranked;
    forall i, j | 0 <= i < j < |peers| ensures Before(peers[i].weight, peers[i].service, peers[j].weight, peers[j].service) {
      assert PeerLe(ranked[i], ranked[j]);
    }
    forall i, svc | 0 <= i < |peers| && svc in agg && (forall j :: 0 <= j < |peers| ==> peers[j].service != svc)
      ensures Before(peers[i].weight, peers[i].service, WeightOf(agg, svc), svc)
    {
      var j :| 0 <= j < |ranked| && ranked[j] == PeerWeight(svc, WeightOf(agg, svc));
      assert |peers| <= j;
      assert PeerLe(ranked[i], ranked[j]);
    }
  }

  method AggregatePeerTraffic(outgoing: seq<Peer>, incoming: seq<Peer>) returns (agg: map<string, real>)
    ensures agg == AddRates(AddRates(map[], outgoing), incoming)
    ensures forall service :: service in agg ==>
              agg[service] == Sum(Map(RateOf(), Filter(PeersOf(service), outgoing))) + Sum(Map(RateOf(), Filter(PeersOf(service), incoming)))
    ensures forall p :: p in outgoing || p in incoming ==> ToLower(p.service) in agg
  {
    forall service
      ensures var agg := AddRates(AddRates(map[], outgoing), incoming);
              service in agg ==>
                agg[service] == Sum(Map(RateOf(), Filter(PeersOf(service), outgoing))) + Sum(Map(RateOf(), Filter(PeersOf(service), incoming)))
      ensures forall p :: (p in outgoing || p in incoming) && ToLower(p.service) == service ==>
                service in AddRates(AddRates(map[], outgoing), incoming)
    {
      RatesAddUp(map[], outgoing, service);
      RatesAddUp(AddRates(map[], outgoing), incoming, service);
      FilterMembers(PeersOf(service), outgoing);
      FilterMembers(PeersOf(service), incoming);
    }
    agg := map[];
    for i := 0 to |outgoing|
      invariant agg == AddRates(map[], outgoing[..i])
    {
      assert outgoing[..i + 1][..i] == outgoing[..i];
      var key := ToLower(outgoing[i].service);
      agg := agg[key := Rate(agg, key) + outgoing[i].rate];
    }
    assert outgoing[..|outgoing|] == outgoing;
    ghost var first := agg;
    for i := 0 to |incoming|
      invariant agg == AddRates(first, incoming[..i])
    {
      assert incoming[..i + 1][..i] == incoming[..i];
      var key := ToLower(incoming[i].service);
      agg := agg[key := Rate(agg, key) + incoming[i].rate];
    }
    assert incoming[..|incoming|] == incoming;
  }

  /** Go meets the services of the map in an arbitrary order. */
  method CollectRates(agg: map<string, real>) returns (vals: seq<real>, ghost seen: seq<string>)
    ensures Lists(seen, agg.Keys) && vals == Map(RatesOf(agg), seen)
  {
    vals, seen := [], [];
    var rest := agg.Keys;
    while rest != {}
      invariant rest <= agg.Keys
      invariant Lists(seen, agg.Keys - rest)
      invariant vals == Map(RatesOf(agg), seen)
    {
      var service :| service in rest;
      VisitOne(seen, agg.Keys, rest, service);
      MapOneMore(RatesOf(agg), seen, service);
      vals := vals + [agg[service]];
      seen := seen + [service];
      rest := rest - {service};
    }
    VisitedAll(seen, agg.Keys, rest);
  }

  method WeighPeers(agg: map<string, real>, band: (real, real)) returns (peers: seq<PeerWeight>, ghost seen: seq<string>)
    ensures Lists(seen, agg.Keys) && peers == Map(Weigher(agg, band), seen)
  {
    peers, seen := [], [];
    var rest := agg.Keys;
    while rest != {}
      invariant rest <= agg.Keys
      invariant Lists(seen, agg.Keys - rest)
      invariant peers == Map(Weigher(agg, band), seen)
    {
      var service :| service in rest;
      VisitOne(seen, agg.Keys, rest, service);
      MapOneMore(Weigher(agg, band), seen, service);
      peers := peers + [PeerWeight(service, Norm(agg[service], band.0, band.1))];
      seen := seen + [service];
      rest := rest - {service};
    }
    VisitedAll(seen, agg.Keys, rest);
  }

  lemma {:induction false} RankedFromAnyOrders(agg: map<string, real>, a: seq<string>, b: seq<string>)
    requires Lists(a, agg.Keys) && Lists(b, agg.Keys)
    ensures Sort(Map(Weigher(agg, Band(Map(RatesOf(agg), a))), b), PeerLe) == Ranked(agg, Listing(agg.Keys))
  {
    ListingLists(agg.Keys);
    RankedPermutes(agg, a, Listing(agg.Keys));
    var w := Weigher(agg, Band(Map(RatesOf(agg), a)));
    MapPermutes(w, a, b);
    PeerTotalOrder();
    SortCanonical(Map(w, a), Map(w, b), PeerLe);
  }

  /** The heaviest peers are the same whatever the two iteration orders are. */
  method TopKPeerWeights(agg: map<string, real>, k: int) returns (peers: seq<PeerWeight>)
    ensures peers == TopPeers(agg, k)
    ensures KeepsHeaviest(peers, agg, k)
  {
    TopPeersKeepHeaviest(agg, k);
    if k <= 0 || |agg| == 0 {
      assert |agg| == 0 ==> agg.Keys == {};
      return [];
    }
    var vals, a := CollectRates(agg);
    var band := Band(vals);
    var unsorted, b := WeighPeers(agg, band);
    RankedFromAnyOrders(agg, a, b);
    peers := Sort(unsorted, PeerLe);
    if |peers| > k {
      peers := peers[..k];
    }
  }
}
