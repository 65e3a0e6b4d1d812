/** One discovery cycle: collects the nodes and the services from the placement index and
    scores the services one after the other, in the order Go's map yields them, with one
    cycle state that counts the nodes picked so far. */
module Runner {
  import opened Wrappers
  import opened Sorting
  import opened ScorerSpec
  import opened Scorer

  /** The services picked for a node. */
  ghost function Chosen<S, N>(picks: map<S, N>, node: N): set<S> {
    set svc | svc in picks && picks[svc] == node
  }

  /** The cycle state counts, for every node, the services it was picked for. */
  ghost predicate Tallies<S, N(!new)>(counts: N -> nat, picks: map<S, N>) {
    forall node :: counts(node) == |Chosen(picks, node)|
  }

  lemma ChosenOneMore<S, N>(picks: map<S, N>, svc: S, best: N, node: N)
    requires svc !in picks
    ensures |Chosen(picks[svc := best], node)| == |Chosen(picks, node)| + if best == node then 1 else 0
  {
    assert Chosen(picks[svc := best], node) == Chosen(picks, node) + if best == node then {svc} else {};
  }

  lemma TallyOneMore<S, N(!new)>(before: N -> nat, after: N -> nat, picks: map<S, N>, svc: S, best: N)
    requires Tallies(before, picks) && svc !in picks
    requires forall node :: after(node) == before(node) + if node == best then 1 else 0
    ensures Tallies(after, picks[svc := best])
  {
    forall node ensures after(node) == |Chosen(picks[svc := best], node)| {
      assert before(node) == |Chosen(picks, node)|;
      ChosenOneMore(picks, svc, best, node);
    }
  }

  function AllServices(index: map<string, set<string>>): set<string> {
    set node, svc | node in index && svc in index[node] :: svc
  }

  method CollectNodes(index: map<string, set<string>>, labelled: set<string>) returns (nodes: seq<string>)
    ensures Lists(nodes, index.Keys + labelled)
  {
    var nodeSet := index.Keys + labelled;
    nodes := [];
    var rest := nodeSet;
    while rest != {}
      invariant rest <= nodeSet && Lists(nodes, nodeSet - rest)
    {
      var node :| node in rest;
      VisitOne(nodes, nodeSet, rest, node);
      nodes := nodes + [node];
      rest := rest - {node};
    }
    VisitedAll(nodes, nodeSet, rest);
  }

  /** A decision scores only nodes of the cluster and picks one of them; a scored one gives
      between 15 and 100, a neutral one 30 or 50, and nothing only in an empty cluster. */
  ghost predicate Sound(d: Decision, nodes: set<string>) {
    && d.scores.Keys <= nodes
    && (d.bestNode in d.scores || (d.status.NoMetrics? && nodes == {} && d.bestNode == ""))
    && forall n :: n in d.scores ==> if d.status.Scheduled? then 15 <= d.scores[n] <= 100 else d.scores[n] in {30, 50}
  }

  lemma {:induction false} ScoredAreListed(g: Setting, listing: seq<string>, nodes: set<string>)
    requires Lists(listing, nodes)
    ensures Scores(g, FeasibleNodes(listing, g.runtime, g.request)).Keys <= nodes
  {
    FilterMembers(Untainted(g.runtime), listing);
    FilterMembers(Fits(g.runtime, g.request), TargetNodes(listing, g.runtime));
    forall n | n in FeasibleNodes(listing, g.runtime, g.request) ensures n in nodes {
      assert n in listing;
      assert n in multiset(listing);
    }
  }

  lemma NeutralIsSound(d: Decision, s: Snapshot, svc: string, listing: seq<string>, nodes: set<string>)
    requires Lists(listing, nodes) && IsNeutral(d, s, svc, listing)
    ensures Sound(d, nodes)
  {
    var runtime := OrNothing(s.runtimeAgain);
    FilterMembers(Untainted(runtime), listing);
    forall n | n in TargetNodes(listing, runtime) ensures n in nodes {
      assert n in listing;
      assert n in multiset(listing);
    }
    if TargetNodes(listing, runtime) == [] {
      assert multiset(listing) == multiset{};
      forall n ensures n !in nodes {
        assert n !in multiset(listing);
      }
    }
  }

  /** The decision is the scorer's for the service, under these counts of earlier picks. */
  ghost predicate DecidedBy(d: Decision, topK: int, s: Snapshot, svc: string, nodes: seq<string>, selections: map<string, nat>) {
    && (d.status.NoMetrics? <==>
          s.runtime.None? || ScoredExactly(map[], nodes, s.runtime.value, EstimateRequest(s.runtime.value, svc)))
    && (d.status.NoMetrics? ==> IsNeutral(d, s, svc, nodes))
    && (d.status.Scheduled? ==>
          var g := SettingOf(s, topK, svc, selections);
          && d.scores == Scores(g, FeasibleNodes(nodes, g.runtime, g.request))
          && ScoredExactly(d.scores, nodes, g.runtime, g.request)
          && WellChosen(d, s, svc))
  }

  /** Scores one service; the decision, if it is saved. A scored one is counted. */
  method ScoreOne(scorer: Scorer, s: Snapshot, svc: string, nodes: seq<string>, ghost all: set<string>, cs: CycleState, save: bool)
    returns (saved: Option<Decision>)
    requires Lists(nodes, all)
    modifies cs
    ensures saved.Some? <==> save
    ensures saved.Some? ==> Sound(saved.value, all)
    ensures saved.Some? ==> DecidedBy(saved.value, scorer.topKPeers, s, svc, nodes, old(cs.nodeSelections))
    ensures if saved.Some? && saved.value.status.Scheduled?
            then cs.nodeSelections == OneMore(old(cs.nodeSelections), saved.value.bestNode)
            else cs.nodeSelections == old(cs.nodeSelections)
  {
    ghost var selections := cs.nodeSelections;
    var d := scorer.ComputeForService(s, svc, nodes, cs, save);
    if !save {
      return None;
    }
    if d.status.NoMetrics? {
      NeutralIsSound(d, s, svc, nodes, all);
    } else {
      ScoredAreListed(SettingOf(s, scorer.topKPeers, svc, selections), nodes, all);
    }
    return Some(d);
  }

  /** Which services of the saved ones were scored, and the node picked for each. */
  ghost predicate Picked(picks: map<string, string>, saved: map<string, Decision>) {
    && picks.Keys <= saved.Keys
    && forall svc :: svc in saved ==> if saved[svc].status.Scheduled? then svc in picks && picks[svc] == saved[svc].bestNode else svc !in picks
  }

  /** A decision is sound and the scorer's own, under the counts of some earlier picks. */
  ghost function IsDecided(topK: int, seen: string -> Snapshot, nodes: seq<string>, all: set<string>): (string, Decision) -> bool {
    (svc: string, d: Decision) => Sound(d, all) && exists counts :: DecidedBy(d, topK, seen(svc), svc, nodes, counts)
  }

  ghost predicate Every<K, V>(m: map<K, V>, ok: (K, V) -> bool) {
    forall k :: k in m ==> ok(k, m[k])
  }

  lemma EveryOneMore<K, V>(m: map<K, V>, ok: (K, V) -> bool, k: K, v: V)
    requires Every(m, ok) && ok(k, v)
    ensures Every(m[k := v], ok)
  {
  }

  lemma AddDecision(saved: map<string, Decision>, topK: int, seen: string -> Snapshot, nodes: seq<string>, all: set<string>,
                    svc: string, d: Decision, counts: map<string, nat>)
    requires Every(saved, IsDecided(topK, seen, nodes, all))
    requires Sound(d, all) && DecidedBy(d, topK, seen(svc), svc, nodes, counts)
    ensures Every(saved[svc := d], IsDecided(topK, seen, nodes, all))
  {
    EveryOneMore(saved, IsDecided(topK, seen, nodes, all), svc, d);
  }

  /** What a scored decision that is saved does to the tally; any other leaves it alone. */
  lemma PickOneMore(before: map<string, nat>, after: map<string, nat>, picks: map<string, string>, saved: map<string, Decision>,
                    svc: string, d: Decision)
    requires Picked(picks, saved) && Tallies(CountIn(before), picks) && svc !in saved
    requires after == if d.status.Scheduled? then OneMore(before, d.bestNode) else before
    ensures var picked := if d.status.Scheduled? then picks[svc := d.bestNode] else picks;
            Picked(picked, saved[svc := d]) && Tallies(CountIn(after), picked)
  {
    if d.status.Scheduled? {
      TallyOneMore(CountIn(before), CountIn(after), picks, svc, d.bestNode);
    }
  }

  /** Scores one more service and adds its decision, if it is saved. */
  method ScoreNext(scorer: Scorer, svc: string, nodes: seq<string>, ghost all: set<string>, seen: string -> Snapshot, save: bool,
                   cs: CycleState, before: map<string, Decision>, ghost picked: map<string, string>)
    returns (saved: map<string, Decision>, ghost picks: map<string, string>)
    requires Lists(nodes, all) && svc !in before
    requires Every(before, IsDecided(scorer.topKPeers, seen, nodes, all))
    requires Picked(picked, before) && Tallies(CountIn(cs.nodeSelections), picked)
    modifies cs
    ensures forall k :: k in saved <==> k in before || (save && k == svc)
    ensures Every(saved, IsDecided(scorer.topKPeers, seen, nodes, all))
    ensures Picked(picks, saved) && Tallies(CountIn(cs.nodeSelections), picks)
  {
    saved, picks := before, picked;
    ghost var counts := cs.nodeSelections;
    var d := ScoreOne(scorer, seen(svc), svc, nodes, all, cs, save);
    if d.Some? {
      saved := before[svc := d.value];
      AddDecision(before, scorer.topKPeers, seen, nodes, all, svc, d.value, counts);
      PickOneMore(counts, cs.nodeSelections, picked, before, svc, d.value);
      picks := if d.value.status.Scheduled? then picked[svc := d.value.bestNode] else picked;
    }
  }

  lemma Parts<T>(part: set<T>, rest: set<T>, all: set<T>)
    requires rest <= all && part == all - rest
    ensures |part| + |rest| == |all| && (rest == {} ==> part == all)
  {
  }

  /** Scores the services one after the other, in any order, until the limit is reached. */
  method ScoreAll(scorer: Scorer, services: set<string>, nodes: seq<string>, ghost all: set<string>, seen: string -> Snapshot,
                  saves: string -> bool, limit: Option<nat>, cs: CycleState)
    returns (saved: map<string, Decision>, ghost scored: set<string>, ghost picks: map<string, string>)
    requires Lists(nodes, all) && cs.nodeSelections == map[]
    modifies cs
    ensures scored <= services
    ensures limit.None? || |services| <= limit.value ==> scored == services
    ensures limit.Some? && limit.value < |services| ==> |scored| == limit.value
    ensures forall svc :: svc in saved <==> svc in scored && saves(svc)
    ensures Every(saved, IsDecided(scorer.topKPeers, seen, nodes, all))
    ensures Picked(picks, saved) && Tallies(CountIn(cs.nodeSelections), picks)
  {
    saved, picks, scored := map[], map[], {};
    var rest, count := services, 0;
    while rest != {} && limit != Some(count)
      invariant rest <= services && count + |rest| == |services|
      invariant limit.Some? ==> count <= limit.value
      invariant forall svc :: svc in saved <==> svc in services && svc !in rest && saves(svc)
      invariant Every(saved, IsDecided(scorer.topKPeers, seen, nodes, all))
      invariant Picked(picks, saved) && Tallies(CountIn(cs.nodeSelections), picks)
      decreases |rest|
    {
      var svc :| svc in rest;
      saved, picks := ScoreNext(scorer, svc, nodes, all, seen, saves(svc), cs, saved, picks);
      rest, count := rest - {svc}, count + 1;
    }
    scored := services - rest;
    Parts(scored, rest, services);
  }

  /** One cycle; `seen` gives what the providers answer while a service is scored, `saves`
      whether its decision can be saved, and `limit` after how many services the cycle is
      cancelled, if it is. Without a cancellation every service of the index is scored, and
      otherwise as many as the limit says. Of each service scored whose decision can be
      saved it is saved: it is the scorer's, sound, and the cycle state tallies the scored ones. */
  method RunOnce(scorer: Scorer, index: map<string, set<string>>, labelled: set<string>, seen: string -> Snapshot,
                 saves: string -> bool, limit: Option<nat>)
    returns (saved: map<string, Decision>, cs: CycleState, ghost scored: set<string>, ghost nodes: seq<string>,
             ghost picks: map<string, string>)
    ensures fresh(cs)
    ensures scored <= AllServices(index)
    ensures limit.None? || |AllServices(index)| <= limit.value ==> scored == AllServices(index)
    ensures limit.Some? && limit.value < |AllServices(index)| ==> |scored| == limit.value
    ensures forall svc :: svc in saved <==> svc in scored && saves(svc)
    ensures index != map[] ==> Lists(nodes, index.Keys + labelled)
    ensures Every(saved, IsDecided(scorer.topKPeers, seen, nodes, index.Keys + labelled))
    ensures Picked(picks, saved) && Tallies(CountIn(cs.nodeSelections), picks)
  {
    cs := new CycleState();
    saved, picks, scored, nodes := map[], map[], {}, [];
    if |index| == 0 {
      assert AllServices(index) == {};
      return;
    }
    var listing := CollectNodes(index, labelled);
    nodes := listing;
    saved, scored, picks := ScoreAll(scorer, AllServices(index), listing, index.Keys + labelled, seen, saves, limit, cs);
  }
}
