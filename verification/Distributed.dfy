/**
 The distributed leader: discovery with a growing list of failed nodes, core-weighted rate shares,
 the latest report of every node, and the agents that carry the shares to their schedulers.
 */
module Distributed {
  import opened Wrappers
  import Pipeline

  datatype Node = Node(id: string, cores: nat)
  datatype Report = Report(requests: nat, errors: nat)
  datatype Hold = Released | Held(rps: real)

  /** What one control interval brings: hold commands, legacy overrides, replies and the controller's proposal. */
  datatype Input = Input(commands: seq<Hold>, overrides: seq<real>, replies: map<string, Report>, proposed: real)

  datatype State = State(failed: seq<string>, weights: map<string, real>, reports: map<string, Report>, hold: Hold)

  // ---------------------------------------------------------------------------
  // Discovery
  // ---------------------------------------------------------------------------

  predicate Distinct(nodes: seq<Node>) {
    forall i, j :: 0 <= i < j < |nodes| ==> nodes[i].id != nodes[j].id
  }

  function Active(nodes: seq<Node>, failed: seq<string>): seq<Node> {
    if nodes == [] then []
    else Active(nodes[..|nodes|-1], failed) + if nodes[|nodes|-1].id in failed then [] else [nodes[|nodes|-1]]
  }

  function Marked(failed: seq<string>, id: string): seq<string> {
    if id in failed then failed else failed + [id]
  }

  /** `failed` once every one of `nodes` without an answer is marked. */
  function MarkSilent(failed: seq<string>, nodes: seq<Node>, answered: set<string>): seq<string> {
    if nodes == [] then failed
    else
      var f, n := MarkSilent(failed, nodes[..|nodes|-1], answered), nodes[|nodes|-1];
      if n.id in answered then f else Marked(f, n.id)
  }

  class Discovery {
    const nodes: seq<Node>
    var failed: seq<string>

    constructor (nodes: seq<Node>)
      ensures this.nodes == nodes && failed == []
    {
      this.nodes := nodes;
      failed := [];
    }

    method Discover() returns (active: seq<Node>)
      ensures active == Active(nodes, failed)
    {
      active := [];
      for i := 0 to |nodes|
        invariant active == Active(nodes[..i], failed)
      {
        assert nodes[..i + 1][..i] == nodes[..i];
        if nodes[i].id !in failed { active := active + [nodes[i]]; }
      }
      assert nodes[..|nodes|] == nodes;
    }

    method MarkFailed(id: string)
      modifies this
      ensures failed == Marked(old(failed), id)
    {
      if id !in failed { failed := failed + [id]; }
    }
  }

  // ---------------------------------------------------------------------------
  // Weights and shares
  // ---------------------------------------------------------------------------

  function TotalCores(nodes: seq<Node>): nat {
    if nodes == [] then 0 else TotalCores(nodes[..|nodes|-1]) + nodes[|nodes|-1].cores
  }

  function Fraction(cores: nat, total: nat): real
    requires total > 0
  {
    cores as real / total as real
  }

  function Weighted(nodes: seq<Node>, total: nat): map<string, real>
    requires total > 0
  {
    if nodes == [] then map[]
    else Weighted(nodes[..|nodes|-1], total)[nodes[|nodes|-1].id := Fraction(nodes[|nodes|-1].cores, total)]
  }

  /** Without any core the old weights stay. */
  function WeightsFor(nodes: seq<Node>, weights: map<string, real>): map<string, real> {
    if TotalCores(nodes) == 0 then weights else Weighted(nodes, TotalCores(nodes))
  }

  function Share(weights: map<string, real>, id: string, rate: real): real {
    rate * if id in weights then weights[id] else 0.0
  }

  function Shares(nodes: seq<Node>, weights: map<string, real>, rate: real): (s: seq<real>)
    ensures |s| == |nodes|
  {
    if nodes == [] then [] else Shares(nodes[..|nodes|-1], weights, rate) + [Share(weights, nodes[|nodes|-1].id, rate)]
  }

  function Sum(s: seq<real>): real {
    if s == [] then 0.0 else Sum(s[..|s|-1]) + s[|s|-1]
  }

  // ---------------------------------------------------------------------------
  // One tick
  // ---------------------------------------------------------------------------

  /** The hold after a tick's commands: the last override, else the last command, else the old hold. */
  function HoldAfter(hold: Hold, commands: seq<Hold>, overrides: seq<real>): Hold {
    if overrides != [] then Held(overrides[|overrides|-1])
    else if commands != [] then commands[|commands|-1]
    else hold
  }

  function Decision(hold: Hold, proposed: real): real {
    match hold case Held(rps) => rps case Released => proposed
  }

  function Fetched(reports: map<string, Report>, nodes: seq<Node>, replies: map<string, Report>): map<string, Report> {
    if nodes == [] then reports
    else
      var r, n := Fetched(reports, nodes[..|nodes|-1], replies), nodes[|nodes|-1];
      if n.id in replies then r[n.id := replies[n.id]] else r
  }

  function TickState(nodes: seq<Node>, s: State, input: Input): State {
    var active := Active(nodes, s.failed);
    if active == [] then s
    else State(MarkSilent(s.failed, active, input.replies.Keys), WeightsFor(active, s.weights),
               Fetched(s.reports, active, input.replies), HoldAfter(s.hold, input.commands, input.overrides))
  }

  function TickDecision(s: State, input: Input): real {
    Decision(HoldAfter(s.hold, input.commands, input.overrides), input.proposed)
  }

  function TickShares(nodes: seq<Node>, s: State, input: Input): seq<real> {
    var active := Active(nodes, s.failed);
    Shares(active, WeightsFor(active, s.weights), TickDecision(s, input))
  }

  function Accepting(nodes: seq<Node>, refused: set<string>): set<string> {
    (set n | n in nodes :: n.id) - refused
  }

  /** Startup: a share for everyone, then weights for those who accepted the test. */
  function StartState(nodes: seq<Node>, refused: set<string>): State {
    var weights := WeightsFor(nodes, map[]);
    var failed := MarkSilent([], nodes, Accepting(nodes, refused));
    var active := Active(nodes, failed);
    State(failed, if active == [] then weights else WeightsFor(active, weights), map[], Released)
  }

  function RunState(nodes: seq<Node>, refused: set<string>, inputs: seq<Input>): State {
    if inputs == [] then StartState(nodes, refused)
    else TickState(nodes, RunState(nodes, refused, inputs[..|inputs|-1]), inputs[|inputs|-1])
  }

  ghost function Total(reports: map<string, Report>, errors: bool): nat {
    if reports == map[] then 0
    else
      var id :| id in reports;
      (if errors then reports[id].errors else reports[id].requests) + Total(reports - {id}, errors)
  }

  class Leader {
    const discovery: Discovery
    var weights: map<string, real>
    var reports: map<string, Report>
    var hold: Hold

    constructor (discovery: Discovery)
      ensures this.discovery == discovery && weights == map[] && reports == map[] && hold == Released
    {
      this.discovery := discovery;
      weights, reports, hold := map[], map[], Released;
    }

    ghost function Now(): State
      reads this, discovery
    {
      State(discovery.failed, weights, reports, hold)
    }

    method ComputeWeights(nodes: seq<Node>)
      modifies `weights
      ensures weights == WeightsFor(nodes, old(weights))
    {
      var total := 0;
      for i := 0 to |nodes|
        invariant total == TotalCores(nodes[..i]) && weights == old(weights)
      {
        assert nodes[..i + 1][..i] == nodes[..i];
        total := total + nodes[i].cores;
      }
      assert nodes[..|nodes|] == nodes;
      if total == 0 { return; }
      weights := map[];
      for i := 0 to |nodes|
        invariant weights == Weighted(nodes[..i], total)
      {
        assert nodes[..i + 1][..i] == nodes[..i];
        weights := weights[nodes[i].id := nodes[i].cores as real / total as real];
      }
    }

    method DistributeRate(nodes: seq<Node>, rate: real) returns (shares: seq<real>)
      ensures shares == Shares(nodes, weights, rate)
    {
      shares := [];
      for i := 0 to |nodes|
        invariant shares == Shares(nodes[..i], weights, rate)
      {
        assert nodes[..i + 1][..i] == nodes[..i];
        var weight := if nodes[i].id in weights then weights[nodes[i].id] else 0.0;
        assert rate * weight == Share(weights, nodes[i].id, rate);
        shares := shares + [rate * weight];
      }
      assert nodes[..|nodes|] == nodes;
    }

    method ProcessCommands(commands: seq<Hold>, overrides: seq<real>)
      modifies `hold
      ensures hold == HoldAfter(old(hold), commands, overrides)
    {
      for i := 0 to |commands|
        invariant hold == HoldAfter(old(hold), commands[..i], [])
      {
        hold := commands[i];
      }
      var latest := None;
      for i := 0 to |overrides|
        invariant latest == if i == 0 then None else Some(overrides[i - 1])
      {
        latest := Some(overrides[i]);
      }
      if latest.Some? { hold := Held(latest.value); }
    }

    /** Stores each reply and marks the nodes that did not give one. */
    method Fetch(nodes: seq<Node>, replies: map<string, Report>)
      modifies `reports, discovery
      ensures reports == Fetched(old(reports), nodes, replies)
      ensures discovery.failed == MarkSilent(old(discovery.failed), nodes, replies.Keys)
    {
      for i := 0 to |nodes|
        invariant reports == Fetched(old(reports), nodes[..i], replies)
        invariant discovery.failed == MarkSilent(old(discovery.failed), nodes[..i], replies.Keys)
      {
        assert nodes[..i + 1][..i] == nodes[..i];
        var id := nodes[i].id;
        if id in replies {
          reports := reports[id := replies[id]];
        } else {
          discovery.MarkFailed(id);
        }
      }
      assert nodes[..|nodes|] == nodes;
    }

    /** One round of the tick loop; `stopped` when no node is left. */
    method Tick(input: Input) returns (decision: real, shares: seq<real>, stopped: bool)
      modifies this, discovery
      ensures Now() == TickState(discovery.nodes, old(Now()), input)
      ensures stopped <==> Active(discovery.nodes, old(discovery.failed)) == []
      ensures !stopped ==> decision == TickDecision(old(Now()), input) && shares == TickShares(discovery.nodes, old(Now()), input)
    {
      var nodes := discovery.Discover();
      if nodes == [] { return 0.0, [], true; }
      ProcessCommands(input.commands, input.overrides);
      Fetch(nodes, input.replies);
      decision := Decision(hold, input.proposed);
      ComputeWeights(nodes);
      shares := DistributeRate(nodes, decision);
      stopped := false;
    }

    /** Sends the start command to each node and marks those that refuse it. */
    method StartNodes(nodes: seq<Node>, refused: set<string>)
      modifies discovery
      ensures discovery.failed == MarkSilent(old(discovery.failed), nodes, Accepting(nodes, refused))
    {
      ghost var answered := Accepting(nodes, refused);
      for i := 0 to |nodes|
        invariant discovery.failed == MarkSilent(old(discovery.failed), nodes[..i], answered)
      {
        assert nodes[..i + 1][..i] == nodes[..i];
        assert nodes[i].id in answered <==> nodes[i].id !in refused;
        if nodes[i].id in refused { discovery.MarkFailed(nodes[i].id); }
      }
      assert nodes[..|nodes|] == nodes;
    }

    /** Starts the test everywhere: first with the shares baked into the configuration, then re-sent to those left. */
    method Start(rate: real, refused: set<string>) returns (baked: seq<real>, shares: seq<real>)
      requires Now() == State([], map[], map[], Released)
      modifies this, discovery
      ensures Now() == StartState(discovery.nodes, refused)
      ensures baked == Shares(discovery.nodes, WeightsFor(discovery.nodes, map[]), rate)
      ensures shares == Shares(Active(discovery.nodes, discovery.failed), weights, rate)
    {
      hide WeightsFor, Accepting, Shares;
      var nodes := discovery.Discover();
      NoneFailed(discovery.nodes);
      hide Active;
      ComputeWeights(nodes);
      baked := DistributeRate(nodes, rate);
      StartNodes(nodes, refused);
      var left := discovery.Discover();
      if left != [] { ComputeWeights(left); }
      shares := DistributeRate(left, rate);
    }

    method FetchFinal(nodes: seq<Node>, replies: map<string, Report>)
      modifies `reports
      ensures reports == Fetched(old(reports), nodes, replies)
    {
      for i := 0 to |nodes|
        invariant reports == Fetched(old(reports), nodes[..i], replies)
      {
        assert nodes[..i + 1][..i] == nodes[..i];
        if nodes[i].id in replies { reports := reports[nodes[i].id := replies[nodes[i].id]]; }
      }
      assert nodes[..|nodes|] == nodes;
    }

    method Totals() returns (requests: nat, errors: nat)
      ensures requests == Total(reports, false) && errors == Total(reports, true)
    {
      hide Total;
      requests, errors := 0, 0;
      var left := reports;
      while left != map[]
        invariant requests + Total(left, false) == Total(reports, false)
        invariant errors + Total(left, true) == Total(reports, true)
        decreases |left|
      {
        var id :| id in left;
        TotalWithout(left, id, false);
        TotalWithout(left, id, true);
        requests := requests + left[id].requests;
        errors := errors + left[id].errors;
        left := left - {id};
      }
      TotalEmpty();
    }

    /** The last fetch before stopping marks nobody; the totals cover every node ever heard from. */
    method Finish(replies: map<string, Report>) returns (requests: nat, errors: nat)
      modifies `reports
      ensures reports == Fetched(old(reports), Active(discovery.nodes, discovery.failed), replies)
      ensures requests == Total(reports, false) && errors == Total(reports, true)
    {
      var nodes := discovery.Discover();
      FetchFinal(nodes, replies);
      requests, errors := Totals();
    }
  }

  lemma TotalEmpty()
    ensures Total(map[], false) == 0 && Total(map[], true) == 0
  {
  }

  lemma {:induction false} NoneFailed(nodes: seq<Node>)
    ensures Active(nodes, []) == nodes
  {
    if nodes != [] { NoneFailed(nodes[..|nodes|-1]); }
  }

  // ---------------------------------------------------------------------------
  // Totals
  // ---------------------------------------------------------------------------

  function Field(r: Report, errors: bool): nat { if errors then r.errors else r.requests }

  /** The order of summation does not matter. */
  lemma {:induction false} TotalWithout(reports: map<string, Report>, id: string, errors: bool)
    requires id in reports
    ensures Total(reports, errors) == Field(reports[id], errors) + Total(reports - {id}, errors)
    decreases |reports|
  {
    var k :| k in reports && Total(reports, errors) == Field(reports[k], errors) + Total(reports - {k}, errors);
    if k != id {
      TotalWithout(reports - {k}, id, errors);
      TotalWithout(reports - {id}, k, errors);
      assert reports - {k} - {id} == reports - {id} - {k};
    }
  }

  lemma TotalUpdate(reports: map<string, Report>, id: string, r: Report, errors: bool)
    ensures Total(reports[id := r], errors) ==
            Field(r, errors) + Total(reports, errors) - if id in reports then Field(reports[id], errors) else 0
  {
    TotalWithout(reports[id := r], id, errors);
    assert reports[id := r] - {id} == reports - {id};
    if id in reports {
      TotalWithout(reports, id, errors);
    } else {
      assert reports - {id} == reports;
    }
  }

  /** A report adds its requests to the one total and its errors to the other. */
  lemma TotalAdds(reports: map<string, Report>, id: string, r: Report)
    requires id !in reports
    ensures Total(reports[id := r], false) == Total(reports, false) + r.requests
    ensures Total(reports[id := r], true) == Total(reports, true) + r.errors
  {
    hide Total;
    TotalUpdate(reports, id, r, false);
    TotalUpdate(reports, id, r, true);
  }

  /** Every node that answers reports at least what it reported last. */
  predicate Growing(reports: map<string, Report>, replies: map<string, Report>) {
    forall id :: id in replies && id in reports ==>
                   reports[id].requests <= replies[id].requests && reports[id].errors <= replies[id].errors
  }

  lemma {:induction false} FetchedGrows(reports: map<string, Report>, nodes: seq<Node>, replies: map<string, Report>, errors: bool)
    requires Growing(reports, replies)
    ensures Total(Fetched(reports, nodes, replies), errors) >= Total(reports, errors)
    ensures Growing(Fetched(reports, nodes, replies), replies)
  {
    hide Total;
    if nodes != [] {
      FetchedGrows(reports, nodes[..|nodes|-1], replies, errors);
      var n := nodes[|nodes|-1];
      if n.id in replies { TotalUpdate(Fetched(reports, nodes[..|nodes|-1], replies), n.id, replies[n.id], errors); }
    }
  }

  /** Every tick of the run brings reports no smaller than the last ones. */
  predicate GrowingRun(nodes: seq<Node>, refused: set<string>, inputs: seq<Input>) {
    forall k :: 0 <= k < |inputs| ==> Growing(RunState(nodes, refused, inputs[..k]).reports, inputs[k].replies)
  }

  lemma GrowingPrefix(nodes: seq<Node>, refused: set<string>, inputs: seq<Input>, n: nat)
    requires GrowingRun(nodes, refused, inputs) && n <= |inputs|
    ensures GrowingRun(nodes, refused, inputs[..n])
  {
    hide Growing, RunState;
    var front := inputs[..n];
    forall i | 0 <= i < |front|
      ensures Growing(RunState(nodes, refused, front[..i]).reports, front[i].replies)
    {
      assert front[..i] == inputs[..i];
    }
  }

  lemma TickGrows(nodes: seq<Node>, s: State, input: Input, errors: bool)
    requires Growing(s.reports, input.replies)
    ensures Total(s.reports, errors) <= Total(TickState(nodes, s, input).reports, errors)
  {
    hide Total, Growing;
    FetchedGrows(s.reports, Active(nodes, s.failed), input.replies, errors);
  }

  lemma {:induction false} TickTotals(nodes: seq<Node>, refused: set<string>, inputs: seq<Input>, k: nat, errors: bool)
    requires GrowingRun(nodes, refused, inputs) && k <= |inputs|
    ensures Total(RunState(nodes, refused, inputs[..k]).reports, errors) <= Total(RunState(nodes, refused, inputs).reports, errors)
    decreases |inputs|
  {
    hide Total, Growing, TickState;
    if k == |inputs| {
      assert inputs[..k] == inputs;
    } else {
      var n := |inputs| - 1;
      var front := inputs[..n];
      GrowingPrefix(nodes, refused, inputs, n);
      TickTotals(nodes, refused, front, k, errors);
      assert front[..k] == inputs[..k];
      TickGrows(nodes, RunState(nodes, refused, front), inputs[n], errors);
    }
  }

  /**
   The leader's totals never fall from one tick to a later one, nor from any tick to the totals
   returned after the last fetch, whichever nodes fail in between.
   */
  lemma TotalsNeverFall(nodes: seq<Node>, refused: set<string>, inputs: seq<Input>, k: nat,
                        replies: map<string, Report>, errors: bool)
    requires GrowingRun(nodes, refused, inputs) && k <= |inputs|
    ensures var s := RunState(nodes, refused, inputs);
            && Total(RunState(nodes, refused, inputs[..k]).reports, errors) <= Total(s.reports, errors)
            && (Growing(s.reports, replies) ==>
                  Total(s.reports, errors) <= Total(Fetched(s.reports, Active(nodes, s.failed), replies), errors))
  {
    hide *;
    var s := RunState(nodes, refused, inputs);
    TickTotals(nodes, refused, inputs, k, errors);
    if Growing(s.reports, replies) { FetchedGrows(s.reports, Active(nodes, s.failed), replies, errors); }
  }

  lemma {:induction false} FetchedKeeps(reports: map<string, Report>, nodes: seq<Node>, replies: map<string, Report>, id: string)
    ensures id in Fetched(reports, nodes, replies) <==> id in reports || (id in replies && Member(nodes, id))
    ensures id in Fetched(reports, nodes, replies) ==>
              Fetched(reports, nodes, replies)[id] == if id in replies && Member(nodes, id) then replies[id] else reports[id]
  {
    if nodes != [] {
      FetchedKeeps(reports, nodes[..|nodes|-1], replies, id);
    }
  }

  predicate Member(nodes: seq<Node>, id: string) {
    nodes != [] && (nodes[|nodes|-1].id == id || Member(nodes[..|nodes|-1], id))
  }

  lemma {:induction false} ActiveMember(nodes: seq<Node>, failed: seq<string>, id: string)
    ensures Member(Active(nodes, failed), id) <==> Member(nodes, id) && id !in failed
  {
    if nodes != [] {
      var rest, n := nodes[..|nodes|-1], nodes[|nodes|-1];
      ActiveMember(rest, failed, id);
      if n.id in failed {
        assert Active(nodes, failed) == Active(rest, failed);
      } else {
        assert Active(nodes, failed)[..|Active(rest, failed)|] == Active(rest, failed);
      }
    }
  }

  lemma {:induction false} MarkedMember(failed: seq<string>, nodes: seq<Node>, answered: set<string>, id: string)
    ensures id in MarkSilent(failed, nodes, answered) <==> id in failed || (Member(nodes, id) && id !in answered)
  {
    if nodes != [] { MarkedMember(failed, nodes[..|nodes|-1], answered, id); }
  }

  /** A failed node's last report stays in the totals, unchanged. */
  lemma FailedReportKept(nodes: seq<Node>, s: State, input: Input, id: string)
    requires id in s.failed && id in s.reports
    ensures id in TickState(nodes, s, input).reports && TickState(nodes, s, input).reports[id] == s.reports[id]
    ensures id in TickState(nodes, s, input).failed
  {
    var active := Active(nodes, s.failed);
    ActiveMember(nodes, s.failed, id);
    FetchedKeeps(s.reports, active, input.replies, id);
    MarkedMember(s.failed, active, input.replies.Keys, id);
  }

  /** The nodes active after a tick are exactly those active before it that answered. */
  lemma ActiveShrinks(nodes: seq<Node>, s: State, input: Input, id: string)
    ensures Member(Active(nodes, TickState(nodes, s, input).failed), id) <==>
            Member(Active(nodes, s.failed), id) && id in input.replies
  {
    var active, s' := Active(nodes, s.failed), TickState(nodes, s, input);
    ActiveMember(nodes, s.failed, id);
    ActiveMember(nodes, s'.failed, id);
    if active != [] {
      MarkedMember(s.failed, active, input.replies.Keys, id);
    }
  }

  // ---------------------------------------------------------------------------
  // Rate conservation
  // ---------------------------------------------------------------------------

  function Portion(rate: real, cores: nat, total: nat): real
    requires total > 0
  {
    rate * Fraction(cores, total)
  }

  lemma PortionAdds(rate: real, a: nat, b: nat, total: nat)
    requires total > 0
    ensures Portion(rate, a, total) + Portion(rate, b, total) == Portion(rate, a + b, total)
  {
    var x, y := Fraction(a, total), Fraction(b, total);
    assert Fraction(a + b, total) == x + y;
    assert rate * x + rate * y == rate * (x + y);
  }

  lemma PortionEnds(rate: real, total: nat)
    requires total > 0
    ensures Portion(rate, 0, total) == 0.0 && Portion(rate, total, total) == rate
  {
    assert Fraction(0, total) == 0.0 && Fraction(total, total) == 1.0;
  }

  lemma {:induction false} WeightOf(nodes: seq<Node>, total: nat, i: nat)
    requires Distinct(nodes) && total > 0 && i < |nodes|
    ensures nodes[i].id in Weighted(nodes, total) && Weighted(nodes, total)[nodes[i].id] == Fraction(nodes[i].cores, total)
  {
    if i < |nodes| - 1 { WeightOf(nodes[..|nodes|-1], total, i); }
  }

  lemma ShareOf(nodes: seq<Node>, total: nat, rate: real, i: nat)
    requires Distinct(nodes) && total > 0 && i < |nodes|
    ensures Share(Weighted(nodes, total), nodes[i].id, rate) == Portion(rate, nodes[i].cores, total)
  {
    WeightOf(nodes, total, i);
  }

  lemma {:induction false} SharesOfPrefix(nodes: seq<Node>, total: nat, rate: real, k: nat)
    requires Distinct(nodes) && total > 0 && k <= |nodes|
    ensures Sum(Shares(nodes[..k], Weighted(nodes, total), rate)) == Portion(rate, TotalCores(nodes[..k]), total)
  {
    hide *;
    if k == 0 {
      PortionEnds(rate, total);
      NoShares(nodes, Weighted(nodes, total), rate);
    } else {
      SharesOfPrefix(nodes, total, rate, k - 1);
      SharesStep(nodes, Weighted(nodes, total), rate, k);
      ShareOf(nodes, total, rate, k - 1);
      CoresStep(nodes, k);
      PortionAdds(rate, TotalCores(nodes[..k - 1]), nodes[k - 1].cores, total);
    }
  }

  lemma NoShares(nodes: seq<Node>, weights: map<string, real>, rate: real)
    ensures Sum(Shares(nodes[..0], weights, rate)) == 0.0 && TotalCores(nodes[..0]) == 0
  {
  }

  lemma CoresStep(nodes: seq<Node>, k: nat)
    requires 0 < k <= |nodes|
    ensures TotalCores(nodes[..k]) == TotalCores(nodes[..k - 1]) + nodes[k - 1].cores
  {
    assert nodes[..k][..k - 1] == nodes[..k - 1];
  }

  lemma SharesStep(nodes: seq<Node>, weights: map<string, real>, rate: real, k: nat)
    requires 0 < k <= |nodes|
    ensures Sum(Shares(nodes[..k], weights, rate)) ==
            Sum(Shares(nodes[..k - 1], weights, rate)) + Share(weights, nodes[k - 1].id, rate)
  {
    hide Share;
    assert nodes[..k][..k - 1] == nodes[..k - 1];
    var s := Shares(nodes[..k], weights, rate);
    assert s[..k - 1] == Shares(nodes[..k - 1], weights, rate);
  }

  /** A node without cores has no weight. */
  predicate IdleUnweighted(nodes: seq<Node>, weights: map<string, real>) {
    forall n :: n in nodes && n.cores == 0 && n.id in weights ==> weights[n.id] == 0.0
  }

  lemma {:induction false} NoCores(nodes: seq<Node>, n: Node)
    requires TotalCores(nodes) == 0 && n in nodes
    ensures n.cores == 0
  {
    if n != nodes[|nodes|-1] { NoCores(nodes[..|nodes|-1], n); }
  }

  lemma NoShare(nodes: seq<Node>, weights: map<string, real>, rate: real, n: Node)
    requires IdleUnweighted(nodes, weights) && n in nodes && n.cores == 0
    ensures Share(weights, n.id, rate) == 0.0
  {
    assert Share(weights, n.id, rate) == rate * 0.0;
  }

  lemma {:induction false} IdleSharesNothing(nodes: seq<Node>, weights: map<string, real>, rate: real, k: nat)
    requires TotalCores(nodes) == 0 && IdleUnweighted(nodes, weights) && k <= |nodes|
    ensures Sum(Shares(nodes[..k], weights, rate)) == 0.0
  {
    if k > 0 {
      hide Shares, Sum, Share, TotalCores;
      IdleSharesNothing(nodes, weights, rate, k - 1);
      NoCores(nodes, nodes[k - 1]);
      NoShare(nodes, weights, rate, nodes[k - 1]);
      SharesStep(nodes, weights, rate, k);
    }
  }

  /** What a round of shares sums to: the whole rate, or nothing when no core is left. */
  lemma SharesSum(nodes: seq<Node>, weights: map<string, real>, rate: real)
    requires Distinct(nodes) && IdleUnweighted(nodes, weights)
    ensures Sum(Shares(nodes, WeightsFor(nodes, weights), rate)) == if TotalCores(nodes) > 0 then rate else 0.0
  {
    assert nodes[..|nodes|] == nodes;
    var total := TotalCores(nodes);
    if total == 0 {
      IdleSharesNothing(nodes, weights, rate, |nodes|);
    } else {
      SharesOfPrefix(nodes, total, rate, |nodes|);
      PortionEnds(rate, total);
    }
  }

  lemma {:induction false} ActiveSubset(nodes: seq<Node>, failed: seq<string>)
    requires Distinct(nodes)
    ensures Distinct(Active(nodes, failed)) && forall n :: n in Active(nodes, failed) ==> n in nodes
  {
    if nodes != [] {
      var rest, n := nodes[..|nodes|-1], nodes[|nodes|-1];
      ActiveSubset(rest, failed);
      forall m | m in Active(rest, failed)
        ensures m in nodes && m.id != n.id
      {
        assert m in rest;
      }
    }
  }

  lemma {:induction false} WeightedIdle(nodes: seq<Node>, some: seq<Node>, total: nat)
    requires Distinct(nodes) && total > 0 && forall n :: n in some ==> n in nodes
    ensures IdleUnweighted(nodes, Weighted(some, total))
  {
    if some != [] {
      WeightedIdle(nodes, some[..|some|-1], total);
      var m := some[|some|-1];
      assert m in some;
      forall n | n in nodes && n.cores == 0 && n.id in Weighted(some, total)
        ensures Weighted(some, total)[n.id] == 0.0
      {
        if n.id == m.id {
          var i :| 0 <= i < |nodes| && nodes[i] == n;
          var j :| 0 <= j < |nodes| && nodes[j] == m;
          assert i == j;
        }
      }
    }
  }

  lemma WeightsForIdle(nodes: seq<Node>, failed: seq<string>, weights: map<string, real>)
    requires Distinct(nodes) && IdleUnweighted(nodes, weights)
    ensures IdleUnweighted(nodes, WeightsFor(Active(nodes, failed), weights))
  {
    var active := Active(nodes, failed);
    ActiveSubset(nodes, failed);
    if TotalCores(active) > 0 { WeightedIdle(nodes, active, TotalCores(active)); }
  }

  /** In every state a run reaches, nodes without cores weigh nothing. */
  lemma {:induction false} RunIdle(nodes: seq<Node>, refused: set<string>, inputs: seq<Input>)
    requires Distinct(nodes)
    ensures IdleUnweighted(nodes, RunState(nodes, refused, inputs).weights)
  {
    hide IdleUnweighted, WeightsFor, Distinct;
    if inputs == [] {
      NoneFailed(nodes);
      NothingWeighs(nodes);
      WeightsForIdle(nodes, [], map[]);
      var failed := MarkSilent([], nodes, Accepting(nodes, refused));
      WeightsForIdle(nodes, failed, WeightsFor(nodes, map[]));
    } else {
      RunIdle(nodes, refused, inputs[..|inputs|-1]);
      var s := RunState(nodes, refused, inputs[..|inputs|-1]);
      WeightsForIdle(nodes, s.failed, s.weights);
    }
  }

  lemma NothingWeighs(nodes: seq<Node>)
    ensures IdleUnweighted(nodes, map[])
  {
  }

  lemma TickSharesSum(nodes: seq<Node>, refused: set<string>, inputs: seq<Input>, input: Input)
    requires Distinct(nodes)
    ensures var s := RunState(nodes, refused, inputs);
            Sum(TickShares(nodes, s, input)) == if TotalCores(Active(nodes, s.failed)) > 0 then TickDecision(s, input) else 0.0
  {
    var s := RunState(nodes, refused, inputs);
    RunIdle(nodes, refused, inputs);
    ActiveSubset(nodes, s.failed);
    assert IdleUnweighted(Active(nodes, s.failed), s.weights);
    SharesSum(Active(nodes, s.failed), s.weights, TickDecision(s, input));
  }

  /**
   At every tick of every run, whatever has failed, the shares sent sum to the decision if and only
   if a core is left among the nodes still active or the decision is zero.
   */
  lemma RateConserved(nodes: seq<Node>, refused: set<string>, inputs: seq<Input>, input: Input)
    requires Distinct(nodes)
    ensures var s := RunState(nodes, refused, inputs);
            Sum(TickShares(nodes, s, input)) == TickDecision(s, input) <==>
            TotalCores(Active(nodes, s.failed)) > 0 || TickDecision(s, input) == 0.0
  {
    hide *;
    TickSharesSum(nodes, refused, inputs, input);
  }

  lemma {:induction false} SharesAt(nodes: seq<Node>, weights: map<string, real>, rate: real, i: nat)
    requires i < |nodes|
    ensures Shares(nodes, weights, rate)[i] == Share(weights, nodes[i].id, rate)
  {
    hide Share;
    if i < |nodes| - 1 { SharesAt(nodes[..|nodes|-1], weights, rate, i); }
  }

  lemma Proportional(rate: real, cores: nat, total: nat)
    requires total > 0
    ensures Portion(rate, cores, total) * total as real == rate * cores as real
  {
    var f := Fraction(cores, total);
    assert f * total as real == cores as real;
    assert rate * f * total as real == rate * (f * total as real);
  }

  lemma ShareInRound(nodes: seq<Node>, weights: map<string, real>, rate: real, i: nat)
    requires Distinct(nodes) && i < |nodes| && TotalCores(nodes) > 0
    ensures Shares(nodes, WeightsFor(nodes, weights), rate)[i] * TotalCores(nodes) as real == rate * nodes[i].cores as real
  {
    var total := TotalCores(nodes);
    assert WeightsFor(nodes, weights) == Weighted(nodes, total);
    hide *;
    SharesAt(nodes, Weighted(nodes, total), rate, i);
    ShareOf(nodes, total, rate, i);
    Proportional(rate, nodes[i].cores, total);
  }

  /** At every tick of every run with a core left, each active node's share is to the decision as its cores are to all. */
  lemma SharesProportional(nodes: seq<Node>, refused: set<string>, inputs: seq<Input>, input: Input, i: nat)
    requires Distinct(nodes) && i < |Active(nodes, RunState(nodes, refused, inputs).failed)|
    requires TotalCores(Active(nodes, RunState(nodes, refused, inputs).failed)) > 0
    ensures var s := RunState(nodes, refused, inputs);
            var active := Active(nodes, s.failed);
            && |TickShares(nodes, s, input)| == |active|
            && TickShares(nodes, s, input)[i] * TotalCores(active) as real == TickDecision(s, input) * active[i].cores as real
  {
    var s := RunState(nodes, refused, inputs);
    hide RunState, Active, TotalCores, TickDecision, Distinct, WeightsFor, Shares;
    ActiveSubset(nodes, s.failed);
    ShareInRound(Active(nodes, s.failed), s.weights, TickDecision(s, input), i);
  }

  /** The orders of one interval in the order they take effect: commands, then overrides as holds. */
  function Orders(input: Input): seq<Hold> {
    input.commands + Holds(input.overrides)
  }

  function Holds(overrides: seq<real>): (r: seq<Hold>)
    ensures |r| == |overrides| && forall i :: 0 <= i < |r| ==> r[i] == Held(overrides[i])
  {
    seq(|overrides|, i requires 0 <= i < |overrides| => Held(overrides[i]))
  }

  /** All orders of the run, up to the interval that finds no node left. */
  function Given(nodes: seq<Node>, refused: set<string>, inputs: seq<Input>): seq<Hold> {
    if inputs == [] then []
    else
      var before := inputs[..|inputs|-1];
      if Active(nodes, RunState(nodes, refused, before).failed) == [] then Given(nodes, refused, before)
      else Given(nodes, refused, before) + Orders(inputs[|inputs|-1])
  }

  function LastOrder(orders: seq<Hold>): Hold { if orders == [] then Released else orders[|orders|-1] }

  lemma HoldLast(hold: Hold, given: seq<Hold>, input: Input)
    requires hold == LastOrder(given)
    ensures HoldAfter(hold, input.commands, input.overrides) == LastOrder(given + Orders(input))
  {
  }

  lemma {:induction false} HoldFollows(nodes: seq<Node>, refused: set<string>, inputs: seq<Input>)
    ensures RunState(nodes, refused, inputs).hold == LastOrder(Given(nodes, refused, inputs))
  {
    hide LastOrder, HoldAfter, Orders, Active, WeightsFor, Fetched, MarkSilent;
    if inputs == [] {
      NoOrder();
    } else {
      var before := inputs[..|inputs|-1];
      HoldFollows(nodes, refused, before);
      HoldLast(RunState(nodes, refused, before).hold, Given(nodes, refused, before), inputs[|inputs|-1]);
    }
  }

  lemma NoOrder()
    ensures LastOrder([]) == Released
  {
  }

  /** The decision of a tick is the rate of the last order given so far if that is a hold, and else the controller's. */
  lemma DecisionFollows(nodes: seq<Node>, refused: set<string>, inputs: seq<Input>, input: Input)
    ensures var orders := Given(nodes, refused, inputs) + Orders(input);
            TickDecision(RunState(nodes, refused, inputs), input) ==
            if orders != [] && orders[|orders|-1].Held? then orders[|orders|-1].rps else input.proposed
  {
    HoldFollows(nodes, refused, inputs);
    HoldLast(RunState(nodes, refused, inputs).hold, Given(nodes, refused, inputs), input);
    hide RunState, Given, Orders, HoldAfter;
  }

  /** The nodes left after startup are those that accepted the test. */
  lemma StartActive(nodes: seq<Node>, refused: set<string>, id: string)
    ensures Member(Active(nodes, StartState(nodes, refused).failed), id) <==> Member(nodes, id) && id !in refused
  {
    ActiveMember(nodes, StartState(nodes, refused).failed, id);
    MarkedMember([], nodes, Accepting(nodes, refused), id);
    MemberIn(nodes, id);
  }

  lemma {:induction false} MemberIn(nodes: seq<Node>, id: string)
    ensures Member(nodes, id) <==> exists n :: n in nodes && n.id == id
  {
    if nodes != [] {
      MemberIn(nodes[..|nodes|-1], id);
      assert nodes == nodes[..|nodes|-1] + [nodes[|nodes|-1]];
      assert nodes[|nodes|-1] in nodes;
    }
  }

  /** One node without cores: whatever the decision, nothing is sent. */
  lemma CorelessNode(rate: real)
    ensures Sum(TickShares([Node("a", 0)], StartState([Node("a", 0)], {}), Input([], [], map[], rate))) == 0.0
  {
    var nodes, input := [Node("a", 0)], Input([], [], map[], rate);
    var s := RunState(nodes, {}, []);
    RunIdle(nodes, {}, []);
    ActiveSubset(nodes, s.failed);
    var active := Active(nodes, s.failed);
    NoCoresLeft(active);
    SharesSum(active, s.weights, TickDecision(s, input));
  }

  lemma {:induction false} NoCoresLeft(nodes: seq<Node>)
    requires forall n :: n in nodes ==> n.cores == 0
    ensures TotalCores(nodes) == 0
  {
    if nodes != [] { NoCoresLeft(nodes[..|nodes|-1]); }
  }

  /** Startup shares sum to the initial rate too, both those baked in and those re-sent to the nodes left. */
  lemma StartConserved(nodes: seq<Node>, refused: set<string>, rate: real)
    requires Distinct(nodes)
    ensures TotalCores(nodes) > 0 ==> Sum(Shares(nodes, WeightsFor(nodes, map[]), rate)) == rate
    ensures var s := StartState(nodes, refused); var left := Active(nodes, s.failed);
            TotalCores(left) > 0 ==> Sum(Shares(left, s.weights, rate)) == rate
  {
    NothingWeighs(nodes);
    SharesSum(nodes, map[], rate);
    var s := StartState(nodes, refused);
    var left := Active(nodes, s.failed);
    NoneFailed(nodes);
    WeightsForIdle(nodes, [], map[]);
    ActiveSubset(nodes, s.failed);
    var w := WeightsFor(nodes, map[]);
    assert IdleUnweighted(left, w);
    SharesSum(left, w, rate);
    assert left != [] ==> s.weights == WeightsFor(left, w);
  }

  // ---------------------------------------------------------------------------
  // Down to the schedulers
  // ---------------------------------------------------------------------------

  /** An agent's coordinator hold and its timer's per-worker scheduler rates. */
  datatype Agent = Agent(hold: Hold, rates: seq<real>)

  /** `PUT /rate`: the rate is held and divided over the workers. */
  function PutRate(a: Agent, rps: real): Agent { Agent(Held(rps), Pipeline.RatesFor(rps, |a.rates|)) }

  /** A local control tick sends the held rate, or else the controller's, to the timer again. */
  function AgentTick(a: Agent, proposed: real): Agent {
    a.(rates := Pipeline.RatesFor(Decision(a.hold, proposed), |a.rates|))
  }

  function AgentTicks(a: Agent, proposed: seq<real>): Agent {
    if proposed == [] then a else AgentTick(AgentTicks(a, proposed[..|proposed|-1]), proposed[|proposed|-1])
  }

  lemma {:induction false} SumConstant(s: seq<real>, x: real)
    requires forall i :: 0 <= i < |s| ==> s[i] == x
    ensures Sum(s) == |s| as real * x
  {
    if s != [] {
      SumConstant(s[..|s|-1], x);
      assert |s| as real * x == (|s| - 1) as real * x + x;
    }
  }

  /** Equal parts that sum to the rate. */
  lemma RatesSum(rps: real, n: nat)
    requires n > 0
    ensures Sum(Pipeline.RatesFor(rps, n)) == rps && |Pipeline.RatesFor(rps, n)| == n
    ensures forall i :: 0 <= i < n ==> Pipeline.RatesFor(rps, n)[i] * n as real == rps
  {
    SumConstant(Pipeline.RatesFor(rps, n), rps / n as real);
  }

  /** The hold survives the agent's own ticks, so its schedulers keep dividing the leader's share. */
  lemma {:induction false} AgentHolds(a: Agent, rps: real, proposed: seq<real>)
    requires a.rates != []
    ensures AgentTicks(PutRate(a, rps), proposed) == PutRate(a, rps)
    ensures Sum(AgentTicks(PutRate(a, rps), proposed).rates) == rps
  {
    RatesSum(rps, |a.rates|);
    if proposed != [] { AgentHolds(a, rps, proposed[..|proposed|-1]); }
  }

  /** What an agent left alone comes to send: its hold, else its controller's last rate, else what it sent before. */
  function OwnRate(a: Agent, proposed: seq<real>): real {
    if proposed == [] then Sum(a.rates)
    else match a.hold case Held(rps) => rps case Released => proposed[|proposed|-1]
  }

  lemma {:induction false} AgentKeeps(a: Agent, proposed: seq<real>)
    ensures AgentTicks(a, proposed).hold == a.hold && |AgentTicks(a, proposed).rates| == |a.rates|
  {
    if proposed != [] { AgentKeeps(a, proposed[..|proposed|-1]); }
  }

  lemma AgentAlone(a: Agent, proposed: seq<real>)
    requires a.rates != []
    ensures Sum(AgentTicks(a, proposed).rates) == OwnRate(a, proposed)
  {
    AgentKeeps(a, proposed);
    if proposed != [] {
      var n := |proposed| - 1;
      AgentKeeps(a, proposed[..n]);
      RatesSum(Decision(a.hold, proposed[n]), |a.rates|);
    }
  }

  /** Each agent after its share was sent to it, if `reached` says it arrived, and any number of its own ticks. */
  function Received(agents: seq<Agent>, shares: seq<real>, reached: seq<bool>, ticks: seq<seq<real>>): (r: seq<Agent>)
    requires |agents| == |shares| == |reached| == |ticks|
    ensures |r| == |agents|
  {
    if agents == [] then []
    else
      var n := |agents| - 1;
      var last := if reached[n] then PutRate(agents[n], shares[n]) else agents[n];
      Received(agents[..n], shares[..n], reached[..n], ticks[..n]) + [AgentTicks(last, ticks[n])]
  }

  function SchedulerTotal(agents: seq<Agent>): real {
    if agents == [] then 0.0 else SchedulerTotal(agents[..|agents|-1]) + Sum(agents[|agents|-1].rates)
  }

  /** The shares that did not arrive. */
  function Missed(shares: seq<real>, reached: seq<bool>): real
    requires |shares| == |reached|
  {
    if shares == [] then 0.0
    else
      var n := |shares| - 1;
      Missed(shares[..n], reached[..n]) + if reached[n] then 0.0 else shares[n]
  }

  /** What the agents they did not reach send instead. */
  function Kept(agents: seq<Agent>, reached: seq<bool>, ticks: seq<seq<real>>): real
    requires |agents| == |reached| == |ticks|
  {
    if agents == [] then 0.0
    else
      var n := |agents| - 1;
      Kept(agents[..n], reached[..n], ticks[..n]) + if reached[n] then 0.0 else OwnRate(agents[n], ticks[n])
  }

  lemma {:induction false} SchedulersCarryShares(agents: seq<Agent>, shares: seq<real>, reached: seq<bool>, ticks: seq<seq<real>>)
    requires |agents| == |shares| == |reached| == |ticks| && forall i :: 0 <= i < |agents| ==> agents[i].rates != []
    ensures SchedulerTotal(Received(agents, shares, reached, ticks)) ==
            Sum(shares) - Missed(shares, reached) + Kept(agents, reached, ticks)
    ensures (forall i :: 0 <= i < |reached| ==> reached[i]) ==>
              Missed(shares, reached) == 0.0 && Kept(agents, reached, ticks) == 0.0
  {
    hide OwnRate, AgentTicks;
    if agents != [] {
      var n := |agents| - 1;
      SchedulersCarryShares(agents[..n], shares[..n], reached[..n], ticks[..n]);
      if reached[n] {
        AgentHolds(agents[n], shares[n], ticks[n]);
      } else {
        AgentAlone(agents[n], ticks[n]);
      }
      var all := Received(agents, shares, reached, ticks);
      assert all[..|all|-1] == Received(agents[..n], shares[..n], reached[..n], ticks[..n]);
    }
  }

  /**
   End to end: the rates of all schedulers of all active agents sum to the leader's decision, less
   the shares that did not arrive, plus what the agents they were meant for send on their own. So
   they sum to the decision exactly when these two are equal, as when every share arrives.
   */
  lemma SchedulersSumToDecision(nodes: seq<Node>, refused: set<string>, inputs: seq<Input>, input: Input,
                                agents: seq<Agent>, reached: seq<bool>, ticks: seq<seq<real>>)
    requires Distinct(nodes)
    requires |agents| == |Active(nodes, RunState(nodes, refused, inputs).failed)| == |reached| == |ticks|
    requires forall i :: 0 <= i < |agents| ==> agents[i].rates != []
    ensures var s := RunState(nodes, refused, inputs);
            var decision := if TotalCores(Active(nodes, s.failed)) > 0 then TickDecision(s, input) else 0.0;
            var shares := TickShares(nodes, s, input);
            var total := SchedulerTotal(Received(agents, shares, reached, ticks));
            && total == decision - Missed(shares, reached) + Kept(agents, reached, ticks)
            && (total == decision <==> Missed(shares, reached) == Kept(agents, reached, ticks))
            && ((forall i :: 0 <= i < |reached| ==> reached[i]) ==> total == decision)
  {
    var s := RunState(nodes, refused, inputs);
    TickSharesSum(nodes, refused, inputs, input);
    hide RunState, TickDecision, Received, Missed, Kept, SchedulerTotal, Sum, TotalCores;
    SchedulersCarryShares(agents, TickShares(nodes, s, input), reached, ticks);
  }
}
