/** Promotion and rollback of the named route, as a protocol of steps that any number of
    operators may interleave and that may crash anywhere, including after the receipt is
    written but before the route changes. */
module Release {
  import opened Wrappers
  import opened CandidatePass

  datatype Rule = Rule(kind: string, version: string, percentage: int)

  /** `contract` stands for the authorization schemes and protocols, which pinning keeps. */
  datatype Endpoint = Endpoint(rules: seq<Rule>, contract: string)

  function RoutedVersion(endpoint: Endpoint): Option<string> {
    if |endpoint.rules| == 1 && endpoint.rules[0].percentage == 100 && endpoint.rules[0].kind == "FixedRatio"
       && ExactVersion(endpoint.rules[0].version)
    then Some(endpoint.rules[0].version)
    else None
  }

  /** The update sends a version selector only. */
  function Pinned(endpoint: Endpoint, version: string): Endpoint {
    endpoint.(rules := [Rule("FixedRatio", version, 100)])
  }

  lemma {:induction false} PinningRoutes(endpoint: Endpoint, version: string)
    requires ExactVersion(version)
    ensures RoutedVersion(Pinned(endpoint, version)) == Some(version)
    ensures Pinned(endpoint, version).contract == endpoint.contract
  {
  }

  /** An accepted endpoint is determined by its contract and the version it routes to. */
  lemma {:induction false} PinnedToItsOwn(endpoint: Endpoint, version: string)
    requires RoutedVersion(endpoint) == Some(version)
    ensures Pinned(endpoint, version) == endpoint && ExactVersion(version)
  {
  }

  lemma {:induction false} LastPinWins(endpoint: Endpoint, first: string, second: string)
    ensures Pinned(Pinned(endpoint, first), second) == Pinned(endpoint, second)
  {
  }

  // ------------------------------------------------------------------------ the protocol

  datatype Action = Promote | Rollback

  datatype Receipt = Receipt(action: Action, previous: string, target: string, before: Endpoint,
    bundles: map<string, string>)

  datatype Stage =
    | Decided
    | Read(bundles: map<string, string>)
    | Recorded
    | Checked
    | Routed

  /** One run of the release command; `before` is what it read of the route. */
  datatype Process = Process(action: Action, expected: string, target: string, original: Option<Receipt>,
    before: Endpoint, stage: Stage)

  /** `passed` holds the versions that an experiment took through the promotion gate. */
  datatype World = World(endpoint: Endpoint, passed: set<string>, receipts: seq<Receipt>, running: map<int, Process>)

  datatype Step =
    | Compare(experiment: Experiment)
    | DecidePromotion(id: int, expected: string, target: string)
    | DecideRollback(id: int, expected: string, receipt: nat)
    | ReadRoute(id: int, bundleOf: string -> string)
    | WriteReceipt(id: int)
    | Snapshot(id: int)
    | Update(id: int)
    | Stop(id: int)

  function Stopped(w: World, id: int): World {
    w.(running := w.running - {id})
  }

  function Advanced(w: World, id: int, p: Process): World {
    w.(running := w.running[id := p])
  }

  predicate At(w: World, id: int, stage: Stage) {
    id in w.running && w.running[id].stage == stage
  }

  function Decide(w: World, id: int, p: Process): World {
    if id in w.running || !ExactVersion(p.expected) || !ExactVersion(p.target) || p.target == p.expected then w
      else Advanced(w, id, p)
  }

  /** Reading the route: refused unless it still routes the expected version and, for a rollback,
      the bundle behind the target is the one the promotion recorded. */
  function ReadIt(w: World, id: int, bundleOf: string -> string): World
    requires At(w, id, Decided)
  {
    var p := w.running[id];
    var bundles := map[p.expected := bundleOf(p.expected), p.target := bundleOf(p.target)];
    if RoutedVersion(w.endpoint) != Some(p.expected) then Stopped(w, id)
    else if p.original.Some? && (p.target !in p.original.value.bundles
      || p.original.value.bundles[p.target] != bundles[p.target])
    then Stopped(w, id)
    else Advanced(w, id, p.(before := w.endpoint, stage := Read(bundles)))
  }

  function ReceiptOf(p: Process): Receipt
    requires p.stage.Read?
  {
    Receipt(p.action, p.expected, p.target, p.before, p.stage.bundles)
  }

  /** One step. A step that is not the process's next one changes nothing; a refusal stops it. */
  ghost function Next(w: World, step: Step): World {
    match step
    case Compare(e) =>
      if Passed(e) then w.(passed := w.passed + {e.versions.candidate}) else w
    case DecidePromotion(id, expected, target) =>
      if target in w.passed then Decide(w, id, Process(Promote, expected, target, None, w.endpoint, Decided)) else w
    case DecideRollback(id, expected, n) =>
      if n < |w.receipts| && w.receipts[n].action == Promote && w.receipts[n].target == expected
      then Decide(w, id, Process(Rollback, expected, w.receipts[n].previous, Some(w.receipts[n]), w.endpoint, Decided))
      else w
    case ReadRoute(id, bundleOf) =>
      if At(w, id, Decided) then ReadIt(w, id, bundleOf) else w
    case WriteReceipt(id) =>
      if id in w.running && w.running[id].stage.Read?
      then Advanced(w, id, w.running[id].(stage := Recorded)).(receipts := w.receipts + [ReceiptOf(w.running[id])])
      else w
    case Snapshot(id) =>
      if At(w, id, Recorded) then
        if w.endpoint != w.running[id].before then Stopped(w, id) else Advanced(w, id, w.running[id].(stage := Checked))
      else w
    case Update(id) =>
      if At(w, id, Checked)
      then Advanced(w, id, w.running[id].(stage := Routed)).(endpoint := Pinned(w.endpoint, w.running[id].target))
      else w
    case Stop(id) =>
      Stopped(w, id)
  }

  ghost function Run(w: World, steps: seq<Step>): World {
    if steps == [] then w else Next(Run(w, steps[..|steps| - 1]), steps[|steps| - 1])
  }

  function Start(endpoint: Endpoint): World {
    World(endpoint, {}, [], map[])
  }

  // ------------------------------------------------------------------------- the invariant

  /** A version is accepted if its comparison passed or it was routed at the start. */
  predicate AcceptedVersion(initial: Endpoint, w: World, version: string) {
    version in w.passed || RoutedVersion(initial) == Some(version)
  }

  /** The endpoint is the initial one, or that one pinned to an accepted version. */
  predicate AcceptedRoute(initial: Endpoint, w: World, endpoint: Endpoint) {
    || endpoint == initial
    || exists v :: v in w.passed && endpoint == Pinned(initial, v)
  }

  predicate SoundProcess(initial: Endpoint, w: World, p: Process) {
    && ExactVersion(p.target) && AcceptedVersion(initial, w, p.target) && p.expected != p.target
    && (p.stage.Read? ==> p.expected in p.stage.bundles)
    && (!p.stage.Decided? ==> RoutedVersion(p.before) == Some(p.expected) && AcceptedRoute(initial, w, p.before))
    && (p.action.Rollback? ==> p.original.Some? && p.original.value in w.receipts && p.original.value.action == Promote
                               && p.target == p.original.value.previous && p.expected == p.original.value.target)
  }

  predicate SoundReceipt(initial: Endpoint, w: World, r: Receipt) {
    && RoutedVersion(r.before) == Some(r.previous) && AcceptedRoute(initial, w, r.before)
      && AcceptedVersion(initial, w, r.target)
    && r.previous != r.target && r.previous in r.bundles
  }

  ghost predicate Sound(initial: Endpoint, w: World) {
    && (forall v :: v in w.passed ==> ExactVersion(v))
    && AcceptedRoute(initial, w, w.endpoint)
    && (forall id :: id in w.running ==> SoundProcess(initial, w, w.running[id]))
    && (forall i | 0 <= i < |w.receipts| :: SoundReceipt(initial, w, w.receipts[i]))
  }

  /** An accepted endpoint is the initial one pinned to the version it routes. */
  lemma {:induction false} AcceptedRouteRoutes(initial: Endpoint, w: World, endpoint: Endpoint)
    requires forall v :: v in w.passed ==> ExactVersion(v)
    requires AcceptedRoute(initial, w, endpoint) && RoutedVersion(endpoint).Some?
    ensures endpoint == Pinned(initial, RoutedVersion(endpoint).value)
    ensures AcceptedVersion(initial, w, RoutedVersion(endpoint).value)
  {
    hide ExactVersion, RoutedVersion, Pinned;
    PinnedToItsOwn(endpoint, RoutedVersion(endpoint).value);
    if v :| v in w.passed && endpoint == Pinned(initial, v) {
      PinningRoutes(initial, v);
      LastPinWins(initial, v, RoutedVersion(endpoint).value);
    }
  }

  lemma {:induction false} PinningIsAccepted(initial: Endpoint, w: World, version: string)
    requires AcceptedRoute(initial, w, w.endpoint) && AcceptedVersion(initial, w, version)
    ensures AcceptedRoute(initial, w, Pinned(w.endpoint, version))
  {
    hide ExactVersion, RoutedVersion, Pinned;
    if w.endpoint != initial {
      var v :| v in w.passed && w.endpoint == Pinned(initial, v);
      LastPinWins(initial, v, version);
    }
    if version !in w.passed {
      PinnedToItsOwn(initial, version);
    }
  }

  /** What a step that keeps the accepted versions and the receipts must do to keep the rest. */
  lemma {:induction false} StillSound(initial: Endpoint, w: World, next: World)
    requires Sound(initial, w) && next.passed == w.passed && AcceptedRoute(initial, w, next.endpoint)
    requires |w.receipts| <= |next.receipts| && forall i | 0 <= i < |w.receipts| :: next.receipts[i] == w.receipts[i]
    requires forall i | |w.receipts| <= i < |next.receipts| :: SoundReceipt(initial, w, next.receipts[i])
    requires forall id :: id in next.running ==> SoundProcess(initial, w, next.running[id])
    ensures Sound(initial, next)
  {
    hide ExactVersion, RoutedVersion, Pinned;
    forall i | 0 <= i < |next.receipts|
      ensures SoundReceipt(initial, next, next.receipts[i])
    {
      assert SoundReceipt(initial, w, next.receipts[i]);
      SameRoutes(initial, w, next, next.receipts[i].before);
    }
    forall id | id in next.running
      ensures SoundProcess(initial, next, next.running[id])
    {
      assert SoundProcess(initial, w, next.running[id]);
      SameRoutes(initial, w, next, next.running[id].before);
      if next.running[id].action.Rollback? {
        var i :| 0 <= i < |w.receipts| && w.receipts[i] == next.running[id].original.value;
        assert next.receipts[i] in next.receipts;
      }
    }
    SameRoutes(initial, w, next, next.endpoint);
  }

  lemma {:induction false} SameRoutes(initial: Endpoint, w: World, next: World, endpoint: Endpoint)
    requires w.passed <= next.passed
    ensures AcceptedRoute(initial, w, endpoint) ==> AcceptedRoute(initial, next, endpoint)
  {
    if endpoint != initial && AcceptedRoute(initial, w, endpoint) {
      var v :| v in w.passed && endpoint == Pinned(initial, v);
      assert v in next.passed;
    }
  }

  lemma {:induction false} PassingKeepsSound(initial: Endpoint, w: World, e: Experiment)
    requires Sound(initial, w)
    ensures Sound(initial, Next(w, Compare(e)))
  {
    hide ExactVersion, RoutedVersion, Pinned, Passed, EveryCasePassed, RequireCandidatePass, PublicSummary;
    if Passed(e) {
      PassingMeans(e);
    }
    var next := Next(w, Compare(e));
    SameRoutes(initial, w, next, w.endpoint);
    forall i | 0 <= i < |w.receipts|
      ensures SoundReceipt(initial, next, w.receipts[i])
    {
      SameRoutes(initial, w, next, w.receipts[i].before);
    }
    forall id | id in w.running
      ensures SoundProcess(initial, next, w.running[id])
    {
      SameRoutes(initial, w, next, w.running[id].before);
    }
  }

  lemma {:induction false} DecidingKeepsSound(initial: Endpoint, w: World, step: Step)
    requires Sound(initial, w) && (step.DecidePromotion? || step.DecideRollback?)
    ensures Sound(initial, Next(w, step))
  {
    hide ExactVersion, RoutedVersion, Pinned;
    if step.DecideRollback? && step.receipt < |w.receipts| {
      var r := w.receipts[step.receipt];
      assert SoundReceipt(initial, w, r) && r in w.receipts;
      AcceptedRouteRoutes(initial, w, r.before);
      PinnedToItsOwn(r.before, r.previous);
    }
    StillSound(initial, w, Next(w, step));
  }

  lemma {:induction false} ReleasingKeepsSound(initial: Endpoint, w: World, step: Step)
    requires Sound(initial, w) && !step.Compare? && !step.DecidePromotion? && !step.DecideRollback?
    ensures Sound(initial, Next(w, step))
  {
    hide ExactVersion, RoutedVersion, Pinned;
    if step.Update? && step.id in w.running {
      assert SoundProcess(initial, w, w.running[step.id]);
      PinningIsAccepted(initial, w, w.running[step.id].target);
    }
    StillSound(initial, w, Next(w, step));
  }

  /** Every step keeps the invariant. */
  lemma {:induction false} StepKeepsSound(initial: Endpoint, w: World, step: Step)
    requires Sound(initial, w)
    ensures Sound(initial, Next(w, step))
  {
    hide Next, Sound;
    if step.Compare? {
      PassingKeepsSound(initial, w, step.experiment);
    } else if step.DecidePromotion? || step.DecideRollback? {
      DecidingKeepsSound(initial, w, step);
    } else {
      ReleasingKeepsSound(initial, w, step);
    }
  }

  lemma {:induction false} RunKeepsSound(initial: Endpoint, steps: seq<Step>)
    ensures Sound(initial, Run(Start(initial), steps))
  {
    hide Next;
    if steps != [] {
      RunKeepsSound(initial, steps[..|steps| - 1]);
      StepKeepsSound(initial, Run(Start(initial), steps[..|steps| - 1]), steps[|steps| - 1]);
    }
  }

  /** A comparison that passed, with this candidate. */
  ghost predicate Evidence(step: Step, version: string) {
    step.Compare? && Passed(step.experiment) && step.experiment.versions.candidate == version
  }

  /** A version counts as passed only on the evidence of a comparison in the run. */
  lemma {:induction false} PassedHasEvidence(initial: Endpoint, steps: seq<Step>, version: string)
    requires version in Run(Start(initial), steps).passed
    ensures exists i :: 0 <= i < |steps| && Evidence(steps[i], version)
  {
    hide Passed;
    var front, last := steps[..|steps| - 1], steps[|steps| - 1];
    if version in Run(Start(initial), front).passed {
      PassedHasEvidence(initial, front, version);
      var i :| 0 <= i < |front| && Evidence(front[i], version);
      assert steps[i] == front[i];
    } else {
      assert Evidence(last, version);
    }
  }

  /** Main result on safety: over every interleaving of promotions and rollbacks, with crashes
      anywhere, the route is the initial one or goes to a version that, as the candidate of an
      experiment of the run, passed every criterion of all six cases in every repetition; and the
      endpoint's contract never changes. */
  lemma {:induction false} RouteIsAlwaysAccepted(initial: Endpoint, steps: seq<Step>)
    ensures var w := Run(Start(initial), steps);
            && w.endpoint.contract == initial.contract
            && (RoutedVersion(w.endpoint) == RoutedVersion(initial)
                || (RoutedVersion(w.endpoint).Some?
                    && exists i :: 0 <= i < |steps| && Evidence(steps[i], RoutedVersion(w.endpoint).value)
                                   && EveryCasePassed(steps[i].experiment)))
  {
    hide ExactVersion, RoutedVersion, Run, EveryCasePassed, Passed;
    RunKeepsSound(initial, steps);
    var w := Run(Start(initial), steps);
    if w.endpoint != initial {
      var v :| v in w.passed && w.endpoint == Pinned(initial, v);
      PinningRoutes(initial, v);
      PassedHasEvidence(initial, steps, v);
      var i :| 0 <= i < |steps| && Evidence(steps[i], v);
      PassingMeans(steps[i].experiment);
    }
  }

  // -------------------------------------------------------------------------- restoration

  /** Main result on rollback: whatever happened in between, a rollback that gets as far as
      changing the route puts back the whole endpoint its receipt recorded. */
  lemma {:induction false} RollbackRestoresTheReceipt(initial: Endpoint, steps: seq<Step>, id: int)
    requires var w := Run(Start(initial), steps); At(w, id, Checked) && w.running[id].action == Rollback
    ensures var w := Run(Start(initial), steps);
            w.running[id].original.Some? && Next(w, Update(id)).endpoint == w.running[id].original.value.before
  {
    hide ExactVersion, RoutedVersion, Pinned, Run;
    RunKeepsSound(initial, steps);
    var w := Run(Start(initial), steps);
    var p := w.running[id];
    var r := p.original.value;
    assert SoundProcess(initial, w, p);
    var i :| 0 <= i < |w.receipts| && w.receipts[i] == r;
    assert SoundReceipt(initial, w, r);
    AcceptedRouteRoutes(initial, w, r.before);
    if w.endpoint != initial {
      var v :| v in w.passed && w.endpoint == Pinned(initial, v);
      LastPinWins(initial, v, r.previous);
    }
  }

  /** The steps of one uninterrupted release after its decision. */
  function Script(id: int, bundleOf: string -> string): seq<Step> {
    [ReadRoute(id, bundleOf), WriteReceipt(id), Snapshot(id), Update(id)]
  }

  lemma {:induction false} RunInTurn(w: World, a: seq<Step>, b: seq<Step>)
    ensures Run(w, a + b) == Run(Run(w, a), b)
  {
    hide Next;
    if b == [] {
      assert a + b == a;
    } else {
      assert (a + b)[..|a + b| - 1] == a + b[..|b| - 1];
      RunInTurn(w, a, b[..|b| - 1]);
    }
  }

  lemma {:induction false} RunOne(w: World, step: Step)
    ensures Run(w, [step]) == Next(w, step)
  {
    hide Next;
    assert [step][..0] == [];
  }

  lemma {:induction false} ScriptInTurn(w: World, id: int, bundleOf: string -> string)
    ensures Run(w, Script(id, bundleOf))
         == Next(Next(Next(Next(w, ReadRoute(id, bundleOf)), WriteReceipt(id)), Snapshot(id)), Update(id))
  {
    hide Next, Run;
    var a, b, c, d := ReadRoute(id, bundleOf), WriteReceipt(id), Snapshot(id), Update(id);
    RunOne(w, a);
    RunOneMore(w, [a], b);
    RunOneMore(w, [a, b], c);
    RunOneMore(w, [a, b, c], d);
    assert [a] + [b] == [a, b] && [a, b] + [c] == [a, b, c] && [a, b, c] + [d] == Script(id, bundleOf);
  }

  lemma {:induction false} RunOneMore(w: World, steps: seq<Step>, step: Step)
    ensures Run(w, steps + [step]) == Next(Run(w, steps), step)
  {
    hide Next;
    assert (steps + [step])[..|steps|] == steps;
  }

  /** An uninterrupted release that is not refused records the route it found and pins its target. */
  lemma {:induction false} ScriptReleases(w: World, id: int, bundleOf: string -> string)
    requires At(w, id, Decided) && w.running[id].expected != w.running[id].target
    requires RoutedVersion(w.endpoint) == Some(w.running[id].expected)
    requires w.running[id].original.Some? ==>
               var r := w.running[id].original.value;
               w.running[id].target in r.bundles && r.bundles[w.running[id].target] == bundleOf(w.running[id].target)
    ensures var p, after := w.running[id], Run(w, Script(id, bundleOf));
            && after.endpoint == Pinned(w.endpoint, p.target)
            && after.receipts == w.receipts + [Receipt(p.action, p.expected, p.target, w.endpoint,
                                                       map[p.expected := bundleOf(p.expected),
                                                         p.target := bundleOf(p.target)])]
            && after.passed == w.passed && after.running.Keys == w.running.Keys && At(after, id, Routed)
  {
    hide RoutedVersion, ExactVersion, Pinned, Run;
    ScriptInTurn(w, id, bundleOf);
    var p := w.running[id];
    var bundles := map[p.expected := bundleOf(p.expected), p.target := bundleOf(p.target)];
    var read := Next(w, ReadRoute(id, bundleOf));
    assert read == Advanced(w, id, p.(before := w.endpoint, stage := Read(bundles)));
    var recorded := Next(read, WriteReceipt(id));
    assert At(recorded, id, Recorded) && recorded.running[id].before == w.endpoint;
    var checked := Next(recorded, Snapshot(id));
    assert At(checked, id, Checked);
  }

  /** A promotion followed by a rollback with its own receipt leaves the endpoint exactly as it was. */
  lemma {:induction false} PromoteThenRollback(w: World, p: int, q: int, expected: string, target: string,
                                               bundleOf: string -> string)
    requires p !in w.running && q !in w.running && p != q
    requires target in w.passed && ExactVersion(target) && target != expected
             && RoutedVersion(w.endpoint) == Some(expected)
    ensures var promoted := Run(Next(w, DecidePromotion(p, expected, target)), Script(p, bundleOf));
            var restored := Run(Next(promoted, DecideRollback(q, target, |w.receipts|)), Script(q, bundleOf));
            RoutedVersion(promoted.endpoint) == Some(target) && restored.endpoint == w.endpoint
  {
    hide RoutedVersion, ExactVersion, Pinned, Run, Script;
    PinnedToItsOwn(w.endpoint, expected);
    var decided := Next(w, DecidePromotion(p, expected, target));
    ScriptReleases(decided, p, bundleOf);
    var promoted := Run(decided, Script(p, bundleOf));
    PinningRoutes(w.endpoint, target);
    assert promoted.receipts[|w.receipts|].previous == expected;
    var again := Next(promoted, DecideRollback(q, target, |w.receipts|));
    assert again.running[q].target == expected && again.endpoint == promoted.endpoint;
    ScriptReleases(again, q, bundleOf);
    LastPinWins(w.endpoint, target, expected);
  }

  /** Everything that has to hold for a rollback with a receipt to change the route. */
  predicate Honoured(w: World, n: nat, bundleOf: string -> string)
    requires n < |w.receipts| && w.receipts[n].previous in w.receipts[n].bundles
  {
    var r := w.receipts[n];
    RoutedVersion(w.endpoint) == Some(r.target) && r.bundles[r.previous] == bundleOf(r.previous)
  }

  /** Main result on receipts: in any reachable world, a rollback with a promotion's receipt goes
      through exactly when the route is the receipt's target and the bundle behind the version
      to restore is the one recorded. Whether that promotion ever changed the route plays no
      part. It then puts back the receipt's endpoint; otherwise it changes nothing. */
  lemma {:induction false} ReceiptIsHonouredIff(initial: Endpoint, steps: seq<Step>, q: int, n: nat,
                                                bundleOf: string -> string)
    requires var w := Run(Start(initial), steps); q !in w.running && n < |w.receipts| && w.receipts[n].action == Promote
    ensures var w := Run(Start(initial), steps);
            var r := w.receipts[n];
            var after := Run(Next(w, DecideRollback(q, r.target, n)), Script(q, bundleOf));
            && r.previous in r.bundles
            && (At(after, q, Routed) <==> Honoured(w, n, bundleOf))
            && (Honoured(w, n, bundleOf) ==> after.endpoint == r.before)
            && (!Honoured(w, n, bundleOf) ==> after.endpoint == w.endpoint && after.receipts == w.receipts)
  {
    hide ExactVersion, RoutedVersion, Pinned, Run, Script, Sound, Honoured, Next;
    RunKeepsSound(initial, steps);
    ReceiptAsked(initial, Run(Start(initial), steps), q, n, bundleOf);
  }

  lemma {:induction false} ReceiptAsked(initial: Endpoint, w: World, q: int, n: nat, bundleOf: string -> string)
    requires Sound(initial, w) && q !in w.running && n < |w.receipts| && w.receipts[n].action == Promote
    ensures var r := w.receipts[n];
            var after := Run(Next(w, DecideRollback(q, r.target, n)), Script(q, bundleOf));
            && r.previous in r.bundles
            && (At(after, q, Routed) <==> Honoured(w, n, bundleOf))
            && (Honoured(w, n, bundleOf) ==> after.endpoint == r.before)
            && (!Honoured(w, n, bundleOf) ==> after.endpoint == w.endpoint && after.receipts == w.receipts)
  {
    hide ExactVersion, RoutedVersion, Pinned, Run, Script, AcceptedRoute;
    var r := w.receipts[n];
    assert SoundReceipt(initial, w, r);
    PinnedToItsOwn(r.before, r.previous);
    var decided := Next(w, DecideRollback(q, r.target, n));
    if Honoured(w, n, bundleOf) {
      PinnedToItsOwn(w.endpoint, r.target);
      ScriptReleases(decided, q, bundleOf);
      RestoresBefore(initial, w, r);
    } else {
      ScriptInTurn(decided, q, bundleOf);
      RefusedScript(decided, q, bundleOf);
    }
  }

  lemma {:induction false} RestoresBefore(initial: Endpoint, w: World, r: Receipt)
    requires Sound(initial, w) && SoundReceipt(initial, w, r) && RoutedVersion(w.endpoint) == Some(r.target)
    ensures Pinned(w.endpoint, r.previous) == r.before
  {
    hide ExactVersion, RoutedVersion, Pinned, AcceptedRoute;
    AcceptedRouteRoutes(initial, w, r.before);
    AcceptedRouteRoutes(initial, w, w.endpoint);
    LastPinWins(initial, r.target, r.previous);
  }

  /** A refused release does nothing further. */
  lemma {:induction false} RefusedScript(w: World, q: int, bundleOf: string -> string)
    requires At(w, q, Decided) ==> Next(w, ReadRoute(q, bundleOf)) == Stopped(w, q)
    requires q in w.running ==> At(w, q, Decided)
    ensures var after := Next(Next(Next(Next(w, ReadRoute(q, bundleOf)), WriteReceipt(q)), Snapshot(q)), Update(q));
            q !in after.running && after.endpoint == w.endpoint && after.receipts == w.receipts
  {
    hide RoutedVersion;
  }

  /** While the route is not a receipt's target, rolling back with it is refused outright. */
  lemma {:induction false} UnusedReceiptIsRefused(w: World, q: int, n: nat, expected: string,
                                                  bundleOf: string -> string)
    requires q !in w.running && n < |w.receipts| && RoutedVersion(w.endpoint) != Some(w.receipts[n].target)
    ensures Next(Next(w, DecideRollback(q, expected, n)), ReadRoute(q, bundleOf)) == w
  {
    hide RoutedVersion, ExactVersion;
    var decided := Next(w, DecideRollback(q, expected, n));
    if q in decided.running {
      assert decided.running - {q} == w.running;
    }
  }

  /** A promotion up to its receipt, and then a crash. */
  function CrashedPromotion(p: int, expected: string, target: string, bundleOf: string -> string): seq<Step> {
    [DecidePromotion(p, expected, target), ReadRoute(p, bundleOf), WriteReceipt(p), Stop(p)]
  }

  lemma {:induction false} CrashLeavesAReceipt(w: World, p: int, expected: string, target: string,
                                               bundleOf: string -> string)
    requires p !in w.running && target in w.passed && ExactVersion(target) && target != expected
    requires RoutedVersion(w.endpoint) == Some(expected)
    ensures var crashed := Run(w, CrashedPromotion(p, expected, target, bundleOf));
            crashed == w.(receipts := w.receipts + [Receipt(Promote, expected, target, w.endpoint,
                                                            map[expected := bundleOf(expected),
                                                              target := bundleOf(target)])])
  {
    hide RoutedVersion, ExactVersion, Run;
    PinnedToItsOwn(w.endpoint, expected);
    var a, b, c, d := DecidePromotion(p, expected, target), ReadRoute(p, bundleOf), WriteReceipt(p), Stop(p);
    RunOne(w, a);
    RunOneMore(w, [a], b);
    RunOneMore(w, [a, b], c);
    RunOneMore(w, [a, b, c], d);
    assert [a] + [b] == [a, b] && [a, b] + [c] == [a, b, c];
    assert [a, b, c] + [d] == CrashedPromotion(p, expected, target, bundleOf);
    var decided := Next(w, a);
    var read := Next(decided, b);
    assert p in read.running && read.running[p].stage.Read?;
    var recorded := Next(read, c);
    assert recorded.running - {p} == w.running;
  }

  /** So a receipt whose promotion never changed the route can still be used: once another
      promotion takes the same route to the same version, rolling back with the first one's
      receipt goes through, and puts back the endpoint it recorded. */
  lemma {:induction false} UnusedReceiptIsHonoured(w: World, p: int, other: int, q: int, expected: string,
                                                   target: string,
                                                   bundleOf: string -> string)
    requires p !in w.running && other !in w.running && q !in w.running && p != other && other != q
    requires target in w.passed && ExactVersion(target) && target != expected
             && RoutedVersion(w.endpoint) == Some(expected)
    ensures var crashed := Run(w, CrashedPromotion(p, expected, target, bundleOf));
            var promoted := Run(Next(crashed, DecidePromotion(other, expected, target)), Script(other, bundleOf));
            var restored := Run(Next(promoted, DecideRollback(q, target, |w.receipts|)), Script(q, bundleOf));
            && crashed.endpoint == w.endpoint && RoutedVersion(promoted.endpoint) == Some(target)
            && restored.endpoint == w.endpoint && At(restored, q, Routed)
  {
    hide RoutedVersion, ExactVersion, Pinned, Run, Script, CrashedPromotion;
    PinnedToItsOwn(w.endpoint, expected);
    CrashLeavesAReceipt(w, p, expected, target, bundleOf);
    var crashed := Run(w, CrashedPromotion(p, expected, target, bundleOf));
    var decided := Next(crashed, DecidePromotion(other, expected, target));
    ScriptReleases(decided, other, bundleOf);
    var promoted := Run(decided, Script(other, bundleOf));
    PinningRoutes(w.endpoint, target);
    assert promoted.receipts[|w.receipts|] == crashed.receipts[|w.receipts|];
    var again := Next(promoted, DecideRollback(q, target, |w.receipts|));
    assert again.running[q].target == expected && again.endpoint == promoted.endpoint;
    ScriptReleases(again, q, bundleOf);
    LastPinWins(w.endpoint, target, expected);
  }

  // ------------------------------------------------------------------ the steps as code

  /** The remote project a release works on, and the private receipts beside it. */
  class Project {
    var endpoint: Endpoint
    var receipts: seq<Receipt>

    constructor (endpoint: Endpoint)
      ensures this.endpoint == endpoint && receipts == []
    {
      this.endpoint, receipts := endpoint, [];
    }

    /** Refuses to overwrite another decision; otherwise changes the version selector only. */
    method PinAgentVersion(version: string, expected: Endpoint) returns (ok: bool)
      modifies this`endpoint
      ensures ok <==> version != "" && old(endpoint) == expected
      ensures endpoint == if ok then Pinned(old(endpoint), version) else old(endpoint)
    {
      if version == "" {
        return false;
      }
      var snapshot := endpoint;
      if snapshot != expected {
        return false;
      }
      endpoint := snapshot.(rules := [Rule("FixedRatio", version, 100)]);
      return true;
    }

    /** One uninterrupted release does what the protocol's steps do in order; when the live
        governance check fails, it stops with the receipt written and the route unchanged. */
    method Apply(p: Process, bundleOf: string -> string, governed: bool) returns (ok: bool)
      requires p.stage == Decided && ExactVersion(p.target) && p.expected != p.target
      modifies this
      ensures var start := World(old(endpoint), {}, old(receipts), map[0 := p]);
              var end := Run(start, if governed then Script(0, bundleOf)
                else [ReadRoute(0, bundleOf), WriteReceipt(0)]);
              endpoint == end.endpoint && receipts == end.receipts
      ensures ok ==>
              governed && RoutedVersion(old(endpoint)) == Some(p.expected)
              && endpoint == Pinned(old(endpoint), p.target)
      ensures !ok ==> endpoint == old(endpoint)
    {
      hide ExactVersion, RoutedVersion, Pinned, Run;
      ghost var start := World(endpoint, {}, receipts, map[0 := p]);
      ScriptInTurn(start, 0, bundleOf);
      RunOne(start, ReadRoute(0, bundleOf));
      RunOneMore(start, [ReadRoute(0, bundleOf)], WriteReceipt(0));
      assert [ReadRoute(0, bundleOf)] + [WriteReceipt(0)] == [ReadRoute(0, bundleOf), WriteReceipt(0)];
      var before := endpoint;
      if RoutedVersion(before) != Some(p.expected) {
        return false;
      }
      var bundles := map[p.expected := bundleOf(p.expected), p.target := bundleOf(p.target)];
      if p.original.Some? && (p.target !in p.original.value.bundles
        || p.original.value.bundles[p.target] != bundles[p.target]) {
        return false;
      }
      receipts := receipts + [Receipt(p.action, p.expected, p.target, before, bundles)];
      if !governed {
        return false;
      }
      ExactIsNamed(p.target);
      var pinned := PinAgentVersion(p.target, before);
      PinningRoutes(before, p.target);
      return RoutedVersion(endpoint) == Some(p.target) && endpoint.contract == before.contract;
    }
  }

  lemma {:induction false} ExactIsNamed(version: string)
    requires ExactVersion(version)
    ensures version != ""
  {
  }

  // -------------------------------------------------------------- snapshot against update

  /** The target an effective update installs, if the step is one. */
  function Installs(w: World, step: Step): Option<string> {
    if step.Update? && At(w, step.id, Checked) then Some(w.running[step.id].target) else None
  }

  /** The last version a run installs. */
  ghost function LastInstalled(w: World, steps: seq<Step>): Option<string> {
    if steps == [] then None
    else
      var front := steps[..|steps| - 1];
      var last := Installs(Run(w, front), steps[|steps| - 1]);
      if last.Some? then last else LastInstalled(w, front)
  }

  lemma {:induction false} StepInstalls(w: World, step: Step)
    ensures Next(w, step).endpoint ==
              if Installs(w, step).Some? then Pinned(w.endpoint, Installs(w, step).value) else w.endpoint
  {
    hide ExactVersion, RoutedVersion, Pinned, Passed;
  }

  lemma {:induction false} EndpointAfter(w: World, steps: seq<Step>)
    ensures var last := LastInstalled(w, steps);
            Run(w, steps).endpoint == if last.Some? then Pinned(w.endpoint, last.value) else w.endpoint
  {
    hide ExactVersion, RoutedVersion, Pinned, Next, Installs;
    if steps != [] {
      var front, step := steps[..|steps| - 1], steps[|steps| - 1];
      EndpointAfter(w, front);
      var before := Run(w, front);
      StepInstalls(before, step);
      if Installs(before, step).Some? && LastInstalled(w, front).Some? {
        LastPinWins(w.endpoint, LastInstalled(w, front).value, Installs(before, step).value);
      }
    }
  }

  /** The snapshot and the update are separate calls. Between them the route is still the one the
      process checked exactly when no other process changed it, or the last to change it
      installed the version it already routed. */
  lemma {:induction false} CheckHoldsUntilUpdate(initial: Endpoint, earlier: seq<Step>, id: int, between: seq<Step>)
    requires var w := Run(Start(initial), earlier); At(w, id, Checked) && w.endpoint == w.running[id].before
    ensures var w := Run(Start(initial), earlier);
            Run(w, between).endpoint == w.running[id].before <==>
              LastInstalled(w, between).None? || LastInstalled(w, between).value == w.running[id].expected
  {
    hide ExactVersion, RoutedVersion, Pinned, Run, LastInstalled;
    RunKeepsSound(initial, earlier);
    var w := Run(Start(initial), earlier);
    EndpointAfter(w, between);
    assert SoundProcess(initial, w, w.running[id]);
    PinnedToItsOwn(w.endpoint, w.running[id].expected);
    if LastInstalled(w, between).Some? {
      PinsDiffer(w.endpoint, LastInstalled(w, between).value, w.running[id].expected);
    }
  }

  lemma {:induction false} PinsDiffer(endpoint: Endpoint, a: string, b: string)
    ensures Pinned(endpoint, a) == Pinned(endpoint, b) <==> a == b
  {
    assert Pinned(endpoint, a).rules[0].version == a && Pinned(endpoint, b).rules[0].version == b;
  }

  /** Both promotions up to the check, then both updates. */
  function Race(p: int, q: int, expected: string, a: string, b: string, bundleOf: string -> string): seq<Step> {
    [DecidePromotion(p, expected, a), ReadRoute(p, bundleOf), WriteReceipt(p), Snapshot(p)]
    + [DecidePromotion(q, expected, b), ReadRoute(q, bundleOf), WriteReceipt(q), Snapshot(q)]
    + [Update(p), Update(q)]
  }

  lemma {:induction false} PromotionChecks(w: World, id: int, expected: string, target: string,
                                           bundleOf: string -> string)
    requires id !in w.running && target in w.passed && ExactVersion(expected) && ExactVersion(target)
             && target != expected
    requires RoutedVersion(w.endpoint) == Some(expected)
    ensures var after := Run(w, [DecidePromotion(id, expected, target), ReadRoute(id, bundleOf), WriteReceipt(id),
            Snapshot(id)]);
            && after.endpoint == w.endpoint && after.passed == w.passed
            && after.running == w.running[id := Process(Promote, expected, target, None, w.endpoint, Checked)]
  {
    hide RoutedVersion, ExactVersion, Run;
    var a, b, c, d := DecidePromotion(id, expected, target), ReadRoute(id, bundleOf), WriteReceipt(id), Snapshot(id);
    RunOne(w, a);
    RunOneMore(w, [a], b);
    RunOneMore(w, [a, b], c);
    RunOneMore(w, [a, b, c], d);
    assert [a] + [b] == [a, b] && [a, b] + [c] == [a, b, c] && [a, b, c] + [d] == [a, b, c, d];
    var decided := Next(w, a);
    assert At(decided, id, Decided);
    var read := Next(decided, b);
    assert id in read.running && read.running[id].stage.Read?;
    var recorded := Next(read, c);
    assert At(recorded, id, Recorded) && recorded.running[id].before == w.endpoint;
  }

  /** So two operators who checked the same route overwrite one another's decision: from any world
      that routes an accepted version, and for any two versions that passed, both updates go
      through and the second wins. */
  lemma {:induction false} DecisionsCanBeOverwritten(w: World, p: int, q: int, expected: string, a: string, b: string,
                                                     bundleOf: string -> string)
    requires p !in w.running && q !in w.running && p != q
    requires a in w.passed && b in w.passed && ExactVersion(a) && ExactVersion(b) && a != expected && b != expected
    requires RoutedVersion(w.endpoint) == Some(expected)
    ensures var after := Run(w, Race(p, q, expected, a, b, bundleOf));
            && At(after, p, Routed) && At(after, q, Routed)
            && after.running[p].before == w.endpoint && after.running[q].before == w.endpoint
            && after.endpoint == Pinned(w.endpoint, b)
  {
    hide RoutedVersion, ExactVersion, Pinned, Run;
    PinnedToItsOwn(w.endpoint, expected);
    var first := [DecidePromotion(p, expected, a), ReadRoute(p, bundleOf), WriteReceipt(p), Snapshot(p)];
    var second := [DecidePromotion(q, expected, b), ReadRoute(q, bundleOf), WriteReceipt(q), Snapshot(q)];
    PromotionChecks(w, p, expected, a, bundleOf);
    var one := Run(w, first);
    PromotionChecks(one, q, expected, b, bundleOf);
    var two := Run(one, second);
    RunInTurn(w, first, second);
    RunInTurn(w, first + second, [Update(p), Update(q)]);
    RunOne(two, Update(p));
    RunOneMore(two, [Update(p)], Update(q));
    assert [Update(p)] + [Update(q)] == [Update(p), Update(q)];
    LastPinWins(w.endpoint, a, b);
  }
}
