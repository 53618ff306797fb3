/** The pure reducer of the PlanForge loop (apps/cli/src/loop-supervisor.ts). */
module LoopSupervisor {
  import opened Seqs

  datatype Phase = Plan | DryRun | EnvelopeCheck | Admit | Dispatch | Accept | Merge | Reanchor | Advancing

  datatype Reason =
    | MaxIterations | RoadmapComplete | StopFile | AcceptanceFail
    | DispatchError | EnvelopeBreach | TokenBudget | PlannerError

  datatype Detail = NoDetail | Given(text: string) | OverBudget(total: int, budget: int)

  datatype Terminal = Terminal(reason: Reason, detail: Detail)

  datatype LoopState = LoopState(
    iteration: int,
    maxIterations: Option<int>,
    envelopeRef: Option<string>,
    trustedBase: Option<string>,
    lastMergedHeadSha: Option<string>,
    cumulativeTokenDeltas: int,
    tokenBudget: Option<int>,
    phase: Phase,
    currentSliceId: Option<string>,
    currentPlanPath: Option<string>,
    terminal: Option<Terminal>)

  datatype Options = Options(
    maxIterations: Option<int>, tokenBudget: Option<int>, envelopeRef: Option<string>, trustedBase: Option<string>)

  datatype Transition =
    | SliceSelected(sliceId: string, planPath: string)
    | RoadmapDone
    | PlannerFailed(detail: string)
    | DryRunOk
    | EnvelopeOk
    | EnvelopeBreached(detail: string)
    | Admitted
    | Dispatched
    | AcceptanceFailed(detail: string)
    | DispatchFailed(detail: string)
    | Accepted
    | Merged(headSha: string)
    | TokenDeltasObserved(count: int)
    | Advance
    | StopFileSeen

  /** initialLoopState, the time stamp apart. */
  function Initial(o: Options): LoopState {
    LoopState(0, o.maxIterations, o.envelopeRef, o.trustedBase, None, 0, o.tokenBudget, Plan, None, None, None)
  }

  function Terminate(s: LoopState, reason: Reason, detail: Detail): LoopState {
    s.(terminal := Some(Terminal(reason, detail)))
  }

  predicate Exceeds(value: int, limit: Option<int>) { limit.Some? && value > limit.value }

  /** nextLoopState. */
  function Next(s: LoopState, t: Transition): LoopState {
    if s.terminal.Some? then s
    else
      match t
      case StopFileSeen => Terminate(s, StopFile, NoDetail)
      case RoadmapDone => Terminate(s, RoadmapComplete, NoDetail)
      case PlannerFailed(detail) => Terminate(s, PlannerError, Given(detail))
      case EnvelopeBreached(detail) => Terminate(s, EnvelopeBreach, Given(detail))
      case AcceptanceFailed(detail) => Terminate(s, AcceptanceFail, Given(detail))
      case DispatchFailed(detail) => Terminate(s, DispatchError, Given(detail))
      case TokenDeltasObserved(count) =>
        var total := s.cumulativeTokenDeltas + count;
        if Exceeds(total, s.tokenBudget)
        then Terminate(s.(cumulativeTokenDeltas := total), TokenBudget, OverBudget(total, s.tokenBudget.value))
        else s.(cumulativeTokenDeltas := total)
      case SliceSelected(sliceId, planPath) =>
        s.(phase := DryRun, currentSliceId := Some(sliceId), currentPlanPath := Some(planPath))
      case DryRunOk => s.(phase := EnvelopeCheck)
      case EnvelopeOk => s.(phase := Admit)
      case Admitted => s.(phase := Dispatch)
      case Dispatched => s.(phase := Accept)
      case Accepted => s.(phase := Merge)
      case Merged(headSha) => s.(phase := Reanchor, lastMergedHeadSha := Some(headSha))
      case Advance =>
        if Exceeds(s.iteration + 1, s.maxIterations) then Terminate(s, MaxIterations, NoDetail)
        else s.(phase := Plan, iteration := s.iteration + 1, currentSliceId := None, currentPlanPath := None)
  }

  /** The state after a list of transitions. */
  function Run(s: LoopState, ts: seq<Transition>): LoopState {
    if ts == [] then s else Next(Run(s, ts[..|ts| - 1]), ts[|ts| - 1])
  }

  // ------------------------------------------- a run judged by its list alone

  function Advances(ts: seq<Transition>): nat {
    if ts == [] then 0 else Advances(ts[..|ts| - 1]) + if ts[|ts| - 1].Advance? then 1 else 0
  }

  function CountOf(t: Transition): int { if t.TokenDeltasObserved? then t.count else 0 }

  function Tokens(ts: seq<Transition>): int {
    if ts == [] then 0 else Tokens(ts[..|ts| - 1]) + CountOf(ts[|ts| - 1])
  }

  predicate Ends(t: Transition) {
    || t.StopFileSeen? || t.RoadmapDone? || t.PlannerFailed?
    || t.EnvelopeBreached? || t.AcceptanceFailed? || t.DispatchFailed?
  }

  /** No ending event, never over the token budget on the way, and no more advances than allowed. */
  ghost predicate Alive(o: Options, ts: seq<Transition>) {
    && (forall k :: 0 <= k < |ts| ==> !Ends(ts[k]))
    && (forall k :: 0 <= k <= |ts| ==> Within(Tokens(ts[..k]), o.tokenBudget))
    && Within(Advances(ts), o.maxIterations)
  }

  /** A limit that is not given holds everything. */
  ghost predicate Within(value: int, limit: Option<int>) { limit.None? || value <= limit.value }

  ghost predicate LimitsHold(o: Options) { Within(0, o.maxIterations) && Within(0, o.tokenBudget) }

  lemma {:induction false} AliveStep(o: Options, ts: seq<Transition>)
    requires ts != []
    ensures var n := |ts| - 1;
            Alive(o, ts) <==>
            && Alive(o, ts[..n]) && !Ends(ts[n])
            && Within(Tokens(ts), o.tokenBudget) && Within(Advances(ts), o.maxIterations)
  {
    var n := |ts| - 1;
    assert ts[..|ts|] == ts;
    assert forall k :: 0 <= k <= n ==> ts[..n][..k] == ts[..k];
    assert forall k :: 0 <= k < n ==> ts[..n][k] == ts[k];
  }

  ghost predicate Fixed(o: Options, s: LoopState) {
    s.maxIterations == o.maxIterations && s.tokenBudget == o.tokenBudget
    && s.envelopeRef == o.envelopeRef && s.trustedBase == o.trustedBase
  }

  /** The trusted base, the limits and the envelope reference never move. */
  lemma {:induction false} NeverMoves(o: Options, ts: seq<Transition>)
    ensures Fixed(o, Run(Initial(o), ts))
  {
    if ts != [] { NeverMoves(o, ts[..|ts| - 1]); }
  }

  /** A run is live exactly while its transition list is; until then its counters are the list's. */
  lemma {:induction false} LiveMeansAlive(o: Options, ts: seq<Transition>)
    requires LimitsHold(o)
    ensures Run(Initial(o), ts).terminal.None? <==> Alive(o, ts)
    ensures Alive(o, ts) ==>
              Run(Initial(o), ts).iteration == Advances(ts) && Run(Initial(o), ts).cumulativeTokenDeltas == Tokens(ts)
  {
    if ts == [] {
      assert ts[..0] == [];
    } else {
      LiveMeansAlive(o, ts[..|ts| - 1]);
      NeverMoves(o, ts[..|ts| - 1]);
      AliveStep(o, ts);
      StepLives(Run(Initial(o), ts[..|ts| - 1]), ts[|ts| - 1]);
    }
  }

  /** What one transition does to a live state. */
  lemma {:induction false} StepLives(s: LoopState, t: Transition)
    ensures s.terminal.None? ==>
              var n := Next(s, t);
              && (n.terminal.None? <==>
                  && !Ends(t)
                  && (t.TokenDeltasObserved? ==> Within(s.cumulativeTokenDeltas + CountOf(t), s.tokenBudget))
                  && (t.Advance? ==> Within(s.iteration + 1, s.maxIterations)))
              && n.cumulativeTokenDeltas == s.cumulativeTokenDeltas + CountOf(t)
              && n.iteration == s.iteration + (if t.Advance? && n.terminal.None? then 1 else 0)
              && (n.terminal.Some? ==> n.terminal.value.reason == ReasonOf(t))
              && (n.terminal.Some? ==> DetailSays(n.terminal.value.detail, t, n.cumulativeTokenDeltas, n.tokenBudget))
    ensures s.terminal.Some? ==> Next(s, t) == s
  {
  }

  /** How many leading transitions the run was still live after. */
  ghost function LiveLength(o: Options, ts: seq<Transition>): (n: nat)
    ensures n <= |ts|
  {
    if ts == [] || Alive(o, ts) then |ts| else LiveLength(o, ts[..|ts| - 1])
  }

  lemma {:induction false} LiveLengthMeaning(o: Options, ts: seq<Transition>)
    requires LimitsHold(o)
    ensures var n := LiveLength(o, ts);
            Alive(o, ts[..n]) && (n < |ts| ==> !Alive(o, ts[..n + 1]))
  {
    if ts == [] {
      assert ts[..0] == [];
      LiveMeansAlive(o, ts);
    } else if Alive(o, ts) {
      assert ts[..|ts|] == ts;
    } else {
      var init := ts[..|ts| - 1];
      LiveLengthMeaning(o, init);
      var n := LiveLength(o, init);
      assert init[..n] == ts[..n];
      if n < |init| { assert init[..n + 1] == ts[..n + 1]; } else { assert ts[..n + 1] == ts; }
    }
  }

  lemma {:induction false} TerminalStays(s: LoopState, ts: seq<Transition>)
    requires s.terminal.Some?
    ensures Run(s, ts) == s
  {
    if ts != [] { TerminalStays(s, ts[..|ts| - 1]); }
  }

  lemma {:induction false} RunSplits(s: LoopState, a: seq<Transition>, b: seq<Transition>)
    ensures Run(s, a + b) == Run(Run(s, a), b)
  {
    if b == [] {
      assert a + b == a;
    } else {
      var n := |b| - 1;
      RunSplits(s, a, b[..n]);
      assert (a + b)[..|a| + n] == a + b[..n];
    }
  }

  /** The transition at which a run ends says why it ended. */
  function ReasonOf(t: Transition): Reason {
    match t
    case StopFileSeen => StopFile
    case RoadmapDone => RoadmapComplete
    case PlannerFailed(_) => PlannerError
    case EnvelopeBreached(_) => EnvelopeBreach
    case AcceptanceFailed(_) => AcceptanceFail
    case DispatchFailed(_) => DispatchError
    case TokenDeltasObserved(_) => TokenBudget
    case _ => MaxIterations
  }

  /** A failure keeps the text it was reported with, and an exceeded budget the total and the budget. */
  ghost predicate DetailSays(detail: Detail, t: Transition, total: int, budget: Option<int>) {
    match t
    case PlannerFailed(text) => detail == Given(text)
    case EnvelopeBreached(text) => detail == Given(text)
    case AcceptanceFailed(text) => detail == Given(text)
    case DispatchFailed(text) => detail == Given(text)
    case TokenDeltasObserved(_) => budget.Some? && detail == OverBudget(total, budget.value)
    case _ => detail == NoDetail
  }

  lemma {:induction false} EndingStep(o: Options, ts: seq<Transition>)
    requires LimitsHold(o) && ts != [] && Alive(o, ts[..|ts| - 1]) && !Alive(o, ts)
    ensures var s := Run(Initial(o), ts);
            var t := ts[|ts| - 1];
            && s.terminal.Some? && s.terminal.value.reason == ReasonOf(t)
            && s.iteration == Advances(ts[..|ts| - 1]) && s.cumulativeTokenDeltas == Tokens(ts)
            && DetailSays(s.terminal.value.detail, t, Tokens(ts), o.tokenBudget)
            && (t.TokenDeltasObserved? <==> !Within(Tokens(ts), o.tokenBudget))
  {
    LiveMeansAlive(o, ts[..|ts| - 1]);
    NeverMoves(o, ts[..|ts| - 1]);
    AliveStep(o, ts);
    StepLives(Run(Initial(o), ts[..|ts| - 1]), ts[|ts| - 1]);
    var n := |ts| - 1;
    assert ts[..n][..n] == ts[..n];
    assert Within(Tokens(ts[..n][..n]), o.tokenBudget);
  }

  /**
   * For every list of transitions: the run is live up to its live length and one transition later it stops for
   * good; `iteration` counts the advances of the live part and stays within the limit, the token total sums every
   * count the run consumed, and it exceeds the budget exactly when the reason is the token budget; the reason and the
   * detail are those of the transition that ended it.
   */
  lemma {:induction false} RunMeaning(o: Options, ts: seq<Transition>)
    requires LimitsHold(o)
    ensures var n := LiveLength(o, ts);
            var s := Run(Initial(o), ts);
            && s.iteration == Advances(ts[..n]) && Within(s.iteration, o.maxIterations)
            && (s.terminal.None? <==> n == |ts|)
            && (n == |ts| ==> s.cumulativeTokenDeltas == Tokens(ts))
            && (n < |ts| ==>
                  && s == Run(Initial(o), ts[..n + 1])
                  && s.cumulativeTokenDeltas == Tokens(ts[..n + 1])
                  && s.terminal.value.reason == ReasonOf(ts[n])
                  && DetailSays(s.terminal.value.detail, ts[n], Tokens(ts[..n + 1]), o.tokenBudget))
            && (!Within(s.cumulativeTokenDeltas, o.tokenBudget) <==>
                s.terminal.Some? && s.terminal.value.reason == TokenBudget)
            && Fixed(o, s)
  {
    var n := LiveLength(o, ts);
    LiveLengthMeaning(o, ts);
    LiveMeansAlive(o, ts);
    NeverMoves(o, ts);
    assert ts[..n] == ts[..n][..n];
    if n == |ts| {
      assert ts[..n] == ts;
    } else {
      var stopped := ts[..n + 1];
      assert stopped[..n] == ts[..n];
      EndingStep(o, stopped);
      assert ts == stopped + ts[n + 1..];
      RunSplits(Initial(o), stopped, ts[n + 1..]);
      TerminalStays(Run(Initial(o), stopped), ts[n + 1..]);
    }
  }

  // ---------------------------------------------------- where a live run stands

  /** The phase a transition moves to, if it moves at all. */
  function PhaseOf(t: Transition): Option<Phase> {
    match t
    case SliceSelected(_, _) => Some(DryRun)
    case DryRunOk => Some(EnvelopeCheck)
    case EnvelopeOk => Some(Admit)
    case Admitted => Some(Dispatch)
    case Dispatched => Some(Accept)
    case Accepted => Some(Merge)
    case Merged(_) => Some(Reanchor)
    case Advance => Some(Plan)
    case _ => None
  }

  /** The index of the last transition that satisfies `holds`. */
  function LastIndex(ts: seq<Transition>, holds: Transition -> bool): (r: Option<nat>)
    ensures r.Some? ==> r.value < |ts| && holds(ts[r.value])
  {
    if ts == [] then None
    else if holds(ts[|ts| - 1]) then Some(|ts| - 1)
    else LastIndex(ts[..|ts| - 1], holds)
  }

  predicate Moves(t: Transition) { PhaseOf(t).Some? }

  predicate Merges(t: Transition) { t.Merged? }

  predicate Chooses(t: Transition) { t.SliceSelected? || t.Advance? }

  ghost predicate PhaseAt(s: LoopState, ts: seq<Transition>) {
    var moved := LastIndex(ts, Moves);
    s.phase == if moved.None? then Plan else PhaseOf(ts[moved.value]).value
  }

  ghost predicate MergedAt(s: LoopState, ts: seq<Transition>) {
    var merged := LastIndex(ts, Merges);
    s.lastMergedHeadSha == if merged.None? then None else Some(ts[merged.value].headSha)
  }

  ghost predicate SliceAt(s: LoopState, ts: seq<Transition>) {
    var chosen := LastIndex(ts, Chooses);
    if chosen.Some? && ts[chosen.value].SliceSelected?
    then s.currentSliceId == Some(ts[chosen.value].sliceId) && s.currentPlanPath == Some(ts[chosen.value].planPath)
    else s.currentSliceId.None? && s.currentPlanPath.None?
  }

  lemma {:induction false} PositionStep(s: LoopState, ts: seq<Transition>)
    requires ts != [] && s.terminal.None? && Next(s, ts[|ts| - 1]).terminal.None?
    requires PhaseAt(s, ts[..|ts| - 1]) && MergedAt(s, ts[..|ts| - 1]) && SliceAt(s, ts[..|ts| - 1])
    ensures PhaseAt(Next(s, ts[|ts| - 1]), ts) && MergedAt(Next(s, ts[|ts| - 1]), ts)
    ensures SliceAt(Next(s, ts[|ts| - 1]), ts)
  {
  }

  /**
   * While a run is live its phase is that of the last transition that moved it, its merged head that of the last
   * merge, and its slice and plan those of the last selection unless an advance came later.
   */
  lemma {:induction false} LivePosition(o: Options, ts: seq<Transition>)
    requires LimitsHold(o) && Alive(o, ts)
    ensures var s := Run(Initial(o), ts); PhaseAt(s, ts) && MergedAt(s, ts) && SliceAt(s, ts)
  {
    if ts != [] {
      AliveStep(o, ts);
      LiveMeansAlive(o, ts);
      LiveMeansAlive(o, ts[..|ts| - 1]);
      LivePosition(o, ts[..|ts| - 1]);
      PositionStep(Run(Initial(o), ts[..|ts| - 1]), ts);
    }
  }

  lemma {:induction false} EndingKeepsPosition(s: LoopState, t: Transition)
    requires s.terminal.None? && Next(s, t).terminal.Some?
    ensures var e := Next(s, t);
            && e.phase == s.phase && e.lastMergedHeadSha == s.lastMergedHeadSha
            && e.currentSliceId == s.currentSliceId && e.currentPlanPath == s.currentPlanPath
  {
  }

  /**
   * For every list of transitions the position is that of its live part: the transition that ends a run moves nothing.
   */
  lemma {:induction false} PositionMeaning(o: Options, ts: seq<Transition>)
    requires LimitsHold(o)
    ensures var s := Run(Initial(o), ts);
            var live := ts[..LiveLength(o, ts)];
            PhaseAt(s, live) && MergedAt(s, live) && SliceAt(s, live)
  {
    var n := LiveLength(o, ts);
    LiveLengthMeaning(o, ts);
    LivePosition(o, ts[..n]);
    RunMeaning(o, ts);
    if n == |ts| {
      assert ts[..n] == ts;
    } else {
      LiveMeansAlive(o, ts[..n]);
      assert ts[..n + 1][..n] == ts[..n];
      EndingKeepsPosition(Run(Initial(o), ts[..n]), ts[n]);
    }
  }
}
