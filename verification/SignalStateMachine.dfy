/**
  The closed transition map of a research signal (app/signals/state_machine.py) and the
  deterministic choice of one transition per monitoring cycle (app/signals/lifecycle_engine.py).
 */
module SignalStateMachine {
  import opened Options

  datatype State =
    | Draft | PendingAdmission | WatchingEntry | EntryConfirmed | ActiveResearch
    | Target1Reached | Target2Reached | TrailingResearch
    | TechnicalExit | Invalidated | Expired | Superseded | Paused | Rejected | DataInvalid

  const ENDS := {TechnicalExit, Invalidated, Expired, Superseded, Rejected, DataInvalid}

  predicate Terminal(s: State) {
    s in ENDS
  }

  function Successors(s: State): set<State> {
    match s
    case Draft => {PendingAdmission, Rejected}
    case PendingAdmission => {WatchingEntry, Rejected, Expired, Paused, DataInvalid}
    case WatchingEntry => {EntryConfirmed, Invalidated, Expired, Superseded, Paused, DataInvalid, Rejected}
    case EntryConfirmed => {ActiveResearch, Invalidated, Expired, Superseded, Paused, DataInvalid}
    case ActiveResearch => {Target1Reached, Target2Reached, TrailingResearch, TechnicalExit,
                            Invalidated, Expired, Superseded, Paused, DataInvalid}
    case Target1Reached => {Target2Reached, TrailingResearch, TechnicalExit,
                            Invalidated, Expired, Superseded, Paused, DataInvalid}
    case Target2Reached => {TrailingResearch, TechnicalExit, Expired, Superseded, Paused, DataInvalid}
    case TrailingResearch => {TechnicalExit, Expired, Superseded, Paused, DataInvalid}
    case Paused => {Expired, Superseded, DataInvalid}
    case _ => {}
  }

  predicate CanTransition(from: State, to: State) {
    to in Successors(from)
  }

  /** The creation event, or the event emitted when a state is entered. */
  datatype EventType = Created | Entering(state: State)

  datatype TransitionStep = TransitionStep(from: State, to: State, eventType: EventType, priority: int)

  /** Every step is a listed transition and starts where the previous one ended. */
  predicate ValidChain(start: State, steps: seq<TransitionStep>) {
    forall i :: 0 <= i < |steps| ==>
      && steps[i].from == (if i == 0 then start else steps[i - 1].to)
      && CanTransition(steps[i].from, steps[i].to)
  }

  datatype Monitor =
    | DataQuality | PlanState | Supersede | Expiry | Session
    | Invalidation | StructureExit | Targets | Entry | Engine

  datatype PriorityKey =
    | KeyDataInvalid | KeyInvalidated | KeySuperseded | KeyExpired | KeyPaused
    | KeyTechnicalExit | KeyTarget2 | KeyTarget1 | KeyEntryConfirmed | KeyInfo

  /** One monitor's proposal; a proposal without a target state is an observation. */
  datatype Finding =
    Finding(monitor: Monitor, key: PriorityKey, to: Option<State>, eventType: Option<EventType>)

  type Priorities = map<PriorityKey, int>

  /** Monitors that may act on a dormant (PAUSED) signal. */
  predicate ActsOnPaused(m: Monitor) {
    m in {DataQuality, PlanState, Supersede, Expiry}
  }

  /** The finding the engine itself adds for the two automatic progressions. */
  function AutoProgression(state: State): seq<Finding> {
    if state == EntryConfirmed then
      [Finding(Engine, KeyInfo, Some(ActiveResearch), Some(Entering(ActiveResearch)))]
    else if state == Target2Reached then
      [Finding(Engine, KeyInfo, Some(TrailingResearch), Some(Entering(TrailingResearch)))]
    else []
  }

  /** A finding that may win the cycle for a signal in this state. */
  predicate Eligible(state: State, f: Finding, priorities: Priorities) {
    && (state == Paused ==> ActsOnPaused(f.monitor) || f.monitor == Engine)
    && f.to.Some? && f.eventType.Some?
    && CanTransition(state, f.to.value)
    && f.key in priorities
  }

  /** Every eligible finding before this one has a lower priority. */
  predicate OutranksEarlier(state: State, findings: seq<Finding>, priorities: Priorities, k: nat)
    requires k < |findings| && findings[k].key in priorities
  {
    forall j | 0 <= j < k && Eligible(state, findings[j], priorities) ::
      priorities[findings[j].key] < priorities[findings[k].key]
  }

  /** The first of the eligible findings with the highest priority. */
  method ChooseWinner(state: State, findings: seq<Finding>, priorities: Priorities) returns (winner: Option<Finding>)
    ensures winner.None? <==> forall f | f in findings :: !Eligible(state, f, priorities)
    ensures winner.Some? ==>
              && winner.value in findings && Eligible(state, winner.value, priorities)
              && forall f | f in findings && Eligible(state, f, priorities) ::
                   priorities[f.key] <= priorities[winner.value.key]
    ensures winner.Some? ==>
              exists k | 0 <= k < |findings| ::
                findings[k] == winner.value && OutranksEarlier(state, findings, priorities, k)
  {
    assert !CanTransition(state, state);
    hide Successors;
    winner := None;
    ghost var at := 0;
    for i := 0 to |findings|
      invariant winner.None? <==> forall j | 0 <= j < i :: !Eligible(state, findings[j], priorities)
      invariant winner.Some? ==> winner.value in findings && Eligible(state, winner.value, priorities)
      invariant winner.Some? ==>
                  at < i && findings[at] == winner.value && OutranksEarlier(state, findings, priorities, at)
      invariant winner.Some? ==> forall j | 0 <= j < i && Eligible(state, findings[j], priorities) ::
                    priorities[findings[j].key] <= priorities[winner.value.key]
    {
      var f := findings[i];
      if state == Paused && !ActsOnPaused(f.monitor) && f.monitor != Engine {
        continue;
      }
      if f.to.None? || f.eventType.None? || f.to.value == state {
        continue;
      }
      if !CanTransition(state, f.to.value) || f.key !in priorities {
        continue;
      }
      if winner.None? || priorities[f.key] > priorities[winner.value.key] {
        winner, at := Some(f), i;
      }
    }
  }

  /**
    One cycle's decision.  At most one final state is chosen, by the highest priority among the
    eligible findings, and the only chain longer than one step is the entry chain.
   */
  method EvaluateSignal(state: State, proposals: seq<Finding>, priorities: Priorities)
    returns (steps: seq<TransitionStep>)
    requires KeyInfo in priorities
    requires forall f | f in proposals :: f.monitor != Engine
    ensures ValidChain(state, steps) && |steps| <= 2
    ensures |steps| == 2 <==> steps != [] && steps[0].to == EntryConfirmed
    ensures |steps| == 2 ==>
              steps[1] == TransitionStep(EntryConfirmed, ActiveResearch, Entering(ActiveResearch), priorities[KeyInfo])
    ensures steps == [] <==>
            forall f | f in proposals + AutoProgression(state) :: !Eligible(state, f, priorities)
    ensures steps != [] ==>
              exists w | w in proposals + AutoProgression(state) ::
                && Eligible(state, w, priorities)
                && steps[0] == TransitionStep(state, w.to.value, w.eventType.value, priorities[w.key])
                && (state == Paused ==> w.monitor in {DataQuality, PlanState, Supersede, Expiry})
                && forall f | f in proposals + AutoProgression(state) && Eligible(state, f, priorities) ::
                     priorities[f.key] <= priorities[w.key]
    // the two states that move on by themselves
    ensures (forall f | f in proposals :: !Eligible(state, f, priorities)) ==>
              steps == match state
                       case EntryConfirmed =>
                         [TransitionStep(EntryConfirmed, ActiveResearch, Entering(ActiveResearch), priorities[KeyInfo])]
                       case Target2Reached =>
                         [TransitionStep(Target2Reached, TrailingResearch, Entering(TrailingResearch),
                                         priorities[KeyInfo])]
                       case _ => []
  {
    if Terminal(state) {
      return [];
    }
    AutomaticMoves(state, priorities);
    hide AutoProgression;
    var winner := ChooseWinner(state, proposals + AutoProgression(state), priorities);
    if winner.None? {
      return [];
    }
    var w := winner.value;
    steps := [TransitionStep(state, w.to.value, w.eventType.value, priorities[w.key])];
    if w.to.value == EntryConfirmed {
      steps := steps + [TransitionStep(EntryConfirmed, ActiveResearch, Entering(ActiveResearch),
                                       priorities[KeyInfo])];
    }
  }

  /** Two states have a move of their own, which is always eligible; the others have none. */
  lemma AutomaticMoves(state: State, priorities: Priorities)
    requires KeyInfo in priorities
    ensures forall f | f in AutoProgression(state) ::
              && f.key == KeyInfo && f.to.Some? && f.eventType == Some(Entering(f.to.value))
              && (state, f.to.value) in {(EntryConfirmed, ActiveResearch), (Target2Reached, TrailingResearch)}
              && Eligible(state, f, priorities)
    ensures AutoProgression(state) != [] <==> state in {EntryConfirmed, Target2Reached}
    ensures AutoProgression(state) != [] ==> AutoProgression(state)[0] in AutoProgression(state)
  {
  }

  /** A proposal that changes something: a listed move by a monitor that may act, with a known priority. */
  lemma EligibleMeans(state: State, f: Finding, priorities: Priorities)
    ensures Eligible(state, f, priorities) <==>
              && f.to.Some? && f.eventType.Some? && f.key in priorities
              && f.to.value in Successors(state)
              && (state == Paused ==> f.monitor in {DataQuality, PlanState, Supersede, Expiry, Engine})
  {
  }

  /** From where each state can be entered: the map read backwards. */
  lemma TransitionsInto(from: State, to: State)
    ensures CanTransition(from, to) <==>
              match to
              case Draft => false
              case PendingAdmission => from == Draft
              case WatchingEntry => from == PendingAdmission
              case EntryConfirmed => from == WatchingEntry
              case ActiveResearch => from == EntryConfirmed
              case Target1Reached => from == ActiveResearch
              case Target2Reached => from in {ActiveResearch, Target1Reached}
              case TrailingResearch => from in {ActiveResearch, Target1Reached, Target2Reached}
              case TechnicalExit => from in {ActiveResearch, Target1Reached, Target2Reached, TrailingResearch}
              case Invalidated => from in {WatchingEntry, EntryConfirmed, ActiveResearch, Target1Reached}
              case Rejected => from in {Draft, PendingAdmission, WatchingEntry}
              case Paused => !Terminal(from) && from !in {Draft, Paused}
              case Expired => !Terminal(from) && from != Draft
              case DataInvalid => !Terminal(from) && from != Draft
              case Superseded => !Terminal(from) && from !in {Draft, PendingAdmission}
  {
  }

  /** The ends are the states that nothing leaves. */
  lemma EndsAreLeftByNothing(s: State)
    ensures Terminal(s) <==> forall to :: !CanTransition(s, to)
    ensures Terminal(s) <==> s in {TechnicalExit, Invalidated, Expired, Superseded, Rejected, DataInvalid}
  {
    match s
    case Draft => assert CanTransition(s, Rejected);
    case Paused => assert CanTransition(s, Expired);
    case PendingAdmission => assert CanTransition(s, Expired);
    case WatchingEntry => assert CanTransition(s, Expired);
    case EntryConfirmed => assert CanTransition(s, Expired);
    case ActiveResearch => assert CanTransition(s, Expired);
    case Target1Reached => assert CanTransition(s, Expired);
    case Target2Reached => assert CanTransition(s, Expired);
    case TrailingResearch => assert CanTransition(s, Expired);
    case _ =>
  }

  /** A listed transition never leaves a terminal state and never stays where it is. */
  lemma ListedTransitionsLeaveLiveStates(from: State, to: State)
    requires CanTransition(from, to)
    ensures !Terminal(from) && from != to
  {
  }

  lemma {:induction false} ChainsStayLive(start: State, steps: seq<TransitionStep>)
    requires ValidChain(start, steps)
    ensures forall i | 0 <= i < |steps| :: !Terminal(steps[i].from)
    ensures forall i | 0 <= i < |steps| - 1 :: !Terminal(steps[i].to)
  {
    forall i | 0 <= i < |steps|
      ensures !Terminal(steps[i].from)
    {
      ListedTransitionsLeaveLiveStates(steps[i].from, steps[i].to);
    }
    forall i | 0 <= i < |steps| - 1
      ensures !Terminal(steps[i].to)
    {
      assert steps[i + 1].from == steps[i].to;
    }
  }
}
