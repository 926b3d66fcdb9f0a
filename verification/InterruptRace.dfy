/**
 One acknowledgement completion taken lock by lock, racing with deliveries that are
 also taken lock by lock (kernel/src/device/interrupt.rs:228-241, 614-648, 696-713,
 1172-1211, with the source table of 335-355).

 The acknowledgement asks the platform, then finishes the typed state, then completes
 on the platform.  A delivery first reaches the platform (`Edge`) and later the typed
 record (`Land`).  Between the finish and the completion the two tables can come apart.
 */
module InterruptRace {
  import opened Wrappers
  import opened InterruptPlatform
  import opened InterruptState

  datatype Phase = Asking | Acknowledged | Finished(outcome: AckOutcome) | Completed(outcome: AckOutcome)

  /** `inFlight` counts deliveries that reached the platform but not yet the record. */
  datatype Race = Race(state: IntState, source: SourceState, phase: Phase, inFlight: nat)

  datatype Event = Edge | Land | Ask | FinishTyped | CompletePlatform

  predicate Can(r: Race, e: Event) {
    match e
    case Edge => r.source != SrcReserved
    case Land => r.inFlight > 0
    case Ask => r.phase == Asking && r.source == SrcMasked
    case FinishTyped => r.phase == Acknowledged && r.state.AckPrepared?
    case CompletePlatform => r.phase.Finished? && r.source == SrcMasked
  }

  function Go(r: Race, e: Event): Race
    requires Can(r, e)
  {
    match e
    case Edge => r.(source := SrcMasked, inFlight := r.inFlight + 1)
    case Land => r.(state := Delivered(r.state).0, inFlight := r.inFlight - 1)
    case Ask => r.(phase := Acknowledged)
    case FinishTyped => r.(state := FinishAck(r.state).0, phase := Finished(FinishAck(r.state).1))
    case CompletePlatform =>
      r.(source := if r.phase.outcome == Rearmed then SrcArmed else r.source, phase := Completed(r.phase.outcome))
  }

  ghost predicate RaceRun(races: seq<Race>, events: seq<Event>) {
    && |races| == |events| + 1
    && races[0].state.AckPrepared? && races[0].source == SrcMasked && races[0].phase == Asking
    && forall i :: 0 <= i < |events| ==> Can(races[i], events[i]) && races[i + 1] == Go(races[i], events[i])
  }

  predicate Agrees(r: Race) {
    (r.state.Armed? && r.source == SrcArmed) || (Signaled(r.state) && r.source == SrcMasked)
  }

  /** A delivery landed in the record after the acknowledgement had finished it. */
  ghost predicate LandedLate(races: seq<Race>, events: seq<Event>, n: nat)
    requires n <= |events| <= |races|
  {
    exists i :: 0 <= i < n && events[i] == Land && (races[i].phase.Finished? || races[i].phase.Completed?)
  }

  /** A delivery reached the platform after the acknowledgement had rearmed it. */
  ghost predicate EdgeAfter(races: seq<Race>, events: seq<Event>, n: nat)
    requires n <= |events| <= |races|
  {
    exists i :: 0 <= i < n && events[i] == Edge && races[i].phase.Completed?
  }

  lemma LandedStep(races: seq<Race>, events: seq<Event>, n: nat)
    requires 0 < n <= |events| <= |races|
    ensures LandedLate(races, events, n) <==>
            LandedLate(races, events, n - 1)
            || (events[n - 1] == Land && (races[n - 1].phase.Finished? || races[n - 1].phase.Completed?))
    ensures EdgeAfter(races, events, n) <==>
            EdgeAfter(races, events, n - 1) || (events[n - 1] == Edge && races[n - 1].phase.Completed?)
  {
  }

  /** What the two tables say at each phase, in terms of the deliveries so far. */
  ghost predicate Known(races: seq<Race>, events: seq<Event>, n: nat)
    requires n <= |events| < |races|
  {
    var r := races[n];
    match r.phase
    case Asking => r.state.AckPrepared? && r.source == SrcMasked && !LandedLate(races, events, n) && !EdgeAfter(races, events, n)
    case Acknowledged => r.state.AckPrepared? && r.source == SrcMasked && !LandedLate(races, events, n) && !EdgeAfter(races, events, n)
    case Finished(outcome) =>
      && r.source == SrcMasked && !EdgeAfter(races, events, n)
      && (if outcome == PendingAfterRace then r.state.Pending? else Tracks(r.state, LandedLate(races, events, n)))
    case Completed(outcome) =>
      if outcome == PendingAfterRace then r.state.Pending? && r.source == SrcMasked
      else
        && Tracks(r.state, LandedLate(races, events, n))
        && r.source == (if EdgeAfter(races, events, n) then SrcMasked else SrcArmed)
        && (EdgeAfter(races, events, n) ==> LandedLate(races, events, n) || r.inFlight > 0)
  }

  predicate Tracks(s: IntState, landed: bool) {
    if landed then s.Pending? else s.Armed?
  }

  lemma {:induction false} RunIsKnown(races: seq<Race>, events: seq<Event>, n: nat)
    requires RaceRun(races, events) && n <= |events|
    ensures Known(races, events, n)
  {
    if n > 0 {
      RunIsKnown(races, events, n - 1);
      LandedStep(races, events, n);
      hide LandedLate, EdgeAfter;
      assert Can(races[n - 1], events[n - 1]) && races[n] == Go(races[n - 1], events[n - 1]);
    }
  }

  /**
   Exactly when the tables come apart: once the acknowledgement is complete and every
   delivery has landed, they agree unless the acknowledgement rearmed the source while
   a delivery landed after its finish and no later delivery has masked the source again.
   */
  lemma AgreementAfterRace(races: seq<Race>, events: seq<Event>)
    requires RaceRun(races, events)
    requires races[|events|].phase.Completed? && races[|events|].inFlight == 0
    ensures Agrees(races[|events|]) <==>
            || races[|events|].phase.outcome == PendingAfterRace
            || (LandedLate(races, events, |events|) ==> EdgeAfter(races, events, |events|))
  {
    RunIsKnown(races, events, |events|);
  }

  /** The platform steps of the acknowledgement are never refused, whatever races with them. */
  lemma RaceNeverPanics(races: seq<Race>, events: seq<Event>, n: nat)
    requires RaceRun(races, events) && n <= |events|
    ensures races[n].phase == Asking ==> Can(races[n], Ask)
    ensures races[n].phase == Acknowledged ==> Can(races[n], FinishTyped)
    ensures races[n].phase.Finished? ==> Can(races[n], CompletePlatform)
  {
    RunIsKnown(races, events, n);
  }

  /**
   The failing case is real: one delivery that lands between the finish and the
   completion leaves a pending record over an armed source, and the next
   acknowledgement of it is refused by the platform.
   */
  lemma RaceWitness(domain: nat, b: Binding)
    returns (races: seq<Race>, events: seq<Event>)
    requires b.domain == domain
    ensures RaceRun(races, events) && races[|events|].phase == Completed(Rearmed) && races[|events|].inFlight == 0
    ensures !Agrees(races[|events|]) && PrepareAck(races[|events|].state) == Some((AckPrepared(false), Rearm))
    ensures AcknowledgeSource(domain, map[b.source := Source(b.generation, races[|events|].source)], b) == Failure(BadState)
  {
    events := [Ask, FinishTyped, Edge, Land, CompletePlatform];
    races := [
      Race(AckPrepared(false), SrcMasked, Asking, 0),
      Race(AckPrepared(false), SrcMasked, Acknowledged, 0),
      Race(Armed, SrcMasked, Finished(Rearmed), 0),
      Race(Armed, SrcMasked, Finished(Rearmed), 1),
      Race(Pending(false), SrcMasked, Finished(Rearmed), 0),
      Race(Pending(false), SrcArmed, Completed(Rearmed), 0)];
    WitnessSteps(races, events);
  }

  lemma WitnessSteps(races: seq<Race>, events: seq<Event>)
    requires |events| == 5 && |races| == 6 && events == [Ask, FinishTyped, Edge, Land, CompletePlatform]
    requires races[0] == Race(AckPrepared(false), SrcMasked, Asking, 0)
    requires races[1] == Race(AckPrepared(false), SrcMasked, Acknowledged, 0)
    requires races[2] == Race(Armed, SrcMasked, Finished(Rearmed), 0)
    requires races[3] == Race(Armed, SrcMasked, Finished(Rearmed), 1)
    requires races[4] == Race(Pending(false), SrcMasked, Finished(Rearmed), 0)
    requires races[5] == Race(Pending(false), SrcArmed, Completed(Rearmed), 0)
    ensures RaceRun(races, events)
  {
    forall i | 0 <= i < 5 ensures Can(races[i], events[i]) && races[i + 1] == Go(races[i], events[i]) {
      if i == 0 {
      } else if i == 1 {
      } else if i == 2 {
      } else if i == 3 {
      } else {
        assert i == 4;
      }
    }
  }
}
