/** The life of one rail key. `React` is what the engine does at that key for one signal of one poll;
    `Advance` adds what the store and the event log do with it; `Run` is a whole history from an
    empty store. Signals of other keys and polls that leave the key alone are `Skipped`. */
module RailMachine {
  import opened RailTypes

  datatype Options = Options(confirmationsRequired: int, delistThreshold: int)

  const DEFAULT_CONFIRMATIONS_REQUIRED := 3
  const DEFAULT_DELIST_THRESHOLD := 6

  /** Options after defaulting: both thresholds are at least one. */
  type Limits = o: Options | o.confirmationsRequired >= 1 && o.delistThreshold >= 1
    witness Options(DEFAULT_CONFIRMATIONS_REQUIRED, DEFAULT_DELIST_THRESHOLD)

  function WithDefaults(o: Options): Limits {
    Options(if o.confirmationsRequired <= 0 then DEFAULT_CONFIRMATIONS_REQUIRED else o.confirmationsRequired,
            if o.delistThreshold <= 0 then DEFAULT_DELIST_THRESHOLD else o.delistThreshold)
  }

  /** Positive thresholds are kept; without them it takes three reports and six absences. */
  lemma DefaultsAreKnown(o: Options)
    ensures o.confirmationsRequired > 0 && o.delistThreshold > 0 ==> WithDefaults(o) == o
    ensures o.confirmationsRequired <= 0 ==> WithDefaults(o).confirmationsRequired == 3
    ensures o.delistThreshold <= 0 ==> WithDefaults(o).delistThreshold == 6
  {
  }

  datatype PendingBaseline = PendingBaseline(target: Status, count: int)
  datatype PendingStatus = PendingStatus(target: Status, count: int, firstObservedAt: Time)

  /** What one poll says about one key: observed, absent from a complete poll, or not mentioned.
      A restart of the process empties the engine's pending maps and keeps the store. */
  datatype Signal =
    | Seen(obs: Observation, complete: bool)
    | Missed(at: Time)
    | Skipped
    | Restarted

  datatype KeyState = KeyState(rail: Option<Rail>, baseline: Option<PendingBaseline>, status: Option<PendingStatus>)
  {
    predicate Stable() {
      rail.Some? && rail.value.isActive && !rail.value.isInitial
    }
    predicate Initial() {
      rail.Some? && rail.value.isInitial
    }
    predicate Active() {
      rail.Some? && rail.value.isActive
    }
  }

  const UNKNOWN := KeyState(None, None, None)

  /** The new pending entries of the key, the mutation to write, and the events to record. */
  datatype Outcome = Outcome(
    baseline: Option<PendingBaseline>,
    status: Option<PendingStatus>,
    mutation: Option<RailMutation>,
    events: seq<Event>)

  function UpdateIfChanged(prev: Rail, after: Rail): Option<RailMutation> {
    if RailsEqual(prev, after) then None else Some(Update(prev, after))
  }

  function Inserted(obs: Observation): Outcome {
    Outcome(Some(PendingBaseline(obs.Reported(), 1)), None,
            Some(Insert(RailFromObservation(obs).(isActive := true, isInitial := true))), [])
  }

  /** One more baseline confirmation: a missing entry is the zero value, whose target is (off, off). */
  function Confirmed(pending: Option<PendingBaseline>, target: Status): PendingBaseline {
    var p := if pending.Some? then pending.value else PendingBaseline(Status(false, false), 0);
    PendingBaseline(target, (if p.target == target then p.count else 0) + 1)
  }

  function SeenInitial(o: Limits, prev: Rail, pending: Option<PendingBaseline>, obs: Observation): Outcome {
    var p := Confirmed(pending, obs.Reported());
    var done := p.count >= o.confirmationsRequired;
    var after := ApplyObservation(prev, obs, true).(isInitial := !done, missingCount := 0, missingSince := None);
    Outcome(if done then None else Some(p), None, UpdateIfChanged(prev, after), [])
  }

  function SeenDormant(s: KeyState, prev: Rail, obs: Observation): Outcome {
    Outcome(s.baseline, s.status, UpdateIfChanged(prev, ApplyObservation(prev, obs, true)), [])
  }

  function Relisted(prev: Rail, obs: Observation): Outcome {
    var after := ApplyObservation(prev, obs, true).(isActive := true, isInitial := false, missingCount := 0,
        missingSince := None);
    Outcome(None, None, UpdateIfChanged(prev, after), [NewEvent(RailRelisted, prev, after, obs.observedAt)])
  }

  /** One more observation of a status that differs from the committed one. */
  function Streaked(pending: Option<PendingStatus>, obs: Observation): PendingStatus {
    if pending.Some? && pending.value.target == obs.Reported() then
      pending.value.(count := pending.value.count + 1)
    else
      PendingStatus(obs.Reported(), 1, obs.observedAt)
  }

  function EventsOf(kinds: seq<EventType>, before: Rail, after: Rail, at: Time): (events: seq<Event>)
    ensures |events| == |kinds|
    ensures forall i :: 0 <= i < |kinds| ==> events[i] == NewEvent(kinds[i], before, after, at)
  {
    if kinds == [] then [] else [NewEvent(kinds[0], before, after, at)] + EventsOf(kinds[1..], before, after, at)
  }

  /** The rail after an observation of an active, settled rail; `commit` is the status it settles on. */
  function Refreshed(prev: Rail, obs: Observation, commit: Option<PendingStatus>): Rail {
    var after := ApplyObservation(prev, obs, false).(missingCount := 0, missingSince := None, isActive := true,
        isInitial := false);
    if commit.Some? then ApplyStatus(after, commit.value.target, commit.value.firstObservedAt) else after
  }

  function ChangeKinds(prev: Rail, after: Rail, obs: Observation, commit: bool): seq<EventType> {
    (if commit then StatusChangeEvents(prev, after) else []) +
    (if FeeDiffers(prev, obs) then [FeeChanged] else []) +
    (if MinDiffers(prev, obs) then [MinChanged] else [])
  }

  function SeenActive(o: Limits, s: KeyState, prev: Rail, obs: Observation): Outcome {
    var p := Streaked(s.status, obs);
    var differs := obs.Reported() != prev.Committed();
    var commit := differs && p.count >= o.confirmationsRequired;
    var after := Refreshed(prev, obs, if commit then Some(p) else None);
    Outcome(s.baseline,
            if differs && !commit then Some(p) else None,
            UpdateIfChanged(prev, after),
            EventsOf(ChangeKinds(prev, after, obs, commit), prev, after, obs.observedAt))
  }

  function Absent(o: Limits, prev: Rail, at: Time): Outcome {
    var counted := prev.(missingCount := prev.missingCount + 1);
    var after := if prev.isActive && counted.missingCount >= o.delistThreshold
                 then counted.(isActive := false, missingSince := Some(at)) else counted;
    Outcome(None, None, UpdateIfChanged(prev, after),
            if prev.isActive && !after.isActive && !prev.isInitial
            then [NewEvent(RailDelisted, prev, after, at)] else [])
  }

  function Present(o: Limits, s: KeyState, prev: Rail, obs: Observation, complete: bool): Outcome {
    if !prev.isInitial && !prev.isActive && complete then Relisted(prev, obs)
    else if prev.isInitial then SeenInitial(o, prev, s.baseline, obs)
    else if !prev.isActive then SeenDormant(s, prev, obs)
    else SeenActive(o, s, prev, obs)
  }

  function React(o: Limits, s: KeyState, sig: Signal): Outcome {
    match sig
    case Skipped => Outcome(s.baseline, s.status, None, [])
    case Restarted => Outcome(None, None, None, [])
    case Missed(at) =>
      if s.rail.None? then Outcome(s.baseline, s.status, None, []) else Absent(o, s.rail.value, at)
    case Seen(obs, complete) =>
      if s.rail.None? then Inserted(obs) else Present(o, s, s.rail.value, obs, complete)
  }

  /** The stored rail after a mutation: an update keeps the row's ID, an insert gets `id`. */
  function Written(rail: Option<Rail>, m: Option<RailMutation>, id: int): Option<Rail> {
    if m.None? then rail
    else Some(m.value.after.(id := if rail.Some? then rail.value.id else id))
  }

  datatype Trace = Trace(state: KeyState, log: seq<Event>)

  function Advance(o: Limits, id: int, t: Trace, sig: Signal): Trace {
    var out := React(o, t.state, sig);
    Trace(KeyState(Written(t.state.rail, out.mutation, id), out.baseline, out.status), t.log + out.events)
  }

  function RunFrom(o: Limits, id: int, t: Trace, sigs: seq<Signal>): Trace {
    if sigs == [] then t
    else Advance(o, id, RunFrom(o, id, t, sigs[..|sigs| - 1]), sigs[|sigs| - 1])
  }

  /** The key's state and event log after a history of signals, from an empty store. */
  function Run(o: Limits, id: int, sigs: seq<Signal>): Trace {
    RunFrom(o, id, Trace(UNKNOWN, []), sigs)
  }

  // The five ways a known rail moves, without the detour through the mutation list.

  lemma AdvanceActive(o: Limits, id: int, t: Trace, obs: Observation, complete: bool)
    requires t.state.Stable()
    ensures var prev := t.state.rail.value;
            var p := Streaked(t.state.status, obs);
            var differs := obs.Reported() != prev.Committed();
            var commit := differs && p.count >= o.confirmationsRequired;
            var after := Refreshed(prev, obs, if commit then Some(p) else None);
            var t' := Advance(o, id, t, Seen(obs, complete));
            && t'.state == KeyState(Some(after), t.state.baseline, if differs && !commit then Some(p) else None)
            && t'.log == t.log + EventsOf(ChangeKinds(prev, after, obs, commit), prev, after, obs.observedAt)
  {
  }

  /** The fields of a settled rail after an observation. */
  lemma ActiveFields(o: Limits, id: int, t: Trace, obs: Observation, complete: bool)
    requires t.state.Stable()
    ensures var s' := Advance(o, id, t, Seen(obs, complete)).state;
            var r := t.state.rail.value;
            var p := Streaked(t.state.status, obs);
            var differs := obs.Reported() != r.Committed();
            var commit := differs && p.count >= o.confirmationsRequired;
            && s'.Stable() && s'.baseline == t.state.baseline
            && s'.status == (if differs && !commit then Some(p) else None)
            && var r' := s'.rail.value;
            && r'.Committed() == (if commit then obs.Reported() else r.Committed())
            && (commit && r.depositEnabled && !obs.depositEnabled ==> r'.depositOffStartedAt == Some(p.firstObservedAt))
            && (commit && r.withdrawEnabled && !obs.withdrawEnabled ==>
                 r'.withdrawOffStartedAt == Some(p.firstObservedAt))
            && r'.depositConfirmations == obs.depositConfirmations
            && r'.withdrawMin == obs.withdrawMin && r'.withdrawFee == obs.withdrawFee
            && r'.withdrawFeeType == obs.withdrawFeeType && r'.withdrawFeePercent == obs.withdrawFeePercent
            && r'.contractAddress == obs.contractAddress
            && r'.missingCount == 0
  {
    AdvanceActive(o, id, t, obs, complete);
  }

  /** An observation that repeats a settled rail records nothing. */
  lemma AdvanceActiveLog(o: Limits, id: int, t: Trace, obs: Observation, complete: bool)
    requires t.state.Stable() && obs.Reported() == t.state.rail.value.Committed()
    requires !FeeDiffers(t.state.rail.value, obs) && !MinDiffers(t.state.rail.value, obs)
    ensures Advance(o, id, t, Seen(obs, complete)).log == t.log
  {
    AdvanceActive(o, id, t, obs, complete);
    assert t.log + [] == t.log;
  }

  lemma AdvanceInitial(o: Limits, id: int, t: Trace, obs: Observation, complete: bool)
    requires t.state.Initial()
    ensures var prev := t.state.rail.value;
            var p := Confirmed(t.state.baseline, obs.Reported());
            var done := p.count >= o.confirmationsRequired;
            var after := ApplyObservation(prev, obs, true).(isInitial := !done, missingCount := 0,
                missingSince := None);
            Advance(o, id, t, Seen(obs, complete))
              == Trace(KeyState(Some(after), if done then None else Some(p), None), t.log)
  {
    assert t.log + [] == t.log;
  }

  lemma AdvanceInactive(o: Limits, id: int, t: Trace, obs: Observation, complete: bool)
    requires t.state.rail.Some? && !t.state.Active() && !t.state.Initial()
    ensures var prev := t.state.rail.value;
            var heard := ApplyObservation(prev, obs, true);
            var back := heard.(isActive := true, missingCount := 0, missingSince := None);
            Advance(o, id, t, Seen(obs, complete))
              == if complete then Trace(KeyState(Some(back), None, None),
                                        t.log + [NewEvent(RailRelisted, prev, back, obs.observedAt)])
                 else Trace(KeyState(Some(heard), t.state.baseline, t.state.status), t.log)
  {
    assert t.log + [] == t.log;
  }

  lemma AdvanceAbsent(o: Limits, id: int, t: Trace, at: Time)
    requires t.state.rail.Some?
    ensures var prev := t.state.rail.value;
            var gone := prev.isActive && prev.missingCount + 1 >= o.delistThreshold;
            var after := prev.(missingCount := prev.missingCount + 1,
                               isActive := prev.isActive && !gone,
                               missingSince := if gone then Some(at) else prev.missingSince);
            Advance(o, id, t, Missed(at))
              == Trace(KeyState(Some(after), None, None),
                       t.log + if gone && !prev.isInitial then [NewEvent(RailDelisted, prev, after, at)] else [])
  {
  }

  lemma AdvanceUnknown(o: Limits, id: int, t: Trace, sig: Signal)
    requires t.state.rail.None?
    ensures match sig
            case Seen(obs, _) =>
              Advance(o, id, t, sig)
                == Trace(KeyState(Some(RailFromObservation(obs).(id := id, isActive := true, isInitial := true)),
                                  Some(PendingBaseline(obs.Reported(), 1)), None), t.log)
            case Restarted => Advance(o, id, t, sig) == t.(state := UNKNOWN)
            case _ => Advance(o, id, t, sig) == t
  {
    assert t.log + [] == t.log;
  }

  lemma AdvanceQuiet(o: Limits, id: int, t: Trace)
    ensures Advance(o, id, t, Skipped) == t
    ensures Advance(o, id, t, Restarted) == t.(state := KeyState(t.state.rail, None, None))
  {
    assert t.log + [] == t.log;
  }

  lemma RunSnoc(o: Limits, id: int, t: Trace, sigs: seq<Signal>, sig: Signal)
    ensures RunFrom(o, id, t, sigs + [sig]) == Advance(o, id, RunFrom(o, id, t, sigs), sig)
  {
    assert (sigs + [sig])[..|sigs|] == sigs;
  }
}
