/** The values the diff engine works on: rails, observations, polls, events and mutations
    (internal/diff/types.go), and the pure helpers of internal/diff/engine.go on them.
    A pointer field of the program is an Option, a decimal is a real, a time is a number of
    nanoseconds whose zero is the program's zero time. */
module RailTypes {
  datatype Option<+T> = None | Some(value: T)

  datatype Result<+T, +E> = Ok(value: T) | Err(error: E)

  type Time = int
  type Decimal = real

  const ZERO_TIME: Time := 0

  datatype Key = Key(exchangeID: int, coinID: int, chainID: int)

  /** The (deposit, withdraw) pair the engine debounces. */
  datatype Status = Status(deposit: bool, withdraw: bool)

  datatype Observation = Observation(
    key: Key,
    depositEnabled: bool,
    withdrawEnabled: bool,
    depositConfirmations: Option<int>,
    withdrawMin: Option<Decimal>,
    withdrawFee: Option<Decimal>,
    withdrawFeeType: string,
    withdrawFeePercent: Option<Decimal>,
    contractAddress: string,
    observedAt: Time)
  {
    function Reported(): Status {
      Status(depositEnabled, withdrawEnabled)
    }
  }

  datatype Poll = Poll(observations: seq<Observation>, complete: bool, observedAt: Time)

  datatype Rail = Rail(
    id: int,
    key: Key,
    depositEnabled: bool,
    withdrawEnabled: bool,
    depositConfirmations: Option<int>,
    withdrawMin: Option<Decimal>,
    withdrawFee: Option<Decimal>,
    withdrawFeeType: string,
    withdrawFeePercent: Option<Decimal>,
    contractAddress: string,
    depositOffStartedAt: Option<Time>,
    withdrawOffStartedAt: Option<Time>,
    isActive: bool,
    missingSince: Option<Time>,
    missingCount: int,
    isInitial: bool,
    lastSeenAt: Time)
  {
    function Committed(): Status {
      Status(depositEnabled, withdrawEnabled)
    }
  }

  /** The snapshot an event carries: a rail without its identity and contract. */
  datatype RailState = RailState(
    depositEnabled: bool,
    withdrawEnabled: bool,
    depositConfirmations: Option<int>,
    withdrawMin: Option<Decimal>,
    withdrawFee: Option<Decimal>,
    withdrawFeeType: string,
    withdrawFeePercent: Option<Decimal>,
    depositOffStartedAt: Option<Time>,
    withdrawOffStartedAt: Option<Time>,
    isActive: bool,
    missingSince: Option<Time>,
    missingCount: int,
    isInitial: bool,
    lastSeenAt: Time)

  datatype EventType =
    | DepositOff | DepositOn | WithdrawOff | WithdrawOn
    | FeeChanged | MinChanged | RailDelisted | RailRelisted

  datatype Event = Event(
    kind: EventType,
    railID: int,
    key: Key,
    before: RailState,
    after: RailState,
    occurredAt: Time)

  datatype RailMutation = Insert(after: Rail) | Update(before: Rail, after: Rail)

  datatype Changes = Changes(rails: seq<RailMutation>, events: seq<Event>)

  function StateFromRail(rail: Rail): RailState {
    RailState(rail.depositEnabled, rail.withdrawEnabled, rail.depositConfirmations, rail.withdrawMin,
              rail.withdrawFee, rail.withdrawFeeType, rail.withdrawFeePercent,
              rail.depositOffStartedAt, rail.withdrawOffStartedAt,
              rail.isActive, rail.missingSince, rail.missingCount, rail.isInitial, rail.lastSeenAt)
  }

  function NewEvent(kind: EventType, before: Rail, after: Rail, at: Time): Event {
    Event(kind, before.id, before.key, StateFromRail(before), StateFromRail(after), at)
  }

  /** Moves one side of a rail to `enabled`: the off-started time is cleared when the side comes on,
      set when it goes off, and filled in when an off side has none. */
  function SideOffStarted(wasEnabled: bool, offStartedAt: Option<Time>, enabled: bool, at: Time): (r: Option<Time>)
    ensures enabled && (!wasEnabled || offStartedAt.None?) ==> r.None?
    ensures !enabled && (wasEnabled || offStartedAt.None?) ==> r == Some(at)
    ensures !enabled && !wasEnabled && offStartedAt.Some? ==> r == offStartedAt
  {
    if wasEnabled != enabled then
      if enabled then None else Some(at)
    else if !enabled && offStartedAt.None? then Some(at)
    else offStartedAt
  }

  function ApplyStatus(rail: Rail, target: Status, changedAt: Time): Rail {
    rail.(depositOffStartedAt :=
            SideOffStarted(rail.depositEnabled, rail.depositOffStartedAt, target.deposit, changedAt),
          depositEnabled := target.deposit,
          withdrawOffStartedAt :=
            SideOffStarted(rail.withdrawEnabled, rail.withdrawOffStartedAt, target.withdraw, changedAt),
          withdrawEnabled := target.withdraw)
  }

  function ApplyObservation(rail: Rail, obs: Observation, includeStatus: bool): Rail {
    var r := if includeStatus then ApplyStatus(rail, obs.Reported(), obs.observedAt) else rail;
    r.(depositConfirmations := obs.depositConfirmations,
       withdrawMin := obs.withdrawMin,
       withdrawFee := obs.withdrawFee,
       withdrawFeeType := obs.withdrawFeeType,
       withdrawFeePercent := obs.withdrawFeePercent,
       contractAddress := obs.contractAddress,
       lastSeenAt := obs.observedAt)
  }

  /** The rail a first observation inserts; the store has not given it an ID yet. */
  function RailFromObservation(obs: Observation): Rail {
    Rail(0, obs.key, obs.depositEnabled, obs.withdrawEnabled, obs.depositConfirmations,
         obs.withdrawMin, obs.withdrawFee, obs.withdrawFeeType, obs.withdrawFeePercent, obs.contractAddress,
         if obs.depositEnabled then None else Some(obs.observedAt),
         if obs.withdrawEnabled then None else Some(obs.observedAt),
         false, None, 0, false, obs.observedAt)
  }

  /** The deposit and withdraw events one committed change records: one for each side that moved. */
  function DepositMove(before: Rail, after: Rail): seq<EventType> {
    if before.depositEnabled == after.depositEnabled then []
    else [if after.depositEnabled then DepositOn else DepositOff]
  }

  function WithdrawMove(before: Rail, after: Rail): seq<EventType> {
    if before.withdrawEnabled == after.withdrawEnabled then []
    else [if after.withdrawEnabled then WithdrawOn else WithdrawOff]
  }

  function StatusChangeEvents(before: Rail, after: Rail): seq<EventType> {
    DepositMove(before, after) + WithdrawMove(before, after)
  }

  predicate FeeDiffers(prev: Rail, obs: Observation) {
    prev.withdrawFee != obs.withdrawFee ||
    prev.withdrawFeeType != obs.withdrawFeeType ||
    prev.withdrawFeePercent != obs.withdrawFeePercent
  }

  predicate MinDiffers(prev: Rail, obs: Observation) {
    prev.withdrawMin != obs.withdrawMin
  }

  /** The field-by-field comparison that decides whether a mutation is written. It misses no field:
      two rails it calls equal are the same rail, so a skipped write never loses a change. */
  predicate RailsEqual(a: Rail, b: Rail)
    ensures RailsEqual(a, b) <==> a == b
  {
    a.id == b.id && a.key == b.key &&
    a.depositEnabled == b.depositEnabled && a.withdrawEnabled == b.withdrawEnabled &&
    a.depositConfirmations == b.depositConfirmations &&
    a.withdrawMin == b.withdrawMin && a.withdrawFee == b.withdrawFee &&
    a.withdrawFeeType == b.withdrawFeeType && a.withdrawFeePercent == b.withdrawFeePercent &&
    a.contractAddress == b.contractAddress &&
    a.depositOffStartedAt == b.depositOffStartedAt && a.withdrawOffStartedAt == b.withdrawOffStartedAt &&
    a.isActive == b.isActive && a.missingSince == b.missingSince && a.missingCount == b.missingCount &&
    a.isInitial == b.isInitial && a.lastSeenAt == b.lastSeenAt
  }
}
