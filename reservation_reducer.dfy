/** The client's reservation-form state and its reducer: UPDATE replaces the
    reservation in progress with the payload, RESET returns the initial state,
    and any other action leaves the state as it is. A reservation counts as
    started when the state differs from the initial one. */
module ReservationReducer {

  datatype CurrentReservation = CurrentReservation(
    name: string,
    plateau: string,
    equipment: seq<string>,
    day: string,
    startTime: string,
    endTime: string)

  datatype State = State(currentReservation: CurrentReservation)

  /** A dispatched action; `payload` is read only by UPDATE. */
  datatype Action = Action(actionType: string, payload: CurrentReservation)

  const UpdateReservation: string := "UPDATE_RESERVATION"
  const ResetReservation: string := "RESET_RESERVATION"

  const InitialState: State := State(CurrentReservation("", "", [], "", "", ""))

  function Reduce(state: State, action: Action): State {
    if action.actionType == UpdateReservation then State(action.payload)
    else if action.actionType == ResetReservation then InitialState
    else state
  }

  /** The header's indicator of a reservation in progress. */
  predicate IsReservationStarted(state: State) {
    state != InitialState
  }

  /** UPDATE yields the payload as the reservation in progress, whatever the
      previous state was. */
  lemma UpdateSetsPayload(state: State, other: State, payload: CurrentReservation)
    ensures Reduce(state, Action(UpdateReservation, payload)).currentReservation == payload
    ensures Reduce(state, Action(UpdateReservation, payload)) == Reduce(other, Action(UpdateReservation, payload))
  {
  }

  /** RESET yields the initial state, with every field empty, from any state. */
  lemma ResetYieldsInitialState(state: State, payload: CurrentReservation)
    ensures Reduce(state, Action(ResetReservation, payload)) == InitialState
    ensures var r := Reduce(state, Action(ResetReservation, payload)).currentReservation;
      r.name == "" && r.plateau == "" && r.equipment == [] && r.day == "" && r.startTime == "" && r.endTime == ""
  {
  }

  /** Any other action type leaves the state unchanged. */
  lemma OtherActionsIgnored(state: State, action: Action)
    requires action.actionType != UpdateReservation && action.actionType != ResetReservation
    ensures Reduce(state, action) == state
  {
  }

  /** Applying RESET, or UPDATE with a fixed payload, twice equals applying it once. */
  lemma ResetAndUpdateIdempotent(state: State, payload: CurrentReservation)
    ensures var reset := Action(ResetReservation, payload);
      Reduce(Reduce(state, reset), reset) == Reduce(state, reset)
    ensures var update := Action(UpdateReservation, payload);
      Reduce(Reduce(state, update), update) == Reduce(state, update)
  {
  }

  /** After RESET no reservation is in progress. */
  lemma ResetClearsStarted(state: State, payload: CurrentReservation)
    ensures !IsReservationStarted(Reduce(state, Action(ResetReservation, payload)))
  {
  }

  /** A reservation is in progress after UPDATE exactly when some field of the
      payload is filled in. */
  lemma UpdateStartsUnlessEmpty(state: State, payload: CurrentReservation)
    ensures IsReservationStarted(Reduce(state, Action(UpdateReservation, payload)))
        <==> (payload.name != "" || payload.plateau != "" || payload.equipment != []
              || payload.day != "" || payload.startTime != "" || payload.endTime != "")
  {
  }
}
