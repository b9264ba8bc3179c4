/**
 * The cars store (src/features/cars/carsSlice.ts): how `fetchCars` unwraps the
 * response, and the reducers for its three outcomes.
 */
module CarsSlice {
  import opened Wrappers
  import opened Js
  import opened AsyncStatus

  /**
   * `fetchCars` after `api.getCars()`: d = `response.data || response`; then
   * `d.data` when it is a truthy array, else d when it is an array, else [].
   * A `null` response (a 204) makes the first read throw.
   */
  function UnwrapCars(response: JsValue): (r: Completion<seq<JsValue>>)
    ensures r.Thrown? <==> response.Null? || response.Undefined?
    ensures response.Arr? ==> r == Normal(response.items)
    ensures HasTruthyData(response) && response.fields["data"].Arr? ==> r == Normal(response.fields["data"].items)
    ensures DoublyWrapped(response) ==> r == Normal(response.fields["data"].fields["data"].items)
    ensures r.Normal? && !response.Arr? && !HasTruthyData(response) ==> r.value == []
    ensures (r.Normal? && !response.Arr? && !(HasTruthyData(response) && response.fields["data"].Arr?)
             && !DoublyWrapped(response)) ==> r.value == []
  {
    match DataOrSelf(response)
    case Thrown(e) => Thrown(e)
    case Normal(d) =>
      if Truthy(d) && HasTruthyData(d) && d.fields["data"].Arr? then Normal(d.fields["data"].items)
      else if d.Arr? then Normal(d.items)
      else Normal([])
  }

  /** `{ data: { data: [...] } }`, the paginated shape. */
  predicate DoublyWrapped(response: JsValue) {
    HasTruthyData(response) && HasTruthyData(response.fields["data"]) && response.fields["data"].fields["data"].Arr?
  }

  /** Only arrays get through: any other payload gives the empty list. */
  lemma UnwrapNonArrayIsEmpty(fields: map<string, JsValue>)
    requires !(HasTruthyData(Obj(fields)) && fields["data"].Arr?) && !DoublyWrapped(Obj(fields))
    ensures UnwrapCars(Obj(fields)) == Normal([])
  {
  }

  datatype CarsState = CarsState(items: seq<JsValue>, status: Status, error: Option<string>)

  const Initial := CarsState([], Idle, None)

  function Pending(s: CarsState): (r: CarsState)
    ensures r.status == Loading && r.items == s.items && r.error == s.error
  {
    s.(status := Loading)
  }

  /** The payload replaces the items; an earlier error stays. */
  function Fulfilled(s: CarsState, payload: seq<JsValue>): (r: CarsState)
    ensures r.status == Succeeded && r.items == payload && r.error == s.error
  {
    s.(status := Succeeded, items := payload)
  }

  /** The items stay; the error is the message or 'Failed to fetch cars'. */
  function Rejected(s: CarsState, message: Option<string>): (r: CarsState)
    ensures r.status == Failed && r.items == s.items
    ensures r.error == Some(ErrorText(message, "Failed to fetch cars"))
  {
    s.(status := Failed, error := Some(ErrorText(message, "Failed to fetch cars")))
  }

  /** A failure after a success keeps the loaded cars, and a retry does not clear the error. */
  lemma FailureKeepsLoadedCars(payload: seq<JsValue>, message: Option<string>)
    ensures Rejected(Fulfilled(Pending(Initial), payload), message).items == payload
    ensures Fulfilled(Pending(Rejected(Initial, message)), payload).error.Some?
  {
  }

  /** The store; each reducer assigns fields of the state in place. */
  class CarsStore {
    var items: seq<JsValue>
    var status: Status
    var error: Option<string>

    function State(): CarsState
      reads this
    {
      CarsState(items, status, error)
    }

    constructor ()
      ensures State() == Initial
    {
      items, status, error := [], Idle, None;
    }

    method OnPending()
      modifies this
      ensures State() == Pending(old(State()))
    {
      status := Loading;
    }

    method OnFulfilled(payload: seq<JsValue>)
      modifies this
      ensures State() == Fulfilled(old(State()), payload)
    {
      status := Succeeded;
      items := payload;
    }

    method OnRejected(message: Option<string>)
      modifies this
      ensures State() == Rejected(old(State()), message)
    {
      status := Failed;
      error := Some(ErrorText(message, "Failed to fetch cars"));
    }
  }
}
