/** ReservationController's POST handler, only as far as it feeds the service:
    it passes the body on with a caller built from the body's own `userId`. */
module ReservationController {
  import opened JsSemantics
  import opened ReservationService

  /** `create(data, req)`: the caller is `{ id: data.userId }`, so the `userId`
      override changes no value the body carried. A body that has a `userId`
      comes back with only its `status` replaced by PENDING; one without gains
      `userId: undefined`. */
  function Create(data: Object, parse: string -> Option<int>): (r: Settled<Object>)
    ensures r.Rejected? ==> r.reason == BadRequestException(InvalidTimeRangeMessage)
    ensures r.Fulfilled? && "userId" in data ==> r.value == data["status" := PendingStatus]
    ensures r.Fulfilled? && "userId" !in data ==>
              r.value == data["userId" := Undefined]["status" := PendingStatus]
  {
    CreateReservation(data, map["id" := Get(data, "userId")], parse)
  }
}
