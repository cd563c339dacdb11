/** ReservationService: validates the time range of a reservation request and
    builds the new reservation record from the request body. Nothing is stored:
    the service keeps no state between calls and consults no other reservation. */
module ReservationService {
  import opened JsSemantics

  /** The exception the service throws; NestJS answers it with HTTP 400. */
  datatype HttpException = BadRequestException(message: string)

  /** How the promise returned by an async method settles. */
  datatype Settled<+T> = Fulfilled(value: T) | Rejected(reason: HttpException)

  /** The message of the exception thrown for a start time not before the end time. */
  const InvalidTimeRangeMessage: string := "Invalid time range"

  /** The status every new reservation is given: the literal `'PENDING'` the
      service writes after the spread. */
  const PendingStatus: Value := Str("PENDING")

  /** The object literal the service builds: the body spread out, then `userId`
      and `status` written after it. */
  function ReservationLiteral(data: Object, userId: Value): seq<PropertyDefinition>
  {
    [Spread(data), Property("userId", userId), Property("status", PendingStatus)]
  }

  /** The literal evaluates to the body overridden by the two later properties:
      every property of the body survives except `userId` and `status`, which
      take the values written after the spread. */
  lemma ReservationLiteralOverridesBody(data: Object, userId: Value)
    ensures EvalObjectLiteral(ReservationLiteral(data, userId))
         == data + map["userId" := userId, "status" := PendingStatus]
  {
    var defs := ReservationLiteral(data, userId);
    var rec := EvalObjectLiteral(defs);
    var expected := data + map["userId" := userId, "status" := PendingStatus];
    forall k
      ensures k in rec <==> k in expected
      ensures k in rec ==> rec[k] == expected[k]
    {
      LiteralHasDefinedProperties(defs, k);
      if k == "status" {
        LastDefinitionWins(defs, k, 2);
      } else if k == "userId" {
        LastDefinitionWins(defs, k, 1);
      } else if k in data {
        LastDefinitionWins(defs, k, 0);
      }
    }
  }

  /** The start time of the request, as `new Date(data.startTime)` sees it. */
  function StartOf(data: Object, parse: string -> Option<int>): Option<int>
  {
    NewDate(Get(data, "startTime"), parse)
  }

  /** The end time of the request, as `new Date(data.endTime)` sees it. */
  function EndOf(data: Object, parse: string -> Option<int>): Option<int>
  {
    NewDate(Get(data, "endTime"), parse)
  }

  /** `createReservation(data, user)`: rejects with "Invalid time range" when
      `new Date(startTime) >= new Date(endTime)`, and otherwise resolves to the
      body with `userId` set to the caller's id and `status` set to PENDING.
      `parse` stands for the host's `Date.parse`. */
  function CreateReservation(data: Object, user: Object, parse: string -> Option<int>): (r: Settled<Object>)
    ensures r.Rejected? ==> r.reason == BadRequestException(InvalidTimeRangeMessage)
    ensures r.Fulfilled? ==> r.value == data + map["userId" := Get(user, "id"), "status" := PendingStatus]
  {
    if DateAtLeast(StartOf(data, parse), EndOf(data, parse)) then
      Rejected(BadRequestException(InvalidTimeRangeMessage))
    else
      ReservationLiteralOverridesBody(data, Get(user, "id"));
      Fulfilled(EvalObjectLiteral(ReservationLiteral(data, Get(user, "id"))))
  }

  /** With two valid dates, the request is rejected exactly when the start is
      not strictly before the end (an empty range included). */
  lemma RejectedIffStartNotBeforeEnd(data: Object, user: Object, parse: string -> Option<int>)
    requires StartOf(data, parse).Some? && EndOf(data, parse).Some?
    ensures CreateReservation(data, user, parse).Rejected?
        <==> StartOf(data, parse).value >= EndOf(data, parse).value
  {
  }

  /** An Invalid Date on either side makes the `>=` test false, so the request is
      accepted and a reservation comes back. */
  lemma InvalidDateIsAccepted(data: Object, user: Object, parse: string -> Option<int>)
    requires StartOf(data, parse).None? || EndOf(data, parse).None?
    ensures CreateReservation(data, user, parse).Fulfilled?
  {
  }

  /** A body without `startTime` (or without `endTime`) is accepted, and the
      reservation it yields has no such property either. */
  lemma MissingTimeIsAccepted(data: Object, user: Object, parse: string -> Option<int>)
    requires "startTime" !in data || "endTime" !in data
    ensures CreateReservation(data, user, parse).Fulfilled?
    ensures "startTime" !in data ==> "startTime" !in CreateReservation(data, user, parse).value
    ensures "endTime" !in data ==> "endTime" !in CreateReservation(data, user, parse).value
  {
  }

  /** The new reservation is PENDING whatever `status` the body carried. */
  lemma StatusIsPending(data: Object, user: Object, parse: string -> Option<int>)
    requires CreateReservation(data, user, parse).Fulfilled?
    ensures "status" in CreateReservation(data, user, parse).value
    ensures CreateReservation(data, user, parse).value["status"] == PendingStatus
  {
  }

  /** The new reservation's `userId` is the caller's id, whatever `userId` the
      body carried. */
  lemma UserIdIsCallers(data: Object, user: Object, parse: string -> Option<int>)
    requires CreateReservation(data, user, parse).Fulfilled?
    ensures "userId" in CreateReservation(data, user, parse).value
    ensures CreateReservation(data, user, parse).value["userId"] == Get(user, "id")
  {
  }

  /** Every other property of the body, `startTime` and `endTime` among them,
      is copied unchanged, and the reservation has no property beyond the
      body's, `userId` and `status`. */
  lemma BodyFieldsCopied(data: Object, user: Object, parse: string -> Option<int>)
    requires CreateReservation(data, user, parse).Fulfilled?
    ensures CreateReservation(data, user, parse).value.Keys == data.Keys + {"userId", "status"}
    ensures forall k :: k in data && k != "userId" && k != "status" ==>
              CreateReservation(data, user, parse).value[k] == data[k]
  {
  }

  /** No stored state and no conflict check: any two requests with valid time
      ranges are both accepted, whether or not the ranges overlap, identical
      ranges included. */
  lemma RequestsAcceptedIndependently(data1: Object, user1: Object, data2: Object, user2: Object,
                                     parse: string -> Option<int>)
    requires StartOf(data1, parse).Some? && EndOf(data1, parse).Some?
    requires StartOf(data2, parse).Some? && EndOf(data2, parse).Some?
    requires StartOf(data1, parse).value < EndOf(data1, parse).value
    requires StartOf(data2, parse).value < EndOf(data2, parse).value
    ensures CreateReservation(data1, user1, parse).Fulfilled?
    ensures CreateReservation(data2, user2, parse).Fulfilled?
  {
  }

  /** `getUserReservations(id)`: its body is empty, so it returns undefined. */
  function GetUserReservations(id: Value): (r: Value)
    ensures r.Undefined?
  {
    Undefined
  }

  /** `async getAllReservations()`: its body is empty, so its promise resolves
      to undefined. */
  function GetAllReservations(): (r: Settled<Value>)
    ensures r == Fulfilled(Undefined)
  {
    Fulfilled(Undefined)
  }
}
