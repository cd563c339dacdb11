# Shared-Resource-Scheduler: reservation creation, verified in Dafny

This project models the reservation service of the Shared-Resource-Scheduler
NestJS application. `ReservationService.createReservation(data, user)` checks
the requested time range. It throws `BadRequestException('Invalid time range')`
when `new Date(startTime) >= new Date(endTime)`. Otherwise it returns a new
record: the request body spread out, then `userId` set to the caller's id and
`status` set to `'PENDING'`. The two read methods of the service have empty
bodies.

The model is pure, like the source:

- `js_semantics.dfy` (module `JsSemantics`) covers the JavaScript the service relies on.
  - Request bodies and callers are plain objects (`map<string, Value>`).
  - An object literal with spread is evaluated entry by entry, left to right. Two general lemmas prove which properties the result has and that the last entry defining a property wins.
  - `new Date(v)` follows ECMAScript: undefined gives an Invalid Date, null gives 0, booleans give 0 or 1, numbers go through TimeClip, and strings go through the host's `Date.parse`.
  - `>=` on two dates is false whenever either one is an Invalid Date.
- `reservation_service.dfy` (module `ReservationService`) holds the service.
  - The result of an `async` method is how its promise settles: `Fulfilled(value)`, or `Rejected(BadRequestException(message))`.
- `reservation_controller.dfy` (module `ReservationController`) holds the POST handler, as far as it calls the service.
  - The handler builds the caller as `{ id: data.userId }`. So at that call site the `userId` override changes no value the body carried; a body without `userId` gains `userId: undefined`.

The service keeps no state. It never looks at other reservations. It does not
detect conflicts or overlaps. It has no status transitions. The model follows
the code, so it has none of these either. The model also keeps the code's
`>=` test as written. An unparsable or missing start or end time is not
rejected, and a reservation is still returned.

## Model

| member | source | states |
|---|---|---|
| JsSemantics.LiteralHasDefinedProperties | src/reservation/reservation.service.ts:18-22 | An object literal has a property if and only if one of its entries (a spread source holding it, or `key: value`) defines it |
| JsSemantics.LastDefinitionWins | src/reservation/reservation.service.ts:18-22 | Each property of an object literal takes the value given by the last entry that defines it |
| JsSemantics.DateAtLeast | src/reservation/reservation.service.ts:15 | `>=` on two dates is false whenever either is an Invalid Date (NaN); between two valid dates it is the negation of `<` |
| JsSemantics.NewDate | src/reservation/reservation.service.ts:15 | `new Date(v)` is an Invalid Date or a time value within ±8.64e15 ms; `new Date(undefined)` is an Invalid Date |
| ReservationService.ReservationLiteralOverridesBody | src/reservation/reservation.service.ts:18-22 | `{...data, userId, status: 'PENDING'}` equals the body overridden by `userId` and `status`, the properties written after the spread |
| ReservationService.CreateReservation | src/reservation/reservation.service.ts:12-26 | The only rejection is `BadRequestException('Invalid time range')`; an accepted request resolves to the body with `userId` set to `user.id` and `status` set to PENDING |
| ReservationService.RejectedIffStartNotBeforeEnd | src/reservation/reservation.service.ts:13-17 | With two valid dates, the request is rejected if and only if start >= end, so an empty range is rejected too |
| ReservationService.InvalidDateIsAccepted | src/reservation/reservation.service.ts:15 | If either date is an Invalid Date (NaN), the `>=` test is false and a reservation is returned |
| ReservationService.MissingTimeIsAccepted | src/reservation/reservation.service.ts:13-15 | A body without `startTime` or `endTime` is accepted, and the reservation lacks that property too |
| ReservationService.StatusIsPending | src/reservation/reservation.service.ts:18-21 | An accepted reservation has `status` PENDING even when the body carried its own `status` |
| ReservationService.UserIdIsCallers | src/reservation/reservation.service.ts:19-20 | An accepted reservation has `userId` equal to `user.id`, overriding any `userId` in the body |
| ReservationService.BodyFieldsCopied | src/reservation/reservation.service.ts:18-19 | Every other body property, `startTime` and `endTime` included, is copied unchanged; the reservation has only the body's properties plus `userId` and `status` |
| ReservationService.RequestsAcceptedIndependently | src/reservation/reservation.service.ts:12-26 | Any two requests with valid time ranges are both accepted, overlapping or identical ranges included: nothing is stored and no conflict is checked |
| ReservationService.GetUserReservations | src/reservation/reservation.service.ts:5-7 | The empty method returns undefined for every id |
| ReservationService.GetAllReservations | src/reservation/reservation.service.ts:8-10 | The empty async method resolves to undefined |
| ReservationController.Create | src/reservation/reservation.controller.ts:9-12 | With the caller built as `{ id: data.userId }`, the only rejection is the invalid-time-range one, and an accepted body comes back with only `status` replaced by PENDING, or with `userId: undefined` added when the body had none |

## Left out

- Parsing of date strings (`Date.parse`) is host-defined. It is a parameter `parse` of the model with no properties assumed; only its result passes through TimeClip.
- Body values are scalars: undefined, null, booleans, integers and strings. Nested objects and arrays are not modelled, and neither are non-integral numbers, NaN or infinities. Neither are `new Date` of an object (which goes through ToPrimitive) or a body that is not an object.
- Property order: JavaScript objects keep insertion order and maps do not. The model does not capture where `userId` and `status` appear in the serialised reservation.
- The record is not persisted and has no `id` assigned; the service never saves it. The service never uses the TypeORM entity; the model takes nothing from it, and the status is the literal `'PENDING'` written after the spread.
- HTTP routing, guards and request parsing in the controllers, the users service (repository calls and bcrypt hashing), JWT and database configuration are framework glue with no logic to state.
- Conflict detection, overlap checks, status transitions, atomic insertion and concurrency do not exist in the code, so they are not modelled.
