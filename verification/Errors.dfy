/**
 How a failure inside Inventory reaches the client of Sales: domain error, gRPC
 status, public API error.
 */
module Errors {
  import opened Identifiers

  datatype Shortage = Shortage(partId: PartId, requested: nat, available: int)

  datatype DomainError =
    | InvalidArgument
    | PartNotFound(partId: PartId)
    | PartsNotFound(partIds: seq<PartId>)
    | InsufficientStock(shortages: seq<Shortage>)
    | OrderIdConflict(orderId: OrderId)
    | ReservationNotFound(orderId: OrderId)
    | ReservationAlreadyReleased(orderId: OrderId)

  const INVALID_ARGUMENT := 3
  const DEADLINE_EXCEEDED := 4
  const NOT_FOUND := 5
  const ALREADY_EXISTS := 6
  const FAILED_PRECONDITION := 9
  const INTERNAL := 13
  const UNAVAILABLE := 14

  /**
   What an Inventory handler can throw: a domain error, a framework exception with its own status,
   or anything else.
   */
  datatype Exception = Domain(error: DomainError) | Framework(status: int) | Unexpected

  /** `toGrpcError`. */
  function ToGrpcStatus(e: Exception): int {
    match e
    case Domain(InvalidArgument) => INVALID_ARGUMENT
    case Domain(PartNotFound(_)) => NOT_FOUND
    case Domain(PartsNotFound(_)) => NOT_FOUND
    case Domain(InsufficientStock(_)) => FAILED_PRECONDITION
    case Domain(OrderIdConflict(_)) => ALREADY_EXISTS
    case Domain(ReservationNotFound(_)) => NOT_FOUND
    case Domain(ReservationAlreadyReleased(_)) => FAILED_PRECONDITION
    case Framework(status) => status
    case Unexpected => INTERNAL
  }

  datatype ApiError = ApiError(status: int, code: string, message: string)

  datatype InventoryOperation = ReserveOp | ReleaseOp | ReadOp

  const INTERNAL_FAILURE := ApiError(500, "INTERNAL_ERROR", "An unexpected internal error occurred")
  const VALIDATION := ApiError(400, "VALIDATION_ERROR", "Request validation failed")
  const PART_NOT_FOUND := ApiError(422, "PART_NOT_FOUND", "One or more requested parts do not exist")

  const SHARED: map<int, ApiError> := map[
    ALREADY_EXISTS := INTERNAL_FAILURE,
    UNAVAILABLE := ApiError(503, "INVENTORY_UNAVAILABLE", "Inventory service is unavailable"),
    DEADLINE_EXCEEDED := ApiError(504, "INVENTORY_TIMEOUT", "Inventory service did not respond before the deadline")]

  function PerOperation(operation: InventoryOperation): map<int, ApiError> {
    match operation
    case ReserveOp => map[
      INVALID_ARGUMENT := VALIDATION,
      NOT_FOUND := PART_NOT_FOUND,
      FAILED_PRECONDITION := ApiError(409, "INSUFFICIENT_STOCK", "One or more parts do not have enough stock")]
    case ReleaseOp => map[
      INVALID_ARGUMENT := INTERNAL_FAILURE,
      NOT_FOUND := INTERNAL_FAILURE,
      FAILED_PRECONDITION := INTERNAL_FAILURE]
    case ReadOp => map[
      INVALID_ARGUMENT := VALIDATION,
      NOT_FOUND := PART_NOT_FOUND,
      FAILED_PRECONDITION := INTERNAL_FAILURE]
  }

  /** `toInventoryApiError`; `None` is a failure that did not come from gRPC. */
  function ToApiError(status: Option<int>, operation: InventoryOperation): ApiError {
    if status == None then INTERNAL_FAILURE
    else if status.value in PerOperation(operation) then PerOperation(operation)[status.value]
    else if status.value in SHARED then SHARED[status.value]
    else INTERNAL_FAILURE
  }

  /** The statuses only Inventory's own domain errors produce; the transport and the deadline produce others. */
  predicate DomainStatus(status: int) {
    status in {INVALID_ARGUMENT, NOT_FOUND, FAILED_PRECONDITION}
  }

  /**
   Sales treats a failed reserve as definite (below 500) exactly on the statuses of a domain
   rejection, so every lost or timed-out answer is ambiguous; a failed release is never definite.
   */
  lemma DefiniteExactlyOnDomainStatus(status: Option<int>)
    ensures ToApiError(status, ReserveOp).status < 500 <==> status.Some? && DomainStatus(status.value)
    ensures ToApiError(status, ReleaseOp).status >= 500
  {
  }

  /** The gRPC statuses of Inventory, by their numbers in the protocol. */
  lemma StatusesAreDocumented(e: Exception)
    ensures ToGrpcStatus(e) ==
      match e
      case Domain(InvalidArgument) => 3
      case Domain(PartNotFound(_)) => 5
      case Domain(PartsNotFound(_)) => 5
      case Domain(ReservationNotFound(_)) => 5
      case Domain(OrderIdConflict(_)) => 6
      case Domain(InsufficientStock(_)) => 9
      case Domain(ReservationAlreadyReleased(_)) => 9
      case Framework(status) => status
      case Unexpected => 13
  {
  }

  /** The status and public code of an error. */
  predicate Is(error: ApiError, status: int, code: string, message: string) {
    error.status == status && error.code == code && error.message == message
  }

  predicate IsInternal(error: ApiError) {
    Is(error, 500, "INTERNAL_ERROR", "An unexpected internal error occurred")
  }

  /**
   What the client of each operation is told for each error that Inventory raises, and for failures
   of the transport.
   */
  lemma ErrorsReachClient(e: DomainError)
    ensures var reserve := ToApiError(Some(ToGrpcStatus(Domain(e))), ReserveOp);
      match e
      case InvalidArgument => Is(reserve, 400, "VALIDATION_ERROR", "Request validation failed")
      case PartNotFound(_) => Is(reserve, 422, "PART_NOT_FOUND", "One or more requested parts do not exist")
      case PartsNotFound(_) => Is(reserve, 422, "PART_NOT_FOUND", "One or more requested parts do not exist")
      case ReservationNotFound(_) => Is(reserve, 422, "PART_NOT_FOUND", "One or more requested parts do not exist")
      case InsufficientStock(_) =>
        Is(reserve, 409, "INSUFFICIENT_STOCK", "One or more parts do not have enough stock")
      case ReservationAlreadyReleased(_) =>
        Is(reserve, 409, "INSUFFICIENT_STOCK", "One or more parts do not have enough stock")
      case OrderIdConflict(_) => IsInternal(reserve)
    ensures IsInternal(ToApiError(Some(ToGrpcStatus(Domain(e))), ReleaseOp))
    ensures e.InvalidArgument? || e.PartNotFound? || e.PartsNotFound? ==>
      ToApiError(Some(ToGrpcStatus(Domain(e))), ReadOp) == ToApiError(Some(ToGrpcStatus(Domain(e))), ReserveOp)
    ensures e.InsufficientStock? || e.ReservationAlreadyReleased? || e.OrderIdConflict? ==>
      IsInternal(ToApiError(Some(ToGrpcStatus(Domain(e))), ReadOp))
  {
  }

  /** What any operation's client is told when Inventory cannot answer, by gRPC status. */
  lemma FailuresReachClient(operation: InventoryOperation, status: int)
    ensures Is(ToApiError(Some(14), operation), 503, "INVENTORY_UNAVAILABLE", "Inventory service is unavailable")
    ensures Is(ToApiError(Some(4), operation), 504, "INVENTORY_TIMEOUT",
      "Inventory service did not respond before the deadline")
    ensures status !in {3, 4, 5, 9, 14} ==> IsInternal(ToApiError(Some(status), operation))
    ensures IsInternal(ToApiError(None, operation))
  {
  }
}
