/**
 * How the repository's driver callbacks settle their promises. The driver
 * hands each callback an error or the result rows; the row-to-user mapper
 * is a parameter, since its definition is not part of this model.
 */
module UsersResults {
  import opened Wrappers

  /** What `connection.query` passes to a SELECT callback. */
  datatype SelectResponse<E, Row> = QueryFailed(error: E) | Rows(rows: seq<Row>)

  /** What it passes to an UPDATE, INSERT or DELETE callback. */
  datatype WriteResponse<E> = WriteFailed(error: E) | WriteDone

  /** A settled promise: rejected with the driver's error, or resolved with a value. */
  datatype Settled<E, T> = Rejected(reason: E) | Resolved(value: T)

  /**
   * The callback of `findByEmail` and `findById`: a driver error rejects,
   * no first row resolves to `null` (here `None`), otherwise the first row
   * is mapped and every later row is ignored.
   */
  function SettleLookup<E, Row, U>(response: SelectResponse<E, Row>, toUser: Row -> U): (r: Settled<E, Option<U>>)
    ensures r.Rejected? <==> response.QueryFailed?
    ensures r.Rejected? ==> r.reason == response.error
    ensures r.Resolved? ==> (r.value.None? <==> response.rows == [])
    ensures r.Resolved? && r.value.Some? ==> r.value.value == toUser(response.rows[0])
  {
    match response
    case QueryFailed(e) => Rejected(e)
    case Rows(rows) => if |rows| == 0 then Resolved(None) else Resolved(Some(toUser(rows[0])))
  }

  /** The listing's map over the result rows: every row mapped, in order. */
  function MapRows<Row, U>(rows: seq<Row>, toUser: Row -> U): (users: seq<U>)
    ensures |users| == |rows|
    ensures forall i :: 0 <= i < |rows| ==> users[i] == toUser(rows[i])
  {
    if rows == [] then [] else [toUser(rows[0])] + MapRows(rows[1..], toUser)
  }

  /** The callback of `findAndSort`: a driver error rejects, otherwise all rows are mapped. */
  function SettleListing<E, Row, U>(response: SelectResponse<E, Row>, toUser: Row -> U): (r: Settled<E, seq<U>>)
    ensures r.Rejected? <==> response.QueryFailed?
    ensures r.Rejected? ==> r.reason == response.error
    ensures r.Resolved? ==> r.value == MapRows(response.rows, toUser)
  {
    match response
    case QueryFailed(e) => Rejected(e)
    case Rows(rows) => Resolved(MapRows(rows, toUser))
  }

  /**
   * The callback of `update` and `create`: a driver error rejects, otherwise
   * the promise adopts the outcome of the read-back by email, passed in here
   * because it is a second round trip.
   */
  function SettleWrite<E, T>(response: WriteResponse<E>, readBack: Settled<E, T>): (r: Settled<E, T>)
    ensures response.WriteFailed? ==> r == Rejected(response.error)
    ensures response.WriteDone? ==> r == readBack
  {
    match response
    case WriteFailed(e) => Rejected(e)
    case WriteDone => readBack
  }

  /** The callback of `delete`: a driver error rejects, otherwise it resolves with nothing. */
  function SettleDelete<E>(response: WriteResponse<E>): (r: Settled<E, ()>)
    ensures r.Rejected? <==> response.WriteFailed?
    ensures r.Rejected? ==> r.reason == response.error
  {
    match response
    case WriteFailed(e) => Rejected(e)
    case WriteDone => Resolved(())
  }

  /** A lookup sees only the first row: rows after it never change the outcome. */
  lemma LookupIgnoresLaterRows<E, Row, U>(first: Row, later: seq<Row>, toUser: Row -> U)
    ensures SettleLookup(SelectResponse<E, Row>.Rows([first] + later), toUser)
         == SettleLookup(SelectResponse<E, Row>.Rows([first]), toUser)
  {
  }

  /** A lookup's user is the head of the listing the same response would give. */
  lemma LookupIsHeadOfListing<E, Row, U>(response: SelectResponse<E, Row>, toUser: Row -> U)
    ensures SettleLookup(response, toUser).Rejected? <==> SettleListing(response, toUser).Rejected?
    ensures SettleListing(response, toUser).Resolved? ==>
      var users := SettleListing(response, toUser).value;
      SettleLookup(response, toUser).value == if users == [] then None else Some(users[0])
  {
  }

  /** Mapping distributes over concatenation: the listing keeps the driver's row order. */
  lemma {:induction false} MapRowsAppend<Row, U>(a: seq<Row>, b: seq<Row>, toUser: Row -> U)
    ensures MapRows(a + b, toUser) == MapRows(a, toUser) + MapRows(b, toUser)
  {
  }

  /**
   * A write that succeeds but whose read-back finds no row resolves with
   * `null`, although `update` and `create` are declared to return a user.
   */
  lemma WriteMayResolveNull<E, Row, U>(toUser: Row -> U)
    ensures SettleWrite(WriteResponse<E>.WriteDone, SettleLookup(SelectResponse<E, Row>.Rows([]), toUser)) == Resolved(None)
  {
  }
}
