/** The life of a stock reservation. */
module ReservationStates {
  datatype ReservationState = Reserved | Expired | Released | Finalized
}
