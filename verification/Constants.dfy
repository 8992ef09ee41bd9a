/** Values the services share. */
module Constants {

  /** Instants and durations are nanoseconds; instants count from the epoch. */
  const SECOND := 1_000_000_000

  const NIL_ID := "00000000-0000-0000-0000-000000000000"
}
