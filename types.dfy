/**
 * The records the raffle shares between its parts (types.ts), and the
 * nullable values that React state cells hold.
 */
module RaffleTypes {

  /** A value or nothing: the `string | null` and `number | null` cells. */
  datatype Option<T> = None | Some(value: T)

  /**
   * One draw result: the prize (`premio`) bound to the ticket number
   * (`numero`). The clock-derived `id` and `timestamp` are not modelled.
   */
  datatype Winner = Winner(premio: string, numero: int)

  /** The two kinds of spin; declared by the program and never used by it. */
  datatype SpinType = Prize | Number
}
