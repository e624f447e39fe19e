/**
 * The result envelope every public operation returns instead of throwing
 * (src/index.ts:13-20, repeated in src/verifyProofs.ts:9-16).
 */
module Envelope {

  datatype Status = Success | Failure

  /** `{ status, data, error }`: callers branch on `status`, read `data`, print `error`. */
  datatype Options<T> = Options(status: Status, data: T, error: string)

  /**
   * A caught error sets the status to failure and the error to its message;
   * `data` keeps what was already assigned.
   */
  function Caught<T>(options: Options<T>, message: string): Options<T>
  {
    options.(status := Failure, error := message)
  }
}
