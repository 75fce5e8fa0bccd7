/** Failure-carrying results for the host drivers.

    Every `raise` of the drivers becomes one constructor of `Error`; a
    Python function that may raise becomes a function returning `Result`,
    which works with Dafny's `:-` so that an error propagates exactly as an
    uncaught exception does. */
module Outcomes {

  datatype Option<+T> = None | Some(value: T)

  /** The amplifier units that the check-act-verify toggles confirm. */
  datatype Unit = PA | LNA | SSB | DA

  /** Why an operation raised. */
  datatype Error =
    | InvalidWelcome                     // startup banner mismatch
    | InvalidResponse(line: string)      // echo line differs from the command
    | NotAnInteger(text: string)         // int() of a reply line failed
    | RedLedsOn                          // power view asked while red_en is set
    | NoErrorApparent                    // error view asked while red_en is clear
    | EnableFailed                       // "EN" not answered as expected
    | DisableFailed                      // "DS" not answered as expected
    | InvalidSetPower(requested: int)    // set power outside {20, 40, 60, 80}
    | PaOffCannotSetPower                // set power while the PA is off
    | PowerNotSet(got: int, wanted: int) // power verification after pressing failed
    | AmplifierNotOn                     // current power asked while the PA is off
    | ErrorOrSwrMode                     // current power asked while red_en is set
    | NotConfirmed(unit: Unit, on: bool) // toggle re-read disagrees with its target
  {
    /** The one value-domain violation; every other error is a protocol or
        state violation. */
    predicate IsValueDomain() {
      InvalidSetPower?
    }

    /** The device answered a line the driver cannot use. */
    predicate IsLinkError() {
      InvalidResponse? || NotAnInteger?
    }
  }

  datatype Result<+T> = Ok(value: T) | Err(error: Error) {

    predicate IsFailure() {
      Err?
    }

    function PropagateFailure<U>(): Result<U>
      requires Err?
    {
      Err(error)
    }

    function Extract(): T
      requires Ok?
    {
      value
    }
  }
}
