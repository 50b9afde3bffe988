/** Option and Result, and the Python exceptions the modelled code can raise. */
module Wrappers {

  datatype Option<+T> = None | Some(value: T)

  datatype Result<+T, +E> = Success(value: T) | Failure(error: E)

  /** Why a ValueError was raised. */
  datatype Reason =
    | BadTime             // format_time: the value does not look like HH:MM:SS
    | BadMemory           // int() on a memory value that is not an integer
    | NoJobId             // qsub printed no "Your job <digits>"
    | JobFailed(jobid: Option<string>)  // the last permitted attempt failed

  /** The exceptions raised by the modelled code, by Python class. */
  datatype Error =
    | ValueError(reason: Reason)
    | IndexError                       // a list was indexed past its end
    | TypeError                        // an object that is not callable was called
    | RuntimeError                     // setup.py found no version line
    | CalledProcessError(returncode: int)  // qsub exited with a nonzero code
    | LoadError                        // the results file could not be unpickled
}
