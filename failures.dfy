/** How a step of the script ends: normally, or by raising one of the
    exceptions the post-processing can meet. */
module Failures {

  datatype Exception =
    | TranscodeError      // an external tool (comskip, ffprobe, ffmpeg) exited non-zero
    | ProbeOutputError    // ffprobe's JSON lacked a readable `format.bit_rate` (KeyError, ValueError)
    | OSError             // a file operation failed: a missing report, a failed move or remove
    | RequestError        // the HTTP request to the server raised (a timeout, a refused connection)

  datatype Status = Ok | Raised(exception: Exception)

  /** A value, or the exception raised instead of computing it. */
  datatype Result<T> = Success(value: T) | Failure(error: Exception)
}
