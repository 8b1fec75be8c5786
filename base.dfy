/** Failure-carrying values shared by every part of the deployment model. */
module Base {

  datatype Option<+T> = None | Some(value: T)

  /** The ways one deployment run, or one step of it, can fail. */
  datatype Error =
    | EmptySource                  // the upload directory holds no file at all
    | NotDeployable                // neither index.html nor package.json at the staged root
    | ManifestParseError           // package.json is not valid JSON
    | IoFailure                    // a filesystem call met the wrong kind of entry or a missing parent
    | DeployFailed(output: string) // the CLI failed and its error text carries no URL
    | NoUrlFound(output: string)   // the CLI succeeded but printed no URL

  /** A value or an error; usable with `:-`. */
  datatype Result<+T> = Ok(value: T) | Err(error: Error) {
    predicate IsFailure() { Err? }

    function PropagateFailure<U>(): Result<U>
      requires Err?
    {
      Err(error)
    }

    function Extract(): T
      requires Ok?
    {
      value
    }
  }
}
