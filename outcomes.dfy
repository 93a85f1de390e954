/** Optional values, results and the exceptions the worker and the API raise. */
module Outcomes {

  datatype Option<+T> = None | Some(value: T)

  /** The Python exceptions that leave a stage or a helper, by class. */
  datatype Error =
    | FileExistsError(path: string)
    | FileNotFoundError(path: string)
    | IsADirectoryError(path: string)
    | NotADirectoryError(path: string)
    | KeyError(key: string)
    | TypeError
    | AttributeError
    | ValueError(message: string)
    | BadZipFile(path: string)
    /** `shutil.rmtree` refuses a symbolic link; `shutil.move` refuses an existing destination */
    | OSError(path: string)
    /** a non-zero exit or a driver error from pg_dump, psql or the database connection */
    | ToolError(tool: string)

  datatype Result<+T> = Ok(value: T) | Err(error: Error) {
    predicate IsFailure() { Err? }
    function PropagateFailure<U>(): Result<U>
      requires Err?
    {
      Err(error)
    }
    function Extract(): T
      requires Ok?
    {
      value
    }
  }
}
