/** Values and failures of the Python runtime that the pipeline steps observe.

    Every plugin receives its parameters as a keyword dictionary whose values
    are dynamically typed; the steps test `type(v) is str` and fail with
    Python exceptions. Both are modelled here as plain datatypes. */
module Python {

  datatype Option<T> = None | Some(value: T)

  /** The outcome of an operation that may raise. */
  datatype Result<T, E> = Ok(value: T) | Err(error: E) {
    predicate IsFailure() {
      Err?
    }

    function PropagateFailure<U>(): Result<U, E>
      requires Err?
    {
      Err(error)
    }

    function Extract(): T
      requires Ok?
    {
      value
    }
  }

  /** The exceptions the modelled code raises or lets escape. */
  datatype PyError =
    | KeyError(key: string)            // a missing keyword parameter
    | UnboundLocalError(name: string)  // a local that a non-string branch never assigned
    | ValueError                       // a string that does not convert (bool, int)
    | TypeError                        // an operation on a value of the wrong type
    | AttributeError                   // e.g. `.upper()` on a non-string
    | IndexError                       // `xs[0]` / `xs[-1]` on an empty list
    | IOError(path: string)            // `open` fails on `path` (a mapfile, a file to copy)
    | MapfileFormatError               // any other exception raised while loading a mapfile
    | OSError(path: string)            // a filesystem operation that fails on `path`
    | ShutilError(src: string, dst: string)  // `shutil.copyfile` onto the source itself

  /** The Python values handed to the plugins and scripts as parameters. */
  datatype PyValue =
    | PyStr(s: string)
    | PyBool(b: bool)
    | PyInt(i: int)
    | PyNone
    | PyList(items: seq<PyValue>)

  /** The `**kwargs` dictionary of a pipeline plugin. */
  type Kwargs = map<string, PyValue>

  /** `kwargs[key]`: raises `KeyError` when the key is missing. */
  function Get(kwargs: Kwargs, key: string): (r: Result<PyValue, PyError>)
    ensures r.Ok? <==> key in kwargs
    ensures r.Ok? ==> r.value == kwargs[key]
    ensures r.Err? ==> r.error == KeyError(key)
  {
    if key in kwargs then Ok(kwargs[key]) else Err(KeyError(key))
  }
}
