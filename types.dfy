/** The entities shared by the cache's components. */
module Types {

  /** A filesystem path as its list of segments, absolute from the root `[]`.
      `p / name` in the source is `p + [name]` here. */
  type Path = seq<string>

  /** The identity of a decorated function: its `__module__` and `__qualname__`. */
  datatype FuncId = FuncId(moduleName: string, qualname: string)

  /** One argument value as the cache sees it: its `str()` form (used for
      readable directory names) and its `repr()` form (used inside the dict
      repr that is hashed). Both renderings are done by Python itself. */
  datatype ArgValue = ArgValue(text: string, repr: string)

  /** Bound arguments after normalisation: names with values, in order. */
  type Args = seq<(string, ArgValue)>

  /** The content of a table, as far as the cache is concerned. */
  type Table = seq<seq<string>>

  /** What a decorated function returns: a polars DataFrame (eager), a
      LazyFrame (lazy) or any other Python value. */
  datatype Frame = Eager(data: Table) | Lazy(data: Table) | Other(value: string)

  /** The exceptions the core raises or lets through. */
  datatype Error =
    | TypeError(message: string)
    | ValueError(message: string)
    | FileExistsError
    | FileNotFoundError
    | NotADirectoryError
    | IsADirectoryError
    | PermissionError

  /** What a `symlink_name` callback returns: a string, or a value of some
      other type, known here only by its type's name. */
  datatype CallbackResult = Str(s: string) | NonStr(typeName: string)

  /** A configured link name: a literal string, or a callback that receives
      the function, its bound arguments, its result and the cache key. */
  datatype NameSource =
    | Literal(name: string)
    | Callback(f: (FuncId, Args, Frame, string) -> CallbackResult)
}
