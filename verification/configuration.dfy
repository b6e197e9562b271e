/** `Config::new` of src/lib.rs: turns the command-line arguments into the
    run's query, file path and case-insensitivity flag, or fails when there
    are too few arguments. */
module Configuration {

  datatype Config = Config(query: string, filePath: string, ignoreCase: bool)

  datatype Result<T> = Ok(value: T) | Err(error: string)

  /** What looking up the `IGNORE_CASE` environment variable gives: its
      value, or one of the two reasons `env::var` fails (the variable is
      unset, or its value is not valid Unicode). The lookup itself is a
      parameter of the model. */
  datatype VarLookup = Present(value: string) | NotPresent | NotUnicode

  const NotEnoughArguments: string := "Not enough arguments."

  /** Fails exactly when there are fewer than three arguments; otherwise the
      query and file path are arguments 1 and 2 verbatim, and case is ignored
      exactly when the variable lookup succeeded, whatever its value. */
  function New(args: seq<string>, ignoreCaseVar: VarLookup): (r: Result<Config>)
    ensures r.Err? <==> |args| < 3
    ensures r.Err? ==> r.error == NotEnoughArguments
    ensures r.Ok? ==> r.value.query == args[1] && r.value.filePath == args[2]
    ensures r.Ok? ==> (r.value.ignoreCase <==> ignoreCaseVar.Present?)
  {
    if |args| < 3 then Err(NotEnoughArguments)
    else Ok(Config(args[1], args[2], ignoreCaseVar.Present?))
  }

  /** Only arguments 1 and 2 are read: the program name and any further
      arguments make no difference. */
  lemma NewReadsOnlyQueryAndPath(args: seq<string>, args': seq<string>, v: VarLookup)
    requires |args| >= 3 && |args'| >= 3
    requires args[1] == args'[1] && args[2] == args'[2]
    ensures New(args, v) == New(args', v)
  {
  }

  /** Only whether the variable is set matters, never its value. */
  lemma NewIgnoresVariableValue(args: seq<string>, a: string, b: string)
    ensures New(args, Present(a)) == New(args, Present(b))
  {
  }
}
