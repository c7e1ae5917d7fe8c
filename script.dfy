/** The argument map of the headless script base class (GMBaseScript). The
    argument parser (GMScriptArgumentParser) is not part of this model: its
    result is a parameter. */
module Script {
  import opened Wrappers

  /** The options the headless script reads. */
  datatype ArgOption = MetricName | FunctionName | ExportType | ExportPath

  datatype ScriptArgument<V> = ScriptArgument(option: ArgOption, value: V)

  class ScriptArgs<V> {
    var args: map<ArgOption, ScriptArgument<V>>

    constructor ()
      ensures args == map[]
    {
      args := map[];
    }

    /** parseArgs: putAll of the parsed options; parsed options overwrite, all other entries stay. */
    method ParseArgs(parsed: map<ArgOption, ScriptArgument<V>>)
      modifies this
      ensures args.Keys == old(args).Keys + parsed.Keys
      ensures forall o :: o in parsed ==> args[o] == parsed[o]
      ensures forall o :: o in old(args) && o !in parsed ==> args[o] == old(args)[o]
    {
      args := args + parsed;
    }

    /** hasArg: whether the option was given. */
    function HasArg(o: ArgOption): (b: bool)
      reads this
      ensures b <==> o in args.Keys
    {
      o in args
    }

    /** getArgValue: null for an absent option, otherwise the stored argument's value. */
    function GetArgValue(o: ArgOption): (r: Option<V>)
      reads this
      ensures r.Some? <==> HasArg(o)
      ensures r.Some? ==> r.value == args[o].value
    {
      if HasArg(o) then Some(args[o].value) else None
    }
  }
}
