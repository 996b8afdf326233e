/**
 * `parseArgs` as the source runs it: the state shared by the closures
 * `handleArg` and `handleValue` lives in one `Scanner` object whose fields
 * the closures update in place, and `ParseArgs` drives them from a `for`
 * loop over the tokens with a nested `for` loop over a short cluster's
 * letters. Each method is proved against the functions of `ArgParse`.
 */
module ArgParseImpl {
  import opened ArgParse

  /** The closure state of one call of `parseArgs`. */
  class Scanner {
    var topLevel: seq<string>
    var options: map<string, OptVal>
    var openName: Option<string>

    function State(): ScanState
      reads this
    {
      ScanState(topLevel, options, openName)
    }

    constructor ()
      ensures State() == Initial
    {
      topLevel, options, openName := [], map[], None;
    }

    /** `handleArg(name, value?)`. */
    method HandleArg(name: string, value: Option<OptVal>)
      modifies this
      ensures topLevel == old(topLevel)
      ensures old(openName).Some? ==> old(openName).value in options
      ensures options == match value
        case Some(v) => CloseOpen(old(State()))[name := v]
        case None => CloseOpen(old(State()))
      ensures openName == if value.Some? then old(openName) else Some(name)
      ensures State() == ArgParse.HandleArg(old(State()), name, value)
    {
      if openName.Some? {
        options := options[openName.value := Flag];
      }
      if value.Some? {
        options := options[name := value.value];
      } else {
        openName := Some(name);
      }
    }

    /** `handleValue(value)`. */
    method HandleValue(value: string)
      modifies this
      ensures Truthy(old(openName)) ==>
        options == old(options)[old(openName).value := Str(value)] &&
        openName == None && topLevel == old(topLevel)
      ensures !Truthy(old(openName)) ==>
        topLevel == old(topLevel) + [value] &&
        options == old(options) && openName == old(openName)
      ensures State() == ArgParse.HandleValue(old(State()), value)
    {
      if openName.Some? && openName.value != "" {
        options := options[openName.value := Str(value)];
        openName := None;
      } else {
        topLevel := topLevel + [value];
      }
    }
  }

  /** `parseArgs(args, parseOptions)`: one left-to-right pass over `args`. */
  method ParseArgs(args: seq<string>, parseOptions: Option<ArgParseOptions>) returns (result: Args)
    ensures result == Parse(args, ShorthandOf(parseOptions))
  {
    var shorthand := ShorthandOf(parseOptions);
    var s := new Scanner();
    for i := 0 to |args|
      invariant s.State() == Scan(args[..i], shorthand)
    {
      var arg := args[i];
      assert args[..i + 1][..i] == args[..i];
      if StartsWith(arg, "--") {
        var equalsIndex := IndexOf(arg, '=');
        if equalsIndex < 0 {
          // no '=': the rest of the token is a name to open
          s.HandleArg(arg[2..], None);
        } else {
          assert arg[0] == '-' && arg[1] == '-';
          s.HandleArg(arg[2..equalsIndex], None);
          // a non-empty suffix after '=' is handed to HandleValue
          if equalsIndex < |arg| - 1 {
            s.HandleValue(arg[equalsIndex + 1..]);
          }
        }
      } else if |arg| >= 2 && StartsWith(arg, "-") {
        var trailingIndex := |arg| - 1;
        ghost var before := s.State();
        for j := 1 to trailingIndex
          invariant s.State() == Cluster(before, arg[1..j], shorthand)
        {
          assert arg[1..j + 1][..j - 1] == arg[1..j];
          s.HandleArg(Resolve(shorthand, arg[j]), Some(Flag));
        }
        s.HandleArg(Resolve(shorthand, arg[trailingIndex]), None);
      } else {
        s.HandleValue(arg);
      }
    }
    assert args[..|args|] == args;
    result := Args(s.topLevel, s.options);
  }
}
