/**
 * The command-line tokenizer `parseArgs` of the closure shim script, stated
 * as functions over values.
 *
 * The scan keeps three pieces of state: the positional values seen so far
 * (`topLevel`), the options recorded so far (`options`) and at most one
 * option name still waiting for its value (`openName`). Two closures change
 * that state (`HandleArg`, `HandleValue`); `Step` sorts one token into a long
 * option, a short cluster or a plain value; `Scan` folds `Step` over the
 * tokens from left to right; `Parse` returns what the scan built and drops
 * the open name.
 */
module ArgParse {

  datatype Option<+T> = None | Some(value: T)

  /** The value of an option: the literal `true`, or a string. */
  datatype OptVal = Flag | Str(s: string)

  /** The parser's result: positional values and named options. */
  datatype Args = Args(topLevel: seq<string>, options: map<string, OptVal>)

  /** The optional settings of a parse: a letter-to-name shorthand table. */
  datatype ArgParseOptions = ArgParseOptions(shorthand: Option<map<char, string>>)

  /** The scan state that the two closures share. */
  datatype ScanState = ScanState(topLevel: seq<string>, options: map<string, OptVal>, openName: Option<string>)

  const Initial := ScanState([], map[], None)

  /** The shorthand table of a parse; an absent table or an absent `parseOptions` looks up nothing. */
  function ShorthandOf(parseOptions: Option<ArgParseOptions>): map<char, string> {
    match parseOptions
    case None => map[]
    case Some(o) => match o.shorthand
      case None => map[]
      case Some(sh) => sh
  }

  /** `shorthand?.[letter] ?? letter`: the mapped name, or the letter itself. */
  function Resolve(shorthand: map<char, string>, letter: char): string {
    if letter in shorthand then shorthand[letter] else [letter]
  }

  /** JavaScript's truthiness test on the open name: present and not the empty string. */
  predicate Truthy(openName: Option<string>) {
    openName.Some? && openName.value != ""
  }

  /** The options once a pending open name, if any, has been set to `true`. */
  function CloseOpen(st: ScanState): map<string, OptVal> {
    match st.openName
    case None => st.options
    case Some(o) => st.options[o := Flag]
  }

  /**
   * The `handleArg` closure: a defined open name becomes `true`; then a given
   * value is stored under `name`, or `name` becomes the open name. With a
   * value, the open name is left as it was.
   */
  function HandleArg(st: ScanState, name: string, value: Option<OptVal>): ScanState {
    match value
    case Some(v) => st.(options := CloseOpen(st)[name := v])
    case None => st.(options := CloseOpen(st), openName := Some(name))
  }

  /**
   * The `handleValue` closure: a truthy open name takes the value and is
   * cleared; otherwise the value is appended to the positional values.
   */
  function HandleValue(st: ScanState, value: string): ScanState {
    if Truthy(st.openName) then
      st.(options := st.options[st.openName.value := Str(value)], openName := None)
    else
      st.(topLevel := st.topLevel + [value])
  }

  predicate StartsWith(s: string, prefix: string) {
    |prefix| <= |s| && s[..|prefix|] == prefix
  }

  /** `s.indexOf(c)`: the first index of `c` in `s`, or -1 when there is none. */
  function IndexOf(s: string, c: char): (r: int)
    ensures -1 <= r < |s|
    ensures r < 0 <==> c !in s
    ensures 0 <= r ==> s[r] == c && c !in s[..r]
  {
    if s == [] then -1
    else if s[0] == c then 0
    else
      var k := IndexOf(s[1..], c);
      var m := if k < 0 then 0 else k;
      assert s[1..][..m] == s[1..1 + m];
      if k < 0 then -1 else k + 1
  }

  /**
   * The inner loop over a short cluster's non-last letters: each one is
   * handed to `handleArg` with the value `true`, after the shorthand mapping.
   */
  function Cluster(st: ScanState, letters: string, shorthand: map<char, string>): (r: ScanState)
    ensures r.topLevel == st.topLevel && r.openName == st.openName
    decreases |letters|
  {
    if letters == [] then st
    else
      HandleArg(Cluster(st, letters[..|letters| - 1], shorthand),
                Resolve(shorthand, letters[|letters| - 1]), Some(Flag))
  }

  /** One iteration of the outer loop: the token `arg` classified and handled. */
  function Step(st: ScanState, arg: string, shorthand: map<char, string>): ScanState {
    if StartsWith(arg, "--") then
      var equalsIndex := IndexOf(arg, '=');
      if equalsIndex < 0 then
        HandleArg(st, arg[2..], None)
      else
        assert arg[0] == '-' && arg[1] == '-';
        var st1 := HandleArg(st, arg[2..equalsIndex], None);
        if equalsIndex < |arg| - 1 then HandleValue(st1, arg[equalsIndex + 1..]) else st1
    else if |arg| >= 2 && StartsWith(arg, "-") then
      var trailingIndex := |arg| - 1;
      HandleArg(Cluster(st, arg[1..trailingIndex], shorthand), Resolve(shorthand, arg[trailingIndex]), None)
    else
      HandleValue(st, arg)
  }

  /** The scan state after the outer loop has handled every token of `args`. */
  function Scan(args: seq<string>, shorthand: map<char, string>): (st: ScanState)
    ensures |st.topLevel| <= |args|
    decreases |args|
  {
    if args == [] then Initial
    else Step(Scan(args[..|args| - 1], shorthand), args[|args| - 1], shorthand)
  }

  /** `parseArgs`: the scanned positional values and options; the open name left at the end is dropped. */
  function Parse(args: seq<string>, shorthand: map<char, string>): Args {
    var st := Scan(args, shorthand);
    Args(st.topLevel, st.options)
  }
}
