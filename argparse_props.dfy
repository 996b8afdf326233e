/**
 * What `parseArgs` promises, proved about the functions of `ArgParse`:
 * the effect of each kind of token, how an open name is resolved by the
 * token after it, and properties of a whole parse.
 */
module ArgParseProps {
  import opened ArgParse

  /** A token that `parseArgs` handles as a plain value: not `--…`, and not `-` followed by something. */
  predicate IsPlain(t: string) {
    !StartsWith(t, "--") && !(|t| >= 2 && StartsWith(t, "-"))
  }

  /** The value that a token can hand to `handleValue`: a plain token itself, or the non-empty text after the first `=` of a long option. */
  function Offered(t: string): Option<string> {
    if StartsWith(t, "--") then
      var equalsIndex := IndexOf(t, '=');
      if 0 <= equalsIndex < |t| - 1 then Some(t[equalsIndex + 1..]) else None
    else if |t| >= 2 && StartsWith(t, "-") then None
    else Some(t)
  }

  /** The values offered by `args`, in order. */
  function OfferedAll(args: seq<string>): seq<string>
    decreases |args|
  {
    if args == [] then []
    else
      var rest := OfferedAll(args[..|args| - 1]);
      match Offered(args[|args| - 1])
      case None => rest
      case Some(v) => rest + [v]
  }

  /** `a` is `b` with some elements left out, the rest in the same order. */
  predicate IsSubseq(a: seq<string>, b: seq<string>)
    decreases |b|
  {
    if a == [] then true
    else if b == [] then false
    else (a[|a| - 1] == b[|b| - 1] && IsSubseq(a[..|a| - 1], b[..|b| - 1])) || IsSubseq(a, b[..|b| - 1])
  }

  /** Every name in `names` set to `true`, every other key of `m` as it was. */
  function SetFlags(m: map<string, OptVal>, names: set<string>): map<string, OptVal> {
    map k | k in m.Keys + names :: if k in names then Flag else m[k]
  }

  /** The option names of `letters` under the shorthand mapping. */
  function Names(shorthand: map<char, string>, letters: string): set<string> {
    set i | 0 <= i < |letters| :: Resolve(shorthand, letters[i])
  }

  // ----- indexOf on long option tokens -----

  lemma IndexOfNoEquals(name: string)
    requires '=' !in name
    ensures IndexOf("--" + name, '=') < 0
  {
    assert forall i | 0 <= i < |"--" + name| :: ("--" + name)[i] != '=' by {
      forall i | 0 <= i < |"--" + name| ensures ("--" + name)[i] != '=' {
        if i >= 2 { assert ("--" + name)[i] == name[i - 2]; }
      }
    }
  }

  /** In `--name=value` with no `=` in `name`, the first `=` is the one after `name`. */
  lemma IndexOfEquals(name: string, value: string)
    requires '=' !in name
    ensures var t := "--" + name + "=" + value;
      IndexOf(t, '=') == 2 + |name| && t[2..2 + |name|] == name && t[3 + |name|..] == value
  {
    var t := "--" + name + "=" + value;
    var r := IndexOf(t, '=');
    assert t[2 + |name|] == '=';
    assert t[..2 + |name|] == "--" + name;
    IndexOfNoEquals(name);
    assert t[2..2 + |name|] == name;
    assert t[3 + |name|..] == value;
  }

  // ----- one token -----

  /** `--name` with no `=`: the previous open name (if any) becomes `true`, `name` is opened, nothing is written for `name`. */
  lemma {:induction false} LongOpen(st: ScanState, name: string, shorthand: map<char, string>)
    requires '=' !in name
    ensures Step(st, "--" + name, shorthand) == ScanState(st.topLevel, CloseOpen(st), Some(name))
  {
    var t := "--" + name;
    assert t[..2] == "--";
    IndexOfNoEquals(name);
    assert t[2..] == name;
  }

  /** `--name=` with nothing after `=` behaves as `--name`: `name` is opened, not given the empty string. */
  lemma {:induction false} LongOpenTrailingEquals(st: ScanState, name: string, shorthand: map<char, string>)
    requires '=' !in name
    ensures Step(st, "--" + name + "=", shorthand) == ScanState(st.topLevel, CloseOpen(st), Some(name))
  {
    var t := "--" + name + "=";
    assert t == "--" + name + "=" + "";
    IndexOfEquals(name, "");
    assert t[..2] == "--";
  }

  /**
   * `--name=value` with non-empty `name` and `value`: `name` gets the whole
   * text after the first `=` (which may itself contain `=`), and no name is
   * left open.
   */
  lemma {:induction false} LongAssign(st: ScanState, name: string, value: string, shorthand: map<char, string>)
    requires '=' !in name && name != "" && value != ""
    ensures Step(st, "--" + name + "=" + value, shorthand) == ScanState(st.topLevel, CloseOpen(st)[name := Str(value)], None)
  {
    var t := "--" + name + "=" + value;
    IndexOfEquals(name, value);
    assert t[..2] == "--";
  }

  /** `--=value`: the empty name is opened, but it is not truthy, so `value` goes to the positional values and the empty name stays open. */
  lemma {:induction false} LongEmptyName(st: ScanState, value: string, shorthand: map<char, string>)
    requires value != ""
    ensures Step(st, "--=" + value, shorthand) == ScanState(st.topLevel + [value], CloseOpen(st), Some(""))
  {
    var t := "--=" + value;
    assert t == "--" + "" + "=" + value;
    IndexOfEquals("", value);
    assert t[..2] == "--";
  }

  lemma NamesSnoc(shorthand: map<char, string>, letters: string)
    requires letters != []
    ensures Names(shorthand, letters) == Names(shorthand, letters[..|letters| - 1]) + {Resolve(shorthand, letters[|letters| - 1])}
  {
    var init := letters[..|letters| - 1];
    forall k | k in Names(shorthand, letters) ensures k in Names(shorthand, init) + {Resolve(shorthand, letters[|letters| - 1])} {
      var i :| 0 <= i < |letters| && Resolve(shorthand, letters[i]) == k;
      if i < |letters| - 1 { assert init[i] == letters[i]; }
    }
    forall k | k in Names(shorthand, init) ensures k in Names(shorthand, letters) {
      var i :| 0 <= i < |init| && Resolve(shorthand, init[i]) == k;
      assert letters[i] == init[i];
    }
  }

  lemma SetFlagsAdd(m: map<string, OptVal>, names: set<string>, name: string)
    ensures SetFlags(m, names)[name := Flag] == SetFlags(m, names + {name})
  {
  }

  /** Closing an open name that is already `true` changes nothing. */
  lemma CloseOpenFlagged(st: ScanState)
    requires st.openName.Some? ==> st.openName.value in st.options && st.options[st.openName.value] == Flag
    ensures CloseOpen(st) == st.options
  {
  }

  /** The non-last letters of a cluster set their names to `true`, and the open name stays as it was. */
  lemma {:induction false} ClusterEffect(st: ScanState, letters: string, shorthand: map<char, string>)
    requires letters != []
    ensures Cluster(st, letters, shorthand).options == SetFlags(CloseOpen(st), Names(shorthand, letters))
  {
    var init := letters[..|letters| - 1];
    var name := Resolve(shorthand, letters[|letters| - 1]);
    var prev := Cluster(st, init, shorthand);
    NamesSnoc(shorthand, letters);
    if init == [] {
      assert Names(shorthand, init) == {};
      assert SetFlags(CloseOpen(st), {}) == CloseOpen(st);
      SetFlagsAdd(CloseOpen(st), {}, name);
    } else {
      ClusterEffect(st, init, shorthand);
      CloseOpenFlagged(prev);
      SetFlagsAdd(CloseOpen(st), Names(shorthand, init), name);
    }
  }

  /**
   * A short cluster `-l1…ln` (n ≥ 1): every letter but the last sets its
   * shorthand-mapped name to `true`; only the last letter's name is opened;
   * the positional values are untouched.
   */
  lemma {:induction false} ShortCluster(st: ScanState, letters: string, shorthand: map<char, string>)
    requires letters != [] && letters[0] != '-'
    ensures var r := Step(st, "-" + letters, shorthand);
      && r.topLevel == st.topLevel
      && r.openName == Some(Resolve(shorthand, letters[|letters| - 1]))
      && r.options == SetFlags(CloseOpen(st), Names(shorthand, letters[..|letters| - 1]))
  {
    var t := "-" + letters;
    assert t[..2] != "--" by { assert t[1] == letters[0]; }
    assert t[..1] == "-";
    assert t[1..|t| - 1] == letters[..|letters| - 1];
    assert t[|t| - 1] == letters[|letters| - 1];
    var inner := Cluster(st, letters[..|letters| - 1], shorthand);
    if |letters| == 1 {
      assert Names(shorthand, letters[..0]) == {};
      assert CloseOpen(st) == SetFlags(CloseOpen(st), {});
    } else {
      ClusterEffect(st, letters[..|letters| - 1], shorthand);
      assert CloseOpen(inner) == inner.options by {
        if st.openName.Some? {
          assert st.openName.value in CloseOpen(st);
        }
      }
    }
  }

  /** A plain token is the open name's value when that name is truthy, and a positional value otherwise. */
  lemma {:induction false} PlainToken(st: ScanState, t: string, shorthand: map<char, string>)
    requires IsPlain(t)
    ensures Truthy(st.openName) ==>
      Step(st, t, shorthand) == ScanState(st.topLevel, st.options[st.openName.value := Str(t)], None)
    ensures !Truthy(st.openName) ==>
      Step(st, t, shorthand) == ScanState(st.topLevel + [t], st.options, st.openName)
  {
  }

  /** `-` and the empty token are plain; the empty token can be the (empty) string value of an open name. */
  lemma {:induction false} DashAndEmptyArePlain(st: ScanState, shorthand: map<char, string>)
    requires Truthy(st.openName)
    ensures IsPlain("-") && IsPlain("")
    ensures Step(st, "", shorthand).options == st.options[st.openName.value := Str("")]
    ensures Step(st, "-", shorthand).options == st.options[st.openName.value := Str("-")]
  {
    PlainToken(st, "", shorthand);
    PlainToken(st, "-", shorthand);
  }

  /** An open empty name never takes a value: the token goes to the positional values and the empty name stays open. */
  lemma {:induction false} EmptyOpenNameNeverAbsorbs(st: ScanState, t: string, shorthand: map<char, string>)
    requires st.openName == Some("") && IsPlain(t)
    ensures Step(st, t, shorthand) == ScanState(st.topLevel + [t], st.options, Some(""))
  {
    PlainToken(st, t, shorthand);
  }

  // ----- two tokens: how an open name is resolved -----

  /** After `--name` or `--name=`, a plain token becomes the value of a non-empty `name`. */
  lemma {:induction false} OpenThenValue(st: ScanState, name: string, v: string, equalsSign: bool, shorthand: map<char, string>)
    requires '=' !in name && name != "" && IsPlain(v)
    ensures var t := if equalsSign then "--" + name + "=" else "--" + name;
      Step(Step(st, t, shorthand), v, shorthand) == ScanState(st.topLevel, CloseOpen(st)[name := Str(v)], None)
  {
    var afterOpen := ScanState(st.topLevel, CloseOpen(st), Some(name));
    if equalsSign { LongOpenTrailingEquals(st, name, shorthand); } else { LongOpen(st, name, shorthand); }
    PlainToken(afterOpen, v, shorthand);
  }

  /** After `--name` or `--name=`, a following long option token sets `name` to `true` and opens its own name. */
  lemma {:induction false} OpenThenOption(st: ScanState, name: string, next: string, equalsSign: bool, shorthand: map<char, string>)
    requires '=' !in name && '=' !in next
    ensures var t := if equalsSign then "--" + name + "=" else "--" + name;
      Step(Step(st, t, shorthand), "--" + next, shorthand) == ScanState(st.topLevel, CloseOpen(st)[name := Flag], Some(next))
  {
    var afterOpen := ScanState(st.topLevel, CloseOpen(st), Some(name));
    if equalsSign { LongOpenTrailingEquals(st, name, shorthand); } else { LongOpen(st, name, shorthand); }
    LongOpen(afterOpen, next, shorthand);
  }

  /** `t` is `--name=value` with a non-empty value, for this same non-empty `name`. */
  predicate WritesSame(t: string, name: string) {
    name != "" && StartsWith(t, "--") && 0 <= IndexOf(t, '=') < |t| - 1 && t[2..IndexOf(t, '=')] == name
  }

  /**
   * Any option token (long or short cluster) that follows an open name
   * resolves it: the name ends up `true`, unless the token is
   * `--name=value` for that same name, which gives it the value.
   */
  lemma {:induction false} OptionResolvesOpenName(st: ScanState, name: string, t: string, shorthand: map<char, string>)
    requires st.openName == Some(name) && !IsPlain(t)
    ensures name in Step(st, t, shorthand).options
    ensures WritesSame(t, name) ==> Offered(t).Some? && Step(st, t, shorthand).options[name] == Str(Offered(t).value)
    ensures !WritesSame(t, name) ==> Step(st, t, shorthand).options[name] == Flag
  {
    if !StartsWith(t, "--") {
      var letters := t[1..|t| - 1];
      if letters != [] {
        ClusterEffect(st, letters, shorthand);
      }
    }
  }

  /** An open empty name followed by `--=v` is set to `true`; `v` does not become its value. */
  lemma EmptyOpenNameThenEmptyAssign(st: ScanState, value: string, shorthand: map<char, string>)
    requires st.openName == Some("") && value != ""
    ensures !WritesSame("--=" + value, "")
    ensures "" in Step(st, "--=" + value, shorthand).options
    ensures Step(st, "--=" + value, shorthand).options[""] == Flag
  {
    LongEmptyName(st, value, shorthand);
  }

  // ----- whole parses -----

  /** With no option token at all, every token is positional, in order, and there are no options. */
  lemma {:induction false} AllPlain(args: seq<string>, shorthand: map<char, string>)
    requires forall i | 0 <= i < |args| :: IsPlain(args[i])
    ensures Scan(args, shorthand) == ScanState(args, map[], None)
    ensures Parse(args, shorthand) == Args(args, map[])
  {
    if args != [] {
      var init := args[..|args| - 1];
      AllPlain(init, shorthand);
      PlainToken(Scan(init, shorthand), args[|args| - 1], shorthand);
      assert init + [args[|args| - 1]] == args;
    }
  }

  /** In particular, when no token starts with `-`. */
  lemma NoDashAllPositional(args: seq<string>, shorthand: map<char, string>)
    requires forall i | 0 <= i < |args| :: !StartsWith(args[i], "-")
    ensures Parse(args, shorthand) == Args(args, map[])
  {
    forall i | 0 <= i < |args| ensures IsPlain(args[i]) {
      if |args[i]| >= 2 { assert args[i][..2][..1] == args[i][..1]; }
    }
    AllPlain(args, shorthand);
  }

  lemma SubseqExtend(a: seq<string>, b: seq<string>, x: string)
    requires IsSubseq(a, b)
    ensures IsSubseq(a, b + [x])
  {
    assert (b + [x])[..|b|] == b;
  }

  lemma SubseqAppend(a: seq<string>, b: seq<string>, x: string)
    requires IsSubseq(a, b)
    ensures IsSubseq(a + [x], b + [x])
  {
    assert (a + [x])[..|a|] == a;
    assert (b + [x])[..|b|] == b;
  }

  lemma {:induction false} SubseqLength(a: seq<string>, b: seq<string>)
    requires IsSubseq(a, b)
    ensures |a| <= |b|
    decreases |b|
  {
    if a != [] {
      if a[|a| - 1] == b[|b| - 1] && IsSubseq(a[..|a| - 1], b[..|b| - 1]) {
        SubseqLength(a[..|a| - 1], b[..|b| - 1]);
      } else {
        SubseqLength(a, b[..|b| - 1]);
      }
    }
  }

  /** One token adds at most its offered value to the positional values. */
  lemma {:induction false} StepTopLevel(st: ScanState, t: string, shorthand: map<char, string>)
    ensures var r := Step(st, t, shorthand);
      r.topLevel == st.topLevel || (Offered(t).Some? && r.topLevel == st.topLevel + [Offered(t).value])
  {
  }

  /**
   * The positional values are a subsequence, in order, of the values the
   * tokens offer: the plain tokens and the text after `=` of long options.
   */
  lemma {:induction false} TopLevelSubseq(args: seq<string>, shorthand: map<char, string>)
    ensures IsSubseq(Parse(args, shorthand).topLevel, OfferedAll(args))
    ensures |Parse(args, shorthand).topLevel| <= |OfferedAll(args)| <= |args|
  {
    if args != [] {
      var init := args[..|args| - 1];
      var t := args[|args| - 1];
      var prev := Scan(init, shorthand);
      TopLevelSubseq(init, shorthand);
      StepTopLevel(prev, t, shorthand);
      match Offered(t)
      case None =>
      case Some(v) =>
        if Scan(args, shorthand).topLevel == prev.topLevel {
          SubseqExtend(prev.topLevel, OfferedAll(init), v);
        } else {
          SubseqAppend(prev.topLevel, OfferedAll(init), v);
        }
    }
    SubseqLength(Parse(args, shorthand).topLevel, OfferedAll(args));
  }

  /** A value given to an option is always a value offered by some token. */
  lemma {:induction false} ValuesFromInput(args: seq<string>, shorthand: map<char, string>)
    ensures forall k | k in Parse(args, shorthand).options ::
      Parse(args, shorthand).options[k].Str? ==> Parse(args, shorthand).options[k].s in OfferedAll(args)
  {
    if args != [] {
      var init := args[..|args| - 1];
      var t := args[|args| - 1];
      var prev := Scan(init, shorthand);
      var r := Scan(args, shorthand);
      ValuesFromInput(init, shorthand);
      assert args == init + [t];
      assert forall x | x in OfferedAll(init) :: x in OfferedAll(args);
      assert Offered(t).Some? ==> Offered(t).value in OfferedAll(args);
      forall k | k in r.options && r.options[k].Str? ensures r.options[k].s in OfferedAll(args) {
        StepValues(prev, t, shorthand, k);
        if k in prev.options && r.options[k] == prev.options[k] {
          assert Parse(init, shorthand).options == prev.options;
          assert prev.options[k].s in OfferedAll(init);
        } else {
          assert r.options[k].s == Offered(t).value;
        }
      }
    }
  }

  /** A string value written by one token is the value that token offers. */
  lemma {:induction false} StepValues(st: ScanState, t: string, shorthand: map<char, string>, k: string)
    requires k in Step(st, t, shorthand).options && Step(st, t, shorthand).options[k].Str?
    ensures (k in st.options && Step(st, t, shorthand).options[k] == st.options[k])
         || (Offered(t).Some? && Step(st, t, shorthand).options[k] == Str(Offered(t).value))
  {
    if !StartsWith(t, "--") && |t| >= 2 && StartsWith(t, "-") {
      var inner := Cluster(st, t[1..|t| - 1], shorthand);
      if t[1..|t| - 1] != [] {
        ClusterEffect(st, t[1..|t| - 1], shorthand);
      }
    }
  }

  /** The last `--name=value` for a name decides its value: later writes overwrite earlier ones. */
  lemma {:induction false} LastWriteWins(args: seq<string>, name: string, value: string, shorthand: map<char, string>)
    requires '=' !in name && name != "" && value != ""
    ensures name in Parse(args + ["--" + name + "=" + value], shorthand).options
    ensures Parse(args + ["--" + name + "=" + value], shorthand).options[name] == Str(value)
    ensures Parse(args + ["--" + name + "=" + value], shorthand).topLevel == Parse(args, shorthand).topLevel
  {
    var all := args + ["--" + name + "=" + value];
    assert all[..|all| - 1] == args;
    assert Scan(all, shorthand) == Step(Scan(args, shorthand), "--" + name + "=" + value, shorthand);
    LongAssign(Scan(args, shorthand), name, value, shorthand);
  }

  /**
   * A name still open when the input ends is not recorded: a final `--name`
   * only sets the previous open name to `true`.
   */
  lemma {:induction false} TrailingOpenDropped(args: seq<string>, name: string, shorthand: map<char, string>)
    requires '=' !in name
    ensures Parse(args + ["--" + name], shorthand).options == CloseOpen(Scan(args, shorthand))
    ensures name !in Scan(args, shorthand).options && Scan(args, shorthand).openName != Some(name) ==>
      name !in Parse(args + ["--" + name], shorthand).options
  {
    var all := args + ["--" + name];
    assert all[..|all| - 1] == args;
    LongOpen(Scan(args, shorthand), name, shorthand);
  }
}
