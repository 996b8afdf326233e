/**
 * Concrete command lines and what `parseArgs` makes of them, including the
 * invocation of the closure shim script itself (`shorthand: { o: "output" }`).
 */
module ArgParseExamples {
  import opened ArgParse
  import opened ArgParseProps

  const ShimShorthand: map<char, string> := map['o' := "output"]

  lemma LongWithValueExample()
    ensures Parse(["--output=out.js"], map[]) == Args([], map["output" := Str("out.js")])
  {
    assert ["--output=out.js"][..0] == [];
    assert "--output=out.js" == "--" + "output" + "=" + "out.js";
    LongAssign(Initial, "output", "out.js", map[]);
  }

  /** The whole text after the first `=` is the value. */
  lemma ValueWithEqualsExample()
    ensures Parse(["--a=b=c"], map[]) == Args([], map["a" := Str("b=c")])
  {
    assert ["--a=b=c"][..0] == [];
    assert "--a=b=c" == "--" + "a" + "=" + "b=c";
    LongAssign(Initial, "a", "b=c", map[]);
  }

  /** `--output=` opens `output`; nothing follows, so nothing is recorded. */
  lemma TrailingEqualsExample()
    ensures Parse(["--output="], map[]) == Args([], map[])
  {
    assert ["--output="][..0] == [];
    assert "--output=" == "--" + "output" + "=";
    LongOpenTrailingEquals(Initial, "output", map[]);
  }

  /** The shim's own usage: positional input files and `-o` mapped to `output`. */
  lemma ShimInvocationExample()
    ensures Parse(["a.js", "b.js", "-o", "out.js"], ShimShorthand) == Args(["a.js", "b.js"], map["output" := Str("out.js")])
    ensures Parse(["-o", "out.js"], ShimShorthand) == Args([], map["output" := Str("out.js")])
  {
    var args := ["a.js", "b.js", "-o", "out.js"];
    assert args[..3][..2] == ["a.js", "b.js"] && args[..3] == ["a.js", "b.js", "-o"];
    assert args[..3][..2][..1] == ["a.js"] && ["a.js"][..0] == [];
    assert IsPlain("a.js") && IsPlain("b.js") by {
      assert "a.js"[..2][0] == 'a' && "b.js"[..2][0] == 'b';
      assert "a.js"[..1][0] == 'a' && "b.js"[..1][0] == 'b';
    }
    AllPlain(["a.js", "b.js"], ShimShorthand);
    var afterFiles := ScanState(["a.js", "b.js"], map[], None);
    ShortCluster(afterFiles, "o", ShimShorthand);
    assert Names(ShimShorthand, "o"[..0]) == {};
    var short := ["-o", "out.js"];
    assert short[..1] == ["-o"] && ["-o"][..0] == [];
    ShortCluster(Initial, "o", ShimShorthand);
  }

  /** The last letter of a cluster is left open, so it is dropped at the end of input. */
  lemma ClusterAtEndExample()
    ensures Parse(["-abc"], map[]) == Args([], map["a" := Flag, "b" := Flag])
  {
    assert ["-abc"][..0] == [];
    assert "-" + "abc" == "-abc";
    ShortCluster(Initial, "abc", map[]);
    assert Names(map[], "abc"[..2]) == {"a", "b"} by {
      assert Resolve(map[], "abc"[..2][0]) == "a";
      assert Resolve(map[], "abc"[..2][1]) == "b";
    }
    assert SetFlags(map[], {"a", "b"}) == map["a" := Flag, "b" := Flag];
  }

  /** The last letter of a cluster takes the next plain token. */
  lemma ClusterValueExample()
    ensures Parse(["-ab", "val"], map[]) == Args([], map["a" := Flag, "b" := Str("val")])
  {
    var args := ["-ab", "val"];
    assert args[..1] == ["-ab"] && ["-ab"][..0] == [];
    ShortCluster(Initial, "ab", map[]);
    assert Names(map[], "ab"[..1]) == {"a"} by {
      assert Resolve(map[], "ab"[..1][0]) == "a";
    }
    assert SetFlags(map[], {"a"}) == map["a" := Flag];
  }

  /** An open long name takes the next plain token instead of leaving it positional. */
  lemma OpenNameTakesValueExample()
    ensures Parse(["--flag", "pos1"], map[]) == Args([], map["flag" := Str("pos1")])
  {
    var args := ["--flag", "pos1"];
    assert args[..1] == ["--flag"] && ["--flag"][..0] == [];
    assert Scan(args[..1], map[]) == Step(Initial, "--" + "flag", map[]);
    OpenThenValue(Initial, "flag", "pos1", false, map[]);
  }

  /** An open empty name takes no value, and is set to `true` when the next name opens. */
  lemma EmptyNameExample()
    ensures Parse(["--", "x", "--y"], map[]) == Args(["x"], map["" := Flag])
    ensures Parse(["--=v"], map[]) == Args(["v"], map[])
  {
    var args := ["--", "x", "--y"];
    assert args[..2] == ["--", "x"] && args[..2][..1] == ["--"] && ["--"][..0] == [];
    LongOpen(Initial, "", map[]);
    assert "--" + "" == "--";
    var afterDash := ScanState([], map[], Some(""));
    assert Scan(["--"], map[]) == afterDash;
    assert IsPlain("x") by { assert "x"[..1][0] == 'x'; }
    EmptyOpenNameNeverAbsorbs(afterDash, "x", map[]);
    assert Scan(args[..2], map[]) == ScanState(["x"], map[], Some(""));
    LongOpen(ScanState(["x"], map[], Some("")), "y", map[]);
    assert "--" + "y" == "--y";
    assert ["--=v"][..0] == [];
    LongEmptyName(Initial, "v", map[]);
    assert "--=" + "v" == "--=v";
  }
}
