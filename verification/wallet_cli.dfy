/** The command-line flag reader of src/cli/wallet-cli.ts (`parseFlags`).
    Arguments are read left to right: an argument starting with `--` that
    has a successor binds the rest of its name to that successor, which is
    taken verbatim, even when it looks like a flag itself; every other
    argument, a final dangling `--name` included, is positional. The flag
    table is a plain JavaScript object, so `--__proto__ v` binds nothing:
    assigning a string to an object's `__proto__` is silently ignored. */
module WalletCli {
  /** The one key a plain object does not store as its own property. */
  const ProtoKey := "__proto__"

  /** One reading step: a flag with its value, or a positional argument. */
  datatype Token = Flag(key: string, value: string) | Positional(arg: string)

  /** `arg.startsWith('--')`. */
  predicate IsFlag(a: string)
  {
    |a| >= 2 && a[0] == '-' && a[1] == '-'
  }

  /** How `parseFlags` splits the argument list into steps. */
  function Tokens(args: seq<string>): seq<Token>
    decreases |args|
  {
    if |args| == 0 then []
    else if IsFlag(args[0]) && |args| >= 2 then [Flag(args[0][2..], args[1])] + Tokens(args[2..])
    else [Positional(args[0])] + Tokens(args[1..])
  }

  /** The arguments a list of steps was read from. */
  function Source(ts: seq<Token>): seq<string>
  {
    if |ts| == 0 then []
    else
      var head := match ts[0] case Flag(k, v) => ["--" + k, v] case Positional(a) => [a];
      head + Source(ts[1..])
  }

  /** Only the very last step can be a positional argument that looks like
      a flag: anywhere else it would have taken the next argument. */
  predicate WellFormed(ts: seq<Token>)
  {
    forall i :: 0 <= i < |ts| && ts[i].Positional? && IsFlag(ts[i].arg) ==> i == |ts| - 1
  }

  /** The flag table after the steps: later bindings overwrite earlier
      ones, and `__proto__` is dropped. */
  function Bindings(ts: seq<Token>): map<string, string>
  {
    if |ts| == 0 then map[]
    else
      var m := Bindings(ts[..|ts| - 1]);
      match ts[|ts| - 1]
      case Flag(k, v) => if k == ProtoKey then m else m[k := v]
      case Positional(_) => m
  }

  /** The positional arguments, in order. */
  function Positionals(ts: seq<Token>): seq<string>
  {
    if |ts| == 0 then []
    else
      var p := Positionals(ts[..|ts| - 1]);
      match ts[|ts| - 1]
      case Flag(_, _) => p
      case Positional(a) => p + [a]
  }

  /** Appending one step: a flag adds or overwrites its key, unless the key
      is `__proto__`; a positional argument is appended. */
  lemma ReadStep(done: seq<Token>, t: Token)
    ensures Bindings(done + [t]) == if t.Flag? && t.key != ProtoKey then Bindings(done)[t.key := t.value] else Bindings(done)
    ensures Positionals(done + [t]) == if t.Positional? then Positionals(done) + [t.arg] else Positionals(done)
  {
    assert (done + [t])[..|done|] == done;
  }

  function FlagCount(ts: seq<Token>): nat
  {
    if |ts| == 0 then 0 else (if ts[0].Flag? then 1 else 0) + FlagCount(ts[1..])
  }

  /** The step `parseFlags` reads at position `i`, and what is left after it. */
  lemma TokensAt(args: seq<string>, i: int)
    requires 0 <= i < |args|
    ensures IsFlag(args[i]) && i + 1 < |args| ==>
      Tokens(args[i..]) == [Flag(args[i][2..], args[i + 1])] + Tokens(args[i + 2..])
    ensures !(IsFlag(args[i]) && i + 1 < |args|) ==>
      Tokens(args[i..]) == [Positional(args[i])] + Tokens(args[i + 1..])
  {
    var rest := args[i..];
    assert rest[0] == args[i];
    if i + 1 < |args| {
      assert rest[1] == args[i + 1] && rest[2..] == args[i + 2..];
    }
    assert rest[1..] == args[i + 1..];
  }

  /** `parseFlags(args)`. */
  method ParseFlags(args: seq<string>) returns (flags: map<string, string>, positional: seq<string>)
    ensures flags == Bindings(Tokens(args))
    ensures positional == Positionals(Tokens(args))
  {
    flags := map[];
    positional := [];
    ghost var done: seq<Token> := [];
    var i := 0;
    while i < |args|
      invariant 0 <= i <= |args|
      invariant done + Tokens(args[i..]) == Tokens(args)
      invariant flags == Bindings(done)
      invariant positional == Positionals(done)
      decreases |args| - i
    {
      TokensAt(args, i);
      var t: Token;
      if IsFlag(args[i]) && i + 1 < |args| {
        t := Flag(args[i][2..], args[i + 1]);
        i := i + 2;
      } else {
        t := Positional(args[i]);
        i := i + 1;
      }
      assert (done + [t]) + Tokens(args[i..]) == done + ([t] + Tokens(args[i..]));
      match t {
        case Flag(k, v) =>
          if k != ProtoKey {
            flags := flags[k := v];
          }
        case Positional(a) =>
          positional := positional + [a];
      }
      ReadStep(done, t);
      done := done + [t];
    }
    assert args[i..] == [];
    assert done + [] == done;
  }

  lemma {:induction false} SourceAppend(a: seq<Token>, b: seq<Token>)
    ensures Source(a + b) == Source(a) + Source(b)
    decreases |a|
  {
    if |a| == 0 {
      assert a + b == b;
    } else {
      assert (a + b)[0] == a[0];
      assert (a + b)[1..] == a[1..] + b;
      SourceAppend(a[1..], b);
    }
  }

  /** Reading loses nothing: the steps spell out the arguments again. */
  lemma {:induction false} TokensRoundTrip(args: seq<string>)
    ensures Source(Tokens(args)) == args
    decreases |args|
  {
    if |args| > 0 {
      if IsFlag(args[0]) && |args| >= 2 {
        TokensRoundTrip(args[2..]);
        assert "--" + args[0][2..] == args[0];
        assert [args[0], args[1]] + args[2..] == args;
      } else {
        TokensRoundTrip(args[1..]);
        assert [args[0]] + args[1..] == args;
      }
    }
  }

  /** Every reading is well formed, and every well-formed list of steps is
      what its own arguments read back as. */
  lemma {:induction false} TokensWellFormed(args: seq<string>)
    ensures WellFormed(Tokens(args))
    decreases |args|
  {
    if |args| > 0 {
      var ts := Tokens(args);
      var n := if IsFlag(args[0]) && |args| >= 2 then 2 else 1;
      var tail := Tokens(args[n..]);
      TokensWellFormed(args[n..]);
      assert ts == [ts[0]] + tail;
      forall i | 0 <= i < |ts| && ts[i].Positional? && IsFlag(ts[i].arg)
        ensures i == |ts| - 1
      {
        if i > 0 {
          assert ts[i] == tail[i - 1];
        } else if n == 1 {
          assert |args| == 1 && args[1..] == [];
        }
      }
    }
  }

  lemma {:induction false} SourceRoundTrip(ts: seq<Token>)
    requires WellFormed(ts)
    ensures Tokens(Source(ts)) == ts
    decreases |ts|
  {
    if |ts| > 0 {
      var rest := ts[1..];
      assert WellFormed(rest) by {
        forall i | 0 <= i < |rest| && rest[i].Positional? && IsFlag(rest[i].arg)
          ensures i == |rest| - 1
        {
          assert ts[i + 1] == rest[i];
        }
      }
      SourceRoundTrip(rest);
      var src := Source(ts);
      match ts[0]
      case Flag(k, v) =>
        assert src == ["--" + k, v] + Source(rest);
        assert ("--" + k)[2..] == k;
        assert src[2..] == Source(rest);
      case Positional(a) =>
        assert src == [a] + Source(rest);
        assert src[1..] == Source(rest);
        if IsFlag(a) && |src| >= 2 {
          assert false;
        }
    }
  }

  /** Every argument is accounted for: each flag uses two, each positional
      one. */
  lemma {:induction false} ArgumentCount(args: seq<string>)
    ensures |Positionals(Tokens(args))| + 2 * FlagCount(Tokens(args)) == |args|
  {
    TokensRoundTrip(args);
    CountBySource(Tokens(args));
  }

  lemma {:induction false} PositionalsCons(t: Token, ts: seq<Token>)
    ensures Positionals([t] + ts) == (if t.Positional? then [t.arg] else []) + Positionals(ts)
    decreases |ts|
  {
    if |ts| == 0 {
      assert ([t] + ts)[..0] == [];
    } else {
      var all := [t] + ts;
      assert all[..|all| - 1] == [t] + ts[..|ts| - 1];
      PositionalsCons(t, ts[..|ts| - 1]);
    }
  }

  lemma {:induction false} CountBySource(ts: seq<Token>)
    ensures |Positionals(ts)| + 2 * FlagCount(ts) == |Source(ts)|
    decreases |ts|
  {
    if |ts| > 0 {
      CountBySource(ts[1..]);
      assert ts == [ts[0]] + ts[1..];
      PositionalsCons(ts[0], ts[1..]);
    }
  }

  /** `t` binds the key `k`. */
  predicate Binds(t: Token, k: string)
  {
    t.Flag? && t.key == k
  }

  /** A key other than `__proto__` is bound exactly when some flag step
      names it, and it is bound to the value of the last such step;
      `__proto__` is never bound. */
  lemma {:induction false} LastValueWins(ts: seq<Token>, k: string)
    ensures k in Bindings(ts) <==> k != ProtoKey && exists i :: 0 <= i < |ts| && Binds(ts[i], k)
    ensures k != ProtoKey ==>
      forall i :: 0 <= i < |ts| && Binds(ts[i], k) && (forall j :: i < j < |ts| ==> !Binds(ts[j], k)) ==>
        Bindings(ts)[k] == ts[i].value
    decreases |ts|
  {
    if |ts| > 0 {
      var init := ts[..|ts| - 1];
      LastValueWins(init, k);
      assert forall i :: 0 <= i < |init| ==> init[i] == ts[i];
    }
  }

  /** The argument after a flag is its value as it stands, even when it
      looks like a flag, and a flag with nothing after it stays
      positional. */
  lemma FlagValueVerbatim(name: string, value: string, rest: seq<string>)
    ensures Tokens(["--" + name, value] + rest) == [Flag(name, value)] + Tokens(rest)
    ensures Tokens(["--" + name]) == [Positional("--" + name)]
  {
    var args := ["--" + name, value] + rest;
    assert ("--" + name)[2..] == name;
    assert args[2..] == rest;
  }

  /** `--__proto__ x` uses up both arguments and binds nothing. */
  lemma ProtoFlagDropped(rest: seq<string>)
    ensures var ts := Tokens(["--__proto__", "x"] + rest);
      && ts[0] == Flag(ProtoKey, "x")
      && Bindings(ts[..1]) == map[]
      && Positionals(ts[..1]) == []
  {
    FlagValueVerbatim(ProtoKey, "x", rest);
    assert "--" + ProtoKey == "--__proto__";
  }

  /** Reading the invocation `--mint URL send 64 --memo`. */
  lemma ParseExample()
    ensures var ts := Tokens(["--mint", "https://m", "send", "64", "--memo"]);
      && Bindings(ts) == map["mint" := "https://m"]
      && Positionals(ts) == ["send", "64", "--memo"]
  {
    var args := ["--mint", "https://m", "send", "64", "--memo"];
    assert args[2..] == ["send", "64", "--memo"];
    assert args[2..][1..] == ["64", "--memo"];
    assert args[2..][1..][1..] == ["--memo"];
    var ts := [Flag("mint", "https://m"), Positional("send"), Positional("64"), Positional("--memo")];
    assert Tokens(args) == ts;
    assert "mint" != ProtoKey by {
      assert "mint"[0] != ProtoKey[0];
    }
    ReadStep([], ts[0]);
    assert [] + [ts[0]] == ts[..1];
    ReadStep(ts[..1], ts[1]);
    assert ts[..1] + [ts[1]] == ts[..2];
    ReadStep(ts[..2], ts[2]);
    assert ts[..2] + [ts[2]] == ts[..3];
    ReadStep(ts[..3], ts[3]);
    assert ts[..3] + [ts[3]] == ts;
  }
}
