/**
 * The logic of the fabtools OpenVZ operations: turning keyword options into
 * `vzctl` flags, assembling the command line each operation hands to the
 * remote executor, reading the run state out of `vzctl status` text, and
 * choosing a free container id.  Remote execution itself is not modelled:
 * an operation's result here is the command string it would run, and the
 * text a remote command prints is a parameter.
 */
module Operations {
  import opened Text

  datatype Option<T> = None | Some(value: T)

  /**
   * A keyword-argument value, classified the way the serialiser tests it:
   * a `bool`, `None`, a list or tuple (its elements already rendered by
   * `%s`), or any other value (rendered by `%s`).
   */
  datatype Value = Bool(b: bool) | Null | List(elems: seq<string>) | Scalar(text: string)

  /** One keyword argument `name=value`. */
  datatype Opt = Opt(name: string, value: Value)

  /** Keyword arguments in the order the dictionary enumerates them. */
  type Options = seq<Opt>

  /** A container given by number (CTID) or by name. */
  datatype Target = Ctid(id: int) | Name(name: string)

  /** One call `_vzctl(verb, target, **kwargs)`. */
  datatype Call = Call(verb: string, target: Target, kwargs: Options)

  /** `'%s' % ctid_or_name`: a CTID in decimal, a name unchanged. */
  function Render(t: Target): (r: string)
    ensures t.Ctid? ==> ' ' !in r && ParseInt(r) == t.id
    ensures t.Name? ==> r == t.name
  {
    match t
    case Ctid(n) => IntToStringRoundTrip(n); IntToString(n)
    case Name(s) => s
  }

  // ---------------------------------------------------------------------
  // Option-to-flag serialiser (`_expand_args`)
  // ---------------------------------------------------------------------

  /** The tokens `--k e` that a list value contributes, one per element, in element order. */
  function ElemTokens(k: string, elems: seq<string>): (r: seq<string>)
    ensures |r| == |elems|
    ensures forall i :: 0 <= i < |elems| ==> r[i] == "--" + k + " " + elems[i]
  {
    seq(|elems|, i requires 0 <= i < |elems| => "--" + k + " " + elems[i])
  }

  /**
   * The tokens one keyword argument contributes: none exactly when it is
   * omitted, and the bare flag `--name` exactly when it is `True`.
   */
  function OptTokens(o: Opt): (r: seq<string>)
    ensures |r| == Arity(o.value)
    ensures r == [] <==> Omitted(o)
    ensures "--" + o.name in r <==> o.value == Bool(true)
  {
    match o.value
    case Bool(b) => if b then ["--" + o.name] else []
    case List(elems) =>
      var r := ElemTokens(o.name, elems);
      assert forall i :: 0 <= i < |r| ==> |r[i]| > |"--" + o.name|;
      r
    case Null => []
    case Scalar(v) =>
      assert |"--" + o.name + " " + v| > |"--" + o.name|;
      ["--" + o.name + " " + v]
  }

  /** How many tokens a value yields: one for `True` or a scalar, one per list element, none otherwise. */
  function Arity(v: Value): nat
  {
    match v
    case Bool(b) => if b then 1 else 0
    case List(elems) => |elems|
    case Null => 0
    case Scalar(_) => 1
  }

  /** The total number of tokens the options yield. */
  function TokenCount(opts: Options): nat
  {
    if opts == [] then 0 else Arity(opts[0].value) + TokenCount(opts[1..])
  }

  /** The options that contribute nothing: `False`, `None` and an empty list or tuple. */
  predicate Omitted(o: Opt)
  {
    o.value == Bool(false) || o.value == Null || o.value == List([])
  }

  /**
   * The list `args` that the serialiser builds: each option's tokens, in
   * option order.  Every option that is set reaches it: `k=True` as `--k`,
   * a scalar `v` as `--k v`.
   */
  function Tokens(opts: Options): (r: seq<string>)
    ensures |r| == TokenCount(opts)
  {
    if opts == [] then []
    else
      var rest := Tokens(opts[1..]);
      assert forall i :: 1 <= i < |opts| ==> opts[i] == opts[1..][i - 1];
      OptTokens(opts[0]) + rest
  }

  /**
   * What `_expand_args(**kwargs)` returns: the tokens joined by single
   * spaces.  It is empty exactly when every option is `False`, `None` or an
   * empty list or tuple, in particular when there are no options.
   */
  function ExpandedArgs(opts: Options): (r: string)
    ensures r == "" <==> forall i :: 0 <= i < |opts| ==> Omitted(opts[i])
  {
    var t := Tokens(opts);
    TokensEmpty(opts);
    TokensAreFlags(opts);
    assert t != [] ==> Join(t, " ") != "" by {
      if t != [] { JoinNonEmpty(t, " "); }
    }
    Join(t, " ")
  }

  /** Tokens of consecutive option lists are concatenated. */
  lemma {:induction false} TokensAppend(a: Options, b: Options)
    ensures Tokens(a + b) == Tokens(a) + Tokens(b)
  {
    if a == [] {
      assert a + b == b;
    } else {
      assert (a + b)[0] == a[0];
      assert (a + b)[1..] == a[1..] + b;
      TokensAppend(a[1..], b);
    }
  }

  /** Every token the serialiser produces begins with `--`. */
  lemma {:induction false} TokensAreFlags(opts: Options)
    ensures forall i :: 0 <= i < |Tokens(opts)| ==> |Tokens(opts)[i]| >= 2 && Tokens(opts)[i][..2] == "--"
  {
    if opts != [] {
      TokensAreFlags(opts[1..]);
      var head, tail := OptTokens(opts[0]), Tokens(opts[1..]);
      assert forall i :: 0 <= i < |head| ==> |head[i]| >= 2 && head[i][..2] == "--";
      assert forall i :: |head| <= i < |head| + |tail| ==> (head + tail)[i] == tail[i - |head|];
    }
  }

  /** An option in front contributes its tokens in front. */
  lemma TokensCons(o: Opt, rest: Options)
    ensures Tokens([o] + rest) == OptTokens(o) + Tokens(rest)
  {
    assert ([o] + rest)[1..] == rest;
  }

  /** A `True` option puts its bare flag, and a scalar option its `--k v` token, among the tokens. */
  lemma TokensContain(opts: Options, i: nat)
    requires i < |opts|
    ensures opts[i].value == Bool(true) ==> "--" + opts[i].name in Tokens(opts)
    ensures opts[i].value.Scalar? ==> "--" + opts[i].name + " " + opts[i].value.text in Tokens(opts)
  {
    assert opts == opts[..i] + [opts[i]] + opts[i + 1..];
    TokensInContext(opts[..i], opts[i], opts[i + 1..]);
  }

  /** Two options in front of others contribute their tokens in front, in order. */
  lemma TokensTwo(a: Opt, b: Opt, rest: Options)
    ensures Tokens([a, b] + rest) == OptTokens(a) + (OptTokens(b) + Tokens(rest))
  {
    assert [a, b] + rest == [a] + ([b] + rest);
    TokensCons(b, rest);
    TokensCons(a, [b] + rest);
  }

  /** Three options in front of others contribute their tokens in front, in order. */
  lemma TokensThree(a: Opt, b: Opt, c: Opt, rest: Options)
    ensures Tokens([a, b, c] + rest) == OptTokens(a) + (OptTokens(b) + (OptTokens(c) + Tokens(rest)))
  {
    assert [a, b, c] + rest == [a] + ([b, c] + rest);
    TokensCons(a, [b, c] + rest);
    TokensTwo(b, c, rest);
  }

  /** One more option appends its own tokens. */
  lemma TokensSnoc(opts: Options, i: nat)
    requires i < |opts|
    ensures Tokens(opts[..i + 1]) == Tokens(opts[..i]) + OptTokens(opts[i])
  {
    assert opts[..i + 1] == opts[..i] + [opts[i]];
    TokensAppend(opts[..i], [opts[i]]);
    assert Tokens([opts[i]]) == OptTokens(opts[i]) + Tokens([]);
  }

  /** One more list element appends its own token. */
  lemma ElemTokensSnoc(k: string, elems: seq<string>, j: nat)
    requires j < |elems|
    ensures ElemTokens(k, elems[..j + 1]) == ElemTokens(k, elems[..j]) + ["--" + k + " " + elems[j]]
  {
  }

  /** `_expand_args`: walks the options, appending tokens to `args`, then joins them. */
  method ExpandArgs(kwargs: Options) returns (r: string)
    ensures r == ExpandedArgs(kwargs)
  {
    var args: seq<string> := [];
    var i := 0;
    while i < |kwargs|
      invariant 0 <= i <= |kwargs|
      invariant args == Tokens(kwargs[..i])
    {
      var k, v := kwargs[i].name, kwargs[i].value;
      ghost var before := args;
      match v {
      case Bool(b) =>
        if b {
          args := args + ["--" + k];
        }
        assert args == before + OptTokens(kwargs[i]);
      case List(elems) =>
        var j := 0;
        while j < |elems|
          invariant 0 <= j <= |elems|
          invariant args == before + ElemTokens(k, elems[..j])
        {
          ElemTokensSnoc(k, elems, j);
          args := args + ["--" + k + " " + elems[j]];
          j := j + 1;
        }
        assert elems[..j] == elems;
        assert args == before + OptTokens(kwargs[i]);
      case Null =>
        assert args == before + OptTokens(kwargs[i]);
      case Scalar(s) =>
        args := args + ["--" + k + " " + s];
        assert args == before + OptTokens(kwargs[i]);
      }
      TokensSnoc(kwargs, i);
      i := i + 1;
    }
    assert kwargs[..i] == kwargs;
    r := Join(args, " ");
  }

  /** Two space-joined strings put side by side, with no space next to an empty one. */
  function Glue(x: string, y: string): string
  {
    if x == "" then y else if y == "" then x else x + " " + y
  }

  lemma JoinTokens(x: seq<string>, y: seq<string>)
    requires forall i :: 0 <= i < |x| ==> x[i] != ""
    requires forall i :: 0 <= i < |y| ==> y[i] != ""
    ensures Join(x + y, " ") == Glue(Join(x, " "), Join(y, " "))
  {
    if x == [] {
      assert x + y == y;
    } else if y == [] {
      assert x + y == x;
      JoinNonEmpty(x, " ");
    } else {
      JoinAppend(x, y, " ");
      JoinNonEmpty(x, " ");
      JoinNonEmpty(y, " ");
    }
  }

  /**
   * The flags of earlier options come first: serialising `a + b` is
   * serialising `a`, then `b`, with one space between when both produced flags.
   */
  lemma ExpandAppend(a: Options, b: Options)
    ensures ExpandedArgs(a + b) == Glue(ExpandedArgs(a), ExpandedArgs(b))
  {
    TokensAppend(a, b);
    TokensAreFlags(a);
    TokensAreFlags(b);
    JoinTokens(Tokens(a), Tokens(b));
  }

  /** What a single option serialises to, for each kind of value. */
  lemma ExpandSingle(o: Opt)
    ensures o.value == Bool(true) ==> ExpandedArgs([o]) == "--" + o.name
    ensures Omitted(o) ==> ExpandedArgs([o]) == ""
    ensures o.value.Scalar? ==> ExpandedArgs([o]) == "--" + o.name + " " + o.value.text
    ensures o.value.List? ==> ExpandedArgs([o]) == Join(ElemTokens(o.name, o.value.elems), " ")
  {
    assert Tokens([o]) == OptTokens(o) + Tokens([]);
    assert Tokens([o]) == OptTokens(o);
    if o.value == List([]) {
      assert |OptTokens(o)| == 0;
    }
  }

  /**
   * An option in the middle of others contributes exactly its own tokens at
   * its own place.
   */
  lemma TokensInContext(a: Options, o: Opt, b: Options)
    ensures Tokens(a + [o] + b) == Tokens(a) + OptTokens(o) + Tokens(b)
  {
    TokensAppend(a + [o], b);
    TokensAppend(a, [o]);
    assert Tokens([o]) == OptTokens(o) + Tokens([]);
    assert Tokens([o]) == OptTokens(o);
  }

  /** `False`, `None` and `[]` leave the output unchanged wherever they stand. */
  lemma OmittedInContext(a: Options, o: Opt, b: Options)
    requires Omitted(o)
    ensures ExpandedArgs(a + [o] + b) == ExpandedArgs(a + b)
  {
    TokensInContext(a, o, b);
    TokensAppend(a, b);
    assert OptTokens(o) == [];
    assert Tokens(a) + OptTokens(o) == Tokens(a);
  }

  lemma {:induction false} TokensEmpty(opts: Options)
    ensures Tokens(opts) == [] <==> forall i :: 0 <= i < |opts| ==> Omitted(opts[i])
  {
    if opts != [] {
      var head, tail := opts[0], opts[1..];
      TokensEmpty(tail);
      assert forall i :: 1 <= i < |opts| ==> opts[i] == tail[i - 1];
    }
  }

  /** The bare token `--k` is among the serialised tokens. */
  predicate HasFlag(opts: Options, k: string)
  {
    "--" + k in Tokens(opts)
  }

  /** A token `--name value` is never a bare flag `--k` for a space-free `k`. */
  lemma NotBare(name: string, v: string, k: string)
    requires ' ' !in k
    ensures "--" + k != "--" + name + " " + v
  {
    var t := "--" + name + " " + v;
    assert t[2 + |name|] == ' ';
    if |t| == 2 + |k| {
      assert ("--" + k)[2 + |name|] == k[|name|];
    }
  }

  lemma OptFlag(o: Opt, k: string)
    requires ' ' !in k
    ensures "--" + k in OptTokens(o) <==> o == Opt(k, Bool(true))
  {
    match o.value
    case Bool(b) =>
      assert ("--" + o.name)[2..] == o.name;
      assert ("--" + k)[2..] == k;
    case List(elems) =>
      forall i | 0 <= i < |elems|
        ensures OptTokens(o)[i] != "--" + k
      {
        NotBare(o.name, elems[i], k);
      }
    case Scalar(v) =>
      NotBare(o.name, v, k);
    case Null =>
  }

  /**
   * A space-free key `k` yields the bare token `--k` exactly when some
   * option is `k=True`.
   */
  lemma {:induction false} FlagIff(opts: Options, k: string)
    requires ' ' !in k
    ensures HasFlag(opts, k) <==> exists i :: 0 <= i < |opts| && opts[i] == Opt(k, Bool(true))
  {
    if opts != [] {
      var tail := opts[1..];
      FlagIff(tail, k);
      OptFlag(opts[0], k);
      if exists i :: 0 <= i < |opts| && opts[i] == Opt(k, Bool(true)) {
        var i :| 0 <= i < |opts| && opts[i] == Opt(k, Bool(true));
        if i > 0 {
          assert tail[i - 1] == Opt(k, Bool(true));
        }
      }
      if exists i :: 0 <= i < |tail| && tail[i] == Opt(k, Bool(true)) {
        var i :| 0 <= i < |tail| && tail[i] == Opt(k, Bool(true));
        assert opts[i + 1] == Opt(k, Bool(true));
      }
    }
  }

  /** `--k` reaches the tokens of `named + extra` when `named` or `extra` produces it. */
  lemma FlagAppend(named: Options, extra: Options, k: string)
    ensures HasFlag(named + extra, k) <==> HasFlag(named, k) || HasFlag(extra, k)
  {
    TokensAppend(named, extra);
  }

  /** When only the option at `j` is called `k`, `--k` appears exactly when that option is `True`. */
  lemma FlagAt(opts: Options, j: nat, k: string)
    requires ' ' !in k && j < |opts| && opts[j].name == k
    requires forall i :: 0 <= i < |opts| && i != j ==> opts[i].name != k
    ensures HasFlag(opts, k) <==> opts[j].value == Bool(true)
  {
    FlagIff(opts, k);
  }

  // ---------------------------------------------------------------------
  // Command assembly (`_vzctl` and the operations built on it)
  // ---------------------------------------------------------------------

  /** `'vzctl %s %s %s' % (command, ctid_or_name, args)`. */
  function CommandLine(call: Call): (cmd: string)
    ensures ExpandedArgs(call.kwargs) == "" ==> |cmd| > 0 && cmd[|cmd| - 1] == ' '
  {
    "vzctl " + call.verb + " " + Render(call.target) + " " + ExpandedArgs(call.kwargs)
  }

  /** `_vzctl`'s string building: serialise the options, then format the command line. */
  method Vzctl(call: Call) returns (cmd: string)
    ensures cmd == CommandLine(call)
  {
    var args := ExpandArgs(call.kwargs);
    cmd := "vzctl " + call.verb + " " + Render(call.target) + " " + args;
  }

  /** Fields of a `vzctl` command line split on single spaces. */
  datatype Parsed = Parsed(verb: string, target: string, rest: string)

  /** Reads a command line `vzctl <verb> <target> <rest>` back into its parts. */
  function ParseCommand(cmd: string): Option<Parsed>
  {
    var f := Split(cmd, ' ');
    if |f| >= 4 && f[0] == "vzctl" then Some(Parsed(f[1], f[2], Join(f[3..], " "))) else None
  }

  lemma ParseLine(verb: string, target: string, rest: string)
    requires ' ' !in verb && ' ' !in target
    ensures ParseCommand("vzctl " + verb + " " + target + " " + rest) == Some(Parsed(verb, target, rest))
  {
    var cmd := "vzctl " + verb + " " + target + " " + rest;
    assert cmd == "vzctl" + [' '] + (verb + [' '] + (target + [' '] + rest));
    SplitPrefix("vzctl", verb + [' '] + (target + [' '] + rest), ' ');
    SplitPrefix(verb, target + [' '] + rest, ' ');
    SplitPrefix(target, rest, ' ');
    var f := Split(cmd, ' ');
    assert f == ["vzctl", verb, target] + Split(rest, ' ');
    assert f[3..] == Split(rest, ' ');
  }

  /**
   * The command line splits back into `vzctl`, the verb, the target and the
   * serialised options, provided verb and target contain no space (a numeric
   * CTID never does).
   */
  lemma CommandRoundTrip(call: Call)
    requires ' ' !in call.verb && ' ' !in Render(call.target)
    ensures ParseCommand(CommandLine(call)) == Some(Parsed(call.verb, Render(call.target), ExpandedArgs(call.kwargs)))
  {
    ParseLine(call.verb, Render(call.target), ExpandedArgs(call.kwargs));
  }

  /** `create`: the six named options, each defaulting to `None`, then the extra keyword arguments. */
  function Create(target: Target, ostemplate: Value := Null, config: Value := Null,
                  private: Value := Null, root: Value := Null, ipadd: Value := Null,
                  hostname: Value := Null, extra: Options := []): (call: Call)
    ensures call.verb == "create" && call.target == target
    ensures Tokens(call.kwargs) ==
              OptTokens(Opt("ostemplate", ostemplate)) + (OptTokens(Opt("config", config)) +
              (OptTokens(Opt("private", private)) + (OptTokens(Opt("root", root)) +
              (OptTokens(Opt("ipadd", ipadd)) + (OptTokens(Opt("hostname", hostname)) + Tokens(extra))))))
    ensures ostemplate == config == private == root == ipadd == hostname == Null ==>
              ExpandedArgs(call.kwargs) == ExpandedArgs(extra)
  {
    var r5 := [Opt("hostname", hostname)] + extra;
    var r4 := [Opt("ipadd", ipadd)] + r5;
    var r3 := [Opt("root", root)] + r4;
    var r2 := [Opt("private", private)] + r3;
    var r1 := [Opt("config", config)] + r2;
    var kwargs := [Opt("ostemplate", ostemplate)] + r1;
    TokensCons(Opt("hostname", hostname), extra);
    TokensCons(Opt("ipadd", ipadd), r5);
    TokensCons(Opt("root", root), r4);
    TokensCons(Opt("private", private), r3);
    TokensCons(Opt("config", config), r2);
    TokensCons(Opt("ostemplate", ostemplate), r1);
    assert ostemplate == config == private == root == ipadd == hostname == Null ==> Tokens(kwargs) == Tokens(extra);
    Call("create", target, kwargs)
  }

  /** `destroy`: no options, so the command ends in a space. */
  function Destroy(target: Target): (call: Call)
    ensures CommandLine(call) == "vzctl destroy " + Render(target) + " "
  {
    Call("destroy", target, [])
  }

  /** `set`: `save` (default `True`) then the extra keyword arguments. */
  function Set(target: Target, save: Value := Bool(true), extra: Options := []): (call: Call)
    ensures call.verb == "set" && call.target == target
    ensures HasFlag(call.kwargs, "save") <==> save == Bool(true) || HasFlag(extra, "save")
    ensures Tokens(call.kwargs) == OptTokens(Opt("save", save)) + Tokens(extra)
  {
    TokensCons(Opt("save", save), extra);
    FlagAppend([Opt("save", save)], extra, "save");
    FlagAt([Opt("save", save)], 0, "save");
    Call("set", target, [Opt("save", save)] + extra)
  }

  /** `start`: `wait` and `force` (both default `False`) then the extra keyword arguments. */
  function Start(target: Target, wait: Value := Bool(false), force: Value := Bool(false),
                 extra: Options := []): (call: Call)
    ensures call.verb == "start" && call.target == target
    ensures HasFlag(call.kwargs, "wait") <==> wait == Bool(true) || HasFlag(extra, "wait")
    ensures HasFlag(call.kwargs, "force") <==> force == Bool(true) || HasFlag(extra, "force")
    ensures Tokens(call.kwargs) == OptTokens(Opt("wait", wait)) + (OptTokens(Opt("force", force)) + Tokens(extra))
  {
    var named := [Opt("wait", wait), Opt("force", force)];
    TokensTwo(Opt("wait", wait), Opt("force", force), extra);
    StartFlags(wait, force, extra);
    Call("start", target, named + extra)
  }

  /** Each of `start`'s bare flags comes from its own named option or from the extras. */
  lemma StartFlags(wait: Value, force: Value, extra: Options)
    ensures var kwargs := [Opt("wait", wait), Opt("force", force)] + extra;
            && (HasFlag(kwargs, "wait") <==> wait == Bool(true) || HasFlag(extra, "wait"))
            && (HasFlag(kwargs, "force") <==> force == Bool(true) || HasFlag(extra, "force"))
  {
    var named := [Opt("wait", wait), Opt("force", force)];
    FlagAppend(named, extra, "wait");
    FlagAppend(named, extra, "force");
    FlagAt(named, 0, "wait");
    FlagAt(named, 1, "force");
  }

  /** `stop`: `fast` (default `False`) then the extra keyword arguments. */
  function Stop(target: Target, fast: Value := Bool(false), extra: Options := []): (call: Call)
    ensures call.verb == "stop" && call.target == target
    ensures HasFlag(call.kwargs, "fast") <==> fast == Bool(true) || HasFlag(extra, "fast")
    ensures Tokens(call.kwargs) == OptTokens(Opt("fast", fast)) + Tokens(extra)
  {
    TokensCons(Opt("fast", fast), extra);
    FlagAppend([Opt("fast", fast)], extra, "fast");
    FlagAt([Opt("fast", fast)], 0, "fast");
    Call("stop", target, [Opt("fast", fast)] + extra)
  }

  /** `restart`: `wait` (default `True`), `force` and `fast` (default `False`), then the extra keyword arguments. */
  function Restart(target: Target, wait: Value := Bool(true), force: Value := Bool(false),
                   fast: Value := Bool(false), extra: Options := []): (call: Call)
    ensures call.verb == "restart" && call.target == target
    ensures HasFlag(call.kwargs, "wait") <==> wait == Bool(true) || HasFlag(extra, "wait")
    ensures HasFlag(call.kwargs, "force") <==> force == Bool(true) || HasFlag(extra, "force")
    ensures HasFlag(call.kwargs, "fast") <==> fast == Bool(true) || HasFlag(extra, "fast")
    ensures Tokens(call.kwargs) ==
              OptTokens(Opt("wait", wait)) + (OptTokens(Opt("force", force)) + (OptTokens(Opt("fast", fast)) + Tokens(extra)))
  {
    var named := [Opt("wait", wait), Opt("force", force), Opt("fast", fast)];
    TokensThree(Opt("wait", wait), Opt("force", force), Opt("fast", fast), extra);
    RestartFlags(wait, force, fast, extra);
    Call("restart", target, named + extra)
  }

  /** Each of `restart`'s bare flags comes from its own named option or from the extras. */
  lemma RestartFlags(wait: Value, force: Value, fast: Value, extra: Options)
    ensures var kwargs := [Opt("wait", wait), Opt("force", force), Opt("fast", fast)] + extra;
            && (HasFlag(kwargs, "wait") <==> wait == Bool(true) || HasFlag(extra, "wait"))
            && (HasFlag(kwargs, "force") <==> force == Bool(true) || HasFlag(extra, "force"))
            && (HasFlag(kwargs, "fast") <==> fast == Bool(true) || HasFlag(extra, "fast"))
  {
    var named := [Opt("wait", wait), Opt("force", force), Opt("fast", fast)];
    FlagAppend(named, extra, "wait");
    FlagAppend(named, extra, "force");
    FlagAppend(named, extra, "fast");
    FlagAt(named, 0, "wait");
    FlagAt(named, 1, "force");
    FlagAt(named, 2, "fast");
  }

  /** `status`: no options, so the command ends in a space. */
  function Status(target: Target): (call: Call)
    ensures CommandLine(call) == "vzctl status " + Render(target) + " "
  {
    Call("status", target, [])
  }

  /** `'vzctl exec2 %s %s' % (ctid_or_name, command)`: the command text is passed verbatim. */
  function Exec2(target: Target, command: string): (cmd: string)
    ensures ' ' !in Render(target) ==> ParseCommand(cmd) == Some(Parsed("exec2", Render(target), command))
  {
    var cmd := "vzctl exec2 " + Render(target) + " " + command;
    assert cmd == "vzctl " + "exec2" + " " + Render(target) + " " + command;
    assert ' ' !in Render(target) ==> ParseCommand(cmd) == Some(Parsed("exec2", Render(target), command)) by {
      if ' ' !in Render(target) { ParseLine("exec2", Render(target), command); }
    }
    cmd
  }

  /** The CTID 101 renders as `101`. */
  lemma Render101()
    ensures Render(Ctid(101)) == "101"
  {
    assert NatToString(1) == "1";
    assert NatToString(10) == "10";
    assert NatToString(101) == NatToString(10) + [DigitChar(1)];
  }

  /** `wait=False, force=True` serialises to `--force`. */
  lemma ForceArgs()
    ensures ExpandedArgs([Opt("wait", Bool(false)), Opt("force", Bool(true))]) == "--force"
  {
    OmittedInContext([], Opt("wait", Bool(false)), [Opt("force", Bool(true))]);
    ExpandSingle(Opt("force", Bool(true)));
    assert "--" + "force" == "--force";
  }

  /** A list value under `x` gives one `--x e` per element, in order. */
  lemma ListExample()
    ensures ExpandedArgs([Opt("x", List(["a", "b"]))]) == "--x a --x b"
  {
    var t := ElemTokens("x", ["a", "b"]);
    assert t[0] == "--" + "x" + " " + "a" == "--x a";
    assert t[1] == "--" + "x" + " " + "b" == "--x b";
    ExpandSingle(Opt("x", List(["a", "b"])));
    assert Join(t, " ") == t[0] + " " + Join(t[1..], " ");
    assert "--x a" + " " + "--x b" == "--x a --x b";
  }

  /** `ostemplate=debian, hostname=web` serialise in keyword order; the unset options vanish. */
  lemma CreateArgs()
    ensures ExpandedArgs(Create(Ctid(101), ostemplate := Scalar("debian"), hostname := Scalar("web")).kwargs)
            == "--ostemplate debian --hostname web"
  {
    var os, hn := Opt("ostemplate", Scalar("debian")), Opt("hostname", Scalar("web"));
    CreateTokens();
    TwoScalars(os, hn);
    CreateArgsText();
  }

  /** Of the six named options only `ostemplate` and `hostname` are set, so only they yield tokens. */
  lemma CreateTokens()
    ensures Tokens(Create(Ctid(101), ostemplate := Scalar("debian"), hostname := Scalar("web")).kwargs)
            == OptTokens(Opt("ostemplate", Scalar("debian"))) + OptTokens(Opt("hostname", Scalar("web")))
  {
    var hn := Opt("hostname", Scalar("web"));
    assert OptTokens(hn) + Tokens([]) == OptTokens(hn);
  }

  /**
   * The two tokens of `CreateTokens`, spelled out and joined by one space.
   * Kept apart from `CreateArgs` so that the literal comparison is proved
   * without the serialiser's definitions in view.
   */
  lemma CreateArgsText()
    ensures ("--" + "ostemplate" + " " + "debian") + " " + ("--" + "hostname" + " " + "web")
            == "--ostemplate debian --hostname web"
  {
    assert "--" + "ostemplate" + " " + "debian" == "--ostemplate debian";
    assert "--" + "hostname" + " " + "web" == "--hostname web";
  }

  /** Two scalar options serialise as their two tokens, joined by one space. */
  lemma TwoScalars(a: Opt, b: Opt)
    requires a.value.Scalar? && b.value.Scalar?
    ensures Join(OptTokens(a) + OptTokens(b), " ")
            == ("--" + a.name + " " + a.value.text) + " " + ("--" + b.name + " " + b.value.text)
  {
    assert (OptTokens(a) + OptTokens(b))[1..] == OptTokens(b);
  }

  /** `create(101, ostemplate='debian', hostname='web')` runs the matching `vzctl create` line. */
  lemma CreateExample()
    ensures CommandLine(Create(Ctid(101), ostemplate := Scalar("debian"), hostname := Scalar("web")))
            == "vzctl create 101 " + "--ostemplate debian --hostname web"
  {
    CreateArgs();
    CreateLine(Create(Ctid(101), ostemplate := Scalar("debian"), hostname := Scalar("web")),
               "--ostemplate debian --hostname web");
  }

  /** A `create` call on CTID 101 runs `vzctl create 101 ` followed by its flags. */
  lemma CreateLine(call: Call, args: string)
    requires call.verb == "create" && call.target == Ctid(101) && ExpandedArgs(call.kwargs) == args
    ensures CommandLine(call) == "vzctl create 101 " + args
  {
    Render101();
    assert CommandLine(call) == "vzctl " + "create" + " " + "101" + " " + args;
    assert "vzctl " + "create" + " " + "101" + " " == "vzctl create 101 ";
  }

  /** `start(101, force=True)` runs `vzctl start 101 --force`: `wait=False` contributes nothing. */
  lemma StartForceExample()
    ensures CommandLine(Start(Ctid(101), force := Bool(true))) == "vzctl start 101 --force"
  {
    Render101();
    ForceArgs();
    var call := Call("start", Ctid(101), [Opt("wait", Bool(false)), Opt("force", Bool(true))]);
    assert Start(Ctid(101), force := Bool(true)) == call;
    assert CommandLine(call) == "vzctl " + "start" + " " + "101" + " " + "--force";
  }

  // ---------------------------------------------------------------------
  // Template download URL
  // ---------------------------------------------------------------------

  const TemplateBase := "http://download.openvz.org/template/precreated/"
  const TemplateSuffix := ".tar.gz"

  /**
   * `'%s' % name` for `name` either a string or `None`: a string is inserted
   * as it is, and `None` renders as the text `None`, indistinguishable from
   * the name `"None"`.
   */
  function NameText(name: Option<string>): (r: string)
    ensures name.Some? ==> r == name.value
    ensures r == "None" <==> name == None || name == Some("None")
  {
    match name
    case Some(s) => s
    case None => "None"
  }

  /** The URL `download_template` fetches: the explicit one, or the precreated template named `name`. */
  function TemplateUrl(name: Option<string> := None, url: Option<string> := None): (r: string)
    ensures url.Some? ==> r == url.value
    ensures url.None? ==> TemplateName(r) == Some(NameText(name))
  {
    match url
    case Some(u) => u
    case None =>
      var r := TemplateBase + NameText(name) + TemplateSuffix;
      assert r[..|TemplateBase|] == TemplateBase;
      assert r[|r| - |TemplateSuffix|..] == TemplateSuffix;
      assert r[|TemplateBase|..|r| - |TemplateSuffix|] == NameText(name);
      r
  }

  /** The template name in a precreated-template URL, if it is one. */
  function TemplateName(url: string): Option<string>
  {
    if |url| >= |TemplateBase| + |TemplateSuffix|
       && url[..|TemplateBase|] == TemplateBase
       && url[|url| - |TemplateSuffix|..] == TemplateSuffix
    then Some(url[|TemplateBase|..|url| - |TemplateSuffix|])
    else None
  }

  // ---------------------------------------------------------------------
  // Status predicate (`running`)
  // ---------------------------------------------------------------------

  /**
   * `status_text.split(' ')[4] == 'running'`; `None` stands for the
   * IndexError raised when the text has fewer than five fields.
   */
  function Running(statusText: string): (r: Option<bool>)
    ensures r.None? <==> Count(statusText, ' ') < 4
  {
    var fields := Split(statusText, ' ');
    if |fields| > 4 then Some(fields[4] == "running") else None
  }

  /**
   * Every text is its space-free fields joined by single spaces (`Split` and
   * `Join` are inverse).  For such fields, the container is running exactly
   * when there are at least five of them and the one at index 4 is `running`,
   * and the text is rejected exactly when there are fewer than five.
   */
  lemma {:induction false} RunningFields(fields: seq<string>)
    requires fields != []
    requires forall i :: 0 <= i < |fields| ==> ' ' !in fields[i]
    ensures |fields| >= 5 ==> Running(Join(fields, " ")) == Some(fields[4] == "running")
    ensures |fields| < 5 ==> Running(Join(fields, " ")) == None
  {
    SplitJoin(fields, ' ');
  }

  /** `vzctl status` text, given by its space-separated fields, for a running and a stopped container. */
  lemma RunningExamples()
    ensures Running(Join(["CTID", "101", "exist", "mounted", "running"], " ")) == Some(true)
    ensures Running(Join(["CTID", "101", "exist", "unmounted", "down"], " ")) == Some(false)
  {
    var up := ["CTID", "101", "exist", "mounted", "running"];
    assert forall i :: 0 <= i < |up| ==> ' ' !in up[i];
    RunningFields(up);
    var down := ["CTID", "101", "exist", "unmounted", "down"];
    assert forall i :: 0 <= i < |down| ==> ' ' !in down[i];
    RunningFields(down);
  }

  /** A doubled space makes an empty field, which counts towards index 4; three fields are too few. */
  lemma RunningEdgeCases()
    ensures Running(Join(["CTID", "", "101", "exist", "running"], " ")) == Some(true)
    ensures Running(Join(["CTID", "101", "deleted"], " ")) == None
  {
    var gap := ["CTID", "", "101", "exist", "running"];
    assert forall i :: 0 <= i < |gap| ==> ' ' !in gap[i];
    RunningFields(gap);
    var gone := ["CTID", "101", "deleted"];
    assert forall i :: 0 <= i < |gone| ==> ' ' !in gone[i];
    RunningFields(gone);
  }

  // ---------------------------------------------------------------------
  // CTID allocator (`get_available_ctid`)
  // ---------------------------------------------------------------------

  const DefaultCtid := 1000

  /** Python's `max` over a non-empty list of integers. */
  function Max(s: seq<int>): (m: int)
    requires |s| > 0
    ensures m in s
    ensures forall i :: 0 <= i < |s| ==> s[i] <= m
  {
    if |s| == 1 then s[0]
    else
      var t := Max(s[1..]);
      assert forall i :: 1 <= i < |s| ==> s[i] == s[1..][i - 1];
      if s[0] >= t then s[0] else t
  }

  /**
   * `get_available_ctid` over the CTIDs in use: one more than the largest,
   * or 1000 when none is in use.  The result is never in use.
   */
  function AvailableCtid(ctids: seq<int>): (r: int)
    ensures ctids == [] ==> r == DefaultCtid
    ensures ctids != [] ==> r - 1 in ctids && forall i :: 0 <= i < |ctids| ==> ctids[i] < r
    ensures r !in ctids
  {
    if |ctids| > 0 then Max(ctids) + 1 else DefaultCtid
  }

  lemma AvailableCtidExamples()
    ensures AvailableCtid([3, 7, 5]) == 8
    ensures AvailableCtid([]) == 1000
  {
    var m := Max([3, 7, 5]);
    assert m == 7 by {
      var s := [3, 7, 5];
      assert m in s;
      assert s[1] <= m && s[0] <= m && s[2] <= m;
    }
  }
}
