/**
 * The script emitter: a pre-order walk over the command tree that appends
 * one bash function per command to a growing output string.
 *
 * Every `push_str` of the emitter appends one `Fragment`: a line of a
 * given kind. `Text` gives the text of a sequence of them. The reference
 * definitions below say which fragments a command produces, in order; the
 * methods build the string step by step and are proved to produce exactly
 * that text.
 */
module ShellGenerator {
  import opened Wrappers
  import opened Strings
  import opened Commands

  /**
   * The kinds of line the properties count: function headers, the scan's
   * `break`, `case` arms, `local` bindings, body statements, and the fixed
   * layout lines around them.
   */
  datatype Kind = Header | HelpBreak | Arm | Binding | Statement | Layout

  /** One piece of output, as appended by one `push_str`: its kind and its text. */
  datatype Fragment = Fragment(kind: Kind, text: string)

  function FunctionOpen(functionName: string): Fragment
  {
    Fragment(Header, "function " + functionName + "() {\n")
  }

  const HelpLoopOpen: Fragment := Fragment(Layout, "    for arg in \"$@\"; do\n")
  const HelpLoopBreak: Fragment := Fragment(HelpBreak, "        if [[ \"$arg\" != -* ]]; then break; fi\n")
  const HelpTest: Fragment := Fragment(Layout, "        if [[ \"$arg\" == \"-h\" || \"$arg\" == \"--help\" ]]; then\n")

  function HelpPrint(help: string): Fragment
  {
    Fragment(Layout, "            printf \"" + help + "\"\n")
  }

  const HelpReturn: Fragment := Fragment(Layout, "            return\n")
  const HelpFi: Fragment := Fragment(Layout, "        fi\n")
  const HelpLoopDone: Fragment := Fragment(Layout, "    done\n")
  const SubcommandLocal: Fragment := Fragment(Layout, "    local subcmd=\"$1\"\n")
  const SubcommandShift: Fragment := Fragment(Layout, "    if [[ $# -gt 0 ]]; then shift; fi\n")
  const CaseOpen: Fragment := Fragment(Layout, "    case \"$subcmd\" in\n")

  function CaseArm(word: string, functionName: string): Fragment
  {
    Fragment(Arm, "        " + word + ") " + functionName + " \"$@\";;\n")
  }

  const DefaultArm: Fragment := Fragment(Layout, "        *)\n")
  const UnknownSubcommand: Fragment := Fragment(Layout, "            printf \"Unknown subcommand: $subcmd\\n\"\n")

  function HelpHint(commandPath: string): Fragment
  {
    Fragment(Layout, "            printf \"Use '" + commandPath + " --help' for available commands.\\n\"\n")
  }

  const DefaultArmEnd: Fragment := Fragment(Layout, "            ;;\n")
  const CaseClose: Fragment := Fragment(Layout, "    esac\n")

  function BodyStatement(line: string, suffix: string): Fragment
  {
    Fragment(Statement, "    " + line + suffix + "\n")
  }

  const FunctionClose: Fragment := Fragment(Layout, "}\n\n")
  const ScriptHeader: Fragment :=
    Fragment(Layout, "\n# Auto-generated CLI shell functions\n# All modifications will be lost when terminal is reloaded\n\n")

  /** The text of a sequence of fragments: their texts, in order. */
  function Text(fs: seq<Fragment>): string
  {
    if fs == [] then "" else Text(fs[..|fs| - 1]) + fs[|fs| - 1].text
  }

  lemma {:induction false} TextAppend(a: seq<Fragment>, b: seq<Fragment>)
    ensures Text(a + b) == Text(a) + Text(b)
  {
    if b == [] {
      assert a + b == a;
    } else {
      var init := b[..|b| - 1];
      TextAppend(a, init);
      assert (a + b)[..|a + b| - 1] == a + init;
      assert (a + b)[|a + b| - 1] == b[|b| - 1];
      AppendAssociative(Text(a), Text(init), b[|b| - 1].text);
    }
  }

  lemma TextSingle(f: Fragment)
    ensures Text([f]) == f.text
  {
    assert [f][..0] == [];
  }

  lemma FragmentsAssociative(a: seq<Fragment>, b: seq<Fragment>, c: seq<Fragment>)
    ensures (a + b) + c == a + (b + c)
  {
  }

  // ---------------------------------------------------------------------
  // What each command produces
  // ---------------------------------------------------------------------

  /**
   * The help scan: a loop over the arguments that prints `help` and returns
   * on `-h` or `--help`; a dispatcher stops scanning at the first argument
   * that does not start with `-`.
   */
  function HelpScan(dispatches: bool, help: string): seq<Fragment>
  {
    HelpScanHead(dispatches) + HelpScanTail(help)
  }

  function HelpScanHead(dispatches: bool): seq<Fragment>
  {
    [HelpLoopOpen] + (if dispatches then [HelpLoopBreak] else [])
  }

  function HelpScanTail(help: string): seq<Fragment>
  {
    [HelpTest] + [HelpPrint(help)] + [HelpReturn] + [HelpFi] + [HelpLoopDone]
  }

  /** One `case` arm per subcommand, in order. */
  function Arms(subs: seq<Command>): (arms: seq<Fragment>)
    ensures |arms| == |subs|
  {
    if subs == [] then []
    else Arms(subs[..|subs| - 1]) + [CaseArm(subs[|subs| - 1].name, MangledName(subs[|subs| - 1].path))]
  }

  /** The `i`-th arm dispatches on the `i`-th subcommand's name to that subcommand's function. */
  lemma {:induction false} ArmsAt(subs: seq<Command>, i: nat)
    requires i < |subs|
    ensures Arms(subs)[i] == CaseArm(subs[i].name, MangledName(subs[i].path))
  {
    var init := subs[..|subs| - 1];
    assert Arms(subs) == Arms(init) + [CaseArm(subs[|subs| - 1].name, MangledName(subs[|subs| - 1].path))];
    if i < |subs| - 1 {
      ArmsAt(init, i);
      assert init[i] == subs[i];
    }
  }

  /** Before the arms: the subcommand name is taken off the arguments. */
  function DispatchHead(): seq<Fragment>
  {
    [SubcommandLocal] + [SubcommandShift] + [CaseOpen]
  }

  /** After the arms: any other word is reported, with a hint to the command's help. */
  function DispatchTail(commandPath: string): seq<Fragment>
  {
    [DefaultArm] + [UnknownSubcommand] + [HelpHint(commandPath)] + [DefaultArmEnd] + [CaseClose]
  }

  /** The dispatch of a container: a `case` on the first argument. */
  function Dispatch(c: Command): seq<Fragment>
  {
    DispatchHead() + Arms(c.subcommands) + DispatchTail(CommandPathString(c.path))
  }

  /**
   * The binding of an argument to positional parameter `index`: with a
   * fallback for a named argument with a default, without one otherwise.
   */
  function Local(a: Argument, index: nat): (f: Fragment)
    ensures f.kind == Binding
    ensures !a.isPositional && a.defaultValue.Some? ==>
      f.text == "    local " + a.name + "=\"${" + DecimalString(index) + ":-" + a.defaultValue.value + "}\"\n"
    ensures a.isPositional || a.defaultValue.None? ==>
      f.text == "    local " + a.name + "=\"$" + DecimalString(index) + "\"\n"
  {
    if a.isPositional then Fragment(Binding, "    local " + a.name + "=\"$" + DecimalString(index) + "\"\n")
    else if a.defaultValue.Some? then
      Fragment(Binding, "    local " + a.name + "=\"${" + DecimalString(index) + ":-" + a.defaultValue.value + "}\"\n")
    else Fragment(Binding, "    local " + a.name + "=\"$" + DecimalString(index) + "\"\n")
  }

  /** The `local` bindings of a leaf: one per argument, in order. */
  function Locals(args: seq<Argument>): (ls: seq<Fragment>)
    ensures |ls| == |args|
  {
    if args == [] then [] else Locals(args[..|args| - 1]) + [Local(args[|args| - 1], |args|)]
  }

  /**
   * The argument at (0-based) position `i` is bound to parameter `i + 1`,
   * whatever its kind.
   */
  lemma {:induction false} LocalsAt(args: seq<Argument>, i: nat)
    requires i < |args|
    ensures Locals(args)[i] == Local(args[i], i + 1)
  {
    var init := args[..|args| - 1];
    assert Locals(args) == Locals(init) + [Local(args[|args| - 1], |args|)];
    if i < |args| - 1 {
      LocalsAt(init, i);
      assert init[i] == args[i];
    }
  }

  /** What follows each body line: stop at the first failure, or at the first success. */
  function RunSuffix(p: Prefix): (r: string)
    ensures r != "" <==> p == UntilError || p == UntilSuccess
  {
    match p
    case UntilError => " || return $?"
    case UntilSuccess => " && return 0"
    case _ => ""
  }

  /** The body of a leaf: one statement per line, in order. */
  function BodyStatements(lines: seq<string>, p: Prefix): (bs: seq<Fragment>)
    ensures |bs| == |lines|
  {
    if lines == [] then [] else BodyStatements(lines[..|lines| - 1], p) + [BodyStatement(lines[|lines| - 1], RunSuffix(p))]
  }

  /** The `i`-th statement runs the `i`-th body line, with the command's suffix. */
  lemma {:induction false} BodyStatementsAt(lines: seq<string>, p: Prefix, i: nat)
    requires i < |lines|
    ensures BodyStatements(lines, p)[i] == BodyStatement(lines[i], RunSuffix(p))
  {
    var init := lines[..|lines| - 1];
    assert BodyStatements(lines, p) == BodyStatements(init, p) + [BodyStatement(lines[|lines| - 1], RunSuffix(p))];
    if i < |lines| - 1 {
      BodyStatementsAt(init, p, i);
      assert init[i] == lines[i];
    }
  }

  /**
   * A rendered statement is the line followed by ` || return $?` under
   * `&`, by ` && return 0` under `|`, and by nothing under any other prefix.
   */
  lemma BodyStatementText(line: string, p: Prefix)
    ensures BodyStatement(line, RunSuffix(p)).kind == Statement
    ensures p == UntilError ==> BodyStatement(line, RunSuffix(p)).text == "    " + line + " || return $?\n"
    ensures p == UntilSuccess ==> BodyStatement(line, RunSuffix(p)).text == "    " + line + " && return 0\n"
    ensures p != UntilError && p != UntilSuccess ==> BodyStatement(line, RunSuffix(p)).text == "    " + line + "\n"
  {
    if p != UntilError && p != UntilSuccess {
      assert "    " + line + "" == "    " + line;
    }
  }

  /** Between the help scan and the closing brace: the dispatch, or the bindings and the body. */
  function Middle(c: Command): seq<Fragment>
  {
    if HasSubcommands(c) then Dispatch(c)
    else Locals(c.arguments) + BodyStatements(c.commandBody, c.prefix)
  }

  /** The function block of one command with help text `help`, without those of its subcommands. */
  function Block(c: Command, help: string): seq<Fragment>
  {
    [FunctionOpen(MangledName(c.path))] + HelpScan(HasSubcommands(c), help) + Middle(c) + [FunctionClose]
  }

  /** The function block of one command, printing the command's help block. */
  function OwnBlock(c: Command): seq<Fragment>
  {
    Block(c, HelpString(c))
  }

  /** `generate_function`: a command's own block, then the functions of its subcommands in order. */
  function FunctionFragments(c: Command): seq<Fragment>
    decreases c
  {
    OwnBlock(c) + FunctionsFragments(c.subcommands)
  }

  /** The functions of several commands, one after the other. */
  function FunctionsFragments(cs: seq<Command>): seq<Fragment>
    decreases cs
  {
    if cs == [] then []
    else FunctionsFragments(cs[..|cs| - 1]) + FunctionFragments(cs[|cs| - 1])
  }

  /** `generate_script`: the fixed header, then the functions of the top-level commands. */
  function ScriptFragments(cs: seq<Command>): seq<Fragment>
  {
    [ScriptHeader] + FunctionsFragments(cs)
  }

  // ---------------------------------------------------------------------
  // Selecting fragments by kind
  // ---------------------------------------------------------------------

  /** The fragments of kind `k`, in the order they are emitted. */
  function Select(fs: seq<Fragment>, k: Kind): (r: seq<Fragment>)
    ensures |r| <= |fs|
    ensures forall i :: 0 <= i < |r| ==> r[i].kind == k
  {
    if fs == [] then []
    else Select(fs[..|fs| - 1], k) + (if fs[|fs| - 1].kind == k then [fs[|fs| - 1]] else [])
  }

  lemma {:induction false} SelectAppend(a: seq<Fragment>, b: seq<Fragment>, k: Kind)
    ensures Select(a + b, k) == Select(a, k) + Select(b, k)
  {
    if b == [] {
      assert a + b == a;
    } else {
      var init, last := b[..|b| - 1], b[|b| - 1];
      SelectAppend(a, init, k);
      assert (a + b)[..|a + b| - 1] == a + init;
      assert (a + b)[|a + b| - 1] == last;
    }
  }

  lemma SelectSingle(f: Fragment, k: Kind)
    ensures Select([f], k) == if f.kind == k then [f] else []
  {
    assert [f][..0] == [];
  }

  lemma {:induction false} SelectNone(fs: seq<Fragment>, k: Kind)
    requires forall i :: 0 <= i < |fs| ==> fs[i].kind != k
    ensures Select(fs, k) == []
  {
    if fs != [] {
      SelectNone(fs[..|fs| - 1], k);
    }
  }

  /** A fragment of a sequence is among those of its kind selected from it. */
  lemma {:induction false} SelectMember(fs: seq<Fragment>, f: Fragment)
    requires f in fs
    ensures f in Select(fs, f.kind)
  {
    var init := fs[..|fs| - 1];
    if fs[|fs| - 1] != f {
      assert f in init by {
        var j :| 0 <= j < |fs| && fs[j] == f;
        assert init[j] == f;
      }
      SelectMember(init, f);
    }
  }

  lemma {:induction false} ArmsSelect(subs: seq<Command>, k: Kind)
    ensures Select(Arms(subs), k) == if k == Arm then Arms(subs) else []
  {
    if subs != [] {
      var init, last := subs[..|subs| - 1], subs[|subs| - 1];
      ArmsSelect(init, k);
      SelectAppend(Arms(init), [CaseArm(last.name, MangledName(last.path))], k);
      SelectSingle(CaseArm(last.name, MangledName(last.path)), k);
    }
  }

  lemma {:induction false} LocalsSelect(args: seq<Argument>, k: Kind)
    ensures Select(Locals(args), k) == if k == Binding then Locals(args) else []
  {
    if args != [] {
      var init := args[..|args| - 1];
      var last := Local(args[|args| - 1], |args|);
      LocalsSelect(init, k);
      SelectAppend(Locals(init), [last], k);
      SelectSingle(last, k);
    }
  }

  lemma {:induction false} BodyStatementsSelect(lines: seq<string>, p: Prefix, k: Kind)
    ensures Select(BodyStatements(lines, p), k) == if k == Statement then BodyStatements(lines, p) else []
  {
    if lines != [] {
      var init := lines[..|lines| - 1];
      var last := BodyStatement(lines[|lines| - 1], RunSuffix(p));
      BodyStatementsSelect(init, p, k);
      SelectAppend(BodyStatements(init, p), [last], k);
      SelectSingle(last, k);
    }
  }

  /** Besides layout lines, the help scan holds the `break` of a dispatcher and nothing else. */
  lemma HelpScanSelect(dispatches: bool, help: string, k: Kind)
    requires k != Layout
    ensures Select(HelpScan(dispatches, help), k) == if k == HelpBreak && dispatches then [HelpLoopBreak] else []
  {
    var opt := if dispatches then [HelpLoopBreak] else [];
    SelectAppend(HelpScanHead(dispatches), HelpScanTail(help), k);
    SelectAppend([HelpLoopOpen], opt, k);
    SelectSingle(HelpLoopOpen, k);
    if dispatches {
      SelectSingle(HelpLoopBreak, k);
    }
    SelectNone(HelpScanTail(help), k);
  }

  lemma DispatchHeadSelect(k: Kind)
    requires k != Layout
    ensures Select(DispatchHead(), k) == []
  {
    SelectNone(DispatchHead(), k);
  }

  lemma DispatchTailSelect(commandPath: string, k: Kind)
    requires k != Layout
    ensures Select(DispatchTail(commandPath), k) == []
  {
    SelectNone(DispatchTail(commandPath), k);
  }

  /** The dispatch holds the arms and, besides them, layout lines only. */
  lemma DispatchSelect(c: Command, k: Kind)
    requires k != Layout
    ensures Select(Dispatch(c), k) == if k == Arm then Arms(c.subcommands) else []
  {
    var a, arms, z := DispatchHead(), Arms(c.subcommands), DispatchTail(CommandPathString(c.path));
    SelectAppend(a + arms, z, k);
    SelectAppend(a, arms, k);
    DispatchHeadSelect(k);
    DispatchTailSelect(CommandPathString(c.path), k);
    ArmsSelect(c.subcommands, k);
  }

  /** The middle of a leaf holds its bindings, then its statements, and no other counted line. */
  lemma MiddleSelect(c: Command, k: Kind)
    requires k != Layout
    ensures Select(Middle(c), k) ==
      if HasSubcommands(c) then (if k == Arm then Arms(c.subcommands) else [])
      else if k == Binding then Locals(c.arguments)
      else if k == Statement then BodyStatements(c.commandBody, c.prefix)
      else []
  {
    if HasSubcommands(c) {
      DispatchSelect(c, k);
    } else {
      var ls, bs := Locals(c.arguments), BodyStatements(c.commandBody, c.prefix);
      SelectAppend(ls, bs, k);
      LocalsSelect(c.arguments, k);
      BodyStatementsSelect(c.commandBody, c.prefix, k);
      var sl, sb := Select(ls, k), Select(bs, k);
      assert Select(Middle(c), k) == sl + sb;
      if k == Binding {
        assert sb == [];
        ConcatEmpty(sl);
      } else {
        assert sl == [];
        ConcatEmpty(sb);
      }
    }
  }

  /**
   * What a block holds, kind by kind: exactly one header, naming the
   * command's function; for a container the scan's `break` and its case
   * arms and no bindings or body lines; for a leaf its bindings and body
   * lines, no `break` and no case arms.
   */
  lemma BlockSelect(c: Command, help: string, k: Kind)
    requires k != Layout
    ensures Select(Block(c, help), k) ==
      if k == Header then [FunctionOpen(MangledName(c.path))]
      else if k == HelpBreak then (if HasSubcommands(c) then [HelpLoopBreak] else [])
      else if HasSubcommands(c) then (if k == Arm then Arms(c.subcommands) else [])
      else if k == Binding then Locals(c.arguments)
      else if k == Statement then BodyStatements(c.commandBody, c.prefix)
      else []
  {
    var a, b, m, z := [FunctionOpen(MangledName(c.path))], HelpScan(HasSubcommands(c), help), Middle(c), [FunctionClose];
    var sa, sb, sm := Select(a, k), Select(b, k), Select(m, k);
    assert Select(Block(c, help), k) == sa + sb + sm by {
      SelectAppend(a + b + m, z, k);
      SelectAppend(a + b, m, k);
      SelectAppend(a, b, k);
      SelectSingle(FunctionClose, k);
      assert Block(c, help) == a + b + m + z;
    }
    assert sa == if k == Header then a else [] by {
      SelectSingle(FunctionOpen(MangledName(c.path)), k);
    }
    assert sb == if k == HelpBreak && HasSubcommands(c) then [HelpLoopBreak] else [] by {
      HelpScanSelect(HasSubcommands(c), help, k);
    }
    var em :=
      if HasSubcommands(c) then (if k == Arm then Arms(c.subcommands) else [])
      else if k == Binding then Locals(c.arguments)
      else if k == Statement then BodyStatements(c.commandBody, c.prefix)
      else [];
    assert sm == em by {
      MiddleSelect(c, k);
    }
    if k == Header {
      ConcatEmpty(sa);
      ConcatEmpty(sa + sb);
    } else if k == HelpBreak {
      ConcatEmpty(sb);
      ConcatEmpty(sa + sb);
    } else {
      ConcatEmpty(sb);
      ConcatEmpty(sm);
    }
  }

  /** Exactly one header per block, naming the command's function. */
  lemma OwnBlockHeader(c: Command)
    ensures Select(OwnBlock(c), Header) == [FunctionOpen(MangledName(c.path))]
  {
    BlockSelect(c, HelpString(c), Header);
  }

  /** A container's case arms are one per subcommand, in order; a leaf has none. */
  lemma OwnBlockArms(c: Command)
    ensures Select(OwnBlock(c), Arm) == if HasSubcommands(c) then Arms(c.subcommands) else []
  {
    BlockSelect(c, HelpString(c), Arm);
  }

  /** A leaf binds its arguments in order; a container binds none. */
  lemma OwnBlockBindings(c: Command)
    ensures Select(OwnBlock(c), Binding) == if HasSubcommands(c) then [] else Locals(c.arguments)
  {
    BlockSelect(c, HelpString(c), Binding);
  }

  /** A leaf runs each body line once, in order; a container runs none. */
  lemma OwnBlockStatements(c: Command)
    ensures Select(OwnBlock(c), Statement)
      == if HasSubcommands(c) then [] else BodyStatements(c.commandBody, c.prefix)
  {
    BlockSelect(c, HelpString(c), Statement);
  }

  /**
   * Every block carries the help scan, which prints the command's help
   * block; the scan stops at the first non-option argument exactly for a
   * container. A container's default arm reports the unknown subcommand and
   * points to `<path> --help`.
   */
  lemma BlockHelp(c: Command, help: string)
    ensures HelpPrint(help) in Block(c, help)
    ensures HelpLoopBreak in Block(c, help) <==> HasSubcommands(c)
    ensures HasSubcommands(c) ==> UnknownSubcommand in Block(c, help)
    ensures HasSubcommands(c) ==> HelpHint(CommandPathString(c.path)) in Block(c, help)
  {
    var a, b, m, z := [FunctionOpen(MangledName(c.path))], HelpScan(HasSubcommands(c), help), Middle(c), [FunctionClose];
    assert Block(c, help) == a + b + m + z;
    assert HelpPrint(help) in HelpScanTail(help);
    if HasSubcommands(c) {
      assert HelpLoopBreak in HelpScanHead(true);
      var tail := DispatchTail(CommandPathString(c.path));
      assert UnknownSubcommand in tail && HelpHint(CommandPathString(c.path)) in tail;
      assert m == DispatchHead() + Arms(c.subcommands) + tail;
    } else if HelpLoopBreak in Block(c, help) {
      BlockSelect(c, help, HelpBreak);
      SelectMember(Block(c, help), HelpLoopBreak);
      assert false;
    }
  }

  /** A command's own block prints its help block. */
  lemma OwnBlockHelp(c: Command)
    ensures HelpPrint(HelpString(c)) in OwnBlock(c)
    ensures HelpLoopBreak in OwnBlock(c) <==> HasSubcommands(c)
    ensures HasSubcommands(c) ==> UnknownSubcommand in OwnBlock(c)
    ensures HasSubcommands(c) ==> HelpHint(CommandPathString(c.path)) in OwnBlock(c)
  {
    BlockHelp(c, HelpString(c));
  }

  // ---------------------------------------------------------------------
  // The text of the output
  // ---------------------------------------------------------------------

  lemma HelpScanText(dispatches: bool, help: string)
    ensures Text(HelpScan(dispatches, help))
      == HelpLoopOpen.text + (if dispatches then HelpLoopBreak.text else "")
         + (HelpTest.text + HelpPrint(help).text + HelpReturn.text + HelpFi.text + HelpLoopDone.text)
  {
    var opt := if dispatches then [HelpLoopBreak] else [];
    TextAppend(HelpScanHead(dispatches), HelpScanTail(help));
    TextAppend([HelpLoopOpen], opt);
    TextSingle(HelpLoopOpen);
    if dispatches {
      TextSingle(HelpLoopBreak);
    }
    var t := [HelpTest];
    TextAppend(t, [HelpPrint(help)]);
    TextAppend(t + [HelpPrint(help)], [HelpReturn]);
    TextAppend(t + [HelpPrint(help)] + [HelpReturn], [HelpFi]);
    TextAppend(t + [HelpPrint(help)] + [HelpReturn] + [HelpFi], [HelpLoopDone]);
    TextSingle(HelpTest);
    TextSingle(HelpPrint(help));
    TextSingle(HelpReturn);
    TextSingle(HelpFi);
    TextSingle(HelpLoopDone);
  }

  lemma DispatchHeadText()
    ensures Text(DispatchHead()) == SubcommandLocal.text + SubcommandShift.text + CaseOpen.text
  {
    TextAppend([SubcommandLocal], [SubcommandShift]);
    TextAppend([SubcommandLocal] + [SubcommandShift], [CaseOpen]);
    TextSingle(SubcommandLocal);
    TextSingle(SubcommandShift);
    TextSingle(CaseOpen);
  }

  lemma DispatchTailText(commandPath: string)
    ensures Text(DispatchTail(commandPath)) == DefaultArm.text + UnknownSubcommand.text
      + HelpHint(commandPath).text + DefaultArmEnd.text + CaseClose.text
  {
    var a := [DefaultArm] + [UnknownSubcommand];
    TextAppend([DefaultArm], [UnknownSubcommand]);
    TextAppend(a, [HelpHint(commandPath)]);
    TextAppend(a + [HelpHint(commandPath)], [DefaultArmEnd]);
    TextAppend(a + [HelpHint(commandPath)] + [DefaultArmEnd], [CaseClose]);
    TextSingle(DefaultArm);
    TextSingle(UnknownSubcommand);
    TextSingle(HelpHint(commandPath));
    TextSingle(DefaultArmEnd);
    TextSingle(CaseClose);
  }

  lemma DispatchText(c: Command)
    ensures Text(Dispatch(c))
      == Text(DispatchHead()) + Text(Arms(c.subcommands)) + Text(DispatchTail(CommandPathString(c.path)))
  {
    TextAppend(DispatchHead() + Arms(c.subcommands), DispatchTail(CommandPathString(c.path)));
    TextAppend(DispatchHead(), Arms(c.subcommands));
  }

  lemma ArmsTextSnoc(subs: seq<Command>, i: nat)
    requires i < |subs|
    ensures Text(Arms(subs[..i + 1])) == Text(Arms(subs[..i])) + CaseArm(subs[i].name, MangledName(subs[i].path)).text
  {
    assert subs[..i + 1][..i] == subs[..i];
    var arm := CaseArm(subs[i].name, MangledName(subs[i].path));
    TextAppend(Arms(subs[..i]), [arm]);
    TextSingle(arm);
  }

  lemma LocalsTextSnoc(args: seq<Argument>, i: nat)
    requires i < |args|
    ensures Text(Locals(args[..i + 1])) == Text(Locals(args[..i])) + Local(args[i], i + 1).text
  {
    assert args[..i + 1][..i] == args[..i];
    TextAppend(Locals(args[..i]), [Local(args[i], i + 1)]);
    TextSingle(Local(args[i], i + 1));
  }

  lemma BodyStatementsTextSnoc(lines: seq<string>, p: Prefix, i: nat)
    requires i < |lines|
    ensures Text(BodyStatements(lines[..i + 1], p)) == Text(BodyStatements(lines[..i], p)) + BodyStatement(lines[i], RunSuffix(p)).text
  {
    assert lines[..i + 1][..i] == lines[..i];
    TextAppend(BodyStatements(lines[..i], p), [BodyStatement(lines[i], RunSuffix(p))]);
    TextSingle(BodyStatement(lines[i], RunSuffix(p)));
  }

  /** The text of a block: the header, the help scan, the middle, the closing brace. */
  lemma BlockParts(c: Command, help: string)
    ensures Text(Block(c, help)) == FunctionOpen(MangledName(c.path)).text
      + Text(HelpScan(HasSubcommands(c), help)) + Text(Middle(c)) + FunctionClose.text
  {
    var a, b, m, z := [FunctionOpen(MangledName(c.path))], HelpScan(HasSubcommands(c), help), Middle(c), [FunctionClose];
    TextAppend(a + b + m, z);
    TextAppend(a + b, m);
    TextAppend(a, b);
    TextSingle(a[0]);
    TextSingle(FunctionClose);
  }

  /** The text of a block opens with the function header and closes with `}` and a blank line. */
  lemma BlockText(c: Command, help: string)
    ensures var t, h := Text(Block(c, help)), "function " + MangledName(c.path) + "() {\n";
      && |t| >= |h| + 3
      && t[..|h|] == h
      && t[|t| - 3..] == "}\n\n"
  {
    var h := FunctionOpen(MangledName(c.path)).text;
    var b, m := Text(HelpScan(HasSubcommands(c), help)), Text(Middle(c));
    BlockParts(c, help);
    AppendAssociative(h, b, m);
    SlicesOfConcat(h, b + m, "}\n\n");
  }

  /** The concatenated outputs of the commands, in order. */
  function FunctionTexts(cs: seq<Command>): string
  {
    if cs == [] then "" else FunctionTexts(cs[..|cs| - 1]) + Text(FunctionFragments(cs[|cs| - 1]))
  }

  lemma {:induction false} FunctionsText(cs: seq<Command>)
    ensures Text(FunctionsFragments(cs)) == FunctionTexts(cs)
  {
    if cs != [] {
      FunctionsText(cs[..|cs| - 1]);
      TextAppend(FunctionsFragments(cs[..|cs| - 1]), FunctionFragments(cs[|cs| - 1]));
    }
  }

  /** The text of each command's output starts with its function header. */
  lemma FunctionText(c: Command)
    ensures var t, h := Text(FunctionFragments(c)), "function " + MangledName(c.path) + "() {\n";
      |t| >= |h| && t[..|h|] == h
  {
    TextAppend(OwnBlock(c), FunctionsFragments(c.subcommands));
    BlockText(c, HelpString(c));
  }

  /** The script is the fixed header followed by each top-level command's output, in order. */
  lemma ScriptText(cs: seq<Command>)
    ensures Text(ScriptFragments(cs)) == ScriptHeader.text + FunctionTexts(cs)
  {
    FunctionsText(cs);
    TextAppend([ScriptHeader], FunctionsFragments(cs));
    TextSingle(ScriptHeader);
  }

  // ---------------------------------------------------------------------
  // The walk: pre-order
  // ---------------------------------------------------------------------

  /** The commands of a tree in pre-order: the root, then each subtree in order. */
  function PreOrder(c: Command): (r: seq<Command>)
    ensures |r| > 0 && r[0] == c
    decreases c
  {
    [c] + PreOrders(c.subcommands)
  }

  function PreOrders(cs: seq<Command>): seq<Command>
    decreases cs
  {
    if cs == [] then [] else PreOrders(cs[..|cs| - 1]) + PreOrder(cs[|cs| - 1])
  }

  /** The number of commands in a tree. */
  function NodeCount(c: Command): nat
    decreases c
  {
    1 + NodeCounts(c.subcommands)
  }

  function NodeCounts(cs: seq<Command>): nat
    decreases cs
  {
    if cs == [] then 0 else NodeCounts(cs[..|cs| - 1]) + NodeCount(cs[|cs| - 1])
  }

  /** The function headers of a list of commands, in order. */
  function Headers(cs: seq<Command>): (hs: seq<Fragment>)
    ensures |hs| == |cs|
  {
    if cs == [] then [] else Headers(cs[..|cs| - 1]) + [FunctionOpen(MangledName(cs[|cs| - 1].path))]
  }

  lemma {:induction false} HeadersAppend(a: seq<Command>, b: seq<Command>)
    ensures Headers(a + b) == Headers(a) + Headers(b)
  {
    if b == [] {
      assert a + b == a;
    } else {
      var init, last := b[..|b| - 1], b[|b| - 1];
      HeadersAppend(a, init);
      InitOfConcat(a, b);
      assert (a + b)[|a + b| - 1] == last;
      FragmentsAssociative(Headers(a), Headers(init), [FunctionOpen(MangledName(last.path))]);
    }
  }

  /**
   * The function headers of a command's output name the functions of its
   * tree in pre-order: a block for each command, then those of its
   * subcommands, one subtree after the other.
   */
  lemma {:induction false} HeadersPreOrder(c: Command)
    ensures Select(FunctionFragments(c), Header) == Headers(PreOrder(c))
    decreases c, 1
  {
    SelectAppend(OwnBlock(c), FunctionsFragments(c.subcommands), Header);
    OwnBlockHeader(c);
    HeadersPreOrders(c.subcommands);
    HeadersAppend([c], PreOrders(c.subcommands));
    assert Headers([c]) == [FunctionOpen(MangledName(c.path))] by { assert [c][..0] == []; }
  }

  lemma {:induction false} HeadersPreOrders(cs: seq<Command>)
    ensures Select(FunctionsFragments(cs), Header) == Headers(PreOrders(cs))
    decreases cs, 0
  {
    if cs != [] {
      var init, last := cs[..|cs| - 1], cs[|cs| - 1];
      SelectAppend(FunctionsFragments(init), FunctionFragments(last), Header);
      HeadersPreOrders(init);
      HeadersPreOrder(last);
      HeadersAppend(PreOrders(init), PreOrder(last));
    }
  }

  /** Pre-order lists every command of the tree once. */
  lemma {:induction false} PreOrderCount(c: Command)
    ensures |PreOrder(c)| == NodeCount(c)
    decreases c, 1
  {
    PreOrdersCount(c.subcommands);
  }

  lemma {:induction false} PreOrdersCount(cs: seq<Command>)
    ensures |PreOrders(cs)| == NodeCounts(cs)
    decreases cs, 0
  {
    if cs != [] {
      PreOrdersCount(cs[..|cs| - 1]);
      PreOrderCount(cs[|cs| - 1]);
    }
  }

  /**
   * The script holds one function header per command of the forest, in
   * pre-order, so as many headers as commands.
   */
  lemma ScriptHeaders(cs: seq<Command>)
    ensures Select(ScriptFragments(cs), Header) == Headers(PreOrders(cs))
    ensures |Select(ScriptFragments(cs), Header)| == NodeCounts(cs)
  {
    SelectAppend([ScriptHeader], FunctionsFragments(cs), Header);
    SelectSingle(ScriptHeader, Header);
    HeadersPreOrders(cs);
    PreOrdersCount(cs);
  }

  /** A leaf's output is its own block alone: no nested function follows. */
  lemma LeafBlockOnly(c: Command)
    requires !HasSubcommands(c)
    ensures FunctionFragments(c) == OwnBlock(c)
    ensures Select(FunctionFragments(c), Header) == [FunctionOpen(MangledName(c.path))]
  {
    assert FunctionsFragments(c.subcommands) == [];
    assert OwnBlock(c) + [] == OwnBlock(c);
    OwnBlockHeader(c);
  }

  // ---------------------------------------------------------------------
  // The emitter
  // ---------------------------------------------------------------------

  /** The help scan, with the `break` only for a dispatcher. */
  method EmitHelpScan(output: string, dispatches: bool, help: string) returns (out: string)
    ensures out == output + Text(HelpScan(dispatches, help))
  {
    out := output + "    for arg in \"$@\"; do\n";
    if dispatches {
      out := out + "        if [[ \"$arg\" != -* ]]; then break; fi\n";
    }
    ghost var head := out;
    out := out + "        if [[ \"$arg\" == \"-h\" || \"$arg\" == \"--help\" ]]; then\n";
    out := out + ("            printf \"" + help + "\"\n");
    out := out + "            return\n";
    out := out + "        fi\n";
    out := out + "    done\n";
    AppendFive(head, HelpTest.text, HelpPrint(help).text, HelpReturn.text, HelpFi.text, HelpLoopDone.text);
    HelpScanText(dispatches, help);
    assert head == output + HelpLoopOpen.text + (if dispatches then HelpLoopBreak.text else "");
    AppendThree(output, HelpLoopOpen.text, if dispatches then HelpLoopBreak.text else "",
      HelpTest.text + HelpPrint(help).text + HelpReturn.text + HelpFi.text + HelpLoopDone.text);
  }

  /** The dispatch of a container, with one arm pushed per subcommand. */
  method EmitDispatch(output: string, c: Command) returns (out: string)
    ensures out == output + Text(Dispatch(c))
  {
    var commandPath := CommandPathString(c.path);
    out := output + "    local subcmd=\"$1\"\n";
    out := out + "    if [[ $# -gt 0 ]]; then shift; fi\n";
    out := out + "    case \"$subcmd\" in\n";
    DispatchHeadText();
    AppendThree(output, SubcommandLocal.text, SubcommandShift.text, CaseOpen.text);
    assert out == output + Text(DispatchHead());
    ghost var head := out;
    assert head == head + Text(Arms(c.subcommands[..0]));
    for i := 0 to |c.subcommands|
      invariant out == head + Text(Arms(c.subcommands[..i]))
    {
      var subcommand := c.subcommands[i];
      out := out + ("        " + subcommand.name + ") " + MangledName(subcommand.path) + " \"$@\";;\n");
      ArmsTextSnoc(c.subcommands, i);
      AppendAssociative(head, Text(Arms(c.subcommands[..i])), CaseArm(subcommand.name, MangledName(subcommand.path)).text);
    }
    assert c.subcommands[..|c.subcommands|] == c.subcommands;
    ghost var arms := out;
    out := out + "        *)\n";
    out := out + "            printf \"Unknown subcommand: $subcmd\\n\"\n";
    out := out + ("            printf \"Use '" + commandPath + " --help' for available commands.\\n\"\n");
    out := out + "            ;;\n";
    out := out + "    esac\n";
    DispatchTailText(commandPath);
    AppendFive(arms, DefaultArm.text, UnknownSubcommand.text, HelpHint(commandPath).text, DefaultArmEnd.text, CaseClose.text);
    assert out == arms + Text(DispatchTail(commandPath));
    assert arms == output + Text(DispatchHead()) + Text(Arms(c.subcommands));
    DispatchText(c);
    AppendAssociative(output, Text(DispatchHead()), Text(Arms(c.subcommands)));
    AppendAssociative(output, Text(DispatchHead()) + Text(Arms(c.subcommands)), Text(DispatchTail(commandPath)));
  }

  /** The bindings of a leaf, counting positional parameters from 1. */
  method EmitLocals(output: string, args: seq<Argument>) returns (out: string)
    ensures out == output + Text(Locals(args))
  {
    out := output;
    assert out == output + Text(Locals(args[..0]));
    var posIndex := 1;
    for i := 0 to |args|
      invariant posIndex == i + 1
      invariant out == output + Text(Locals(args[..i]))
    {
      var arg := args[i];
      ghost var before := out;
      if arg.isPositional {
        out := out + ("    local " + arg.name + "=\"$" + DecimalString(posIndex) + "\"\n");
        posIndex := posIndex + 1;
      } else if arg.defaultValue.Some? {
        out := out + ("    local " + arg.name + "=\"${" + DecimalString(posIndex) + ":-" + arg.defaultValue.value + "}\"\n");
        posIndex := posIndex + 1;
      } else {
        out := out + ("    local " + arg.name + "=\"$" + DecimalString(posIndex) + "\"\n");
        posIndex := posIndex + 1;
      }
      assert out == before + Local(arg, i + 1).text;
      LocalsTextSnoc(args, i);
      AppendAssociative(output, Text(Locals(args[..i])), Local(arg, i + 1).text);
    }
    assert args[..|args|] == args;
  }

  /** The body of a leaf, one statement pushed per line. */
  method EmitBody(output: string, c: Command) returns (out: string)
    ensures out == output + Text(BodyStatements(c.commandBody, c.prefix))
  {
    out := output;
    assert out == output + Text(BodyStatements(c.commandBody[..0], c.prefix));
    for i := 0 to |c.commandBody|
      invariant out == output + Text(BodyStatements(c.commandBody[..i], c.prefix))
    {
      var cmdLine := c.commandBody[i];
      var returnEarlyCode := "";
      if c.prefix == UntilError {
        returnEarlyCode := returnEarlyCode + " || return $?";
      } else if c.prefix == UntilSuccess {
        returnEarlyCode := returnEarlyCode + " && return 0";
      }
      assert returnEarlyCode == RunSuffix(c.prefix);
      out := out + ("    " + cmdLine + returnEarlyCode + "\n");
      BodyStatementsTextSnoc(c.commandBody, c.prefix, i);
      AppendAssociative(output, Text(BodyStatements(c.commandBody[..i], c.prefix)), BodyStatement(cmdLine, returnEarlyCode).text);
    }
    assert c.commandBody[..|c.commandBody|] == c.commandBody;
  }

  /** The block of one command: header, help scan, dispatch or bindings and body, closing brace. */
  method EmitBlock(c: Command) returns (output: string)
    ensures output == Text(OwnBlock(c))
  {
    var functionName := MangledName(c.path);
    output := "function " + functionName + "() {\n";
    var help := GetHelpString(c);
    output := EmitHelpScan(output, HasSubcommands(c), help);
    ghost var scanned := output;
    if HasSubcommands(c) {
      output := EmitDispatch(output, c);
    } else {
      output := EmitLocals(output, c.arguments);
      output := EmitBody(output, c);
      TextAppend(Locals(c.arguments), BodyStatements(c.commandBody, c.prefix));
      AppendAssociative(scanned, Text(Locals(c.arguments)), Text(BodyStatements(c.commandBody, c.prefix)));
    }
    output := output + "}\n\n";
    BlockParts(c, help);
  }

  /** The imperative form of `generate_function`. */
  method GenerateFunction(c: Command) returns (output: string)
    ensures output == Text(FunctionFragments(c))
    decreases c, 1
  {
    output := EmitBlock(c);
    ghost var block := output;
    if HasSubcommands(c) {
      output := EmitFunctions(output, c.subcommands);
    } else {
      assert output == block + FunctionTexts(c.subcommands);
    }
    FunctionsText(c.subcommands);
    TextAppend(OwnBlock(c), FunctionsFragments(c.subcommands));
  }

  /** The loop of `generate_function` over the subcommands: each one's functions appended in order. */
  method EmitFunctions(output: string, subs: seq<Command>) returns (out: string)
    ensures out == output + FunctionTexts(subs)
    decreases subs, 0
  {
    out := output;
    assert out == output + FunctionTexts(subs[..0]);
    for i := 0 to |subs|
      invariant out == output + FunctionTexts(subs[..i])
    {
      var subcommand := subs[i];
      var sub := GenerateFunction(subcommand);
      out := out + sub;
      PrefixSnoc(subs, i);
      AppendAssociative(output, FunctionTexts(subs[..i]), sub);
    }
    PrefixWhole(subs);
  }

  /** The imperative form of `generate_script`. */
  method GenerateScript(commands: seq<Command>) returns (output: string)
    ensures output == Text(ScriptFragments(commands))
    ensures output == ScriptHeader.text + FunctionTexts(commands)
  {
    output := "\n# Auto-generated CLI shell functions\n# All modifications will be lost when terminal is reloaded\n\n";
    assert output == ScriptHeader.text + FunctionTexts(commands[..0]);
    for i := 0 to |commands|
      invariant output == ScriptHeader.text + FunctionTexts(commands[..i])
    {
      var command := commands[i];
      var functionText := GenerateFunction(command);
      output := output + functionText;
      PrefixSnoc(commands, i);
      AppendAssociative(ScriptHeader.text, FunctionTexts(commands[..i]), functionText);
    }
    PrefixWhole(commands);
    ScriptText(commands);
  }
}
