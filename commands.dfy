/**
 * The command model of eashy and the texts it derives from a command: the
 * execution/arity prefix taken off a name, the mangled shell-function name,
 * the space-separated command path, the usage line and the help block.
 */
module Commands {
  import opened Wrappers
  import opened Strings

  // ANSI styles, kept as the literal escape text that ends up in the script.
  const TitleStyle: string := "\\033[1;32m"
  const CommandStyle: string := "\\033[1;36m"
  const OptionsStyle: string := "\\033[0;36m"
  const ResetStyle: string := "\\033[0m"

  /** The one-character marker in front of a command or argument name. */
  datatype Prefix = UntilError | UntilSuccess | ZeroMore | OneMore | ZeroOne | None

  /** The marker text that selects `p`; nothing for `None`. */
  function Marker(p: Prefix): string
  {
    match p
    case UntilError => "&"
    case UntilSuccess => "|"
    case ZeroMore => "*"
    case OneMore => "+"
    case ZeroOne => "?"
    case None => ""
  }

  predicate IsMarker(ch: char)
  {
    ch == '&' || ch == '|' || ch == '*' || ch == '+' || ch == '?'
  }

  /**
   * `Prefix::extract`: the prefix a leading marker selects and the name
   * without it. Putting the marker back gives the input again, and a prefix
   * is found exactly when the first character is a marker.
   */
  function Extract(name: string): (r: (Prefix, string))
    ensures Marker(r.0) + r.1 == name
    ensures r.0 != Prefix.None <==> (|name| > 0 && IsMarker(name[0]))
    ensures |r.1| == if r.0 == Prefix.None then |name| else |name| - 1
  {
    if |name| > 0 then
      match name[0]
      case '&' => (UntilError, name[1..])
      case '|' => (UntilSuccess, name[1..])
      case '*' => (ZeroMore, name[1..])
      case '+' => (OneMore, name[1..])
      case '?' => (ZeroOne, name[1..])
      case _ => (Prefix.None, name)
    else
      (Prefix.None, name)
  }

  /**
   * A marked name gives back its prefix and exactly the rest of the name:
   * only one character is ever stripped, so "&&x" gives (UntilError, "&x").
   */
  lemma ExtractMarked(p: Prefix, rest: string)
    requires p != Prefix.None
    ensures Extract(Marker(p) + rest) == (p, rest)
  {
    var name := Marker(p) + rest;
    assert name[0] == Marker(p)[0];
    assert name[1..] == rest;
  }

  /** `Argument`: an entry of a command node. */
  datatype Argument = Argument(
    name: string,
    help: string,
    prefix: Prefix,
    defaultValue: Option<string>,
    isPositional: bool)

  /** `Command`: one node of the command tree. */
  datatype Command = Command(
    name: string,
    prefix: Prefix,
    description: Option<string>,
    arguments: seq<Argument>,
    commandBody: seq<string>,
    subcommands: seq<Command>,
    path: seq<string>)

  /** `has_subcommands`: the command dispatches to children. */
  predicate HasSubcommands(c: Command)
  {
    |c.subcommands| > 0
  }

  /**
   * `get_mangled_function_name`: a top-level command is called by its name;
   * any other path is joined with `_` and wrapped in `_`.
   */
  function MangledName(path: seq<string>): (r: string)
    ensures |path| == 1 ==> r == path[0]
    ensures |path| != 1 ==> |r| >= 2 && r[0] == '_' && r[|r| - 1] == '_'
    ensures |path| != 1 ==> r[1..|r| - 1] == Join(path, '_')
  {
    if |path| == 1 then path[0] else "_" + Join(path, '_') + "_"
  }

  /**
   * No two paths whose components are free of `_` share a mangled name: the
   * wrapping `_` tells nested commands from top-level ones, and the joined
   * components can be split back.
   */
  lemma MangledNameInjective(p: seq<string>, q: seq<string>)
    requires |p| > 0 && Free(p, '_')
    requires |q| > 0 && Free(q, '_')
    requires MangledName(p) == MangledName(q)
    ensures p == q
  {
    TopLevelNameShape(p);
    TopLevelNameShape(q);
    if |p| == 1 {
      assert p == [MangledName(p)] && q == [MangledName(q)];
    } else {
      NestedNameInjective(p, q);
    }
  }

  lemma NestedNameInjective(p: seq<string>, q: seq<string>)
    requires |p| > 1 && Free(p, '_')
    requires |q| > 1 && Free(q, '_')
    requires MangledName(p) == MangledName(q)
    ensures p == q
  {
    var m := MangledName(p);
    assert Join(p, '_') == m[1..|m| - 1] == Join(q, '_');
    JoinInjective(p, q, '_');
  }

  /** With `_`-free components, exactly the top-level names contain no `_`. */
  lemma TopLevelNameShape(p: seq<string>)
    requires |p| > 0 && Free(p, '_')
    ensures (|p| == 1) == ('_' !in MangledName(p))
  {
    var m := MangledName(p);
    if |p| == 1 {
      assert m == p[0];
      assert '_' !in p[0];
    } else {
      assert m[0] == '_';
    }
  }

  /**
   * A mangled name holds no character other than `_` that its components do
   * not hold: a marker in a function name comes from a path component.
   */
  lemma MangledNameFree(path: seq<string>, c: char)
    requires |path| > 0 && c != '_' && Free(path, c)
    ensures c !in MangledName(path)
  {
    if |path| != 1 {
      JoinFree(path, '_', c);
      assert MangledName(path) == "_" + Join(path, '_') + "_";
    }
  }

  /** Components that contain `_` can collide: both of these mangle to `_a_b_c_`. */
  lemma MangledNameCollision()
    ensures MangledName(["a_b", "c"]) == MangledName(["a", "b_c"])
    ensures ["a_b", "c"] != ["a", "b_c"]
  {
    assert Join(["c"], '_') == "c";
    assert Join(["b_c"], '_') == "b_c";
    assert ["a_b", "c"][1..] == ["c"];
    assert ["a", "b_c"][1..] == ["b_c"];
  }

  /** `get_command_path_string`: the path components separated by single spaces. */
  function CommandPathString(path: seq<string>): string
  {
    Join(path, ' ')
  }

  /** The path string names every component, in order: splitting it at spaces gives the path. */
  lemma CommandPathRoundTrip(path: seq<string>)
    requires |path| > 0 && Free(path, ' ')
    ensures Split(CommandPathString(path), ' ') == path
  {
    SplitJoin(path, ' ');
  }

  /** The usage token of one argument: `[name=default]` or `<name>`. */
  function UsageToken(a: Argument): (t: string)
    ensures |t| >= 2
    ensures t[0] == '[' <==> !a.isPositional && a.defaultValue.Some?
    ensures t[0] == '[' ==> t == "[" + a.name + "=" + a.defaultValue.value + "]"
    ensures t[0] != '[' ==> t == "<" + a.name + ">"
  {
    if a.isPositional then "<" + a.name + ">"
    else if a.defaultValue.Some? then "[" + a.name + "=" + a.defaultValue.value + "]"
    else "<" + a.name + ">"
  }

  /** The usage tokens of the arguments: one per argument, in declaration order. */
  function UsageTokens(args: seq<Argument>): (ts: seq<string>)
    ensures |ts| == |args|
    ensures forall i :: 0 <= i < |args| ==> ts[i] == UsageToken(args[i])
  {
    if args == [] then [] else UsageTokens(args[..|args| - 1]) + [UsageToken(args[|args| - 1])]
  }

  /** `get_usage_string`: the styled command path followed by the styled argument tokens. */
  function UsageString(c: Command): string
  {
    CommandStyle + CommandPathString(c.path) + " " + OptionsStyle
      + Join(UsageTokens(c.arguments), ' ') + ResetStyle
  }

  /** The argument names and default values contain no space. */
  predicate SpaceFreeArguments(args: seq<Argument>)
  {
    forall i :: 0 <= i < |args| ==>
      ' ' !in args[i].name && (args[i].defaultValue.Some? ==> ' ' !in args[i].defaultValue.value)
  }

  /**
   * The argument part of the usage line holds exactly one token per argument,
   * in declaration order: splitting it at spaces recovers the tokens.
   */
  lemma UsageTokensRecoverable(c: Command)
    requires |c.arguments| > 0 && SpaceFreeArguments(c.arguments)
    ensures Split(Join(UsageTokens(c.arguments), ' '), ' ') == UsageTokens(c.arguments)
  {
    var ts := UsageTokens(c.arguments);
    forall i | 0 <= i < |ts| ensures ' ' !in ts[i] {
      var a := c.arguments[i];
      if !a.isPositional && a.defaultValue.Some? {
        assert ts[i] == "[" + a.name + "=" + a.defaultValue.value + "]";
      } else {
        assert ts[i] == "<" + a.name + ">";
      }
    }
    SplitJoin(ts, ' ');
  }

  /** The imperative form of `get_usage_string`: tokens pushed one by one, then joined. */
  method GetUsageString(c: Command) returns (s: string)
    ensures s == UsageString(c)
  {
    var args: seq<string> := [];
    for i := 0 to |c.arguments|
      invariant args == UsageTokens(c.arguments[..i])
    {
      var arg := c.arguments[i];
      if arg.isPositional {
        args := args + ["<" + arg.name + ">"];
      } else if arg.defaultValue.Some? {
        args := args + ["[" + arg.name + "=" + arg.defaultValue.value + "]"];
      } else {
        args := args + ["<" + arg.name + ">"];
      }
      assert c.arguments[..i + 1][..i] == c.arguments[..i];
    }
    assert c.arguments[..|c.arguments|] == c.arguments;
    s := CommandStyle + CommandPathString(c.path) + " " + OptionsStyle + Join(args, ' ') + ResetStyle;
  }

  /** The help block's opening paragraph: the description and a blank line, if any. */
  function DescriptionBlock(description: Option<string>): string
  {
    if description.Some? then description.value + "\n\n" else ""
  }

  /** The help block's usage line. */
  function UsageLine(c: Command): string
  {
    TitleStyle + "Usage:" + ResetStyle + " " + UsageString(c) + "\n"
  }

  /** One line of the argument list: the name in a 20-column field, then the help text. */
  function ArgumentLine(a: Argument): string
  {
    "  " + CommandStyle + PadRight(a.name, 20) + ResetStyle + "  " + a.help + "\n"
  }

  function ArgumentLines(args: seq<Argument>): string
  {
    if args == [] then "" else ArgumentLines(args[..|args| - 1]) + ArgumentLine(args[|args| - 1])
  }

  const ArgumentsTitle: string := TitleStyle + "Positional arguments:" + ResetStyle + "\n"

  /** The `Positional arguments:` section, present when there are arguments. */
  function ArgumentSection(args: seq<Argument>): string
  {
    if args == [] then "" else ArgumentsTitle + ArgumentLines(args)
  }

  /** The length of the longest subcommand name, 0 when there is none. */
  function MaxNameLength(subs: seq<Command>): (m: nat)
    ensures forall i :: 0 <= i < |subs| ==> |subs[i].name| <= m
    ensures subs == [] ==> m == 0
    ensures subs != [] ==> exists i :: 0 <= i < |subs| && |subs[i].name| == m
  {
    if subs == [] then 0
    else
      var m := MaxNameLength(subs[..|subs| - 1]);
      Max(m, |subs[|subs| - 1].name|)
  }

  /** The width of the name column of the `Commands:` section. */
  function NameColumnWidth(subs: seq<Command>): (w: nat)
    ensures w <= 20 && w <= MaxNameLength(subs)
    ensures w == 20 || w == MaxNameLength(subs)
  {
    Min(MaxNameLength(subs), 20)
  }

  /** One line of the subcommand list: the padded name, then the description or nothing. */
  function SubcommandLine(s: Command, width: nat): string
  {
    "  " + CommandStyle + PadRight(s.name, width) + ResetStyle + "  " + s.description.GetOr("") + "\n"
  }

  function SubcommandLines(subs: seq<Command>, width: nat): string
  {
    if subs == [] then ""
    else SubcommandLines(subs[..|subs| - 1], width) + SubcommandLine(subs[|subs| - 1], width)
  }

  const CommandsTitle: string := "\n" + (TitleStyle + "Commands:" + ResetStyle + "\n")

  /** The `Commands:` section, present when there are subcommands. */
  function SubcommandSection(subs: seq<Command>): string
  {
    if subs == [] then ""
    else CommandsTitle + SubcommandLines(subs, NameColumnWidth(subs))
  }

  /** `get_help_string`. */
  function HelpString(c: Command): string
  {
    DescriptionBlock(c.description) + UsageLine(c) + ArgumentSection(c.arguments) + SubcommandSection(c.subcommands)
  }

  /**
   * The help block opens with the description and a blank line when there
   * is a description, and otherwise directly with the usage line; the usage
   * line built from the usage string always follows.
   */
  lemma HelpOpening(c: Command)
    ensures c.description.Some? ==> HelpString(c)[..|c.description.value| + 2] == c.description.value + "\n\n"
    ensures c.description.None? ==> HelpString(c)[..|UsageLine(c)|] == UsageLine(c)
    ensures var d := |DescriptionBlock(c.description)|;
      HelpString(c)[d..d + |UsageLine(c)|] == UsageLine(c)
  {
    var d, u := DescriptionBlock(c.description), UsageLine(c);
    var a, s := ArgumentSection(c.arguments), SubcommandSection(c.subcommands);
    AppendAssociative(d + u, a, s);
    assert HelpString(c) == d + u + (a + s);
    SlicesOfConcat(d, u, a + s);
  }

  /** Argument names and help texts, and subcommand names and descriptions, are single lines. */
  predicate SingleLineArguments(args: seq<Argument>)
  {
    forall i :: 0 <= i < |args| ==> '\n' !in args[i].name && '\n' !in args[i].help
  }

  predicate SingleLineSubcommands(subs: seq<Command>)
  {
    forall i :: 0 <= i < |subs| ==>
      '\n' !in subs[i].name && (subs[i].description.Some? ==> '\n' !in subs[i].description.value)
  }

  lemma PadRightSingleLine(s: string, w: nat)
    requires '\n' !in s
    ensures '\n' !in PadRight(s, w)
  {
    var r := PadRight(s, w);
    forall k | 0 <= k < |r| ensures r[k] != '\n' {
      if k < |s| {
        assert r[k] == r[..|s|][k];
      }
    }
  }

  lemma ArgumentLineCount(a: Argument)
    requires '\n' !in a.name && '\n' !in a.help
    ensures NewlineCount(ArgumentLine(a)) == 1
  {
    PadRightSingleLine(a.name, 20);
    var body := "  " + CommandStyle + PadRight(a.name, 20) + ResetStyle + "  " + a.help;
    assert ArgumentLine(a) == body + "\n";
    OneLine(body);
  }

  lemma {:induction false} ArgumentLinesCount(args: seq<Argument>)
    requires SingleLineArguments(args)
    ensures NewlineCount(ArgumentLines(args)) == |args|
  {
    if args != [] {
      var init, last := args[..|args| - 1], args[|args| - 1];
      ArgumentLinesCount(init);
      ArgumentLineCount(last);
      NewlineCountAppend(ArgumentLines(init), ArgumentLine(last));
    }
  }

  /**
   * The `Positional arguments:` section exists exactly when the command has
   * arguments, and then it is one title line and one line per argument,
   * defaulted ones included.
   */
  lemma ArgumentSectionLines(args: seq<Argument>)
    requires SingleLineArguments(args)
    ensures ArgumentSection(args) != "" <==> args != []
    ensures NewlineCount(ArgumentSection(args)) == if args == [] then 0 else |args| + 1
  {
    if args != [] {
      ArgumentLinesCount(args);
      OneLine(TitleStyle + "Positional arguments:" + ResetStyle);
      NewlineCountAppend(ArgumentsTitle, ArgumentLines(args));
    }
  }

  lemma SubcommandLineCount(s: Command, width: nat)
    requires '\n' !in s.name && (s.description.Some? ==> '\n' !in s.description.value)
    ensures NewlineCount(SubcommandLine(s, width)) == 1
  {
    PadRightSingleLine(s.name, width);
    var body := "  " + CommandStyle + PadRight(s.name, width) + ResetStyle + "  " + s.description.GetOr("");
    assert SubcommandLine(s, width) == body + "\n";
    OneLine(body);
  }

  lemma {:induction false} SubcommandLinesCount(subs: seq<Command>, width: nat)
    requires SingleLineSubcommands(subs)
    ensures NewlineCount(SubcommandLines(subs, width)) == |subs|
  {
    if subs != [] {
      var init, last := subs[..|subs| - 1], subs[|subs| - 1];
      SubcommandLinesCount(init, width);
      SubcommandLineCount(last, width);
      NewlineCountAppend(SubcommandLines(init, width), SubcommandLine(last, width));
    }
  }

  /**
   * The `Commands:` section exists exactly when the command has subcommands,
   * and then it is a blank line, a title line and one line per subcommand.
   */
  lemma SubcommandSectionLines(subs: seq<Command>)
    requires SingleLineSubcommands(subs)
    ensures SubcommandSection(subs) != "" <==> subs != []
    ensures NewlineCount(SubcommandSection(subs)) == if subs == [] then 0 else |subs| + 2
  {
    if subs != [] {
      SubcommandLinesCount(subs, NameColumnWidth(subs));
      OneLine(TitleStyle + "Commands:" + ResetStyle);
      assert NewlineCount("\n") == 1;
      NewlineCountAppend("\n", TitleStyle + "Commands:" + ResetStyle + "\n");
      NewlineCountAppend(CommandsTitle, SubcommandLines(subs, NameColumnWidth(subs)));
    }
  }

  /**
   * The name column of the `Commands:` section is as wide as the longest
   * name, capped at 20, and never cuts a name: each padded name keeps the
   * whole name, and when no name exceeds 20 characters every padded name has
   * the same length, so the descriptions line up.
   */
  lemma SubcommandColumn(subs: seq<Command>)
    ensures NameColumnWidth(subs) <= 20
    ensures forall i :: 0 <= i < |subs| ==>
      var p := PadRight(subs[i].name, NameColumnWidth(subs));
      |p| == Max(|subs[i].name|, NameColumnWidth(subs)) && p[..|subs[i].name|] == subs[i].name
    ensures (forall i :: 0 <= i < |subs| ==> |subs[i].name| <= 20) ==>
      forall i :: 0 <= i < |subs| ==> |PadRight(subs[i].name, NameColumnWidth(subs))| == MaxNameLength(subs)
  {
  }

  /** The loop of `get_help_string` over the arguments: one line appended per argument. */
  method AppendArgumentLines(help: string, args: seq<Argument>) returns (out: string)
    ensures out == help + ArgumentLines(args)
  {
    out := help;
    for i := 0 to |args|
      invariant out == help + ArgumentLines(args[..i])
    {
      AppendAssociative(help, ArgumentLines(args[..i]), ArgumentLine(args[i]));
      out := out + ArgumentLine(args[i]);
      assert args[..i + 1][..i] == args[..i];
    }
    assert args[..|args|] == args;
  }

  /** The loop of `get_help_string` over the subcommands: one line appended per subcommand. */
  method AppendSubcommandLines(help: string, subs: seq<Command>, width: nat) returns (out: string)
    ensures out == help + SubcommandLines(subs, width)
  {
    out := help;
    for i := 0 to |subs|
      invariant out == help + SubcommandLines(subs[..i], width)
    {
      AppendAssociative(help, SubcommandLines(subs[..i], width), SubcommandLine(subs[i], width));
      out := out + SubcommandLine(subs[i], width);
      assert subs[..i + 1][..i] == subs[..i];
    }
    assert subs[..|subs|] == subs;
  }

  /** The imperative form of `get_help_string`: sections appended to a growing string. */
  method GetHelpString(c: Command) returns (help: string)
    ensures help == HelpString(c)
  {
    help := "";
    if c.description.Some? {
      help := help + (c.description.value + "\n\n");
    }
    assert help == DescriptionBlock(c.description);
    var usage := GetUsageString(c);
    help := help + (TitleStyle + "Usage:" + ResetStyle + " " + usage + "\n");
    ghost var head := help;

    if |c.arguments| > 0 {
      help := help + ArgumentsTitle;
      help := AppendArgumentLines(help, c.arguments);
      AppendAssociative(head, ArgumentsTitle, ArgumentLines(c.arguments));
    }
    ghost var middle := help;
    assert middle == head + ArgumentSection(c.arguments);

    if HasSubcommands(c) {
      help := help + CommandsTitle;
      var width := Min(MaxNameLength(c.subcommands), 20);
      help := AppendSubcommandLines(help, c.subcommands, width);
      AppendAssociative(middle, CommandsTitle, SubcommandLines(c.subcommands, width));
    }
    assert help == middle + SubcommandSection(c.subcommands);
  }
}
