# eashy code generator in Dafny

eashy turns a KDL file that declares a tree of commands into a bash script
with one shell function per command. This project models the three parts
that do the work, and proves what they produce:

- `commands.dfy` (module `Commands`) models `src/command.rs`. It covers the
  command record, the one-character prefix marker taken off a name, the
  mangled shell-function name, the command path, the usage line and the
  help block.
- `parser.dfy` (module `Parser`) models `src/parser.rs`. It builds the
  command tree from a document of KDL nodes. That covers arguments from
  entries, path extension for children, and the container-or-leaf decision.
  A node dispatches exactly when some child has a children block of its
  own. Leaves get their body lines.
- `shell_generator.dfy` (module `ShellGenerator`) models
  `src/shell_generator.rs`. It is the pre-order walk that appends, for each
  command:
  - a function header;
  - a help scan;
  - then either a `case` dispatch (containers) or `local` bindings and body
    statements (leaves).
- `strings.dfy` (module `Strings`) holds the few Rust string operations
  these need: `join`, padding by a `format!` width, `trim_matches` and
  decimal formatting. Each comes with a reference inverse or
  characterisation (`Split`, `DecimalValue`).
- `wrappers.dfy` holds `Option`.

Where the source grows a `Vec` or a `String` in a loop, the model has a
`method` with that loop. Each such method is proved to return exactly what
a reference function computes. The properties are proved as lemmas about
those functions.

The script is modelled as a sequence of `Fragment`s, one per `push_str` of
a literal or formatted text; where a command's output pushes the output of
a nested `generate_function` call, that output is flattened into its own
fragments. Each fragment has
a kind (header, help-scan `break`, `case` arm, `local` binding, body
statement, or fixed layout) and its text. A fragment can span several
lines (the help `printf` does), and one kind's text can look like
another's (a body line may read `function f() {`), so the lemmas count
fragments, not lines of text. `Select` picks the fragments of one kind.
This is how the lemmas say which fragments appear, in what order and how
often. `Text` gives the script string. The emitting methods build
that string with the same literal pushes as the source and are proved equal
to `Text` of the reference fragments.

The KDL crate is replaced by three small datatypes:
- `Entry`: name, displayed value, displayed type annotation;
- `Node`: name, type annotation, entries, optional children block;
- `Document`: nodes.

The help fallback for an argument is upper-casing the name, reading it as a
KDL identifier and displaying it. That is a function parameter
(`upperIdent`).

### How the code behaves at the edges

- **Mangled names can collide.** There are three ways.
  - Path components are joined with `_`, which is not escaped:
    `Commands.MangledNameCollision` shows `["a_b", "c"]` and `["a", "b_c"]`
    both give `_a_b_c_`.
  - Top-level names lose their marker (`src/parser.rs:13-14`), so the
    top-level nodes `&a` and `a` both get path `["a"]` and function `a`
    (`Parser.TopLevelNameClash`).
  - Two children of one container with the same name get the same path
    (`Parser.SiblingNameClash`).

  Across different paths whose components are free of `_`, the names are
  injective (`Commands.MangledNameInjective`).
- **A child's path ends in its raw node name, marker included**
  (`src/parser.rs:28`). Only a top-level path uses the stripped name
  (`Parser.ChildrenOfContainer` states the child half, `Parser.TopLevelPaths`
  and `Parser.ParseNodeFields` the top-level half). So `&b` under `r` is called
  by the function `_r_&b_`, which is not a valid bash function name
  (`Parser.NestedMarkerKept`). The `case` arm matches the stripped name `b`.
- **`*`, `+` and `?` are parsed and never used.** There is no arity
  handling, no required-argument check and no completion generation. Every
  argument is bound to the next positional parameter. The usage line shows
  `<name>` or `[name=default]` per argument.
- **A container's help scan stops at the first argument that does not
  start with `-`.** A leaf scans every argument for `-h` and `--help`.

## Model

| member | source | states |
|---|---|---|
| Commands.Extract | src/command.rs:17-30 | putting the marker back gives the input; a prefix other than None is found iff the first character is one of `& \| * + ?`; at most one character is stripped |
| Commands.ExtractMarked | src/command.rs:18-24 | a marked name gives back that prefix and exactly the rest, so `&&x` gives `(UntilError, "&x")` |
| Commands.HasSubcommands | src/command.rs:54-56 | the reference definition: a command dispatches exactly when its subcommand list is nonempty |
| Commands.MangledName | src/command.rs:58-64 | a one-component path is called by that component; any other name starts and ends with `_` and holds the `_`-joined path in between |
| Commands.MangledNameInjective | src/command.rs:58-64 | over paths with `_`-free components, equal mangled names mean equal paths |
| Commands.NestedNameInjective | src/command.rs:61-63 | two nested paths with `_`-free components and the same mangled name are equal |
| Commands.TopLevelNameShape | src/command.rs:58-64 | with `_`-free components, a mangled name contains no `_` exactly for a top-level path, so nested names never clash with top-level ones |
| Commands.MangledNameCollision | src/command.rs:62 | `["a_b", "c"]` and `["a", "b_c"]` both mangle to `_a_b_c_` |
| Commands.MangledNameFree | src/command.rs:58-64 | a mangled name holds no character other than `_` that its path components lack, so a marker in a name comes from a component |
| Commands.CommandPathRoundTrip | src/command.rs:66-68 | splitting the path string at spaces gives back the path when no component holds a space |
| Commands.CommandPathString | src/command.rs:66-68 | the reference definition: the path components joined by single spaces; `Commands.CommandPathRoundTrip` is its inverse |
| Commands.UsageToken | src/command.rs:74-80 | the token is `[name=default]` exactly for a non-positional argument with a default, and `<name>` otherwise |
| Commands.UsageTokens | src/command.rs:73-81 | one token per argument, in declaration order |
| Commands.UsageString | src/command.rs:70-83 | the reference definition: styled path, a space, styled argument tokens joined by spaces, reset; `Commands.UsageTokensRecoverable` and `Commands.GetUsageString` are about it |
| Commands.UsageTokensRecoverable | src/command.rs:70-83 | when names and defaults hold no space, splitting the argument part of the usage line at spaces recovers exactly the tokens, one per argument in order |
| Commands.GetUsageString | src/command.rs:70-83 | the token-pushing loop then join returns the usage line exactly |
| Commands.DescriptionBlock | src/command.rs:87-89 | the reference definition: the description and a blank line, or nothing without a description |
| Commands.UsageLine | src/command.rs:91 | the reference definition: the styled `Usage:` title, a space, the usage string and a newline |
| Commands.ArgumentLine | src/command.rs:96 | the reference definition: the name padded to 20 columns, then the help text |
| Commands.ArgumentLines | src/command.rs:95-97 | the reference definition: one argument line per argument, in declaration order |
| Commands.ArgumentSection | src/command.rs:93-98 | the reference definition: the title and one line per argument, or nothing without arguments |
| Commands.NameColumnWidth | src/command.rs:103 | the column is the longest name's length capped at 20: at most 20, at most that length, and equal to one of the two |
| Commands.SubcommandLine | src/command.rs:105 | the reference definition: the name padded to the column width, then the description or nothing |
| Commands.SubcommandLines | src/command.rs:104-106 | the reference definition: one subcommand line per subcommand, in order, all at the given width |
| Commands.SubcommandSection | src/command.rs:100-107 | the reference definition: a blank line, the title and one line per subcommand at the common width, or nothing without subcommands |
| Commands.HelpString | src/command.rs:85-110 | the reference definition: description block, usage line, arguments section, commands section, in that order; `Commands.HelpOpening` and the section lemmas state its shape |
| Commands.HelpOpening | src/command.rs:87-91 | the help block opens with `desc` and a blank line when there is a description, and otherwise with the `Usage:` line; the `Usage:` line built from the usage string always follows |
| Commands.ArgumentLineCount | src/command.rs:96 | a single-line name and help make exactly one line |
| Commands.ArgumentLinesCount | src/command.rs:95-97 | the argument list has one line per argument |
| Commands.ArgumentSectionLines | src/command.rs:93-98 | the `Positional arguments:` section is present iff there are arguments, and is then a title line plus one line per argument, defaulted ones included |
| Commands.SubcommandLineCount | src/command.rs:105 | a single-line name and description make exactly one line |
| Commands.SubcommandLinesCount | src/command.rs:104-106 | the subcommand list has one line per subcommand |
| Commands.SubcommandSectionLines | src/command.rs:100-107 | the `Commands:` section is present iff there are subcommands, and is then a blank line, a title line and one line per subcommand |
| Commands.MaxNameLength | src/command.rs:103 | the longest subcommand name's length: every name fits and some name reaches it; 0 without subcommands |
| Commands.SubcommandColumn | src/command.rs:103-105 | the column is at most 20 wide and never truncates a name; when no name exceeds 20 characters every padded name is as long as the longest name |
| Commands.AppendArgumentLines | src/command.rs:95-97 | the loop appends exactly the argument lines, in order |
| Commands.AppendSubcommandLines | src/command.rs:104-106 | the loop appends exactly the subcommand lines, in order |
| Commands.GetHelpString | src/command.rs:85-110 | the appending method returns exactly the help block: description, usage line, arguments section, commands section |
| Strings.PadRight | src/command.rs:96 | `{:w}` keeps the whole string, fills with spaces to `w`, and is `max(len, w)` long |
| Strings.SplitJoin | src/command.rs:67 | joining parts free of the separator can be undone by splitting |
| Strings.JoinInjective | src/command.rs:62 | joining separator-free, nonempty lists is injective |
| Strings.Join | src/command.rs:62 | the reference definition of `join`: the parts in order with one separator between neighbours; `Strings.Split` is its inverse (`Strings.SplitJoin`) |
| Strings.TrimStartMatches | src/parser.rs:61 | only leading quotes are removed, and the result does not start with one |
| Strings.TrimEndMatches | src/parser.rs:61 | only trailing quotes are removed, and the result does not end with one |
| Strings.TrimMatches | src/parser.rs:61 | the trimmed help neither starts nor ends with the trimmed character |
| Strings.TrimMatchesSlice | src/parser.rs:61 | the trimmed text is a slice of the input with only that character cut at each end |
| Strings.TrimMatchesIdempotent | src/parser.rs:61 | trimming twice is trimming once |
| Strings.DecimalString | src/shell_generator.rs:55 | `pos_index` is printed as nonempty decimal digits without a leading zero |
| Strings.DecimalRoundTrip | src/shell_generator.rs:55 | reading the printed index back gives the index |
| Strings.DecimalInjective | src/shell_generator.rs:55-63 | different positional indices are printed differently |
| Parser.ArgumentOf | src/parser.rs:52-71 | a named entry gives default `Some(value)` and an unnamed one `None`; positional iff no default; prefix and name are `Extract` of the entry name (or value), so one leading marker is stripped; the help is the type annotation, or else the upper-cased name, with quotes trimmed |
| Parser.ArgumentMarkerStripped | src/parser.rs:57 | the bare entry `&x` declares the positional argument `x` with prefix `&` |
| Parser.ArgumentsOf | src/parser.rs:48-75 | one argument per entry |
| Parser.ArgumentsOfAt | src/parser.rs:51-72 | the `i`-th argument is the one the `i`-th entry declares |
| Parser.EntryValues | src/parser.rs:84-87 | the entry values, one per entry, in order |
| Parser.BodyLine | src/parser.rs:81-89 | the reference definition: the node name and each entry value, separated by single spaces; `Parser.BodyLineWords` recovers them |
| Parser.BodyLines | src/parser.rs:77-93 | one line per node of the children block, in order, each the node name and entry values joined by spaces |
| Parser.BodyLineWords | src/parser.rs:80-90 | with space-free names and values, splitting a body line at spaces gives back the node name and each entry value |
| Parser.ParseChildren | src/parser.rs:26-31 | one subcommand per child |
| Parser.ParseChildrenAt | src/parser.rs:26-31 | the `i`-th subcommand is the `i`-th child parsed with the parent's path plus that child's raw name |
| Parser.HasNestedChildren | src/parser.rs:22 | the reference definition: some node of the block has a children block |
| Parser.IsContainer | src/parser.rs:20-24 | the reference definition: the node has a children block and some node in it has children |
| Parser.ParseNode | src/parser.rs:12-46 | the reference definition of `parse_command_node`; `Parser.ParseNodeFields`, `Parser.ChildrenOfContainer` and `Parser.BodyOfLeaf` state what it builds |
| Parser.ParseNodeFields | src/parser.rs:12-46 | prefix and name come from the node name; the path is the given one or `[name]`; the description is the type annotation; the arguments come from the entries; there are subcommands iff the node is a container; never both subcommands and body |
| Parser.ParseCommands | src/parser.rs:5-10 | one command per top-level node, in order, each parsed with no path |
| Parser.TopLevelPaths | src/parser.rs:5-14 | each top-level command has path `[name]`, its stripped name |
| Parser.ChildrenOfContainer | src/parser.rs:20-31 | a container has one subcommand per child, in order, and no body; each subcommand's path is the parent's path plus the child's raw node name, marker included |
| Parser.BodyOfLeaf | src/parser.rs:17-35 | a non-container has no subcommands, and its body is one line per child node, or empty without a children block |
| Parser.ParseNodeShape | src/parser.rs:12-46 | in the tree built from a node at depth `d`, every command's path has depth + 1 components, extends its parent's path, and no command has both subcommands and body lines |
| Parser.ParseChildrenShape | src/parser.rs:26-31 | the subcommands of a node at depth `d` have depth `d + 1` paths that extend the parent's path, and the same shape below |
| Parser.ParseCommandsShape | src/parser.rs:5-10 | every tree `parse_commands` builds has that shape from depth 0 |
| Parser.TopLevelNameClash | src/parser.rs:13-14 | the top-level nodes `&a` and `a` give two commands with path `["a"]` and function name `a` |
| Parser.SiblingNameClash | src/parser.rs:26-29 | two children named `b` of container `r` both get path `["r", "b"]` and one function name |
| Parser.NestedMarkerKept | src/parser.rs:26-29 | the child `&b` of container `r` is named `b` but has path `["r", "&b"]` and function name `_r_&b_` |
| Parser.ParseArguments | src/parser.rs:48-75 | the pushing loop returns exactly one argument per entry, in order |
| Parser.ParseCommandBody | src/parser.rs:77-93 | the nested pushing loops return exactly the body lines |
| Parser.ParseCommandNode | src/parser.rs:12-46 | the recursive method with its push loop returns exactly the command the node declares |
| ShellGenerator.Arms | src/shell_generator.rs:42-44 | one `case` arm per subcommand |
| ShellGenerator.ArmsAt | src/shell_generator.rs:42-44 | the `i`-th arm matches the `i`-th subcommand's name and calls that subcommand's mangled function |
| ShellGenerator.HelpScan | src/shell_generator.rs:27-35 | the reference definition: the loop opening, the `break` only for a dispatcher, then the `-h`/`--help` test that prints the help and returns |
| ShellGenerator.DispatchHead | src/shell_generator.rs:39-41 | the reference definition: take the subcommand word, shift it off, open the `case` |
| ShellGenerator.DispatchTail | src/shell_generator.rs:45-49 | the reference definition: the default arm reporting an unknown subcommand with a hint to `<path> --help`, then `esac` |
| ShellGenerator.Dispatch | src/shell_generator.rs:38-49 | the reference definition: the head, one arm per subcommand, then the tail |
| ShellGenerator.Local | src/shell_generator.rs:54-63 | a binding line; `"${n:-default}"` for a non-positional argument with a default, `"$n"` otherwise |
| ShellGenerator.Locals | src/shell_generator.rs:52-64 | one binding per argument |
| ShellGenerator.LocalsAt | src/shell_generator.rs:52-64 | the `i`-th argument (from 0) is bound to parameter `i + 1` whatever its kind |
| ShellGenerator.BodyStatements | src/shell_generator.rs:67-75 | one statement per body line |
| ShellGenerator.BodyStatementsAt | src/shell_generator.rs:67-75 | the `i`-th statement runs the `i`-th body line |
| ShellGenerator.RunSuffix | src/shell_generator.rs:68-73 | a suffix is added exactly under `&` and `\|`; `ShellGenerator.BodyStatementText` gives each text |
| ShellGenerator.BodyStatementText | src/shell_generator.rs:68-74 | a statement ends in ` \|\| return $?` under `&`, in ` && return 0` under `\|`, and in nothing under any other prefix |
| ShellGenerator.HelpScanSelect | src/shell_generator.rs:27-35 | besides layout lines the help scan holds only the `break`, and holds it exactly for a dispatcher |
| ShellGenerator.DispatchSelect | src/shell_generator.rs:38-49 | besides layout lines the dispatch holds exactly the case arms |
| ShellGenerator.MiddleSelect | src/shell_generator.rs:38-76 | a container's middle holds its arms only; a leaf's holds its bindings and then its statements |
| ShellGenerator.Middle | src/shell_generator.rs:38-76 | the reference definition: the dispatch for a container, else the bindings followed by the body statements |
| ShellGenerator.Block | src/shell_generator.rs:24-77 | the reference definition: header, help scan printing the given help, middle, closing brace |
| ShellGenerator.OwnBlock | src/shell_generator.rs:24-77 | the block that prints the command's own help string |
| ShellGenerator.BlockSelect | src/shell_generator.rs:24-77 | kind by kind: one header naming the mangled function; the `break` and arms exactly for a container; bindings and statements exactly for a leaf |
| ShellGenerator.OwnBlockHeader | src/shell_generator.rs:24 | exactly one function header per block, with the command's mangled name |
| ShellGenerator.OwnBlockArms | src/shell_generator.rs:38-49 | a container's arms are one per subcommand, in order; a leaf has none |
| ShellGenerator.OwnBlockBindings | src/shell_generator.rs:52-64 | a leaf binds its arguments in order; a container emits no `local` binding |
| ShellGenerator.OwnBlockStatements | src/shell_generator.rs:67-75 | a leaf runs each body line once, in order; a container runs none |
| ShellGenerator.BlockHelp | src/shell_generator.rs:27-49 | the block prints the given help; the `break` is present iff the command has subcommands; a container reports an unknown subcommand and hints at `<path> --help` |
| ShellGenerator.OwnBlockHelp | src/shell_generator.rs:27-49 | the same for the command's own help block |
| ShellGenerator.HelpScanText | src/shell_generator.rs:27-35 | the text of the help scan, with the `break` line only for a dispatcher |
| ShellGenerator.DispatchHeadText | src/shell_generator.rs:39-41 | the three lines that take the subcommand word off the arguments |
| ShellGenerator.DispatchTailText | src/shell_generator.rs:45-49 | the default arm's lines, with the command path in the hint |
| ShellGenerator.DispatchText | src/shell_generator.rs:38-49 | the dispatch text is the head, the arms, then the default arm |
| ShellGenerator.BlockParts | src/shell_generator.rs:24-77 | a block's text is the header, the help scan, the middle, then the closing brace |
| ShellGenerator.BlockText | src/shell_generator.rs:24-77 | a block's text starts with `function <mangled>() {` and ends with `}` and a blank line |
| ShellGenerator.FunctionsText | src/shell_generator.rs:79-83 | the text of the commands' functions is their outputs concatenated in order |
| ShellGenerator.FunctionTexts | src/shell_generator.rs:12-14 | the reference definition: the commands' generated texts concatenated in order, as both the script loop and the subcommand loop (lines 80-82) push them |
| ShellGenerator.FunctionFragments | src/shell_generator.rs:19-86 | the reference definition of `generate_function`: the own block, then the fragments of each subcommand in order |
| ShellGenerator.FunctionsFragments | src/shell_generator.rs:79-83 | the reference definition: the functions of several commands, concatenated in order |
| ShellGenerator.ScriptFragments | src/shell_generator.rs:4-17 | the reference definition of `generate_script`: the fixed header, then each top-level command's functions |
| ShellGenerator.FunctionText | src/shell_generator.rs:19-86 | the output for a command starts with its own function header |
| ShellGenerator.ScriptText | src/shell_generator.rs:4-17 | the script is the fixed header followed by the output of each top-level command, in order |
| ShellGenerator.PreOrder | src/shell_generator.rs:79-83 | the walk order starts at the command itself |
| ShellGenerator.HeadersPreOrder | src/shell_generator.rs:19-86 | the function headers in a command's output name its tree's commands in pre-order |
| ShellGenerator.HeadersPreOrders | src/shell_generator.rs:79-83 | the same for a list of sibling trees, one after the other |
| ShellGenerator.PreOrderCount | src/shell_generator.rs:79-83 | pre-order lists as many commands as the tree has nodes |
| ShellGenerator.ScriptHeaders | src/shell_generator.rs:4-17 | the script's headers follow the forest in pre-order, one per node, so there are as many headers as commands |
| ShellGenerator.LeafBlockOnly | src/shell_generator.rs:79 | a leaf's output is its own block only, with a single header |
| ShellGenerator.EmitHelpScan | src/shell_generator.rs:27-35 | the pushes append exactly the help-scan text |
| ShellGenerator.EmitDispatch | src/shell_generator.rs:38-49 | the pushes and the arm loop append exactly the dispatch text |
| ShellGenerator.EmitLocals | src/shell_generator.rs:52-64 | the loop with its `pos_index` counter appends exactly the bindings |
| ShellGenerator.EmitBody | src/shell_generator.rs:67-75 | the loop appends exactly the body statements, suffix built as in the source |
| ShellGenerator.EmitBlock | src/shell_generator.rs:20-77 | the pushes build exactly the command's own block |
| ShellGenerator.EmitFunctions | src/shell_generator.rs:79-83 | the recursive loop appends each subcommand's output in order |
| ShellGenerator.GenerateFunction | src/shell_generator.rs:19-86 | the output is exactly the text of the command's block followed by its subcommands' functions |
| ShellGenerator.GenerateScript | src/shell_generator.rs:4-17 | the output is exactly the header followed by each top-level command's function text |

## Left out

- `src/cli.rs` and `src/main.rs` are not part of this model. They handle
  argument parsing of the tool itself, environment variables, reading and
  writing files, and console output. All of that is I/O.
- KDL parsing and the display of KDL values and identifiers are not
  modelled. Entries carry their displayed value and type annotation as
  strings.
- Parser.ArgumentOf: the help fallback is the parameter `upperIdent`. It
  stands for Unicode upper-casing plus `KdlIdentifier::from_str(...)` and
  display. The `unwrap()` panic when that parse fails is not modelled.
- Commands.MaxNameLength: Rust's `name.len()` counts UTF-8 bytes, but
  `{:width$}` pads by characters. The model counts characters for both, so
  it agrees with the source on ASCII names only.
- ShellGenerator.EmitLocals: `pos_index` is an `i32`. Overflow past 2^31 - 1
  arguments is not modelled.
- The ANSI colour constants are the literal escape texts the source writes.
  What a terminal does with them is not modelled.
- The runtime behaviour of the emitted bash is not modelled. That includes
  how `printf` treats the unescaped help text, `$@` and `shift`. The model
  reasons about the generated text only.
- The argument `prefix` (`*`, `+`, `?`) is parsed and stored, but the
  generator never reads it, so no arity semantics are modelled.
- The parts of `generate_function` are written as separate methods called
  from `GenerateFunction`: `EmitBlock`, `EmitHelpScan`, `EmitDispatch`,
  `EmitLocals`, `EmitBody` and `EmitFunctions`. The source has them inline
  in one function. Each method keeps the source's pushes in the source's
  order.
