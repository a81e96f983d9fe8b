/**
 * Building the command tree from a parsed KDL document. The KDL crate's
 * document, node and entry types are reduced to the parts the builder reads.
 */
module Parser {
  import opened Wrappers
  import opened Strings
  import opened Commands

  /**
   * An entry of a node: `name=value` when `name` is present, a bare value
   * otherwise. `value` and `ty` are the entry's value and type annotation as
   * KDL displays them.
   */
  datatype Entry = Entry(name: Option<string>, value: string, ty: Option<string>)

  /** A KDL node: its name, its type annotation, its entries and its children block. */
  datatype Node = Node(name: string, ty: Option<string>, entries: seq<Entry>, children: Option<Document>)

  /** A KDL document: the nodes of a file or of a children block. */
  datatype Document = Document(nodes: seq<Node>)

  /**
   * The text the builder falls back on for an argument's help: the
   * upper-cased name, read as a KDL identifier and displayed again. Unicode
   * upper-casing and KDL display are outside the model, so the builder takes
   * this as a parameter.
   */
  type UpperIdent = string -> string

  /** The argument an entry declares. */
  function ArgumentOf(e: Entry, upperIdent: UpperIdent): (a: Argument)
    ensures a.defaultValue.Some? <==> e.name.Some?
    ensures e.name.Some? ==> a.defaultValue.value == e.value
    ensures a.isPositional <==> a.defaultValue.None?
    ensures (a.prefix, a.name) == Extract(e.name.GetOr(e.value))
    ensures a.help == TrimMatches(if e.ty.Some? then e.ty.value else upperIdent(a.name), '"')
  {
    var defaultValue := if e.name.Some? then Some(e.value) else Option.None;
    var r := Extract(e.name.GetOr(e.value));
    var help := TrimMatches(if e.ty.Some? then e.ty.value else upperIdent(r.1), '"');
    Argument(r.1, help, r.0, defaultValue, defaultValue.None?)
  }

  /** The marker is taken off an argument's name: the bare entry `&x` declares `x` with prefix `&`. */
  lemma ArgumentMarkerStripped(upperIdent: UpperIdent)
    ensures var a := ArgumentOf(Entry(Option.None, "&x", Option.None), upperIdent);
      a.name == "x" && a.prefix == UntilError && a.isPositional
  {
    ExtractMarked(UntilError, "x");
  }

  /** `parse_arguments`: one argument per entry, in entry order. */
  function ArgumentsOf(entries: seq<Entry>, upperIdent: UpperIdent): (args: seq<Argument>)
    ensures |args| == |entries|
  {
    if entries == [] then []
    else ArgumentsOf(entries[..|entries| - 1], upperIdent) + [ArgumentOf(entries[|entries| - 1], upperIdent)]
  }

  /** The `i`-th argument is the one the `i`-th entry declares. */
  lemma {:induction false} ArgumentsOfAt(entries: seq<Entry>, upperIdent: UpperIdent, i: nat)
    requires i < |entries|
    ensures ArgumentsOf(entries, upperIdent)[i] == ArgumentOf(entries[i], upperIdent)
  {
    var init := entries[..|entries| - 1];
    assert ArgumentsOf(entries, upperIdent) == ArgumentsOf(init, upperIdent) + [ArgumentOf(entries[|entries| - 1], upperIdent)];
    if i < |entries| - 1 {
      ArgumentsOfAt(init, upperIdent, i);
      assert init[i] == entries[i];
    }
  }

  /** The displayed values of the entries, in order. */
  function EntryValues(entries: seq<Entry>): (vs: seq<string>)
    ensures |vs| == |entries|
    ensures forall i :: 0 <= i < |entries| ==> vs[i] == entries[i].value
  {
    if entries == [] then [] else EntryValues(entries[..|entries| - 1]) + [entries[|entries| - 1].value]
  }

  /** A body line: the node's name and then each entry value, separated by single spaces. */
  function BodyLine(n: Node): string
  {
    Join([n.name] + EntryValues(n.entries), ' ')
  }

  /** `parse_command_body`: one line per node of the children block, in order. */
  function BodyLines(nodes: seq<Node>): (lines: seq<string>)
    ensures |lines| == |nodes|
    ensures forall i :: 0 <= i < |nodes| ==> lines[i] == BodyLine(nodes[i])
  {
    if nodes == [] then [] else BodyLines(nodes[..|nodes| - 1]) + [BodyLine(nodes[|nodes| - 1])]
  }

  /**
   * A body line loses no word: when neither the name nor any value contains
   * a space, splitting the line at spaces gives the name and the values back.
   */
  lemma BodyLineWords(n: Node)
    requires ' ' !in n.name
    requires forall i :: 0 <= i < |n.entries| ==> ' ' !in n.entries[i].value
    ensures Split(BodyLine(n), ' ') == [n.name] + EntryValues(n.entries)
  {
    var words := [n.name] + EntryValues(n.entries);
    forall i | 0 <= i < |words| ensures ' ' !in words[i] {
      if i > 0 {
        assert words[i] == n.entries[i - 1].value;
      }
    }
    SplitJoin(words, ' ');
  }

  /** Some node of the block has a children block of its own. */
  predicate HasNestedChildren(doc: Document)
  {
    exists k :: 0 <= k < |doc.nodes| && doc.nodes[k].children.Some?
  }

  /** The node is a dispatcher: it has a children block and a node in it has children. */
  predicate IsContainer(node: Node)
  {
    node.children.Some? && HasNestedChildren(node.children.value)
  }

  /**
   * `parse_command_node`: the command a node declares, with `path` as given
   * by its parent or, for a top-level node, its own stripped name.
   */
  function ParseNode(node: Node, path: Option<seq<string>>, upperIdent: UpperIdent): Command
    decreases node
  {
    var (prefix, name) := Extract(node.name);
    var p := if path.Some? then path.value else [name];
    var args := ArgumentsOf(node.entries, upperIdent);
    if node.children.Some? then
      if HasNestedChildren(node.children.value) then
        Command(name, prefix, node.ty, args, [], ParseChildren(node.children.value.nodes, p, upperIdent), p)
      else
        Command(name, prefix, node.ty, args, BodyLines(node.children.value.nodes), [], p)
    else
      Command(name, prefix, node.ty, args, [], [], p)
  }

  /**
   * The subcommands of a container: every child in order, each with the
   * parent's path extended by the child's raw node name.
   */
  function ParseChildren(nodes: seq<Node>, path: seq<string>, upperIdent: UpperIdent): (cs: seq<Command>)
    ensures |cs| == |nodes|
    decreases nodes
  {
    if nodes == [] then []
    else
      var last := nodes[|nodes| - 1];
      ParseChildren(nodes[..|nodes| - 1], path, upperIdent) + [ParseNode(last, Some(path + [last.name]), upperIdent)]
  }

  lemma {:induction false} ParseChildrenAt(nodes: seq<Node>, path: seq<string>, upperIdent: UpperIdent, i: nat)
    requires i < |nodes|
    ensures ParseChildren(nodes, path, upperIdent)[i] == ParseNode(nodes[i], Some(path + [nodes[i].name]), upperIdent)
  {
    var init, last := nodes[..|nodes| - 1], nodes[|nodes| - 1];
    assert ParseChildren(nodes, path, upperIdent)
      == ParseChildren(init, path, upperIdent) + [ParseNode(last, Some(path + [last.name]), upperIdent)];
    if i < |nodes| - 1 {
      ParseChildrenAt(init, path, upperIdent, i);
      assert init[i] == nodes[i];
    }
  }

  /**
   * The fields of a parsed command: prefix and name from the node name, the
   * path given or the stripped name alone, the type annotation as
   * description, the entries as arguments; subcommands exactly for a
   * container, never together with body lines.
   */
  lemma ParseNodeFields(node: Node, path: Option<seq<string>>, upperIdent: UpperIdent)
    ensures var c := ParseNode(node, path, upperIdent);
      && (c.prefix, c.name) == Extract(node.name)
      && c.path == (if path.Some? then path.value else [c.name])
      && c.description == node.ty
      && c.arguments == ArgumentsOf(node.entries, upperIdent)
      && (c.subcommands != [] <==> IsContainer(node))
      && (c.subcommands == [] || c.commandBody == [])
  {
    var c := ParseNode(node, path, upperIdent);
    if IsContainer(node) {
      var k :| 0 <= k < |node.children.value.nodes| && node.children.value.nodes[k].children.Some?;
      assert |c.subcommands| == |node.children.value.nodes| > 0;
    } else {
      assert c.subcommands == [];
    }
  }

  /** `parse_commands`: one command per top-level node, in order, each rooted at its own name. */
  function ParseCommands(doc: Document, upperIdent: UpperIdent): (cs: seq<Command>)
    ensures |cs| == |doc.nodes|
    ensures forall i :: 0 <= i < |doc.nodes| ==> cs[i] == ParseNode(doc.nodes[i], Option.None, upperIdent)
  {
    seq(|doc.nodes|, i requires 0 <= i < |doc.nodes| => ParseNode(doc.nodes[i], Option.None, upperIdent))
  }

  /** Each top-level command is rooted at its own stripped name. */
  lemma TopLevelPaths(doc: Document, upperIdent: UpperIdent)
    ensures forall i :: 0 <= i < |doc.nodes| ==>
      var c := ParseCommands(doc, upperIdent)[i];
      c.path == [c.name] && c.name == Extract(doc.nodes[i].name).1
  {
  }

  /**
   * The subcommands of a parsed container are its children in order; each
   * keeps the parent's path plus the child's raw node name, so the last path
   * component still carries the marker that the child's name drops.
   */
  lemma ChildrenOfContainer(node: Node, path: Option<seq<string>>, upperIdent: UpperIdent)
    requires IsContainer(node)
    ensures var c := ParseNode(node, path, upperIdent);
      var kids := node.children.value.nodes;
      && |c.subcommands| == |kids|
      && c.commandBody == []
      && forall i :: 0 <= i < |kids| ==>
        && c.subcommands[i].path == c.path + [kids[i].name]
        && Marker(c.subcommands[i].prefix) + c.subcommands[i].name == kids[i].name
  {
    var c := ParseNode(node, path, upperIdent);
    var kids := node.children.value.nodes;
    forall i | 0 <= i < |kids|
      ensures c.subcommands[i].path == c.path + [kids[i].name]
      ensures Marker(c.subcommands[i].prefix) + c.subcommands[i].name == kids[i].name
    {
      ParseChildrenAt(kids, c.path, upperIdent, i);
    }
  }

  /**
   * A node that is not a container has no subcommands; its body is one line
   * per node of its children block, or nothing without a block.
   */
  lemma BodyOfLeaf(node: Node, path: Option<seq<string>>, upperIdent: UpperIdent)
    requires !IsContainer(node)
    ensures var c := ParseNode(node, path, upperIdent);
      && c.subcommands == []
      && c.commandBody == if node.children.Some? then BodyLines(node.children.value.nodes) else []
  {
  }

  /**
   * Paths nest along the tree: the command at depth `d` has a path of
   * `d + 1` components, and its path is a prefix of each subcommand's path.
   */
  predicate PathsNest(c: Command, d: nat)
    decreases c
  {
    && |c.path| == d + 1
    && forall i :: 0 <= i < |c.subcommands| ==>
      PathsNest(c.subcommands[i], d + 1) && c.subcommands[i].path[..d + 1] == c.path
  }

  /** In every command of the tree, subcommands and body lines are never both present. */
  predicate BodyOrSubcommands(c: Command)
    decreases c
  {
    && (c.subcommands == [] || c.commandBody == [])
    && forall i :: 0 <= i < |c.subcommands| ==> BodyOrSubcommands(c.subcommands[i])
  }

  lemma {:induction false} ParseNodeShape(node: Node, path: Option<seq<string>>, d: nat, upperIdent: UpperIdent)
    requires if path.Some? then |path.value| == d + 1 else d == 0
    ensures PathsNest(ParseNode(node, path, upperIdent), d)
    ensures BodyOrSubcommands(ParseNode(node, path, upperIdent))
    decreases node, 1
  {
    var c := ParseNode(node, path, upperIdent);
    ParseNodeFields(node, path, upperIdent);
    if IsContainer(node) {
      ParseChildrenShape(node, c.path, d, upperIdent);
      assert c.subcommands == ParseChildren(node.children.value.nodes, c.path, upperIdent);
    }
  }

  /** The subcommands of a container at depth `d` have the shape of depth `d + 1`. */
  lemma {:induction false} ParseChildrenShape(node: Node, path: seq<string>, d: nat, upperIdent: UpperIdent)
    requires node.children.Some? && |path| == d + 1
    ensures var cs := ParseChildren(node.children.value.nodes, path, upperIdent);
      forall i :: 0 <= i < |cs| ==>
        PathsNest(cs[i], d + 1) && cs[i].path[..d + 1] == path && BodyOrSubcommands(cs[i])
    decreases node, 0
  {
    var kids := node.children.value.nodes;
    var cs := ParseChildren(kids, path, upperIdent);
    forall i | 0 <= i < |cs|
      ensures PathsNest(cs[i], d + 1) && cs[i].path[..d + 1] == path && BodyOrSubcommands(cs[i])
    {
      var p := path + [kids[i].name];
      ParseChildrenAt(kids, path, upperIdent, i);
      ParseNodeShape(kids[i], Some(p), d + 1, upperIdent);
      ParseNodeFields(kids[i], Some(p), upperIdent);
      assert p[..d + 1] == path;
    }
  }

  /**
   * In the tree `parse_commands` builds, every command at depth `d` has a
   * path of `d + 1` components extending its parent's path, and no command
   * has both subcommands and body lines.
   */
  lemma ParseCommandsShape(doc: Document, upperIdent: UpperIdent)
    ensures forall i :: 0 <= i < |doc.nodes| ==>
      PathsNest(ParseCommands(doc, upperIdent)[i], 0) && BodyOrSubcommands(ParseCommands(doc, upperIdent)[i])
  {
    forall i | 0 <= i < |doc.nodes|
      ensures PathsNest(ParseCommands(doc, upperIdent)[i], 0) && BodyOrSubcommands(ParseCommands(doc, upperIdent)[i])
    {
      ParseNodeShape(doc.nodes[i], Option.None, 0, upperIdent);
    }
  }

  /**
   * Top-level names are stripped of their marker, so `&a` and `a` declare
   * two commands with the same path and hence the same function name.
   */
  lemma TopLevelNameClash(upperIdent: UpperIdent)
    ensures var cs := ParseCommands(Document([Node("&a", Option.None, [], Option.None), Node("a", Option.None, [], Option.None)]), upperIdent);
      && |cs| == 2
      && cs[0].prefix == UntilError && cs[1].prefix == Prefix.None
      && cs[0].path == cs[1].path == ["a"]
      && MangledName(cs[0].path) == MangledName(cs[1].path) == "a"
  {
    ExtractMarked(UntilError, "a");
    assert Extract("a") == (Prefix.None, "a");
  }

  /** Two children of one container with equal names share a path and a function name. */
  lemma SiblingNameClash(upperIdent: UpperIdent)
    ensures var b := Node("b", Option.None, [], Option.None);
      var c := ParseNode(Node("r", Option.None, [], Some(Document([b, b.(children := Some(Document([])))]))), Option.None, upperIdent);
      && |c.subcommands| == 2
      && c.subcommands[0].path == c.subcommands[1].path == ["r", "b"]
      && MangledName(c.subcommands[0].path) == MangledName(c.subcommands[1].path)
  {
    var b := Node("b", Option.None, [], Option.None);
    var r := Node("r", Option.None, [], Some(Document([b, b.(children := Some(Document([])))])));
    assert Extract("r") == (Prefix.None, "r");
    assert IsContainer(r) by { assert r.children.value.nodes[1].children.Some?; }
    ChildrenOfContainer(r, Option.None, upperIdent);
  }

  /**
   * A child keeps its raw node name in its path, so the marker of `&b`
   * under `r` ends up in the function name `_r_&b_`, which is not a valid
   * bash function name.
   */
  lemma NestedMarkerKept(upperIdent: UpperIdent)
    ensures var c := ParseNode(Node("r", Option.None, [], Some(Document([Node("&b", Option.None, [], Some(Document([])))]))), Option.None, upperIdent);
      && |c.subcommands| == 1
      && c.subcommands[0].name == "b"
      && c.subcommands[0].path == ["r", "&b"]
      && MangledName(c.subcommands[0].path) == "_r_&b_"
  {
    var r := Node("r", Option.None, [], Some(Document([Node("&b", Option.None, [], Some(Document([])))])));
    assert Extract("r") == (Prefix.None, "r");
    ExtractMarked(UntilError, "b");
    assert IsContainer(r) by { assert r.children.value.nodes[0].children.Some?; }
    ChildrenOfContainer(r, Option.None, upperIdent);
    var p := ["r", "&b"];
    assert p[1..] == ["&b"];
    assert Join(p, '_') == "r_&b";
  }

  /** The imperative form of `parse_arguments`: one argument pushed per entry. */
  method ParseArguments(node: Node, upperIdent: UpperIdent) returns (arguments: seq<Argument>)
    ensures arguments == ArgumentsOf(node.entries, upperIdent)
  {
    arguments := [];
    for i := 0 to |node.entries|
      invariant arguments == ArgumentsOf(node.entries[..i], upperIdent)
    {
      var entry := node.entries[i];
      var defaultValue, rawName;
      if entry.name.Some? {
        defaultValue, rawName := Some(entry.value), entry.name.value;
      } else {
        defaultValue, rawName := Option.None, entry.value;
      }
      var (prefix, name) := Extract(rawName);
      var help := TrimMatches(if entry.ty.Some? then entry.ty.value else upperIdent(name), '"');
      var isPositional := defaultValue.None?;
      arguments := arguments + [Argument(name, help, prefix, defaultValue, isPositional)];
      assert node.entries[..i + 1][..i] == node.entries[..i];
    }
    assert node.entries[..|node.entries|] == node.entries;
  }

  /** The imperative form of `parse_command_body`: a line of parts pushed per node. */
  method ParseCommandBody(children: Document) returns (commandLines: seq<string>)
    ensures commandLines == BodyLines(children.nodes)
  {
    commandLines := [];
    for i := 0 to |children.nodes|
      invariant commandLines == BodyLines(children.nodes[..i])
    {
      var cmdNode := children.nodes[i];
      var cmdParts := [cmdNode.name];
      for j := 0 to |cmdNode.entries|
        invariant cmdParts == [cmdNode.name] + EntryValues(cmdNode.entries[..j])
      {
        cmdParts := cmdParts + [cmdNode.entries[j].value];
        assert cmdNode.entries[..j + 1][..j] == cmdNode.entries[..j];
      }
      assert cmdNode.entries[..|cmdNode.entries|] == cmdNode.entries;
      commandLines := commandLines + [Join(cmdParts, ' ')];
      assert children.nodes[..i + 1][..i] == children.nodes[..i];
    }
    assert children.nodes[..|children.nodes|] == children.nodes;
  }

  /**
   * The imperative form of `parse_command_node`: the container test, then
   * either each child parsed recursively and pushed, or the body lines.
   */
  method ParseCommandNode(node: Node, path: Option<seq<string>>, upperIdent: UpperIdent) returns (c: Command)
    ensures c == ParseNode(node, path, upperIdent)
    decreases node
  {
    var (prefix, name) := Extract(node.name);
    var p := if path.Some? then path.value else [name];
    var description := node.ty;
    var arguments := ParseArguments(node, upperIdent);
    var subcommands: seq<Command> := [];
    var commandBody: seq<string> := [];

    if node.children.Some? {
      var children := node.children.value;
      if HasNestedChildren(children) {
        for i := 0 to |children.nodes|
          invariant subcommands == ParseChildren(children.nodes[..i], p, upperIdent)
        {
          var child := children.nodes[i];
          var childPath := p + [child.name];
          var subcmd := ParseCommandNode(child, Some(childPath), upperIdent);
          subcommands := subcommands + [subcmd];
          assert children.nodes[..i + 1][..i] == children.nodes[..i];
        }
        assert children.nodes[..|children.nodes|] == children.nodes;
      } else {
        commandBody := ParseCommandBody(children);
      }
    }
    c := Command(name, prefix, description, arguments, commandBody, subcommands, p);
  }
}
