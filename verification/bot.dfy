/**
 * The Discord bot's command layer: parsing a message into a command name and
 * an optional argument, the registry of commands, the built-in `help`
 * command, and the choice of what, if anything, is sent back.
 */
module Bot {
  import opened Wrappers
  import opened JsText
  import ObjectKeys

  /**
   * What a registered handler is: the built-in help handler, or a handler
   * some other part of the program installs (identified by a number; what it
   * does is outside this model).
   */
  datatype Handler = Help | External(id: nat)

  /** The argument of `registerCommand`. */
  datatype Command = Command(cmd: string, shortDescription: string, usageInfo: string, handler: Handler)

  /** One entry of the command table. */
  datatype Entry = Entry(desc: string, usage: string, handler: Handler)

  /** How a handler's promise settled: resolved with a reply string, or rejected. */
  datatype Outcome = Returned(reply: string) | Threw

  /** A parsed command invocation: the command name and the trimmed argument, if any. */
  datatype Invocation = Invocation(cmd: string, param: Option<string>)

  const DefaultPrefix: string := "!"
  const InternalError: string := "Internal Error"
  const Fence: string := "```"
  const ListingHeader: string := "```Commands:\n\n"

  const HelpCommand: Command := Command(
    "help",
    "Get list of commands or help for a specific command (help [cmd])",
    "usage: help [cmd]\n  help - list all commands with their descriptions\n  help [cmd] - get the description and usage information for [cmd]",
    Help)

  function DuplicateMessage(cmd: string): string
  {
    "Command handler for cmd " + cmd + " already registered!"
  }

  /**
   * Parsing of `handleMessage`. The command runs from the end of the prefix to
   * the first space of the whole message; when that space lies inside the
   * prefix, `substring` swaps its bounds, and this is reproduced.
   */
  function Parse(prefix: string, content: string): (r: Option<Invocation>)
    ensures r.None? <==> !StartsWith(content, prefix)
    ensures r.Some? && r.value.param.Some? ==>
      var p := r.value.param.value;
      p != [] && !IsWhitespace(p[0]) && !IsWhitespace(p[|p| - 1])
  {
    if !StartsWith(content, prefix) then None
    else
      var sep := IndexOf(content, ' ');
      Some(Invocation(CommandName(prefix, content, sep), ArgumentAfter(content, sep)))
  }

  /** The command: from the end of the prefix to the first space (`sep`), or to the end when there is none. */
  function CommandName(prefix: string, content: string, sep: int): string
  {
    Substring(content, |prefix|, if sep == -1 then |content| else sep)
  }

  /** The argument: absent without a space, otherwise what follows the first space, trimmed. */
  function ArgumentAfter(content: string, sep: int): (r: Option<string>)
    requires -1 <= sep < |content|
    ensures r.Some? ==> var p := r.value; p != [] && !IsWhitespace(p[0]) && !IsWhitespace(p[|p| - 1])
  {
    if sep == -1 then None else Argument(content[sep + 1..])
  }

  /** The trimmed text, absent when trimming leaves nothing. */
  function Argument(rest: string): (r: Option<string>)
    ensures r == if AllWhitespace(rest) then None else Some(Trim(rest))
  {
    var t := Trim(rest);
    if t == "" then None else Some(t)
  }

  /** Without a space, the command is everything after the prefix and there is no argument. */
  lemma ParseWithoutSpace(prefix: string, content: string)
    requires StartsWith(content, prefix) && ' ' !in content
    ensures Parse(prefix, content) == Some(Invocation(content[|prefix|..], None))
  {
    assert IndexOf(content, ' ') == -1;
    assert Substring(content, |prefix|, |content|) == content[|prefix|..];
  }

  /** With a prefix free of spaces, the first space of the message lies after the prefix. */
  lemma FirstSpaceAfterPrefix(prefix: string, content: string, k: nat)
    requires StartsWith(content, prefix) && ' ' !in prefix
    requires k < |content| && content[k] == ' '
    requires forall i :: 0 <= i < k ==> content[i] != ' '
    ensures |prefix| <= k && IndexOf(content, ' ') == k
  {
  }

  /** With a prefix free of spaces, the command is the text between the prefix and the first space. */
  lemma ParseCommandAtFirstSpace(prefix: string, content: string, k: nat)
    requires StartsWith(content, prefix) && ' ' !in prefix
    requires k < |content| && content[k] == ' '
    requires forall i :: 0 <= i < k ==> content[i] != ' '
    ensures |prefix| <= k
    ensures Parse(prefix, content).Some? && Parse(prefix, content).value.cmd == content[|prefix|..k]
    ensures ' ' !in content[|prefix|..k]
  {
    FirstSpaceAfterPrefix(prefix, content, k);
    assert IndexOf(content, ' ') == k;
    assert Substring(content, |prefix|, k) == content[|prefix|..k];
  }

  /** The argument is the text after the first space, trimmed, and absent when it is only whitespace. */
  lemma ParseArgumentAtFirstSpace(prefix: string, content: string, k: nat)
    requires StartsWith(content, prefix) && ' ' !in prefix
    requires k < |content| && content[k] == ' '
    requires forall i :: 0 <= i < k ==> content[i] != ' '
    ensures Parse(prefix, content).Some?
    ensures Parse(prefix, content).value.param
         == if AllWhitespace(content[k + 1..]) then None else Some(Trim(content[k + 1..]))
  {
    FirstSpaceAfterPrefix(prefix, content, k);
    assert IndexOf(content, ' ') == k;
    assert Parse(prefix, content).value.param == ArgumentAfter(content, k);
  }

  /**
   * With a prefix free of spaces, the command is the text between the prefix and
   * the first space; the argument is the rest, trimmed, and absent when it is
   * only whitespace.
   */
  lemma ParseAtFirstSpace(prefix: string, content: string, k: nat)
    requires StartsWith(content, prefix) && ' ' !in prefix
    requires k < |content| && content[k] == ' '
    requires forall i :: 0 <= i < k ==> content[i] != ' '
    ensures |prefix| <= k
    ensures Parse(prefix, content) == Some(Invocation(
              content[|prefix|..k],
              if AllWhitespace(content[k + 1..]) then None else Some(Trim(content[k + 1..]))))
    ensures ' ' !in Parse(prefix, content).value.cmd
  {
    ParseCommandAtFirstSpace(prefix, content, k);
    ParseArgumentAtFirstSpace(prefix, content, k);
  }

  /** A space inside the prefix makes the command the part of the prefix from that space on. */
  lemma ParseSpaceInPrefix(prefix: string, content: string)
    requires StartsWith(content, prefix) && ' ' in prefix
    ensures Parse(prefix, content).value.cmd == prefix[IndexOf(prefix, ' ')..]
  {
    var j := IndexOf(prefix, ' ');
    assert content[..|prefix|] == prefix;
    assert forall i :: 0 <= i <= j ==> content[i] == content[..|prefix|][i] == prefix[i];
    assert IndexOf(content, ' ') == j;
    assert content[j..|prefix|] == prefix[j..];
  }

  /** The table is the map of entries; `order` lists its names in registration order, once each. */
  ghost predicate RegistryValid(commands: map<string, Entry>, order: seq<string>)
  {
    && (forall name :: name in commands <==> name in order)
    && (forall i, j :: 0 <= i < j < |order| ==> order[i] != order[j])
  }

  /** One line of the command listing. */
  function Line(prefix: string, name: string, desc: string): string
  {
    prefix + name + " - " + desc + "\n"
  }

  /** The listing lines for `names`, in that order. */
  function Listing(prefix: string, commands: map<string, Entry>, names: seq<string>): string
    requires forall n :: n in names ==> n in commands
  {
    if names == [] then ""
    else
      var last := names[|names| - 1];
      Listing(prefix, commands, names[..|names| - 1]) + Line(prefix, last, commands[last].desc)
  }

  /** The reply of the built-in help handler. */
  function HelpReply(prefix: string, commands: map<string, Entry>, order: seq<string>, param: Option<string>): string
    requires RegistryValid(commands, order)
  {
    if param.Some? && param.value != "" then
      if param.value in commands then
        Fence + param.value + " - " + commands[param.value].desc + "\n\n" + commands[param.value].usage + Fence
      else
        "Unknown command '" + param.value + "'"
    else
      ObjectKeys.EntriesOrderIsPermutation(order);
      TrimEnd(ListingHeader + Listing(prefix, commands, ObjectKeys.EntriesOrder(order))) + Fence
  }

  /** Listing a sequence of names is listing its two halves one after the other. */
  lemma {:induction false} ListingSplit(prefix: string, commands: map<string, Entry>, a: seq<string>, b: seq<string>)
    requires forall n :: n in a + b ==> n in commands
    ensures Listing(prefix, commands, a + b) == Listing(prefix, commands, a) + Listing(prefix, commands, b)
  {
    if b != [] {
      var b' := b[..|b| - 1];
      assert (a + b)[..|a + b| - 1] == a + b';
      ListingSplit(prefix, commands, a, b');
    } else {
      assert a + b == a;
    }
  }

  /** Listing one more name appends that name's line. */
  lemma ListingExtend(prefix: string, commands: map<string, Entry>, names: seq<string>, i: nat)
    requires forall n :: n in names ==> n in commands
    requires i < |names|
    ensures Listing(prefix, commands, names[..i + 1])
         == Listing(prefix, commands, names[..i]) + Line(prefix, names[i], commands[names[i]].desc)
  {
    assert names[..i + 1][..i] == names[..i];
  }

  /** The listing holds exactly one line per name, each name's line in its place. */
  lemma ListingLines(prefix: string, commands: map<string, Entry>, names: seq<string>, i: nat)
    requires forall n :: n in names ==> n in commands
    requires i < |names|
    ensures Listing(prefix, commands, names)
         == Listing(prefix, commands, names[..i])
          + Line(prefix, names[i], commands[names[i]].desc)
          + Listing(prefix, commands, names[i + 1..])
  {
    assert names == names[..i] + ([names[i]] + names[i + 1..]);
    ListingSplit(prefix, commands, names[..i], [names[i]] + names[i + 1..]);
    ListingSplit(prefix, commands, [names[i]], names[i + 1..]);
    assert Listing(prefix, commands, [names[i]]) == Line(prefix, names[i], commands[names[i]].desc) by {
      assert [names[i]][..0] == [];
    }
  }

  /** A non-empty listing holds a character that is not whitespace (the dash of its last line). */
  lemma ListingHasDash(prefix: string, commands: map<string, Entry>, names: seq<string>)
    requires forall n :: n in names ==> n in commands
    requires names != []
    ensures exists k :: 0 <= k < |Listing(prefix, commands, names)| && Listing(prefix, commands, names)[k] == '-'
  {
    var last := names[|names| - 1];
    var init := Listing(prefix, commands, names[..|names| - 1]);
    var k := |init| + |prefix| + |last| + 1;
    assert Listing(prefix, commands, names)[k] == '-';
  }

  /**
   * Help without an argument: the header, then one line per registered command
   * in `Object.entries` order with trailing whitespace removed, then the closing fence.
   */
  lemma {:induction false} HelpListsCommands(prefix: string, commands: map<string, Entry>, order: seq<string>)
    requires RegistryValid(commands, order) && order != []
    ensures ObjectKeys.EntriesOrder(order) != []
    ensures forall n :: n in ObjectKeys.EntriesOrder(order) ==> n in commands
    ensures HelpReply(prefix, commands, order, None)
         == ListingHeader + TrimEnd(Listing(prefix, commands, ObjectKeys.EntriesOrder(order))) + Fence
  {
    ObjectKeys.EntriesOrderIsPermutation(order);
    var names := ObjectKeys.EntriesOrder(order);
    assert order[0] in names;
    ListingHasDash(prefix, commands, names);
    var body := Listing(prefix, commands, names);
    var k :| 0 <= k < |body| && body[k] == '-';
    TrimEndAppend(ListingHeader, body, k);
  }

  /** When no command name is an array index, help lists the commands in registration order. */
  lemma HelpListsInRegistrationOrder(prefix: string, commands: map<string, Entry>, order: seq<string>)
    requires RegistryValid(commands, order) && order != []
    requires forall i :: 0 <= i < |order| ==> !ObjectKeys.IsArrayIndex(order[i])
    ensures HelpReply(prefix, commands, order, None)
         == ListingHeader + TrimEnd(Listing(prefix, commands, order)) + Fence
  {
    HelpListsCommands(prefix, commands, order);
    ObjectKeys.EntriesOrderWithoutIndices(order);
  }

  /** With no command registered the listing is an empty fenced header. */
  lemma HelpWithEmptyRegistry(prefix: string)
    ensures HelpReply(prefix, map[], [], None) == "```Commands:```"
  {
    assert ObjectKeys.EntriesOrder([]) == [];
    assert Listing(prefix, map[], []) == "";
    assert ListingHeader + "" == ListingHeader;
    assert TrimEnd(ListingHeader) == "```Commands:" by {
      assert ListingHeader[..|ListingHeader| - 1] == "```Commands:\n";
      assert "```Commands:\n"[..|"```Commands:\n"| - 1] == "```Commands:";
    }
  }

  /**
   * Help for one command: a fenced block with its description and usage when it
   * is registered, and an ordinary "unknown command" reply when it is not.
   */
  lemma HelpForOneCommand(prefix: string, commands: map<string, Entry>, order: seq<string>, name: string)
    requires RegistryValid(commands, order) && name != ""
    ensures name in commands ==>
      HelpReply(prefix, commands, order, Some(name))
        == "```" + name + " - " + commands[name].desc + "\n\n" + commands[name].usage + "```"
    ensures name !in commands ==>
      HelpReply(prefix, commands, order, Some(name)) == "Unknown command '" + name + "'"
  {
  }

  /** The `forEach` of the listing: appends one line per name to `text`, in order. */
  method AppendLines(text: string, prefix: string, commands: map<string, Entry>, names: seq<string>)
    returns (replyText: string)
    requires forall n :: n in names ==> n in commands
    ensures replyText == text + Listing(prefix, commands, names)
  {
    replyText := text;
    var i := 0;
    while i < |names|
      invariant 0 <= i <= |names|
      invariant replyText == text + Listing(prefix, commands, names[..i])
    {
      replyText := replyText + Line(prefix, names[i], commands[names[i]].desc);
      ListingExtend(prefix, commands, names, i);
      i := i + 1;
    }
    assert names[..i] == names;
  }

  /** The command table and the dispatcher of `DiscordClient`. */
  class DiscordClient {
    var prefix: string
    var commands: map<string, Entry>
    /** The names of `commands` in the order they were registered. */
    var order: seq<string>

    ghost predicate Valid()
      reads this
    {
      RegistryValid(commands, order)
    }

    /** An empty table; an empty configured prefix falls back to "!". */
    constructor (configuredPrefix: string)
      ensures Valid()
      ensures prefix == if configuredPrefix == "" then DefaultPrefix else configuredPrefix
      ensures commands == map[] && order == []
    {
      prefix := if configuredPrefix == "" then DefaultPrefix else configuredPrefix;
      commands := map[];
      order := [];
    }

    /** `registerCommand`: refuses a name already in the table, otherwise adds exactly that entry. */
    method RegisterCommand(command: Command) returns (r: Result<(), string>)
      requires Valid()
      modifies this
      ensures Valid() && prefix == old(prefix)
      ensures r.Failure? <==> command.cmd in old(commands)
      ensures r.Failure? ==> r.error == DuplicateMessage(command.cmd)
      ensures r.Failure? ==> commands == old(commands) && order == old(order)
      ensures r.Success? ==>
        && commands == old(commands)[command.cmd := Entry(command.shortDescription, command.usageInfo, command.handler)]
        && order == old(order) + [command.cmd]
    {
      if command.cmd in commands {
        return Failure(DuplicateMessage(command.cmd));
      }
      commands := commands[command.cmd := Entry(command.shortDescription, command.usageInfo, command.handler)];
      order := order + [command.cmd];
      r := Success(());
    }

    /** The part of `connect` that touches the table: registering the help command. */
    method Connect() returns (r: Result<(), string>)
      requires Valid()
      modifies this
      ensures Valid() && prefix == old(prefix)
      ensures r.Failure? <==> "help" in old(commands)
      ensures r.Failure? ==> commands == old(commands) && order == old(order)
      ensures r.Success? ==>
        && commands == old(commands)["help" := Entry(HelpCommand.shortDescription, HelpCommand.usageInfo, Help)]
        && order == old(order) + ["help"]
    {
      r := RegisterCommand(HelpCommand);
    }

    /** The listing loop of the help handler, before trailing whitespace is removed. */
    method ListCommands() returns (replyText: string)
      requires Valid()
      ensures forall n :: n in ObjectKeys.EntriesOrder(order) ==> n in commands
      ensures replyText == ListingHeader + Listing(prefix, commands, ObjectKeys.EntriesOrder(order))
    {
      ObjectKeys.EntriesOrderIsPermutation(order);
      replyText := AppendLines(ListingHeader, prefix, commands, ObjectKeys.EntriesOrder(order));
    }

    /** The built-in help handler. */
    method HelpHandler(param: Option<string>) returns (reply: string)
      requires Valid()
      ensures reply == HelpReply(prefix, commands, order, param)
    {
      if param.Some? && param.value != "" {
        if param.value in commands {
          reply := Fence + param.value + " - " + commands[param.value].desc + "\n\n" + commands[param.value].usage + Fence;
        } else {
          reply := "Unknown command '" + param.value + "'";
        }
      } else {
        var replyText := ListCommands();
        reply := TrimEnd(replyText) + Fence;
      }
    }

    /**
     * `handleMessage`: the messages sent in reply to `content`. `external` is how
     * the handler settles when the command is not the built-in help.
     */
    method HandleMessage(content: string, external: Outcome) returns (sent: seq<string>)
      requires Valid()
      ensures |sent| <= 1
      ensures !StartsWith(content, prefix) ==> sent == []
      ensures Parse(prefix, content).Some? && Parse(prefix, content).value.cmd !in commands ==> sent == []
      ensures Parse(prefix, content).Some? && Parse(prefix, content).value.cmd in commands ==>
        var inv := Parse(prefix, content).value;
        var outcome := if commands[inv.cmd].handler.Help?
                       then Returned(HelpReply(prefix, commands, order, inv.param))
                       else external;
        && (outcome.Threw? ==> sent == [InternalError])
        && (outcome.Returned? && outcome.reply != "" ==> sent == [outcome.reply])
        && (outcome == Returned("") <==> sent == [])
    {
      sent := [];
      var parsed := Parse(prefix, content);
      if parsed.Some? && parsed.value.cmd in commands {
        var entry := commands[parsed.value.cmd];
        var outcome := external;
        if entry.handler.Help? {
          var reply := HelpHandler(parsed.value.param);
          outcome := Returned(reply);
        }
        match outcome
        case Returned(reply) =>
          if reply != "" {
            sent := [reply];
          }
        case Threw =>
          sent := [InternalError];
      }
    }
  }

  /** "!help foo bar" calls help with the argument "foo bar". */
  lemma ParseExampleWithArgument()
    ensures Parse("!", "!help foo bar") == Some(Invocation("help", Some("foo bar")))
  {
    var content := "!help foo bar";
    assert content[6..] == "foo bar" && content[1..5] == "help";
    TrimmedArgument();
    ParseAtFirstSpace("!", content, 5);
  }

  lemma TrimmedArgument()
    ensures Trim("foo bar") == "foo bar" && !AllWhitespace("foo bar")
  {
    assert !IsWhitespace("foo bar"[0]);
  }

  /** "!help" calls help without an argument. */
  lemma ParseExampleWithoutArgument()
    ensures Parse("!", "!help") == Some(Invocation("help", None))
  {
    ParseWithoutSpace("!", "!help");
  }

  /** "hello" is not a command. */
  lemma ParseExampleNoPrefix()
    ensures Parse("!", "hello") == None
  {
  }

  /** "!help   " calls help without an argument: trailing spaces trim to nothing. */
  lemma ParseExampleTrailingSpaces()
    ensures Parse("!", "!help   ") == Some(Invocation("help", None))
  {
    var content := "!help   ";
    assert AllWhitespace(content[6..]) && content[1..5] == "help";
    ParseAtFirstSpace("!", content, 5);
  }
}
