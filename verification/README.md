# ProgBot command dispatcher and user linking, in Dafny

This project models two parts of ProgBot, a chat bot:

- **The Discord command layer** (`DiscordClient` in `src/listeners/chat/discord/bot.ts`).
  - A message that starts with the command prefix is split into a command name and an optional argument.
  - The command is looked up in a table filled by `registerCommand`, which refuses duplicate names.
  - The handler runs, and its reply is sent: a non-empty string once, an empty string not at all, and a rejected handler as the fixed text `Internal Error`.
  - The built-in `help` command builds its text from the table.
- **The identity logic of the `User` entity** (`src/models/user.ts`).
  - User classes are ranked. Users can rotate their API key and be issued a link token.
  - Users can be found by Discord id, Twitch id or link token.
  - `linkAccounts` merges a Twitch account and a Discord account. One transaction deletes both old rows and saves the combined one.

Files:

- `wrappers.dfy`: `Option` and `Result`.
- `js_text.dfy` (module `JsText`): the JavaScript string operations the parser uses, following ECMAScript except that positions count characters, not UTF-16 code units.
  - `startsWith` and `indexOf`.
  - `substring`, which clamps its bounds and swaps them when start exceeds end.
  - `trim` and `trimEnd`, which strip WhiteSpace and LineTerminator code points.
- `object_keys.dfy` (module `ObjectKeys`): the order in which `Object.entries` lists the keys of a plain object. Array-index keys come first in ascending numeric order, then the other keys in insertion order.
- `bot.dfy` (module `Bot`): parsing as a pure function, plus the `DiscordClient` class.
  - The class holds the prefix, the command table (a `map`) and the registration order (a `seq`).
  - `RegisterCommand` updates the table in place. The listing loop of `help` is a `while` loop.
  - `HandleMessage` returns the list of messages sent.
- `user.dfy` (module `Users`): the user class ranking and link values as functions.
  - The `UserStore` class holds the table as a map from id to `UserRecord`.
  - Saving inserts or updates a row by id. The save is refused when one of the unique columns (`twitchUserId`, `discordUserId`, `apiKey`) would clash with another row.

Generated uuids (new ids, API keys, link tokens) are parameters. Where the code relies on them being fresh, the contract requires it. Whether the storage layer can commit the merge transaction is the parameter `storageAvailable`. What a handler other than `help` returns, or whether it rejects, is the parameter `external` of `HandleMessage`.

Two points about the code itself:

- `linkAccounts` does not merge identifiers. It copies `twitchUserId` from the first account and `discordUserId` from the second (src/models/user.ts:67-68). The other two ids, which are placeholder uuids for a single-platform user, are dropped. The merged record gets a new API key and no link token.
- `clearTimeout` is called only when the handler resolves, not on the rejection path (src/listeners/chat/discord/bot.ts:55, 58-61). The timer is not part of this model (see below).

## Model

| member | source | states |
|---|---|---|
| `Bot.Parse` | src/listeners/chat/discord/bot.ts:41-44 | A message is a command exactly when it starts with the prefix; a present argument is non-empty and has no whitespace at either end |
| `Bot.ParseWithoutSpace` | src/listeners/chat/discord/bot.ts:42-44 | With no space in the message, the command is everything after the prefix and the argument is absent |
| `Bot.ParseAtFirstSpace` | src/listeners/chat/discord/bot.ts:42-44 | With a space-free prefix, the command is the text between the prefix and the first space (and holds no space); the argument is the rest trimmed, absent when the rest is only whitespace |
| `Bot.ParseCommandAtFirstSpace` | src/listeners/chat/discord/bot.ts:42-43 | With a space-free prefix, the first space lies after the prefix and the command is the space-free text between them |
| `Bot.ParseArgumentAtFirstSpace` | src/listeners/chat/discord/bot.ts:42-44 | With a space-free prefix, the argument is what follows the first space, trimmed, and absent when that is only whitespace |
| `Bot.ParseSpaceInPrefix` | src/listeners/chat/discord/bot.ts:42-43 | When the prefix holds a space, `substring` swaps its bounds and the command is the part of the prefix from its first space on |
| `Bot.ParseExampleWithArgument` | src/listeners/chat/discord/bot.ts:42-44 | "!help foo bar" gives command "help" and argument "foo bar" |
| `Bot.ParseExampleWithoutArgument` | src/listeners/chat/discord/bot.ts:42-44 | "!help" gives command "help" and no argument |
| `Bot.ParseExampleNoPrefix` | src/listeners/chat/discord/bot.ts:41 | "hello" is not a command |
| `Bot.ParseExampleTrailingSpaces` | src/listeners/chat/discord/bot.ts:44 | "!help   " gives command "help" and no argument |
| `Bot.DiscordClient.constructor` | src/listeners/chat/discord/bot.ts:21-28 | The table starts empty; an empty configured prefix falls back to "!" |
| `Bot.DiscordClient.RegisterCommand` | src/listeners/chat/discord/bot.ts:66-73 | A name already in the table is refused with the duplicate message and nothing changes; otherwise exactly that entry (description, usage, handler) is added, no other entry changes, and the name is appended to the registration order |
| `Bot.DiscordClient.Connect` | src/listeners/chat/discord/bot.ts:31 | Registers the help command, failing without change when "help" is already taken |
| `Bot.AppendLines` | src/listeners/chat/discord/bot.ts:92-94 | The loop appends exactly the listing lines of the given names, in order |
| `Bot.DiscordClient.ListCommands` | src/listeners/chat/discord/bot.ts:91-94 | The text built is the header followed by one line per registered command in `Object.entries` order |
| `Bot.ListingLines` | src/listeners/chat/discord/bot.ts:92-94 | The listing consists of the lines of the earlier names, then the line `prefix + name + " - " + desc`, then the lines of the later names |
| `Bot.DiscordClient.HelpHandler` | src/listeners/chat/discord/bot.ts:81-96 | The help handler's reply is the help text for its argument over the current table |
| `Bot.HelpForOneCommand` | src/listeners/chat/discord/bot.ts:82-88 | For a registered name the reply is the fenced "name - desc, blank line, usage" block; for an unregistered name it is the ordinary reply "Unknown command 'name'" |
| `Bot.HelpListsCommands` | src/listeners/chat/discord/bot.ts:90-95 | With commands registered, help without argument is the "Commands:" header, the listing of every command with trailing whitespace removed, and the closing fence |
| `Bot.HelpListsInRegistrationOrder` | src/listeners/chat/discord/bot.ts:92-95 | When no command name is an array index, help lists the commands in registration order |
| `Bot.HelpWithEmptyRegistry` | src/listeners/chat/discord/bot.ts:91-95 | With an empty table, help without argument is "```Commands:```" |
| `Bot.DiscordClient.HandleMessage` | src/listeners/chat/discord/bot.ts:40-63 | At most one message is sent. Nothing is sent for a message without the prefix, for an unregistered command, or for a handler returning the empty string. A non-empty reply is sent once as is, and a rejected handler yields one "Internal Error". The help command's reply is the help text |
| `ObjectKeys.EntriesOrderIsPermutation` | src/listeners/chat/discord/bot.ts:92 | `Object.entries` lists every registered name exactly once |
| `ObjectKeys.EntriesOrderShape` | src/listeners/chat/discord/bot.ts:92 | Array-index names come first in ascending numeric order, followed by the other names in registration order |
| `ObjectKeys.EntriesOrderWithoutIndices` | src/listeners/chat/discord/bot.ts:92 | Without array-index names the listing order is the registration order |
| `Users.PickHigherUserClass` | src/models/user.ts:7-11 | The result is one of the two arguments, is admin exactly when either argument is admin, and ranks at least as high as both |
| `Users.PickHigherCommutative` | src/models/user.ts:8-11 | The argument order does not matter |
| `Users.PickHigherIdempotent` | src/models/user.ts:8-11 | Picking from a class and itself gives that class |
| `Users.IsAdmin` | src/models/user.ts:36-38 | Holds exactly when the user's class is the highest-ranked one, admin |
| `Users.CombinedIsAdmin` | src/models/user.ts:65-70 | `isAdmin` holds of the merged record exactly when it held of either account |
| `Users.LinkValueInjective` | src/models/user.ts:61-63 | For tokens without spaces, the stored "<username> <token>" value determines both the username and the token, so a wrong token finds no match |
| `Users.UserStore.Save` | src/models/user.ts:18-28 | A save inserts or updates the row with the record's id, and is refused without change when a unique column would clash with another row |
| `Users.UserStore.GetNewApiKey` | src/models/user.ts:40-44 | Only the API key changes, to the fresh value, which is returned on success; the save of the current row always succeeds; on failure the table is unchanged |
| `Users.UserStore.GenerateNewLinkToken` | src/models/user.ts:46-51 | Only the link token changes, to "<username> <token>", and the bare token is returned; the save of the current row always succeeds; on failure the table is unchanged |
| `Users.UserStore.FindByDiscordId` | src/models/user.ts:53-55 | The row found has that Discord id and is the only such row; nothing is found exactly when no row has it |
| `Users.UserStore.FindByTwitchUserId` | src/models/user.ts:57-59 | The row found has that Twitch id and is the only such row; nothing is found exactly when no row has it |
| `Users.UserStore.FindByLinkToken` | src/models/user.ts:61-63 | The row found has link token exactly "<username> <token>"; nothing is found exactly when no row has that value |
| `Users.LinkTokenRoundTrip` | src/models/user.ts:46-63 | After a token is issued for a current row, looking it up with the same username and token finds that row |
| `Users.UserStore.LinkAccounts` | src/models/user.ts:65-77 | The combined record takes the Twitch id of the first account, the Discord id of the second and the higher class, with a new id, a new key and no token. On commit both old ids are removed and the combined row added in one step; otherwise the table is unchanged |
| `Users.LinkOfCurrentRows` | src/models/user.ts:65-77 | Merging two current rows never clashes with the unique columns. Afterwards neither old id exists, the carried-over Twitch and Discord ids lead only to the new row, and the dropped placeholder ids are found nowhere |

## Left out

- The Discord connection: the singleton client, login, presence, `nowReady`, `shutdown` and the event wiring are network I/O through discord.js.
- The typing indicator (`setTimeout`, `clearTimeout`, `startTyping`, `stopTyping`) is timer- and concurrency-driven and is not modelled.
- Logging and the configuration lookup are not modelled. The prefix is given to the constructor.
- Bot.DiscordClient.HandleMessage: sending a message is assumed to succeed. A failing send of a reply, which the code would answer with "Internal Error", and a failing send of that text are not modelled.
- Bot.DiscordClient.HandleMessage: handlers other than `help` are not modelled. Their outcome is a parameter, and the message object and argument passed to them are not represented.
- Positions in strings count characters (Unicode scalar values), where JavaScript's `indexOf` and `substring` count UTF-16 code units. Parsing gives the same command and argument either way. The prefix end, the space and the character after it all fall on character boundaries, and every whitespace character is a single UTF-16 unit.
- Keys inherited from `Object.prototype` (such as `toString`), which the plain-object table would treat as registered, are not modelled. The table is a map.
- TypeORM itself (decorators, `findOne`, `save`, the transaction manager) is replaced by a map with all-or-nothing updates. Failures of `save` other than unique-column clashes are not modelled for `getNewApiKey` and `generateNewLinkToken`.
- uuid generation is not modelled. Generated values are parameters, with freshness required where the code relies on it.
- `src/listeners/chat/shared/quote.ts` is a thin wrapper around the quote database and is not part of this model.
- Concurrent dispatch of several messages is not modelled: each call is one sequential dispatch.
