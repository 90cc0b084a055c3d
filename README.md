# BibleBot message routing and paging, in Dafny

This is a model of three parts of BibleBot, a Discord bot that looks up Bible verses, with proofs about that model:

- **The message handler** (`src/init.ts`, the `message` event). It ignores the bot's own messages and every author but the configured one. It supplies a default preference record when the store has none. It then routes the message on the user's input mode (`default` or `erasmus`) to the command router, the verse router, or nowhere. This is `Dispatch.OnMessage`, a pure decision function.
- **The verse router** (`src/routes/verses.ts`).
  - `processMessage` joins the message's lines with spaces.
  - It stops when no space is left.
  - It sends one spam notice when the scanner finds more than ten candidate references.
  - Otherwise it starts one version lookup for every candidate that survives two bracket rules, with the preferred version or "RSV".
  - `Verses.VersesRouter.ProcessMessage` is the loop.
  - `Verses.MessagePlan` is its specification.
  - `Verses.Resolved` describes which references reach `processVerse` once the lookups come back.
  - `getInstance`, the lazily created singleton, is `Verses.RouterRegistry.GetInstance`.
- **The two paging commands** (`src/handlers/logic/commands/information/paged_commands.py`).
  - `search` refuses versions that the gateway does not serve. Otherwise it splits the gateway's result dictionary into between 1 and 100 pages of at most six entries. It shows only entries shorter than 700 characters and deletes each entry it shows.
  - `get_versions` splits the version list into pages of 25. It removes each version it lists.
  - `PagedCommands.Search` and `PagedCommands.GetVersions` follow the loops of the source, consuming a local sequence as the source consumes its dictionary and list. Each is proved equal to a specification function (`SearchReply`, `VersionsReply`), and the lemmas state what those functions promise: page counts, the partition of the input, page contents and placeholders.

Layout:

| file | content |
|---|---|
| `options.dfy` | `Option` |
| `text.dfy` | the string operations the source relies on: `startsWith`, `split(' ')[0]`, `split(/\r?\n/).join(' ')`, `str.replace`, `str(n)`, `list.remove`, and building a text line by line |
| `paged_commands.dfy` | `search` and `get_versions` |
| `verses.dfy` | the verse router |
| `dispatch.dfy` | the `message` handler |

Inputs that the model takes as parameters:

- `findBooksInMessage`, `isSurroundedByBrackets`, `generateReference` and `Version.findOne` are function parameters.
- `biblegateway.search` and `versions.get_versions()` are the values they return.
- The preference store's answer, the configured ids and the command prefix are parameters.
- The command router's `isCommand` is a function parameter.

A Python dictionary keeps insertion order, so the result dictionary of `search` is a sequence of `Hit(title, text)` in key order. The keys themselves are never shown.

## Model

| member | source | states |
|---|---|---|
| Text.FirstToken | src/init.ts:117 | the first token has no space, is a prefix of the message, and is either the whole message or stops just before a space |
| Text.JoinLinesRemovesBreaks | src/routes/verses.ts:23 | the joined message contains no "\n" |
| Text.JoinLinesSingleLine | src/routes/verses.ts:23 | a message without "\n" is left unchanged |
| Text.JoinLinesConcat | src/routes/verses.ts:23 | joining works piece by piece, unless a "\r" and a "\n" meet at the seam |
| Text.JoinLinesAtLF | src/routes/verses.ts:23 | a "\n" not preceded by "\r" becomes exactly one space between the joined lines |
| Text.JoinLinesAtCRLF | src/routes/verses.ts:23 | a "\r\n" becomes exactly one space between the joined lines |
| Text.ReplaceAllSkips | src/handlers/logic/commands/information/paged_commands.py:35 | text that cannot start the pattern passes through `replace` unchanged |
| Text.ReplaceAllAt | src/handlers/logic/commands/information/paged_commands.py:35 | an occurrence preceded by text holding no copy of the pattern's first character is replaced, and the scan resumes after it |
| Text.ReplaceAllFirst | src/handlers/logic/commands/information/paged_commands.py:35 | the first occurrence of the pattern, wherever it is, is replaced, the text before it is kept, and the scan resumes after it |
| Text.ReplaceAllAfterStray | src/handlers/logic/commands/information/paged_commands.py:35 | `"<<num>".replace("<num>", "7")` is `"<7"`: a stray `<` before the placeholder is kept |
| Text.NatToString | src/handlers/logic/commands/information/paged_commands.py:35 | `str(n)` is a non-empty string of decimal digits, with no leading zero when n > 0 |
| Text.ParseNatToString | src/handlers/logic/commands/information/paged_commands.py:35 | reading back `str(n)` gives n |
| Text.NatToStringInjective | src/handlers/logic/commands/information/paged_commands.py:35 | distinct page numbers print differently |
| Text.LinesAppend | src/handlers/logic/commands/information/paged_commands.py:101 | building line by line over two runs gives the lines of both |
| Text.LinesLength | src/handlers/logic/commands/information/paged_commands.py:101 | the text is exactly as long as the items together plus one newline per item |
| Text.FirstIndex | src/handlers/logic/commands/information/paged_commands.py:104 | the index `list.remove(x)` deletes at holds x, and no earlier element is x |
| Text.RemoveFirst | src/handlers/logic/commands/information/paged_commands.py:104 | `list.remove(x)` deletes the first occurrence of x, keeps the order of the rest, and shortens the list by one |
| Text.RemoveFirstMultiset | src/handlers/logic/commands/information/paged_commands.py:104 | `list.remove(x)` takes exactly one x out of the list's multiset and nothing else |
| PagedCommands.CeilDiv | src/handlers/logic/commands/information/paged_commands.py:23 | q is the least number with q·d ≥ n |
| PagedCommands.SearchPageCount | src/handlers/logic/commands/information/paged_commands.py:23-28 | between 1 and 100 pages; 1 for no results; the exact ceiling of n/6 up to 600 results; 100 beyond |
| PagedCommands.Pick | src/handlers/logic/commands/information/paged_commands.py:44-53 | one pass places at most six entries, and places and keeps as many entries as the snapshot holds (entry by entry: see PickConserves) |
| PagedCommands.Search | src/handlers/logic/commands/information/paged_commands.py:8-75 | the loops compute `SearchReply`; the error reply exactly for the eight unsupported versions; no reply exactly for a supported version without a gateway answer |
| PagedCommands.PlaceEntries | src/handlers/logic/commands/information/paged_commands.py:41-53 | the inner loop adds to the page exactly the fields of the entries one pass takes, and leaves the entries it keeps |
| PagedCommands.VisitKey | src/handlers/logic/commands/information/paged_commands.py:45-53 | one visited key either moves its entry onto the page and out of the dictionary, or leaves both as they were |
| PagedCommands.SearchPagesAt | src/handlers/logic/commands/information/paged_commands.py:30-58 | page k is built from the dictionary as the first k pages left it |
| PagedCommands.PickTakesFirstListable | src/handlers/logic/commands/information/paged_commands.py:44-53 | one pass takes the first six entries shorter than 700 characters in key order; the entries it keeps are the rest |
| PagedCommands.PickTakesListable | src/handlers/logic/commands/information/paged_commands.py:45-50 | only entries shorter than 700 characters are placed |
| PagedCommands.PickConserves | src/handlers/logic/commands/information/paged_commands.py:44-53 | placed and kept entries together are exactly the dictionary: nothing lost, nothing duplicated |
| PagedCommands.EmptyIffNothingLeft | src/handlers/logic/commands/information/paged_commands.py:41 | the dictionary is empty exactly when it has no showable and no over-long entry |
| PagedCommands.RemainingAfter | src/handlers/logic/commands/information/paged_commands.py:30-53 | after k pages the dictionary holds the showable entries from the 6k-th on, and every over-long entry |
| PagedCommands.PageShowsSlice | src/handlers/logic/commands/information/paged_commands.py:41-53 | page k shows the showable entries 6k to 6k+5, in key order, so no entry is on two pages |
| PagedCommands.FieldsShape | src/handlers/logic/commands/information/paged_commands.py:50 | one field per placed entry, with its title, its text and `inline=False` |
| PagedCommands.SearchPageProperties | src/handlers/logic/commands/information/paged_commands.py:30-58 | every page has at most six fields, each under 700 characters, namely the showable entries 6k to 6k+5; it is a "nothing found" page, with empty description and no fields, exactly when the dictionary is empty by then; otherwise its title is `searchResults` with the unmodified query in quotes, and its description is `pageOf` filled with k+1 and the page count |
| PagedCommands.SearchReplyShape | src/handlers/logic/commands/information/paged_commands.py:15-75 | the error text for an unsupported version; nothing without a gateway answer; otherwise `SearchPageCount(n)` pages, sent as a paged reply when there is more than one |
| PagedCommands.SearchLeftover | src/handlers/logic/commands/information/paged_commands.py:44-53 | after the search, the dictionary still holds every over-long entry and the showable ones beyond the last page |
| PagedCommands.PageCounterDetermines | src/handlers/logic/commands/information/paged_commands.py:35 | with such a template, two pages carry the same counter text only if they have the same page number |
| PagedCommands.PageCounterFilled | src/handlers/logic/commands/information/paged_commands.py:35-36 | a `pageOf` template with one `<num>`, then one `<total>`, and no other `<`, reads with both numbers filled in |
| PagedCommands.GetVersions | src/handlers/logic/commands/information/paged_commands.py:78-119 | the loops compute `VersionsReply`; the reply is always paged; the version list is empty afterwards |
| PagedCommands.ListVersions | src/handlers/logic/commands/information/paged_commands.py:94-106 | the inner loop lists the first 25 versions, one per line, and removes exactly them from the list |
| PagedCommands.VersionsPartition | src/handlers/logic/commands/information/paged_commands.py:83-106 | no pages exactly for an empty list; the page chunks, one after the other, give back the whole list; each holds between 1 and 25 versions |
| PagedCommands.VersionsDescriptions | src/handlers/logic/commands/information/paged_commands.py:94-113 | the page descriptions, one after the other, list the versions of all the chunks, one per line |
| PagedCommands.VersionsPagesAt | src/handlers/logic/commands/information/paged_commands.py:88-113 | page k of the reply is the page built from chunk k |
| PagedCommands.VersionChunkSize | src/handlers/logic/commands/information/paged_commands.py:94-106 | every announced page holds between one and 25 versions |
| PagedCommands.VersionsPageProperties | src/handlers/logic/commands/information/paged_commands.py:88-113 | reply page k lists chunk k one version per line, holds between one and 25 versions, is titled with the prefix, the `versions` command name and the `pageOf` counter for k+1 of n, and has no fields |
| PagedCommands.VersionsReplyListsAll | src/handlers/logic/commands/information/paged_commands.py:78-119 | ceil(n/25) pages, none for an empty list, whose descriptions together list every version in order |
| Verses.QueryVersion | src/routes/verses.ts:44-47 | the stored version when it is truthy, otherwise "RSV"; never empty |
| Verses.VersesRouter.ProcessMessage | src/routes/verses.ts:21-58 | the loop computes `MessagePlan`; silent exactly when the joined message has no space; the spam notice exactly when more than ten candidates are found; never more than ten lookups |
| Verses.RouterRegistry.GetInstance | src/routes/verses.ts:13-19 | the first call creates the router and stores it; later calls return the stored one |
| Verses.GetInstanceTwice | src/routes/verses.ts:13-19 | two calls return the same router |
| Verses.HonouredQueriesLength | src/routes/verses.ts:35-42 | at most one lookup per candidate |
| Verses.HonouredQueriesMembers | src/routes/verses.ts:35-47 | a lookup exists exactly for the candidates that pass both bracket rules, each with the one queried version |
| Verses.HonouredQueriesAppend | src/routes/verses.ts:35-42 | each candidate is judged on its own, so the lookups of two runs of candidates concatenate |
| Verses.ErasmusIsStricter | src/routes/verses.ts:36-42 | `erasmus` lookups are exactly the `default` lookups whose candidate is inside `[]`, in the same order |
| Verses.MessagePlanCases | src/routes/verses.ts:21-47 | the whole gate: silent, spam notice (counted before suppression), or exactly the unsuppressed candidates with the preferred version or "RSV" |
| Verses.ResolvedAppend | src/routes/verses.ts:49-57 | a dropped reference leaves the other lookups' references unaffected |
| Verses.ResolvedMembers | src/routes/verses.ts:49-57 | a reference is processed exactly when some lookup produced it |
| Verses.ResolvedLength | src/routes/verses.ts:49-57 | at most one processed reference per lookup |
| Dispatch.DefaultPreferences | src/init.ts:87-97 | the stand-in record: id `preference:<author>`, input `default`, language `english`, version "RSV", headings and verse numbers on |
| Dispatch.EffectivePreferences | src/init.ts:87-99 | a stored record is used as it is; a `not_found` gives the default record; only another error leaves no preferences |
| Dispatch.OnMessage | src/init.ts:82-125 | no action for the bot itself, for other authors, or after a failed lookup. Command routing exactly for a `default` message with the command prefix, or an `erasmus` `$` message without `:` that `isCommand` accepts. Verse routing exactly for a message with `:` that is a `default` non-command or an `erasmus` `$` message, with the matching mode. The preferences passed are the effective ones. At most one router per message. |
| Dispatch.MissingRecordActsAsDefault | src/init.ts:87-99 | a user without a record is routed exactly as one whose record is the default one |
| Dispatch.RoutedToVerses | src/init.ts:101-124 | the verse router only sees messages with `:`, in `erasmus` mode only those starting with `$`; any other input mode routes nothing |

## Left out

- Discord plumbing is not modelled: sending messages and embeds, the spam notice's text and its log entry, shard events, presence and login. The verse router's outcomes are the `Plan` values.
- The preference store, `Version.findOne`, the gateway search and `versions.get_versions()` are not modelled. These are external stores; what they answer is an input.
- Error-log files and the ini configuration are not modelled. They are file I/O.
- `findBooksInMessage`, `isSurroundedByBrackets` and `generateReference` are function parameters, and so is the command router's `isCommand`. Their bodies are not part of this model.
- `processVerse` and `processCommand` are not modelled. `Verses.Resolved` lists the references `processVerse` would receive, and the `RouteCommand` action stands for the call to `processCommand`.
- The order in which the asynchronous lookups complete is not modelled. `Verses.Resolved` lists the processed references in lookup order, which is the order the lookups start.
- A preference-store error other than `not_found` makes the handler yield `undefined`, and reading `prefs['input']` then throws. The model treats this as no action without modelling the exception.
- Embed colour, footer and icon are not modelled. They are constants with no logic.
- The key `"paged": True` and the `level` strings of the replies are folded into the `Reply` constructors. `InfoPages` is the paged info reply, `InfoEmbed` the single one, `ErrText` the error.
- Missing localisation keys are not modelled. A missing key raises `KeyError` in the source, so the model requires the strings a reply may read instead (see `HasSearchStrings`, `HasVersionStrings`, `HasErrorStrings`). `get_versions` requires its strings only for a non-empty version list, where the source reads them.
- PagedCommands.Search: requires `searchResults`, `pageOf` and `nothingFound` for every gateway answer. The source reads `nothingFound` only when a page comes out empty, and reads nothing for a supported version without an answer.
- Text.ReplaceAll: the empty pattern is excluded. The source only replaces fixed non-empty placeholders, and Python's rule for the empty pattern is not modelled.
- The `search` dictionary is a sequence in key order, so a result with a duplicate key cannot arise. Deleting an entry removes it at its position.
- `Context` (`src/models/context.ts`) is not part of this model. The router's inputs are the values `processMessage` reads from it: the message, the guild's `ignoringBrackets` and the preferred version.
- Verses.VersesRouter.ProcessMessage and Dispatch.OnMessage assume a `Context` that carries every field the router reads. The code as written does not provide one, so the real program throws where the model routes:
  - `Context` (src/models/context.ts:5-29) declares and assigns neither `language` nor `guildPreferences`. So the spam branch would throw reading `ctx.language` (src/routes/verses.ts:30), and the first candidate would throw reading `ctx.guildPreferences.ignoringBrackets` (src/routes/verses.ts:36).
  - The handler passes seven of the constructor's eight arguments (src/init.ts:99), leaving `raw` undefined.
  - The constructor reads `guild.shardID` (src/models/context.ts:26), which throws for a message without a guild, such as a direct message. Such a message then throws before any routing.
  - The model takes `ignoring` as a plain input, and routes every message of the configured author.
- PagedCommands.SearchPageCount: `math.ceil` over float division is modelled as exact integer ceiling division. Float rounding cannot matter at these sizes.
