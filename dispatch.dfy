/**
 * The bot's `message` handler: which messages it acts on, which preference
 * record it uses, and which router, if any, receives the message.
 *
 * The preference store, the command router's `isCommand` and the configured
 * ids and prefix are inputs.
 */
module Dispatch {
  import opened Options
  import opened Text
  import Verses

  /** A user's stored preference record. */
  datatype Preferences = Preferences(
    id: string,
    input: string,
    language: string,
    version: Option<string>,
    headings: bool,
    verseNumbers: bool)

  /**
   * The answer of `db.get('preference:<id>')`: the record, a `not_found`
   * error, or any other error.
   */
  datatype Stored = Found(prefs: Preferences) | NotFound | Failed

  /** What the handler does with one message: at most one router is invoked. */
  datatype Action =
    | NoAction
    | RouteCommand(prefs: Preferences)
    | RouteVerses(prefs: Preferences, mode: Verses.Mode)

  /** The record that stands in for a missing one. */
  function DefaultPreferences(authorId: string): (p: Preferences)
    ensures p.id == "preference:" + authorId
    ensures p.input == "default" && p.language == "english"
    ensures p.version == Some(Verses.FallbackVersion)
    ensures p.headings && p.verseNumbers
  {
    Preferences("preference:" + authorId, "default", "english", Some("RSV"), true, true)
  }

  /**
   * The preferences the handler routes with. Any error other than `not_found`
   * leaves them undefined, and reading `prefs['input']` then throws.
   */
  function EffectivePreferences(authorId: string, stored: Stored): (p: Option<Preferences>)
    ensures p.None? <==> stored.Failed?
    ensures stored.Found? ==> p == Some(stored.prefs)
    ensures stored.NotFound? ==> p == Some(DefaultPreferences(authorId))
  {
    match stored
    case Found(p) => Some(p)
    case NotFound => Some(DefaultPreferences(authorId))
    case Failed => None
  }

  /** The command mode the handler switches on; `""` when there are no preferences. */
  function InputMode(authorId: string, stored: Stored): string {
    match EffectivePreferences(authorId, stored)
    case Some(p) => p.input
    case None => ""
  }

  /** JavaScript `s.includes(':')`. */
  predicate HasColon(s: string) {
    ':' in s
  }

  /**
   * The `message` handler. `botId` is the bot's own user id, `ownerId` the
   * configured `biblebot.id`, `commandPrefix` the configured prefix and
   * `isCommand(prefix, token)` the first component of the command router's
   * `isCommand`.
   */
  function OnMessage(authorId: string, botId: string, ownerId: string, stored: Stored, content: string,
                     commandPrefix: string, isCommand: (string, string) -> bool): (a: Action)
    ensures authorId == botId || authorId != ownerId || stored.Failed? ==> a == NoAction
    ensures a != NoAction ==> Some(a.prefs) == EffectivePreferences(authorId, stored)
    ensures a.RouteCommand? <==>
              && authorId != botId && authorId == ownerId
              && var input := InputMode(authorId, stored);
                 || (input == "default" && StartsWith(content, commandPrefix))
                 || (input == "erasmus" && StartsWith(content, "$") && !HasColon(content)
                     && isCommand("$", FirstToken(content)))
    ensures a.RouteVerses? <==>
              && authorId != botId && authorId == ownerId
              && HasColon(content)
              && var input := InputMode(authorId, stored);
                 || (input == "default" && !StartsWith(content, commandPrefix))
                 || (input == "erasmus" && StartsWith(content, "$"))
    ensures a.RouteVerses? ==>
              a.mode == if a.prefs.input == "erasmus" then Verses.Erasmus else Verses.Default
  {
    if authorId == botId then NoAction
    else if authorId != ownerId then NoAction
    else if stored.Failed? then NoAction
    else
      var prefs := EffectivePreferences(authorId, stored).value;
      if prefs.input == "default" then
        if StartsWith(content, commandPrefix) then RouteCommand(prefs)
        else if HasColon(content) then RouteVerses(prefs, Verses.Default)
        else NoAction
      else if prefs.input == "erasmus" then
        if StartsWith(content, "$") then
          if HasColon(content) then RouteVerses(prefs, Verses.Erasmus)
          else if isCommand("$", FirstToken(content)) then RouteCommand(prefs)
          else NoAction
        else NoAction
      else NoAction
  }

  /** A user with no stored record is handled exactly as one whose record is the default one. */
  lemma MissingRecordActsAsDefault(authorId: string, botId: string, ownerId: string, content: string,
                                   commandPrefix: string, isCommand: (string, string) -> bool)
    ensures OnMessage(authorId, botId, ownerId, NotFound, content, commandPrefix, isCommand)
            == OnMessage(authorId, botId, ownerId, Found(DefaultPreferences(authorId)), content, commandPrefix, isCommand)
  {
  }

  /**
   * A message the verse router receives always contains a colon, and in
   * `erasmus` mode it starts with `$`; a command mode other than the two known
   * ones, or a failed lookup, routes nothing.
   */
  lemma RoutedToVerses(authorId: string, botId: string, ownerId: string, stored: Stored, content: string,
                       commandPrefix: string, isCommand: (string, string) -> bool)
    ensures var a := OnMessage(authorId, botId, ownerId, stored, content, commandPrefix, isCommand);
      && (a.RouteVerses? ==> HasColon(content) && (a.mode == Verses.Erasmus ==> StartsWith(content, "$")))
      && (InputMode(authorId, stored) !in {"default", "erasmus"} ==> a == NoAction)
  {
  }
}
