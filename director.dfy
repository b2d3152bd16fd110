/** The director's console: a line typed at the `Director> ` prompt is trimmed,
    recognised as one of five commands (or as blank, or unknown), and performed
    against the notes list and the database. `Parse` is the recogniser,
    `Perform` what a command does and prints. */
module Director {
  import opened Wrappers
  import opened JsString
  import opened Registry
  import opened Persistence

  datatype Command = Notify(message: string) | Help | List | History(botName: string) | Exit | Blank | Unknown

  const NotifyPrefix: string := "--notify "
  const HistoryPrefix: string := "--history "

  /** A trimmed line that starts with `p`, whose last character is white space,
      is longer than `p`. */
  lemma PrefixLeavesRest(t: string, p: string)
    requires StartsWith(t, p) && |p| > 0 && IsJsSpace(p[|p| - 1])
    requires t == [] || !IsJsSpace(t[|t| - 1])
    ensures |t| > |p|
  {
    assert t[|p| - 1] == p[|p| - 1];
  }

  /** What the console makes of one input line. The message of `--notify` and the
      bot name of `--history` are what follows the prefix of the trimmed line,
      and neither is ever empty; `Classification` states which command each line
      is. */
  function Parse(line: string): (c: Command)
    ensures c.Notify? ==>
              (StartsWith(Trim(line), NotifyPrefix) && c.message == Trim(line)[|NotifyPrefix|..] && c.message != "")
    ensures c.History? ==>
              (StartsWith(Trim(line), HistoryPrefix) && c.botName == Trim(line)[|HistoryPrefix|..] && c.botName != "")
  {
    var t := Trim(line);
    if StartsWith(t, NotifyPrefix) then
      ReplacePrefix(t, NotifyPrefix);
      PrefixLeavesRest(t, NotifyPrefix);
      Notify(ReplaceFirst(t, NotifyPrefix, ""))
    else if t == "--help" then Help
    else if t == "--list" then List
    else if StartsWith(t, HistoryPrefix) then
      ReplacePrefix(t, HistoryPrefix);
      PrefixLeavesRest(t, HistoryPrefix);
      History(ReplaceFirst(t, HistoryPrefix, ""))
    else if t == "--exit" then Exit
    else if t == "" then Blank
    else Unknown
  }

  /** Each command is recognised by exactly its own form of the trimmed line. */
  lemma Classification(line: string)
    ensures var t := Trim(line);
      var c := Parse(line);
      && (c.Notify? <==> StartsWith(t, NotifyPrefix))
      && (c == Help <==> t == "--help")
      && (c == List <==> t == "--list")
      && (c.History? <==> StartsWith(t, HistoryPrefix))
      && (c == Exit <==> t == "--exit")
      && (c == Blank <==> t == "")
  {
    var t := Trim(line);
    if StartsWith(t, NotifyPrefix) {
      assert t[2] == NotifyPrefix[2] == 'n';
      assert HistoryPrefix[2] == 'h';
    } else if StartsWith(t, HistoryPrefix) {
      assert t[2] == 'h' && t[3] == HistoryPrefix[3] == 'i';
    }
  }

  /** Any other non-blank line is unknown. */
  lemma UnknownIsEverythingElse(line: string)
    ensures var t := Trim(line);
      Parse(line) == Unknown <==>
        (t != "" && t != "--help" && t != "--list" && t != "--exit"
         && !StartsWith(t, NotifyPrefix) && !StartsWith(t, HistoryPrefix))
  {
  }

  /** White space around a command does not matter. */
  lemma ParseIgnoresSurroundingSpace(line: string)
    ensures Parse(Trim(line)) == Parse(line)
  {
    var t := Trim(line);
    TrimIdempotent(line);
    assert Trim(t) == t;
    Classification(line);
    Classification(t);
    var c, d := Parse(line), Parse(t);
    if c.Notify? {
      assert d.Notify? && d.message == c.message;
    } else if c.History? {
      assert d.History? && d.botName == c.botName;
    } else if c == Unknown {
      assert d == Unknown;
    }
  }

  const HelpText: string :=
    "\nAvailable commands:\n"
    + "  --notify <message>  : Send a direction to all bots\n"
    + "  --list              : List all active bots\n"
    + "  --history <bot>     : Show recent interactions for a bot\n"
    + "  --help              : Show this help message\n"
    + "  --exit              : Exit the program\n"
    + "      "

  const UnknownText: string := "Unknown command. Type --help for available commands."
  const ExitText: string := "Shutting down..."

  function NotifyAck(message: string): string {
    "Director instruction added: " + message
  }

  /** The `--list` line of one account, with the same defaults as `getAllBots`. */
  function ListLine(row: AccountRow): string {
    var b := BotOfRow(row);
    "- " + b.name + " on " + b.platform + " (" + b.persona + ", " + b.gender + ")"
  }

  /** The `--list` output: a heading, one line per account in table order, and an
      empty line. */
  function ListLines(rows: seq<AccountRow>): (out: seq<string>)
    ensures |out| == |rows| + 2
    ensures out[0] == "\nActive bots:" && out[|out| - 1] == ""
    ensures forall k :: 0 <= k < |rows| ==> out[k + 1] == ListLine(rows[k])
  {
    ["\nActive bots:"] + seq(|rows|, k requires 0 <= k < |rows| => ListLine(rows[k])) + [""]
  }

  /** The four lines `--history` prints for one interaction. */
  function HistoryEntry(row: InteractionRow): seq<string> {
    ["[" + row.createdAt + "]", "Input: " + row.input, "Response: " + row.response, ""]
  }

  /** `logs.forEach`: every row's four lines, in the order the query returned them. */
  function HistoryBlock(rows: seq<InteractionRow>): (out: seq<string>)
    ensures |out| == 4 * |rows|
    ensures rows != [] ==> out[..4] == HistoryEntry(rows[0])
    ensures forall k :: 0 <= k < |rows| ==> out[4 * k..4 * k + 4] == HistoryEntry(rows[k])
    decreases |rows|
  {
    if rows == [] then [] else HistoryEntry(rows[0]) + HistoryBlock(rows[1..])
  }

  /** The `--history` output for the rows the query returned. */
  function HistoryLines(botName: string, rows: seq<InteractionRow>): (out: seq<string>)
    ensures rows == [] ==> out == ["No history found for bot " + botName]
    ensures rows != [] ==> |out| == 1 + 4 * |rows| && out[0] == "\nRecent interactions for " + botName + ":"
    ensures rows != [] ==> forall k :: 0 <= k < |rows| ==> out[4 * k + 1..4 * k + 5] == HistoryEntry(rows[k])
  {
    if rows == [] then ["No history found for bot " + botName]
    else ["\nRecent interactions for " + botName + ":"] + HistoryBlock(rows)
  }

  /** What performing a command leaves: the console lines, the note to push onto
      the in-memory list, the database, and whether the process exits. */
  datatype Effect = Effect(output: seq<string>, note: Option<string>, db: Database, exit: bool)

  /** A command's effect. A note is always kept in memory and acknowledged, even
      when storing it fails; a failing `--list` or `--history` query (a closed
      connection) prints nothing on the console. */
  function Perform(c: Command, db: Database, now: string): Effect {
    match c
    case Notify(m) =>
      var stored := AppendCommand(db, m, now);
      Effect([NotifyAck(m)], Some(m), if stored.Ok? then stored.value else db, false)
    case Help => Effect([HelpText], None, db, false)
    case List => Effect(if db.open then ListLines(db.accounts) else [], None, db, false)
    case History(n) =>
      Effect(if db.open then HistoryLines(n, RecentInteractions(db.logs, n)) else [], None, db, false)
    case Exit => Effect([ExitText], None, db, true)
    case Blank => Effect([], None, db, false)
    case Unknown => Effect([UnknownText], None, db, false)
  }

  /** The handler of one input line. */
  function HandleLine(line: string, db: Database, now: string): Effect {
    Perform(Parse(line), db, now)
  }

  /** A `--notify` line keeps its message as a note, acknowledges it, and stores
      it exactly when the connection is open; nothing else in the database changes. */
  lemma NotifyLineRecordsNote(line: string, db: Database, now: string)
    requires StartsWith(Trim(line), NotifyPrefix)
    ensures var m := Trim(line)[|NotifyPrefix|..];
      var e := HandleLine(line, db, now);
      e.note == Some(m) && e.output == [NotifyAck(m)] && !e.exit
      && e.db == (if db.open then db.(commands := db.commands + [CommandRow(m, false, now)]) else db)
  {
  }

  /** Only `--notify` changes the notes or the database, and only `--exit` exits. */
  lemma OnlyNotifyChangesState(line: string, db: Database, now: string)
    ensures var e := HandleLine(line, db, now);
      && (!StartsWith(Trim(line), NotifyPrefix) ==> e.note == None && e.db == db)
      && (e.exit <==> Trim(line) == "--exit")
  {
    Classification(line);
    PerformKeepsState(Parse(line), db, now);
  }

  /** Among the commands, only `Notify` keeps a note or touches the database, and
      only `Exit` exits. */
  lemma PerformKeepsState(c: Command, db: Database, now: string)
    ensures var e := Perform(c, db, now);
      && (!c.Notify? ==> e.note == None && e.db == db)
      && (e.exit <==> c == Exit)
  {
    match c
    case Notify(m) =>
    case _ =>
  }

  /** A blank line prints nothing and changes nothing. */
  lemma BlankLineIsIgnored(line: string, db: Database, now: string)
    requires Trim(line) == ""
    ensures HandleLine(line, db, now) == Effect([], None, db, false)
  {
    Classification(line);
    assert Parse(line) == Blank;
  }

  /** A line that trims to `--history <name>` asks for exactly that bot. */
  lemma ParseHistoryLine(line: string, name: string)
    requires Trim(line) == HistoryPrefix + name
    ensures Parse(line) == History(name)
  {
    var t := Trim(line);
    assert StartsWith(t, HistoryPrefix) && t[|HistoryPrefix|..] == name by {
      assert t[..|HistoryPrefix|] == HistoryPrefix;
    }
    Classification(line);
  }

  /** `--history <name>` trims to itself when the name does not end in white space. */
  lemma HistoryLineIsTrimmed(name: string)
    requires name != "" && !IsJsSpace(name[|name| - 1])
    ensures Trim(HistoryPrefix + name) == HistoryPrefix + name
  {
    var line := HistoryPrefix + name;
    assert line[0] == '-' && line[|line| - 1] == name[|name| - 1];
    TrimNoSpace(line);
  }

  /** What a `--history` request prints on an open connection. */
  lemma PerformHistory(n: string, db: Database, now: string)
    requires db.open
    ensures Perform(History(n), db, now).output == HistoryLines(n, RecentInteractions(db.logs, n))
  {
  }

  /** The lines after the heading start with the newest row's entry. */
  lemma HistoryLinesStart(n: string, rows: seq<InteractionRow>)
    requires rows != []
    ensures var out := HistoryLines(n, rows);
      |out| >= 5 && out[1..5] == HistoryEntry(rows[0])
  {
    var out := HistoryLines(n, rows);
    assert out[1..5] == HistoryBlock(rows)[..4];
  }

  /** After a bot's interaction is stored, `--history` for that bot shows it first. */
  lemma HistoryShowsLatestInteraction(db: Database, row: InteractionRow, now: string)
    requires db.open && row.botName != "" && !IsJsSpace(row.botName[|row.botName| - 1])
    ensures var out := HandleLine(HistoryPrefix + row.botName, db.(logs := db.logs + [row]), now).output;
      |out| >= 5 && out[1..5] == HistoryEntry(row)
  {
    var line := HistoryPrefix + row.botName;
    var db' := db.(logs := db.logs + [row]);
    HistoryLineIsTrimmed(row.botName);
    ParseHistoryLine(line, row.botName);
    PerformHistory(row.botName, db', now);
    var rows := RecentInteractions(db'.logs, row.botName);
    LatestInteractionShownFirst(db.logs, row);
    HistoryLinesStart(row.botName, rows);
    assert HandleLine(line, db', now).output == HistoryLines(row.botName, rows);
  }
}
