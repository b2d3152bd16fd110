/** The orchestrator's database, as a value: the `bot_accounts` rows, the
    `bot_logs` interaction log and the `director_commands` log, plus whether the
    connection is open. Both SQL drivers behave alike here; the one the
    configuration selects is not modelled. Rows are kept in insertion order, and
    "most recent" means last inserted. */
module Persistence {
  import opened Wrappers
  import opened Registry
  import opened Sequences

  /** A row of `bot_logs`. The gender is the bot's configured one, `random`
      included, not the one a reply resolved it to. */
  datatype InteractionRow = InteractionRow(
    botName: string, gender: string, platform: string, input: string, response: string, createdAt: string)

  /** A row of `director_commands`; `applied` is never set. */
  datatype CommandRow = CommandRow(command: string, applied: bool, createdAt: string)

  datatype Database = Database(
    accounts: seq<AccountRow>, logs: seq<InteractionRow>, commands: seq<CommandRow>, open: bool)

  /** What a statement on a closed better-sqlite3 connection throws. */
  const NotOpen: string := "The database connection is not open"

  /** `INSERT INTO director_commands (command)`: fails on a closed connection. */
  function AppendCommand(db: Database, command: string, now: string): (r: Result<Database, string>)
    ensures r.Err? <==> !db.open
    ensures r.Err? ==> r.error == NotOpen
    ensures r.Ok? ==> r.value == db.(commands := db.commands + [CommandRow(command, false, now)])
  {
    if !db.open then Err(NotOpen) else Ok(db.(commands := db.commands + [CommandRow(command, false, now)]))
  }

  /** `WHERE bot_name = ?`: every interaction of one bot, oldest first. */
  function ForBot(logs: seq<InteractionRow>, name: string): (r: seq<InteractionRow>)
    ensures |r| <= |logs|
    ensures forall k :: 0 <= k < |r| ==> r[k].botName == name && r[k] in logs
    decreases |logs|
  {
    if logs == [] then []
    else (ForBot(logs[..|logs| - 1], name)
          + (if logs[|logs| - 1].botName == name then [logs[|logs| - 1]] else []))
  }

  /** Every row of the bot is selected, and only those. */
  lemma {:induction false} ForBotMembers(logs: seq<InteractionRow>, name: string)
    ensures forall x :: x in ForBot(logs, name) <==> x in logs && x.botName == name
    decreases |logs|
  {
    if logs != [] {
      var init := logs[..|logs| - 1];
      ForBotMembers(init, name);
      assert logs == init + [logs[|logs| - 1]];
    }
  }

  /** The selection distributes over concatenation; with the one-row case of
      the definition this keeps the bot's rows in table order. */
  lemma {:induction false} ForBotAppend(a: seq<InteractionRow>, b: seq<InteractionRow>, name: string)
    ensures ForBot(a + b, name) == ForBot(a, name) + ForBot(b, name)
    decreases |b|
  {
    if b == [] {
      assert a + b == a;
    } else {
      var n := |b| - 1;
      assert (a + b)[..|a + b| - 1] == a + b[..n];
      assert (a + b)[|a + b| - 1] == b[n];
      ForBotAppend(a, b[..n], name);
    }
  }

  /** The `--history` query: the bot's five most recent interactions, newest first. */
  function RecentInteractions(logs: seq<InteractionRow>, name: string): seq<InteractionRow> {
    Recent(ForBot(logs, name), 5)
  }

  /** The history holds the bot's last min(5, n) rows of the log, newest first,
      and nothing else. */
  lemma HistoryIsLatestFive(logs: seq<InteractionRow>, name: string)
    ensures var r, f := RecentInteractions(logs, name), ForBot(logs, name);
      |r| == (if 5 < |f| then 5 else |f|)
      && (forall k :: 0 <= k < |r| ==> r[k] == f[|f| - 1 - k])
      && (forall k :: 0 <= k < |r| ==> r[k] in logs && r[k].botName == name)
  {
  }

  /** Storing a row puts it at the head of its bot's history and shifts the
      previous entries down by one, the oldest of five dropping off. */
  lemma HistoryAfterStore(logs: seq<InteractionRow>, row: InteractionRow)
    ensures RecentInteractions(logs + [row], row.botName)
      == [row] + Recent(ForBot(logs, row.botName), 4)
  {
    var s := logs + [row];
    assert s[..|s| - 1] == logs;
    assert ForBot(s, row.botName) == ForBot(logs, row.botName) + [row];
    var f := ForBot(logs, row.botName) + [row];
    assert f[..|f| - 1] == ForBot(logs, row.botName);
  }

  /** Storing a row for one bot leaves every other bot's history as it was. */
  lemma OtherHistoryUnchanged(logs: seq<InteractionRow>, row: InteractionRow, name: string)
    requires name != row.botName
    ensures RecentInteractions(logs + [row], name) == RecentInteractions(logs, name)
  {
    var s := logs + [row];
    assert s[..|s| - 1] == logs;
    assert ForBot(s, name) == ForBot(logs, name) + [];
    assert ForBot(logs, name) + [] == ForBot(logs, name);
  }

  /** An interaction just stored is the first one the `--history` query shows. */
  lemma LatestInteractionShownFirst(logs: seq<InteractionRow>, row: InteractionRow)
    ensures |RecentInteractions(logs + [row], row.botName)| >= 1
    ensures RecentInteractions(logs + [row], row.botName)[0] == row
  {
    HistoryAfterStore(logs, row);
  }

  /** A command just stored is the most recent one (`recentDirectorCommands(1)`). */
  lemma LatestCommandIsMostRecent(db: Database, command: string, now: string)
    requires db.open
    ensures Recent(AppendCommand(db, command, now).value.commands, 1) == [CommandRow(command, false, now)]
  {
  }
}
