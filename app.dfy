/** The renderer's application module: its module-level state (the loaded
    config, the dark-mode flag, the bots created in this session, the director
    command history) and the exported operations on it. Log entries go to the
    logs panel, which listens for them; the clock (`toLocaleTimeString`) and the
    replies of the main-process API are inputs. */
module App {
  import opened Wrappers
  import opened JsString
  import opened LogsPanel
  import opened Sequences

  /** The JavaScript values an operation may be handed. */
  datatype JsValue =
    | JsStr(s: string)
    | JsNumber(n: int)
    | JsBool(b: bool)
    | JsNull
    | JsUndefined
    | JsArray(items: seq<JsValue>)
    | JsObject(fields: map<string, JsValue>)

  /** JavaScript truthiness (NaN is not among the numbers modelled). */
  predicate Truthy(v: JsValue) {
    match v
    case JsStr(s) => s != ""
    case JsNumber(n) => n != 0
    case JsBool(b) => b
    case JsNull => false
    case JsUndefined => false
    case JsArray(_) => true
    case JsObject(_) => true
  }

  /** What a call into the main process came back with. */
  datatype ApiReply = Success | Failure(error: string) | Thrown(message: string)

  /** `sendDirectorCommand`'s result, whether the API was called at all, and the
      error it logs, if any. */
  datatype SendOutcome = SendOutcome(sent: bool, apiCalled: bool, logged: Option<string>)

  /** The guard of `sendDirectorCommand`: present, a string, and not only white space. */
  predicate Sendable(command: JsValue) {
    Truthy(command) && command.JsStr? && Trim(command.s) != ""
  }

  /** `sendDirectorCommand`: a missing, non-string or blank command is refused
      without calling the API; otherwise the result is the API's success, and a
      failure is logged. */
  function SendDirectorCommand(command: JsValue, reply: ApiReply): (r: SendOutcome)
    ensures r.apiCalled <==> command.JsStr? && Trim(command.s) != ""
    ensures !r.apiCalled ==> !r.sent && r.logged == None
    ensures r.sent <==> r.apiCalled && reply == Success
    ensures r.apiCalled && reply.Failure? ==> r.logged == Some("Failed to send command: " + reply.error)
    ensures r.apiCalled && reply.Thrown? ==> r.logged == Some("Error sending command: " + reply.message)
    ensures r.sent ==> r.logged == None
  {
    if !Sendable(command) then SendOutcome(false, false, None)
    else match reply
      case Success => SendOutcome(true, true, None)
      case Failure(e) => SendOutcome(false, true, Some("Failed to send command: " + e))
      case Thrown(m) => SendOutcome(false, true, Some("Error sending command: " + m))
  }

  /** A guard that passes for a string also passes for the same string with more
      white space around it. */
  lemma SendableIgnoresSurroundingSpace(s: string)
    ensures Sendable(JsStr(s)) <==> Sendable(JsStr(Trim(s)))
  {
    TrimIdempotent(s);
  }

  const MaxHistory: nat := 10

  /** The history after `unshift(command)` and, past ten, `pop()`. */
  function PushHistory(history: seq<string>, command: string): (r: seq<string>)
    requires |history| <= MaxHistory
    ensures |r| <= MaxHistory && |r| >= 1 && r[0] == command
    ensures |history| < MaxHistory ==> r == [command] + history
    ensures |history| == MaxHistory ==> r == [command] + history[..MaxHistory - 1]
  {
    var u := [command] + history;
    if |u| > MaxHistory then u[..|u| - 1] else u
  }

  /** The history after pushing `cs[0]`, then `cs[1]`, and so on. */
  function PushAll(history: seq<string>, cs: seq<string>): (r: seq<string>)
    requires |history| <= MaxHistory
    ensures |r| <= MaxHistory
    decreases |cs|
  {
    if cs == [] then history else PushAll(PushHistory(history, cs[0]), cs[1..])
  }

  /** Pushing one more command onto the newest-first view of `cs` gives the
      newest-first view of `cs + [c]`. */
  lemma PushRecent(cs: seq<string>, c: string)
    ensures PushHistory(Recent(cs, MaxHistory), c) == Recent(cs + [c], MaxHistory)
  {
    var s := cs + [c];
    assert s[..|s| - 1] == cs;
    assert Recent(s, MaxHistory) == [c] + Recent(cs, MaxHistory - 1);
    RecentShorter(cs, MaxHistory - 1);
  }

  /** A shorter newest-first view is a prefix of a longer one. */
  lemma RecentShorter(s: seq<string>, n: nat)
    ensures Recent(s, n) == Recent(s, n + 1)[..if n < |s| then n else |s|]
  {
    var a, b := Recent(s, n), Recent(s, n + 1);
    var m := if n < |s| then n else |s|;
    forall k | 0 <= k < m ensures a[k] == b[k] {
      assert a[k] == s[|s| - 1 - k] == b[k];
    }
  }

  /** Whatever has been pushed, the history is the ten most recent commands,
      newest first. */
  lemma {:induction false} HistoryIsNewestTen(done: seq<string>, cs: seq<string>)
    ensures PushAll(Recent(done, MaxHistory), cs) == Recent(done + cs, MaxHistory)
    decreases |cs|
  {
    if cs == [] {
      assert done + cs == done;
    } else {
      var h := Recent(done, MaxHistory);
      calc {
        PushAll(h, cs);
        PushAll(PushHistory(h, cs[0]), cs[1..]);
        { PushRecent(done, cs[0]); }
        PushAll(Recent(done + [cs[0]], MaxHistory), cs[1..]);
        { HistoryIsNewestTen(done + [cs[0]], cs[1..]); }
        Recent(done + [cs[0]] + cs[1..], MaxHistory);
        { assert done + [cs[0]] + cs[1..] == done + cs; }
        Recent(done + cs, MaxHistory);
      }
    }
  }

  /** `{ ...a, ...b }`: every key of `b` takes its value from `b`, every other key
      of `a` keeps its value, and there are no other keys. */
  function Merge(a: map<string, JsValue>, b: map<string, JsValue>): (r: map<string, JsValue>)
    ensures r.Keys == a.Keys + b.Keys
    ensures forall k :: k in b ==> r[k] == b[k]
    ensures forall k :: k in a && k !in b ==> r[k] == a[k]
  {
    a + b
  }

  /** `{ ...x }` of the module's config, which is `null` before one is loaded. */
  function Spread(config: Option<map<string, JsValue>>): map<string, JsValue> {
    if config.Some? then config.value else map[]
  }

  /** Merging the same settings twice is merging them once. */
  lemma MergeIdempotent(a: map<string, JsValue>, b: map<string, JsValue>)
    ensures Merge(Merge(a, b), b) == Merge(a, b)
  {
  }

  /** The dark-mode flag at start-up: the stored preference is `"true"`, or the
      system prefers dark. */
  function InitialDarkMode(stored: Option<string>, systemPrefersDark: bool): (d: bool)
    ensures d <==> stored == Some("true") || systemPrefersDark
  {
    stored == Some("true") || systemPrefersDark
  }

  /** `darkMode.toString()`. */
  function BoolText(b: bool): string {
    if b then "true" else "false"
  }

  /** What `updateDarkMode` stores is what the next start-up reads back, when the
      system has no dark preference of its own. */
  lemma StoredDarkModeRoundTrip(d: bool)
    ensures InitialDarkMode(Some(BoolText(d)), false) == d
  {
  }

  /** A bot handed to `createBot`: its name and whatever else the form filled in. */
  datatype BotData = BotData(name: string, fields: map<string, JsValue>)

  class AppState {
    var appConfig: Option<map<string, JsValue>>
    var darkMode: bool
    var bodyDarkClass: bool
    var storedDarkMode: Option<string>
    var activeBots: seq<BotData>
    var commandHistory: seq<string>
    const panel: LogsPanelComponent

    predicate Valid()
      reads this, panel
    {
      |commandHistory| <= MaxHistory && panel.Valid()
    }

    /** The module's state when the script loads, with the logs panel listening. */
    constructor (panel: LogsPanelComponent, stored: Option<string>)
      requires panel.Valid()
      ensures Valid() && this.panel == panel
      ensures appConfig == None && !darkMode && activeBots == [] && commandHistory == []
      ensures storedDarkMode == stored
    {
      this.panel := panel;
      appConfig := None;
      darkMode := false;
      bodyDarkClass := false;
      storedDarkMode := stored;
      activeBots := [];
      commandHistory := [];
    }

    /** `addLogEntry`: the entry goes to the logs panel and is returned. */
    method AddLogEntry(message: string, level: string, timestamp: string) returns (entry: LogEntry)
      requires Valid()
      modifies panel`logs
      ensures Valid() && entry == LogEntry(timestamp, level, message)
      ensures panel.logs == Appended(old(panel.logs), entry)
    {
      entry := LogEntry(timestamp, level, message);
      panel.AddLog(entry);
    }

    /** `clearLogs`: the panel empties, then shows only the entry saying so. */
    method ClearLogs(timestamp: string)
      requires Valid()
      modifies panel`logs
      ensures Valid() && panel.logs == [LogEntry(timestamp, "info", "Logs cleared")]
    {
      panel.ClearLogs();
      var _ := AddLogEntry("Logs cleared", "info", timestamp);
    }

    /** `addCommandToHistory`: the command goes first, the history keeps at most
        ten, and the caller gets a copy of it. */
    method AddCommandToHistory(command: string) returns (copy: seq<string>)
      requires Valid()
      modifies this`commandHistory
      ensures Valid() && commandHistory == PushHistory(old(commandHistory), command)
      ensures copy == commandHistory
    {
      var u := [command] + commandHistory;
      if |u| > MaxHistory {
        u := u[..|u| - 1];
      }
      commandHistory := u;
      copy := commandHistory;
    }

    /** `getCommandHistory`: a copy of the history. */
    function GetCommandHistory(): (h: seq<string>)
      requires Valid()
      reads this, panel
      ensures |h| <= MaxHistory && h == commandHistory
    {
      commandHistory
    }

    /** `saveSettings`: the new settings are merged over the current config, which
        is kept even when saving fails; the result is the API's success. */
    method SaveSettings(updated: map<string, JsValue>, reply: ApiReply, timestamp: string) returns (ok: bool)
      requires Valid()
      modifies this`appConfig, panel`logs
      ensures Valid() && appConfig == Some(Merge(Spread(old(appConfig)), updated))
      ensures ok <==> reply == Success
      ensures panel.logs == Appended(old(panel.logs), LogEntry(timestamp, if ok then "info" else "error",
        match reply
        case Success => "Settings saved successfully"
        case Failure(e) => "Failed to save settings: " + e
        case Thrown(m) => "Error saving settings: " + m))
    {
      appConfig := Some(Merge(Spread(appConfig), updated));
      match reply {
        case Success =>
          var _ := AddLogEntry("Settings saved successfully", "info", timestamp);
          ok := true;
        case Failure(e) =>
          var _ := AddLogEntry("Failed to save settings: " + e, "error", timestamp);
          ok := false;
        case Thrown(m) =>
          var _ := AddLogEntry("Error saving settings: " + m, "error", timestamp);
          ok := false;
      }
    }

    /** `updateDarkMode`: the body class and the stored preference follow the flag,
        which is returned. */
    method UpdateDarkMode() returns (d: bool)
      modifies this`bodyDarkClass, this`storedDarkMode
      ensures d == darkMode && bodyDarkClass == darkMode && storedDarkMode == Some(BoolText(darkMode))
    {
      bodyDarkClass := darkMode;
      storedDarkMode := Some(BoolText(darkMode));
      d := darkMode;
    }

    /** `toggleDarkMode`: the flag flips, so two toggles restore it. */
    method ToggleDarkMode() returns (d: bool)
      modifies this`darkMode, this`bodyDarkClass, this`storedDarkMode
      ensures darkMode == !old(darkMode) && d == darkMode
      ensures bodyDarkClass == darkMode && storedDarkMode == Some(BoolText(darkMode))
    {
      darkMode := !darkMode;
      d := UpdateDarkMode();
    }

    /** `getConfig`: a copy of the config, empty before one is loaded. */
    function GetConfig(): (c: map<string, JsValue>)
      reads this
      ensures appConfig.None? ==> c == map[]
      ensures appConfig.Some? ==> c == appConfig.value
    {
      Spread(appConfig)
    }

    /** `createBot`: the bot is logged and appended to the session's bots. */
    method CreateBot(botData: BotData, timestamp: string) returns (r: bool)
      requires Valid()
      modifies this`activeBots, panel`logs
      ensures Valid() && r && activeBots == old(activeBots) + [botData]
      ensures panel.logs == Appended(old(panel.logs), LogEntry(timestamp, "info", "Bot " + botData.name + " created"))
    {
      var _ := AddLogEntry("Bot " + botData.name + " created", "info", timestamp);
      activeBots := activeBots + [botData];
      r := true;
    }
  }
}
