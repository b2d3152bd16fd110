/** The master process: the bots with their encoder processes, the in-memory
    list of director notes, the database, and the director console. `Launch` is
    `masterProcess` up to the start of the interaction loop; `RunCycle` is one
    pass of that loop over every bot; `HandleLine`, `AddDirectorCommand`, `Stop`
    and `GetStatus` are the console and the control object it returns. */
module Master {
  import opened Wrappers
  import opened Config
  import opened Registry
  import opened Encoder
  import opened Persistence
  import opened Sequences
  import opened Pipeline
  import Director

  /** The bots the process runs and the account table it leaves: the stored
      accounts when there are any, otherwise the default roster, which is also
      inserted. With no stored accounts and no platforms, start-up fails. */
  function InitialBots(c: Config, stored: seq<AccountRow>): (r: Result<(seq<AccountRow>, seq<Bot>), string>)
    ensures r.Err? <==> stored == [] && c.platforms == []
    ensures r.Err? ==> r.error == NoPlatformError
    ensures stored != [] ==> r == Ok((stored, GetAllBots(stored)))
    ensures stored == [] && r.Ok? ==>
              (r.value.1 == DefaultRoster(c.platforms).value
               && |r.value.0| == 4 && UniqueKeys(r.value.0)
               && forall i :: 0 <= i < 4 ==> GetAllBots(r.value.0)[i] == r.value.1[i].(id := Some(i + 1)))
  {
    var fromDb := GetAllBots(stored);
    if fromDb != [] then Ok((stored, fromDb))
    else
      match DefaultRoster(c.platforms)
      case Err(e) => Err(e)
      case Ok(roster) =>
        SeedEmptyRegistry(c.platforms);
        match InsertAll(stored, roster)
        case Err(e) => Err(e)
        case Ok(t) => Ok((t, roster))
  }

  /** The bytes one bot's pass delivers to its encoder: two seconds of silence
      when the pass reaches the write and the encoder is alive, otherwise none. */
  function Silence(s: BotScript, killed: bool): (n: nat)
    ensures n == TtsBytes <==> Reaches(s, Write) && !killed
    ensures n == 0 <==> !(Reaches(s, Write) && !killed)
  {
    if Reaches(s, Write) && !killed then TtsBytes else 0
  }

  /** A bot's status line in `getStatus`. */
  datatype BotStatus = BotStatus(name: string, platform: string, running: bool, persona: string, gender: string)

  datatype Status = Status(bots: seq<BotStatus>, recentCommands: seq<CommandRow>)

  class MasterProcess {
    const bots: seq<Bot>
    const processes: seq<EncoderProcess>
    var notes: seq<string>
    var db: Database
    var cliOpen: bool
    var exited: bool

    /** Every bot has its own encoder process. */
    predicate Valid() {
      |processes| == |bots|
      && forall i, j :: 0 <= i < j < |processes| ==> processes[i] != processes[j]
    }

    constructor Init(bots: seq<Bot>, processes: seq<EncoderProcess>, db: Database)
      requires |processes| == |bots|
      requires forall i, j :: 0 <= i < j < |processes| ==> processes[i] != processes[j]
      ensures Valid() && this.bots == bots && this.processes == processes && this.db == db
      ensures notes == [] && cliOpen && !exited
    {
      this.bots := bots;
      this.processes := processes;
      this.db := db;
      notes := [];
      cliOpen := true;
      exited := false;
    }

    /** `masterProcess`: choose or seed the bots, give each an encoder started with
        its own stream key, and open the console. Accounts on the platforms'
        sites and the logger are not part of this model. */
    static method Launch(c: Config, stored: Database, highWaterMark: nat) returns (r: Result<MasterProcess, string>)
      ensures r.Err? <==> InitialBots(c, stored.accounts).Err?
      ensures r.Err? ==> r.error == NoPlatformError
      ensures r.Ok? ==> var m, init := r.value, InitialBots(c, stored.accounts).value;
        && fresh(m) && m.Valid()
        && m.bots == init.1
        && m.db == stored.(accounts := init.0, open := true)
        && m.notes == [] && m.cliOpen && !m.exited
        && forall i :: 0 <= i < |m.processes| ==>
             && fresh(m.processes[i])
             && m.processes[i].args == FfmpegArgs(m.bots[i].streamKey, c.ffmpegOptions, c.staticBackgroundPath)
             && m.processes[i].highWaterMark == highWaterMark
             && !m.processes[i].killed && m.processes[i].killCalls == 0 && m.processes[i].Submitted() == 0
    {
      var init := InitialBots(c, stored.accounts);
      if init.Err? {
        return Err(init.error);
      }
      var bots := init.value.1;
      var processes := SpawnEncoders(
        seq(|bots|, j requires 0 <= j < |bots| => FfmpegArgs(bots[j].streamKey, c.ffmpegOptions, c.staticBackgroundPath)),
        highWaterMark);
      var m := new MasterProcess.Init(bots, processes, stored.(accounts := init.value.0, open := true));
      return Ok(m);
    }

    /** One freshly spawned encoder per argument vector, in order. */
    static method SpawnEncoders(argv: seq<seq<string>>, highWaterMark: nat) returns (processes: seq<EncoderProcess>)
      ensures |processes| == |argv|
      ensures forall j, k :: 0 <= j < k < |processes| ==> processes[j] != processes[k]
      ensures forall j :: 0 <= j < |processes| ==>
        && fresh(processes[j])
        && processes[j].args == argv[j] && processes[j].highWaterMark == highWaterMark
        && !processes[j].killed && processes[j].killCalls == 0 && processes[j].Submitted() == 0
    {
      processes := [];
      var i := 0;
      while i < |argv|
        invariant 0 <= i <= |argv| && |processes| == i
        invariant forall j, k :: 0 <= j < k < i ==> processes[j] != processes[k]
        invariant forall j :: 0 <= j < i ==>
          && fresh(processes[j])
          && processes[j].args == argv[j] && processes[j].highWaterMark == highWaterMark
          && !processes[j].killed && processes[j].killCalls == 0 && processes[j].Submitted() == 0
      {
        var p := new EncoderProcess.Spawn(argv[i], highWaterMark);
        processes := processes + [p];
        i := i + 1;
      }
    }

    /** One bot's pass: if it gets as far as the write, two seconds of silence go
        to its encoder (delivered only if the encoder is alive); the row it
        stores, if any, is returned. */
    method ServeBot(k: nat, s: BotScript, now: string) returns (row: seq<InteractionRow>)
      requires Valid() && k < |bots|
      modifies processes[k]
      ensures row == BotLog(bots[k], s, old(notes), old(db.open), now)
      ensures forall i :: 0 <= i < |processes| ==> processes[i].killed == old(processes[i].killed)
      ensures forall i :: 0 <= i < |processes| ==> processes[i].killCalls == old(processes[i].killCalls)
      ensures forall i :: 0 <= i < |processes| ==>
        processes[i].queued + processes[i].consumed == old(processes[i].queued + processes[i].consumed)
          + (if i == k then Silence(s, old(processes[i].killed)) else 0)
    {
      var b, p := bots[k], processes[k];
      if Reaches(s, Write) {
        var delivered := PipeAudioBuffer(p, GenerateTts(ReplyOf(b, s, notes)));
      }
      row := BotLog(b, s, notes, db.open, now);
    }

    /** One pass of the interaction loop: every bot in order, each inside its own
        error boundary. The notes used are those at the start of the pass. Each
        bot that reaches the write sends two seconds of silence to its encoder,
        and the rows the pass stores are exactly `CycleLog`. */
    method RunCycle(scripts: seq<BotScript>, now: string)
      requires Valid() && |scripts| == |bots|
      modifies this`db, processes
      ensures db == old(db).(logs := old(db.logs) + CycleLog(bots, scripts, notes, old(db.open), now))
      ensures forall i :: 0 <= i < |processes| ==>
        && processes[i].killed == old(processes[i].killed)
        && processes[i].killCalls == old(processes[i].killCalls)
        && processes[i].Submitted() == old(processes[i].Submitted())
             + Silence(scripts[i], old(processes[i].killed))
    {
      var rows, dbOpen := [], db.open;
      ghost var notes0 := notes;
      var k := 0;
      while k < |bots|
        modifies processes
        invariant 0 <= k <= |bots|
        invariant notes == notes0
        invariant rows == CycleLog(bots[..k], scripts[..k], notes0, dbOpen, now)
        invariant forall i :: 0 <= i < |processes| ==> processes[i].killed == old(processes[i].killed)
        invariant forall i :: 0 <= i < |processes| ==> processes[i].killCalls == old(processes[i].killCalls)
        invariant forall i :: 0 <= i < |processes| ==>
          processes[i].queued + processes[i].consumed == old(processes[i].queued + processes[i].consumed)
            + (if i < k then Silence(scripts[i], old(processes[i].killed)) else 0)
      {
        var row := ServeBot(k, scripts[k], now);
        CycleLogSnoc(bots, scripts, k, notes0, dbOpen, now);
        rows := rows + row;
        k := k + 1;
      }
      assert bots[..k] == bots && scripts[..k] == scripts;
      db := db.(logs := db.logs + rows);
    }

    /** A line typed at the console, while it is open: the console's output is
        returned, and the notes, the database and the exit flag change as
        `Director.HandleLine` says. `--exit` closes the console and ends the process. */
    method HandleLine(line: string, now: string) returns (output: seq<string>)
      requires cliOpen
      modifies this`notes, this`db, this`cliOpen, this`exited
      ensures var e := Director.HandleLine(line, old(db), now);
        && output == e.output && db == e.db
        && notes == old(notes) + (if e.note.Some? then [e.note.value] else [])
        && exited == (old(exited) || e.exit) && cliOpen == !e.exit
    {
      var e := Director.HandleLine(line, db, now);
      if e.note.Some? {
        notes := notes + [e.note.value];
      }
      db := e.db;
      if e.exit {
        cliOpen := false;
        exited := true;
      }
      output := e.output;
    }

    /** `addDirectorCommand`: the note is always kept; it is stored, and `true`
        returned, exactly when the connection is open. */
    method AddDirectorCommand(command: string, now: string) returns (stored: bool)
      modifies this`notes, this`db
      ensures notes == old(notes) + [command]
      ensures stored <==> old(db).open
      ensures db == if stored then old(db).(commands := old(db.commands) + [CommandRow(command, false, now)]) else old(db)
    {
      notes := notes + [command];
      var r := AppendCommand(db, command, now);
      if r.Ok? {
        db := r.value;
        return true;
      }
      return false;
    }

    /** `stop`: kill every encoder not already killed, close the console and the
        connection. A second stop kills nothing again. */
    method Stop()
      requires Valid()
      modifies this`cliOpen, this`db, processes
      ensures !cliOpen && db == old(db).(open := false)
      ensures forall i :: 0 <= i < |processes| ==>
        && processes[i].killed
        && processes[i].killCalls == old(processes[i].killCalls) + (if old(processes[i].killed) then 0 else 1)
        && processes[i].queued == old(processes[i].queued) && processes[i].consumed == old(processes[i].consumed)
    {
      var k := 0;
      while k < |processes|
        invariant 0 <= k <= |processes|
        invariant forall i :: 0 <= i < k ==>
          && processes[i].killed
          && processes[i].killCalls == old(processes[i].killCalls) + (if old(processes[i].killed) then 0 else 1)
        invariant forall i :: k <= i < |processes| ==>
          processes[i].killed == old(processes[i].killed) && processes[i].killCalls == old(processes[i].killCalls)
        invariant forall i :: 0 <= i < |processes| ==>
          processes[i].queued == old(processes[i].queued) && processes[i].consumed == old(processes[i].consumed)
        invariant db == old(db)
      {
        if !processes[k].killed {
          processes[k].Kill();
        }
        k := k + 1;
      }
      cliOpen := false;
      db := db.(open := false);
    }

    /** `getStatus`: each bot with whether its encoder is still running, and the
        ten most recent director commands, newest first; after `stop` the query
        fails and the error is returned instead. */
    function GetStatus(): (r: Result<Status, string>)
      requires Valid()
      reads this, processes
      ensures r.Err? <==> !db.open
      ensures r.Err? ==> r.error == NotOpen
      ensures r.Ok? ==> |r.value.bots| == |bots| && r.value.recentCommands == Recent(db.commands, 10)
      ensures r.Ok? ==> forall i :: 0 <= i < |bots| ==>
        r.value.bots[i] == BotStatus(bots[i].name, bots[i].platform, !processes[i].killed, bots[i].persona, bots[i].gender)
    {
      if !db.open then Err(NotOpen)
      else
        Ok(Status(seq(|bots|, i requires 0 <= i < |bots| reads processes =>
                        BotStatus(bots[i].name, bots[i].platform, !processes[i].killed, bots[i].persona, bots[i].gender)),
                  Recent(db.commands, 10)))
    }
  }

  /** Once the connection is closed (after `stop`, while the loop goes on), a pass
      stores nothing. */
  lemma {:induction false} ClosedDatabaseStoresNothing(bots: seq<Bot>, scripts: seq<BotScript>,
                                                       notes: seq<string>, now: string)
    requires |scripts| == |bots|
    ensures CycleLog(bots, scripts, notes, false, now) == []
    decreases |bots|
  {
    if bots != [] {
      ClosedDatabaseStoresNothing(bots[..|bots| - 1], scripts[..|bots| - 1], notes, now);
    }
  }
}
