/** The bot registry: the `bot_accounts` table (unique on bot name and
    platform), the mapping of its rows to bots (`getAllBots`), and the default
    roster seeded into an empty registry (`masterProcess`). The SQL drivers are
    foreign; the table is the sequence of its rows in rowid order, and an insert
    takes the next rowid, one more than the largest present. For an INTEGER
    PRIMARY KEY, SQLite picks that rowid before a REPLACE deletes the conflicting
    row, so a replaced row always gets a new rowid. */
module Registry {
  import opened Wrappers
  import opened JsString
  import opened Config

  /** A bot as the orchestrator holds it (`id` only once read from the table). */
  datatype Bot = Bot(
    id: Option<nat>, name: string, platform: string, username: string, password: string,
    signupUrl: string, streamKey: string, persona: string, gender: string)

  /** A row of `bot_accounts`; persona and gender may be NULL. */
  datatype AccountRow = AccountRow(
    id: nat, botName: string, platform: string, username: string, password: string,
    signupUrl: string, streamKey: string, persona: Option<string>, gender: Option<string>)

  const DefaultPersona: string := "Default persona"
  const DefaultGender: string := "M"

  /** `v || d` for a nullable text column: NULL and the empty string are falsy. */
  function OrDefault(v: Option<string>, d: string): (r: string)
    ensures v.None? || v.value == "" ==> r == d
    ensures v.Some? && v.value != "" ==> r == v.value
    ensures d != "" ==> r != ""
  {
    if v.None? || v.value == "" then d else v.value
  }

  /** The bot a row denotes: columns renamed, persona and gender defaulted. */
  function BotOfRow(row: AccountRow): (b: Bot)
    ensures b.id == Some(row.id) && b.name == row.botName && b.platform == row.platform
    ensures b.username == row.username && b.password == row.password
    ensures b.signupUrl == row.signupUrl && b.streamKey == row.streamKey
    ensures b.persona == (if row.persona.None? || row.persona.value == "" then DefaultPersona else row.persona.value)
    ensures b.gender == (if row.gender.None? || row.gender.value == "" then DefaultGender else row.gender.value)
    ensures b.persona != "" && b.gender != ""
  {
    Bot(Some(row.id), row.botName, row.platform, row.username, row.password,
        row.signupUrl, row.streamKey, OrDefault(row.persona, DefaultPersona), OrDefault(row.gender, DefaultGender))
  }

  /** `getAllBots`: one bot per row, in row order; every bot has a non-empty
      persona and gender. */
  function GetAllBots(rows: seq<AccountRow>): (bots: seq<Bot>)
    ensures |bots| == |rows|
    ensures forall i :: 0 <= i < |rows| ==> bots[i] == BotOfRow(rows[i])
    ensures forall i :: 0 <= i < |bots| ==> bots[i].persona != "" && bots[i].gender != ""
  {
    seq(|rows|, i requires 0 <= i < |rows| => BotOfRow(rows[i]))
  }

  /** The row that stores bot `b` under rowid `id`. */
  function RowOf(id: nat, b: Bot): AccountRow {
    AccountRow(id, b.name, b.platform, b.username, b.password, b.signupUrl, b.streamKey,
               Some(b.persona), Some(b.gender))
  }

  /** Storing a bot and reading it back gives the bot, now with its rowid, as
      long as its persona and gender are not empty (those would read back as the
      defaults). */
  lemma BotOfRowOf(id: nat, b: Bot)
    requires b.persona != "" && b.gender != ""
    ensures BotOfRow(RowOf(id, b)) == b.(id := Some(id))
  {
  }

  type Key = (string, string)

  function KeyOf(row: AccountRow): Key {
    (row.botName, row.platform)
  }

  function BotKey(b: Bot): Key {
    (b.name, b.platform)
  }

  function Keys(t: seq<AccountRow>): set<Key>
    decreases |t|
  {
    if t == [] then {} else {KeyOf(t[0])} + Keys(t[1..])
  }

  /** The UNIQUE(bot_name, platform) constraint. */
  predicate UniqueKeys(t: seq<AccountRow>)
    decreases |t|
  {
    t == [] || (KeyOf(t[0]) !in Keys(t[1..]) && UniqueKeys(t[1..]))
  }

  /** The largest rowid in the table (0 when empty). */
  function MaxId(t: seq<AccountRow>): (m: nat)
    ensures forall i :: 0 <= i < |t| ==> t[i].id <= m
    ensures t == [] ==> m == 0
    decreases |t|
  {
    if t == [] then 0
    else var m := MaxId(t[1..]); if t[0].id > m then t[0].id else m
  }

  /** The rows whose key is `k` (`same`) or is not `k` (`!same`), in table order. */
  function Select(t: seq<AccountRow>, k: Key, same: bool): (r: seq<AccountRow>)
    ensures |r| <= |t|
    ensures forall i :: 0 <= i < |r| ==> (KeyOf(r[i]) == k) == same
    decreases |t|
  {
    if t == [] then []
    else (if (KeyOf(t[0]) == k) == same then [t[0]] else []) + Select(t[1..], k, same)
  }

  lemma {:induction false} SelectAppend(a: seq<AccountRow>, b: seq<AccountRow>, k: Key, same: bool)
    ensures Select(a + b, k, same) == Select(a, k, same) + Select(b, k, same)
    decreases |a|
  {
    if a == [] {
      assert a + b == b;
    } else {
      assert (a + b)[0] == a[0];
      assert (a + b)[1..] == a[1..] + b;
      SelectAppend(a[1..], b, k, same);
    }
  }

  lemma {:induction false} KeysSelect(t: seq<AccountRow>, k: Key)
    ensures Keys(Select(t, k, false)) == Keys(t) - {k}
    ensures k !in Keys(t) ==> Select(t, k, false) == t
    decreases |t|
  {
    if t != [] {
      KeysSelect(t[1..], k);
      var h := if KeyOf(t[0]) != k then [t[0]] else [];
      KeysAppend(h, Select(t[1..], k, false));
    }
  }

  lemma {:induction false} KeysAppend(a: seq<AccountRow>, b: seq<AccountRow>)
    ensures Keys(a + b) == Keys(a) + Keys(b)
    decreases |a|
  {
    if a == [] {
      assert a + b == b;
    } else {
      assert (a + b)[0] == a[0];
      assert (a + b)[1..] == a[1..] + b;
      KeysAppend(a[1..], b);
    }
  }

  lemma {:induction false} UniqueSelect(t: seq<AccountRow>, k: Key)
    requires UniqueKeys(t)
    ensures UniqueKeys(Select(t, k, false))
    decreases |t|
  {
    if t != [] {
      UniqueSelect(t[1..], k);
      KeysSelect(t[1..], k);
      var r := Select(t, k, false);
      if KeyOf(t[0]) != k {
        assert r == [t[0]] + Select(t[1..], k, false);
        assert r[1..] == Select(t[1..], k, false);
      } else {
        assert r == Select(t[1..], k, false);
      }
    }
  }

  lemma {:induction false} UniqueAppendOne(a: seq<AccountRow>, row: AccountRow)
    requires UniqueKeys(a) && KeyOf(row) !in Keys(a)
    ensures UniqueKeys(a + [row])
    decreases |a|
  {
    if a == [] {
      assert a + [row] == [row];
      assert [row][1..] == [];
    } else {
      assert (a + [row])[1..] == a[1..] + [row];
      UniqueAppendOne(a[1..], row);
      KeysAppend(a[1..], [row]);
      assert Keys([row]) == {KeyOf(row)} by { assert [row][1..] == []; }
    }
  }

  /** `INSERT OR REPLACE INTO bot_accounts`: the bot's row takes the next rowid
      of the table as it stands, then every row with the bot's key is deleted and
      the new row is appended. */
  function Upsert(t: seq<AccountRow>, b: Bot): seq<AccountRow> {
    Select(t, BotKey(b), false) + [RowOf(MaxId(t) + 1, b)]
  }

  /** After an upsert the table holds exactly one row with the bot's key, the
      bot's own, last, under a rowid above every rowid before; the rows of every
      other key are untouched in order; and the UNIQUE constraint still holds. */
  lemma UpsertSpec(t: seq<AccountRow>, b: Bot)
    ensures var u := Upsert(t, b);
      |u| >= 1 && u[|u| - 1] == RowOf(u[|u| - 1].id, b)
      && (forall i :: 0 <= i < |t| ==> t[i].id < u[|u| - 1].id)
      && Select(u, BotKey(b), true) == [u[|u| - 1]]
      && (forall k :: k != BotKey(b) ==> Select(u, k, true) == Select(t, k, true))
      && Keys(u) == Keys(t) + {BotKey(b)}
    ensures UniqueKeys(t) ==> UniqueKeys(Upsert(t, b))
  {
    UpsertOwnRow(t, b);
    forall k' | k' != BotKey(b) ensures Select(Upsert(t, b), k', true) == Select(t, k', true) {
      UpsertOtherKey(t, b, k');
    }
    UpsertKeys(t, b);
    if UniqueKeys(t) {
      var k := BotKey(b);
      var rest := Select(t, k, false);
      KeysSelect(t, k);
      UniqueSelect(t, k);
      UniqueAppendOne(rest, RowOf(MaxId(t) + 1, b));
    }
  }

  /** The bot's key selects exactly the appended row. */
  lemma UpsertOwnRow(t: seq<AccountRow>, b: Bot)
    ensures var u := Upsert(t, b); Select(u, BotKey(b), true) == [u[|u| - 1]]
  {
    var k := BotKey(b);
    var rest := Select(t, k, false);
    var row := RowOf(MaxId(t) + 1, b);
    SelectAppend(rest, [row], k, true);
    KeysSelect(t, k);
    NoKeyNoRows(rest, k);
    assert Select([row], k, true) == [row] by { assert [row][1..] == []; }
  }

  /** Any other key selects the same rows as before. */
  lemma UpsertOtherKey(t: seq<AccountRow>, b: Bot, k': Key)
    requires k' != BotKey(b)
    ensures Select(Upsert(t, b), k', true) == Select(t, k', true)
  {
    var k := BotKey(b);
    var rest := Select(t, k, false);
    var row := RowOf(MaxId(t) + 1, b);
    SelectAppend(rest, [row], k', true);
    assert Select([row], k', true) == [] by { assert [row][1..] == []; }
    SelectOtherKey(t, k, k');
  }

  /** The keys after an upsert are the old ones and the bot's. */
  lemma UpsertKeys(t: seq<AccountRow>, b: Bot)
    ensures Keys(Upsert(t, b)) == Keys(t) + {BotKey(b)}
  {
    var k := BotKey(b);
    var rest := Select(t, k, false);
    var row := RowOf(MaxId(t) + 1, b);
    KeysSelect(t, k);
    KeysAppend(rest, [row]);
    assert Keys([row]) == {k} by { assert [row][1..] == []; }
    assert Upsert(t, b) == rest + [row];
    assert (Keys(t) - {k}) + {k} == Keys(t) + {k};
  }

  lemma {:induction false} NoKeyNoRows(t: seq<AccountRow>, k: Key)
    requires k !in Keys(t)
    ensures Select(t, k, true) == []
    decreases |t|
  {
    if t != [] {
      NoKeyNoRows(t[1..], k);
    }
  }

  /** Deleting the rows of one key leaves the rows of another key alone. */
  lemma {:induction false} SelectOtherKey(t: seq<AccountRow>, k: Key, k': Key)
    requires k != k'
    ensures Select(Select(t, k, false), k', true) == Select(t, k', true)
    decreases |t|
  {
    if t != [] {
      SelectOtherKey(t[1..], k, k');
      var h := if KeyOf(t[0]) != k then [t[0]] else [];
      SelectAppend(h, Select(t[1..], k, false), k', true);
      if h != [] { assert h[1..] == []; }
    }
  }

  /** Upserting the same bot twice leaves the table as one upsert did, except
      that the bot's row has moved to the next rowid: re-seeding does not
      duplicate rows, and other rows keep their rowids. */
  lemma UpsertIdempotent(t: seq<AccountRow>, b: Bot)
    ensures var u := Upsert(t, b); var v := Upsert(u, b);
      |v| == |u| && v[..|v| - 1] == u[..|u| - 1]
      && v[|v| - 1] == u[|u| - 1].(id := u[|u| - 1].id + 1)
      && Keys(v) == Keys(u)
  {
    var rest := Select(t, BotKey(b), false);
    var u := Upsert(t, b);
    var v := Upsert(u, b);
    ReUpsert(t, b);
    assert u[..|u| - 1] == rest;
    assert v[..|v| - 1] == rest;
    UpsertKeys(u, b);
    UpsertKeys(t, b);
  }

  /** The second upsert deletes the first one's row and appends the bot under
      the rowid after it. */
  lemma ReUpsert(t: seq<AccountRow>, b: Bot)
    ensures Upsert(Upsert(t, b), b) == Select(t, BotKey(b), false) + [RowOf(MaxId(t) + 2, b)]
  {
    var u := Upsert(t, b);
    var k := BotKey(b);
    UpsertRest(t, b);
    UpsertMaxId(t, b);
    var rest, id := Select(u, k, false), MaxId(u) + 1;
    assert rest == Select(t, k, false) && id == MaxId(t) + 2;
    assert Upsert(u, b) == rest + [RowOf(id, b)];
  }

  /** Deleting the bot's key after an upsert leaves the other rows as they were. */
  lemma UpsertRest(t: seq<AccountRow>, b: Bot)
    ensures Select(Upsert(t, b), BotKey(b), false) == Select(t, BotKey(b), false)
  {
    var k := BotKey(b);
    var rest := Select(t, k, false);
    var row := RowOf(MaxId(t) + 1, b);
    SelectAppend(rest, [row], k, false);
    assert Select([row], k, false) == [] by { assert [row][1..] == []; }
    KeysSelect(t, k);
    KeysSelect(rest, k);
    assert Upsert(t, b) == rest + [row];
    assert rest + [] == rest;
  }

  /** The upserted row holds the largest rowid. */
  lemma UpsertMaxId(t: seq<AccountRow>, b: Bot)
    ensures MaxId(Upsert(t, b)) == MaxId(t) + 1
  {
    var rest := Select(t, BotKey(b), false);
    SelectIdsBounded(t, BotKey(b), false);
    MaxIdBound(rest, MaxId(t));
    MaxIdAppend(rest, RowOf(MaxId(t) + 1, b));
  }

  /** The rows a selection keeps have rowids no larger than the table's largest. */
  lemma {:induction false} SelectIdsBounded(t: seq<AccountRow>, k: Key, same: bool)
    ensures forall i :: 0 <= i < |Select(t, k, same)| ==> Select(t, k, same)[i].id <= MaxId(t)
    decreases |t|
  {
    if t != [] {
      SelectIdsBounded(t[1..], k, same);
      var h: seq<AccountRow> := if (KeyOf(t[0]) == k) == same then [t[0]] else [];
      var s := Select(t[1..], k, same);
      assert Select(t, k, same) == h + s;
      forall i | 0 <= i < |h + s| ensures (h + s)[i].id <= MaxId(t) {
        if i >= |h| { assert (h + s)[i] == s[i - |h|]; }
      }
    }
  }

  /** A bound on every rowid bounds the largest. */
  lemma {:induction false} MaxIdBound(t: seq<AccountRow>, m: nat)
    requires forall i :: 0 <= i < |t| ==> t[i].id <= m
    ensures MaxId(t) <= m
    decreases |t|
  {
    if t != [] {
      assert forall i :: 0 <= i < |t[1..]| ==> t[1..][i] == t[i + 1];
      MaxIdBound(t[1..], m);
    }
  }

  const UniqueViolation: string := "UNIQUE constraint failed: bot_accounts.bot_name, bot_accounts.platform"

  /** A plain `INSERT INTO bot_accounts`: appended under the next rowid, or
      refused when a row with the bot's key exists. */
  function Insert(t: seq<AccountRow>, b: Bot): (r: Result<seq<AccountRow>, string>)
    ensures r.Err? <==> BotKey(b) in Keys(t)
    ensures r.Err? ==> r.error == UniqueViolation
    ensures r.Ok? ==> r.value == t + [RowOf(MaxId(t) + 1, b)]
  {
    if BotKey(b) in Keys(t) then Err(UniqueViolation) else Ok(t + [RowOf(MaxId(t) + 1, b)])
  }

  /** A plain INSERT keeps the UNIQUE constraint: a successful insert adds the
      bot's key, which was not there, and a table with unique keys keeps them. */
  lemma InsertKeepsUnique(t: seq<AccountRow>, b: Bot)
    ensures Insert(t, b).Ok? ==> Keys(Insert(t, b).value) == Keys(t) + {BotKey(b)}
    ensures Insert(t, b).Ok? && UniqueKeys(t) ==> UniqueKeys(Insert(t, b).value)
  {
    if Insert(t, b).Ok? {
      var row := RowOf(MaxId(t) + 1, b);
      KeysAppend(t, [row]);
      assert Keys([row]) == {BotKey(b)} by { assert [row][1..] == []; }
      if UniqueKeys(t) {
        UniqueAppendOne(t, row);
      }
    }
  }

  /** The seeding loop: insert the bots in order, stopping at the first failure. */
  function InsertAll(t: seq<AccountRow>, bots: seq<Bot>): (r: Result<seq<AccountRow>, string>)
    ensures r.Err? ==> r.error == UniqueViolation
    ensures r.Ok? ==> |r.value| == |t| + |bots|
    decreases |bots|
  {
    if bots == [] then Ok(t)
    else match Insert(t, bots[0])
      case Err(e) => Err(e)
      case Ok(t') => InsertAll(t', bots[1..])
  }

  /** The personas and genders of the default roster. */
  const DefaultPersonalities: seq<(string, string)> := [
    ("Logical Atheist persona", "M"),
    ("Cheerful Spiritual persona", "F"),
    ("Skeptical Philosopher persona", "random"),
    ("Empathetic Listener persona", "random")
  ]

  /** Default bot number `i` (0-based) on platform `p`. */
  function SeedBot(i: nat, personality: (string, string), p: Platform): Bot {
    var n := NatToString(i + 1);
    Bot(None, "Bot" + n, p.name, "bot" + n + "_" + p.name, "securePassword" + n,
        p.accountCreationUrl, p.rtmpTemplate + "BOT_" + n + "_KEY", personality.0, personality.1)
  }

  /** What reading `.name` of `PLATFORMS[NaN]` throws when there are no platforms. */
  const NoPlatformError: string := "Cannot read properties of undefined (reading 'name')"

  /** The default roster: four bots, bot `i` on platform `i % |platforms|`. With
      no platforms the seeding throws. */
  function DefaultRoster(platforms: seq<Platform>): (r: Result<seq<Bot>, string>)
    ensures r.Err? <==> platforms == []
    ensures r.Err? ==> r.error == NoPlatformError
    ensures r.Ok? ==> |r.value| == |DefaultPersonalities| == 4
    ensures r.Ok? ==> forall i :: 0 <= i < 4 ==>
      var b, p := r.value[i], platforms[i % |platforms|];
      b.id == None
      && b.name == "Bot" + NatToString(i + 1)
      && b.platform == p.name
      && b.streamKey == p.rtmpTemplate + "BOT_" + NatToString(i + 1) + "_KEY"
      && b.username == "bot" + NatToString(i + 1) + "_" + p.name
      && b.password == "securePassword" + NatToString(i + 1)
      && b.signupUrl == p.accountCreationUrl
      && (b.persona, b.gender) == DefaultPersonalities[i]
  {
    if platforms == [] then Err(NoPlatformError)
    else Ok(seq(4, i requires 0 <= i < 4 =>
      SeedBot(i, DefaultPersonalities[i], platforms[i % |platforms|])))
  }

  /** The default bots have pairwise different names, so no two share a key. */
  lemma DefaultRosterNamesDistinct(platforms: seq<Platform>)
    requires platforms != []
    ensures var bots := DefaultRoster(platforms).value;
      forall i, j :: 0 <= i < j < 4 ==> bots[i].name != bots[j].name
  {
    var bots := DefaultRoster(platforms).value;
    forall i, j | 0 <= i < j < 4 ensures bots[i].name != bots[j].name {
      var a, b := NatToString(i + 1), NatToString(j + 1);
      if bots[i].name == bots[j].name {
        assert ("Bot" + a)[3..] == a && ("Bot" + b)[3..] == b;
        NatToStringInjective(i + 1, j + 1);
      }
    }
  }

  /** With the default three platforms the roster goes tiktok, youtube, xcom,
      then tiktok again. */
  lemma DefaultRosterOnDefaultPlatforms()
    ensures DefaultRoster(DefaultPlatforms).Ok?
    ensures var bots := DefaultRoster(DefaultPlatforms).value;
      bots[0].platform == "tiktok" && bots[1].platform == "youtube"
      && bots[2].platform == "xcom" && bots[3].platform == "tiktok"
  {
    assert 3 % 3 == 0;
  }

  /** Seeding an empty registry stores the four default bots with rowids 1 to 4,
      and `getAllBots` then reads back exactly that roster. */
  lemma SeedEmptyRegistry(platforms: seq<Platform>)
    requires platforms != []
    ensures var bots := DefaultRoster(platforms).value;
      InsertAll([], bots).Ok?
      && |InsertAll([], bots).value| == 4
      && UniqueKeys(InsertAll([], bots).value)
      && forall i :: 0 <= i < 4 ==> GetAllBots(InsertAll([], bots).value)[i] == bots[i].(id := Some(i + 1))
  {
    var bots := DefaultRoster(platforms).value;
    DefaultRosterNamesDistinct(platforms);
    SeedInserts([], bots, 0);
    var t := InsertAll([], bots).value;
    forall i | 0 <= i < 4 ensures GetAllBots(t)[i] == bots[i].(id := Some(i + 1)) {
      BotOfRowOf(i + 1, bots[i]);
    }
  }

  /** Inserting bots with pairwise different names into a table that holds none
      of them succeeds and appends them in order under consecutive rowids. */
  lemma {:induction false} SeedInserts(t: seq<AccountRow>, bots: seq<Bot>, base: nat)
    requires UniqueKeys(t) && |t| == base && MaxId(t) == base
    requires forall i, j :: 0 <= i < j < |bots| ==> bots[i].name != bots[j].name
    requires forall i :: 0 <= i < |bots| ==> BotKey(bots[i]) !in Keys(t)
    ensures InsertAll(t, bots).Ok?
    ensures var u := InsertAll(t, bots).value;
      |u| == base + |bots| && u[..base] == t && UniqueKeys(u)
      && forall i :: 0 <= i < |bots| ==> u[base + i] == RowOf(base + i + 1, bots[i])
    decreases |bots|
  {
    if bots != [] {
      var t' := t + [RowOf(base + 1, bots[0])];
      InsertFresh(t, bots[0], base);
      forall i | 0 <= i < |bots[1..]| ensures BotKey(bots[1..][i]) !in Keys(t') {
        assert bots[1..][i] == bots[i + 1];
        assert bots[i + 1].name != bots[0].name;
      }
      SeedInserts(t', bots[1..], base + 1);
      var u := InsertAll(t', bots[1..]).value;
      assert InsertAll(t, bots) == InsertAll(t', bots[1..]);
      SeedShift(u, t, bots, base);
    }
  }

  /** The rows after one more insert, read from the position before it. */
  lemma SeedShift(u: seq<AccountRow>, t: seq<AccountRow>, bots: seq<Bot>, base: nat)
    requires |bots| >= 1 && |t| == base && |u| == base + |bots|
    requires u[..base + 1] == t + [RowOf(base + 1, bots[0])]
    requires forall i :: 0 <= i < |bots| - 1 ==> u[base + 1 + i] == RowOf(base + 1 + i + 1, bots[1..][i])
    ensures u[..base] == t
    ensures forall i :: 0 <= i < |bots| ==> u[base + i] == RowOf(base + i + 1, bots[i])
  {
    assert u[..base] == u[..base + 1][..base];
    forall i | 0 <= i < |bots| ensures u[base + i] == RowOf(base + i + 1, bots[i]) {
      if i == 0 { assert u[base] == u[..base + 1][base]; }
      else { assert bots[1..][i - 1] == bots[i]; }
    }
  }

  /** Inserting a bot whose key is new appends it under the next rowid, keeps the
      keys unique and adds its key. */
  lemma InsertFresh(t: seq<AccountRow>, b: Bot, base: nat)
    requires UniqueKeys(t) && |t| == base && MaxId(t) == base && BotKey(b) !in Keys(t)
    ensures var t' := t + [RowOf(base + 1, b)];
      Insert(t, b) == Ok(t')
      && UniqueKeys(t') && |t'| == base + 1 && MaxId(t') == base + 1
      && Keys(t') == Keys(t) + {BotKey(b)}
  {
    var row := RowOf(base + 1, b);
    UniqueAppendOne(t, row);
    KeysAppend(t, [row]);
    assert Keys([row]) == {BotKey(b)} by { assert [row][1..] == []; }
    MaxIdAppend(t, row);
  }

  lemma {:induction false} MaxIdAppend(t: seq<AccountRow>, row: AccountRow)
    requires row.id >= MaxId(t)
    ensures MaxId(t + [row]) == row.id
    decreases |t|
  {
    if t == [] {
      assert [row][1..] == [];
    } else {
      assert (t + [row])[1..] == t[1..] + [row];
      MaxIdAppend(t[1..], row);
    }
  }
}
