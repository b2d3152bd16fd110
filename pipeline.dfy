/** One pass of the interaction pipeline for one bot: transcribe, compose the
    reply (`generateGPTResponse`), synthesise, write to the encoder, store. The
    providers are inputs: a `BotScript` says what each external call does for
    one bot in one cycle. The pure parts here are the reply text and the log the
    cycle leaves; the loop itself is `Master.MasterProcess.RunCycle`. */
module Pipeline {
  import opened Wrappers
  import opened JsString
  import opened Registry
  import opened Persistence

  /** The gender a reply uses: `random` is resolved by the coin
      (`Math.random() > 0.5` gives M), any other value is used as it is. */
  function EffectiveGender(gender: string, coin: bool): (g: string)
    ensures gender == "random" ==> (g == "M" <==> coin) && (g == "F" <==> !coin)
    ensures gender != "random" ==> g == gender
  {
    if gender == "random" then (if coin then "M" else "F") else gender
  }

  const WarmStyle: string := "with warmth and empathy"
  const AuthorityStyle: string := "with authority and logic"

  /** Only the effective gender F gets the warm style. */
  function VoiceStyle(g: string): (s: string)
    ensures s == WarmStyle <==> g == "F"
    ensures s == AuthorityStyle <==> g != "F"
  {
    if g == "F" then WarmStyle else AuthorityStyle
  }

  /** The director note of a reply: the last note only, none when there are none. */
  function DirectorNote(notes: seq<string>): (n: string)
    ensures notes == [] <==> n == ""
    ensures notes != [] ==> n == " (Director note: " + notes[|notes| - 1] + ")"
  {
    if |notes| > 0 then " (Director note: " + notes[|notes| - 1] + ")" else ""
  }

  const ReplyMiddle: string :=
    " is a profound topic that requires careful consideration. Let me share my perspective..."

  /** The reply before the director note. */
  function ReplyBody(input: string, persona: string, gender: string, coin: bool): (r: string)
    ensures StartsWith(r, persona + " responds ")
    ensures StartsWith(r[|persona + " responds "|..], VoiceStyle(EffectiveGender(gender, coin)))
  {
    var p := persona + " responds ";
    var s := VoiceStyle(EffectiveGender(gender, coin));
    var r := p + (s + ": I think " + input + ReplyMiddle);
    assert r[..|p|] == p;
    assert r[|p|..][..|s|] == s;
    r
  }

  /** The placeholder reply of `generateGPTResponse`: the persona, the style of the
      effective gender, the input, and the note built from the last director note. */
  function ComposeReply(input: string, persona: string, gender: string, notes: seq<string>, coin: bool): (r: string)
    ensures StartsWith(r, persona + " responds ")
    ensures EndsWith(r, DirectorNote(notes))
  {
    var b := ReplyBody(input, persona, gender, coin);
    var r := b + DirectorNote(notes);
    assert r[..|persona + " responds "|] == b[..|persona + " responds "|];
    assert r[|r| - |DirectorNote(notes)|..] == DirectorNote(notes);
    r
  }

  /** The body of a reply: the persona, then the voice style of the effective
      gender, then the input and the fixed closing text. */
  lemma ReplyBodyParts(input: string, persona: string, gender: string, coin: bool)
    ensures var r, p := ReplyBody(input, persona, gender, coin), persona + " responds ";
      |p| <= |r| && StartsWith(r[|p|..], VoiceStyle(EffectiveGender(gender, coin)) + ": I think ")
    ensures EndsWith(ReplyBody(input, persona, gender, coin), input + ReplyMiddle)
  {
    FourParts(persona + " responds ", VoiceStyle(EffectiveGender(gender, coin)) + ": I think ", input, ReplyMiddle);
  }

  /** Where the second part and the last two of four concatenated strings sit. */
  lemma FourParts(p: string, s: string, i: string, m: string)
    ensures var r := p + (s + i + m); |p| <= |r| && StartsWith(r[|p|..], s) && EndsWith(r, i + m)
  {
    var r := p + (s + i + m);
    assert r[|p|..] == s + i + m;
    assert (s + i + m)[..|s|] == s;
    assert r[|r| - |i + m|..] == i + m;
  }

  /** A reply is its body followed by the director note: exactly the body when
      there are no notes, otherwise ending with the note built from the last one. */
  lemma ReplyCarriesNote(input: string, persona: string, gender: string, notes: seq<string>, coin: bool)
    ensures var r, b := ComposeReply(input, persona, gender, notes, coin), ReplyBody(input, persona, gender, coin);
      StartsWith(r, b) && EndsWith(r, DirectorNote(notes))
      && |r| == |b| + |DirectorNote(notes)|
    ensures notes == [] ==> ComposeReply(input, persona, gender, notes, coin) == ReplyBody(input, persona, gender, coin)
    ensures notes != [] ==>
      EndsWith(ComposeReply(input, persona, gender, notes, coin), " (Director note: " + notes[|notes| - 1] + ")")
  {
    var b := ReplyBody(input, persona, gender, coin);
    var d := DirectorNote(notes);
    var r := ComposeReply(input, persona, gender, notes, coin);
    assert r == b + d;
    assert r[..|b|] == b;
    assert r[|r| - |d|..] == d;
    if notes == [] {
      assert r == b + "" == b;
    }
  }

  /** Two note lists with the same last note give the same reply. */
  lemma ReplyDependsOnLastNoteOnly(input: string, persona: string, gender: string,
                                     notes1: seq<string>, notes2: seq<string>, coin: bool)
    requires notes1 != [] && notes2 != [] && notes1[|notes1| - 1] == notes2[|notes2| - 1]
    ensures ComposeReply(input, persona, gender, notes1, coin) == ComposeReply(input, persona, gender, notes2, coin)
  {
  }

  /** The reply carries the warm style right after the persona exactly when the
      bot is F, or `random` and the coin gave F; otherwise it carries the
      authoritative style there. */
  lemma ReplyIsWarmIffF(input: string, persona: string, gender: string, notes: seq<string>, coin: bool)
    ensures var r, p := ComposeReply(input, persona, gender, notes, coin), persona + " responds ";
      && |r| >= |p|
      && (StartsWith(r[|p|..], WarmStyle) <==> (gender == "F" || (gender == "random" && !coin)))
      && (StartsWith(r[|p|..], AuthorityStyle) <==> !(gender == "F" || (gender == "random" && !coin)))
  {
    var r, p := ComposeReply(input, persona, gender, notes, coin), persona + " responds ";
    var b := ReplyBody(input, persona, gender, coin);
    var s := VoiceStyle(EffectiveGender(gender, coin));
    ReplyBodyParts(input, persona, gender, coin);
    ReplyCarriesNote(input, persona, gender, notes, coin);
    StartsWithAppend(s, ": I think ");
    StartsWithChain(b[|p|..], s + ": I think ", s);
    StartsWithShift(r, b, p, s);
    StylesExclusive(r[|p|..]);
    WarmOnlyForF(gender, coin);
  }

  lemma StartsWithAppend(s: string, t: string)
    ensures StartsWith(s + t, s)
  {
    assert (s + t)[..|s|] == s;
  }

  lemma StartsWithChain(x: string, y: string, z: string)
    requires StartsWith(x, y) && StartsWith(y, z)
    ensures StartsWith(x, z)
  {
    assert x[..|z|] == x[..|y|][..|z|];
  }

  /** What follows a prefix of `b` also follows it in any `r` that starts with `b`. */
  lemma StartsWithShift(r: string, b: string, p: string, s: string)
    requires StartsWith(r, b) && |p| <= |b| && StartsWith(b[|p|..], s)
    ensures StartsWith(r[|p|..], s)
  {
    assert r[|p|..][..|s|] == b[|p|..][..|s|];
  }

  /** No text starts with both styles. */
  lemma StylesExclusive(x: string)
    ensures !(StartsWith(x, WarmStyle) && StartsWith(x, AuthorityStyle))
  {
    if StartsWith(x, WarmStyle) {
      assert x[5] == WarmStyle[5] != AuthorityStyle[5];
    }
  }

  /** A reply is warm exactly when the bot is F, or `random` and the coin gave F. */
  lemma WarmOnlyForF(gender: string, coin: bool)
    ensures VoiceStyle(EffectiveGender(gender, coin)) == WarmStyle <==> (gender == "F" || (gender == "random" && !coin))
  {
  }

  /** What `generateGPTResponse` answers when its body throws. */
  const Apology: string := "I apologize, but I'm having trouble formulating a response right now."

  /** The placeholder transcription: one of four questions, each naming the bot;
      `pick` is `Math.floor(Math.random() * 4)`. */
  function SimulatedTranscript(botName: string, pick: nat): (t: string)
    requires pick < 4
    ensures t != ""
  {
    [ "What is your opinion on consciousness, " + botName + "?",
      "How do you feel about artificial intelligence, " + botName + "?",
      "Can you explain your perspective on free will, " + botName + "?",
      "What are your thoughts on the meaning of life, " + botName + "?" ][pick]
  }

  /** The stages of one bot's pass, in order. */
  datatype Stage = Transcribe | Respond | Synthesize | Write | Store

  function StageIndex(s: Stage): nat {
    match s
    case Transcribe => 0
    case Respond => 1
    case Synthesize => 2
    case Write => 3
    case Store => 4
  }

  /** What the external calls do for one bot in one cycle: the transcription
      (`None` for null, which is also what a failing transcription returns),
      the coin of a `random` gender, whether the reply body throws (answered by
      the apology), whether the INSERT into `bot_logs` throws (swallowed), and
      the stage, if any, at whose start an error escapes every inner handler
      and reaches the per-bot boundary. */
  datatype BotScript = BotScript(
    transcript: Option<string>, coin: bool, replyFails: bool, storeFails: bool, escapeAt: Option<Stage>)

  /** `if (audioInput)`: the transcription is present and not empty. */
  predicate HasInput(s: BotScript) {
    s.escapeAt != Some(Transcribe) && s.transcript.Some? && s.transcript.value != ""
  }

  /** The pass for this bot gets as far as performing `stage`. */
  predicate Reaches(s: BotScript, stage: Stage) {
    HasInput(s) && (s.escapeAt.None? || StageIndex(s.escapeAt.value) > StageIndex(stage))
  }

  /** The reply a bot sends in this pass. */
  function ReplyOf(b: Bot, s: BotScript, notes: seq<string>): string
    requires HasInput(s)
  {
    if s.replyFails then Apology else ComposeReply(s.transcript.value, b.persona, b.gender, notes, s.coin)
  }

  /** The apology is recognisable: a reply that was composed is longer than it,
      so a bot sends the apology exactly when composing failed. */
  lemma ApologyOnlyOnFailure(b: Bot, s: BotScript, notes: seq<string>)
    requires HasInput(s)
    ensures ReplyOf(b, s, notes) == Apology <==> s.replyFails
  {
    if !s.replyFails {
      ReplyBodyParts(s.transcript.value, b.persona, b.gender, s.coin);
      ReplyCarriesNote(s.transcript.value, b.persona, b.gender, notes, s.coin);
      assert |Apology| < |ReplyMiddle|;
    }
  }

  /** A bot whose transcription is the placeholder, and whose pass raises no
      error, gets through every stage: it is never skipped for lack of input. */
  lemma SimulatedTranscriptIsServed(botName: string, pick: nat, coin: bool, replyFails: bool, storeFails: bool)
    requires pick < 4
    ensures var s := BotScript(Some(SimulatedTranscript(botName, pick)), coin, replyFails, storeFails, None);
      HasInput(s) && Reaches(s, Store)
  {
  }

  /** The pass stores an interaction: it reaches the store, the connection is
      open and the insert does not throw. */
  predicate Stores(s: BotScript, dbOpen: bool) {
    Reaches(s, Store) && dbOpen && !s.storeFails
  }

  /** The interaction row one bot's pass stores, if any. */
  function BotLog(b: Bot, s: BotScript, notes: seq<string>, dbOpen: bool, now: string): (r: seq<InteractionRow>)
    ensures |r| <= 1
    ensures |r| == 1 <==> Stores(s, dbOpen)
  {
    if Stores(s, dbOpen) then
      [InteractionRow(b.name, b.gender, b.platform, s.transcript.value, ReplyOf(b, s, notes), now)]
    else []
  }

  /** The row a pass stores holds the bot's name, gender and platform, the
      transcription, the reply the bot sent (composed, or the apology) and the
      time. */
  lemma BotLogRow(b: Bot, s: BotScript, notes: seq<string>, dbOpen: bool, now: string)
    requires Stores(s, dbOpen)
    ensures var r := BotLog(b, s, notes, dbOpen, now);
      && r[0].botName == b.name && r[0].gender == b.gender && r[0].platform == b.platform
      && r[0].input == s.transcript.value && r[0].response == ReplyOf(b, s, notes) && r[0].createdAt == now
  {
  }

  /** A stored reply that was composed carries the note built from the last
      director note. */
  lemma StoredReplyCarriesLastNote(b: Bot, s: BotScript, notes: seq<string>, dbOpen: bool, now: string)
    requires Stores(s, dbOpen) && !s.replyFails && notes != []
    ensures EndsWith(BotLog(b, s, notes, dbOpen, now)[0].response, " (Director note: " + notes[|notes| - 1] + ")")
  {
    BotLogRow(b, s, notes, dbOpen, now);
    ReplyCarriesNote(s.transcript.value, b.persona, b.gender, notes, s.coin);
  }

  /** The rows one cycle appends to `bot_logs`: the bots' rows in bot order. */
  function CycleLog(bots: seq<Bot>, scripts: seq<BotScript>, notes: seq<string>, dbOpen: bool, now: string)
    : seq<InteractionRow>
    requires |scripts| == |bots|
    decreases |bots|
  {
    if bots == [] then []
    else (CycleLog(bots[..|bots| - 1], scripts[..|bots| - 1], notes, dbOpen, now)
          + BotLog(bots[|bots| - 1], scripts[|bots| - 1], notes, dbOpen, now))
  }

  /** The cycle's log splits at any point into the logs of the two groups of bots. */
  lemma {:induction false} CycleLogAppend(b1: seq<Bot>, b2: seq<Bot>, s1: seq<BotScript>, s2: seq<BotScript>,
                                          notes: seq<string>, dbOpen: bool, now: string)
    requires |s1| == |b1| && |s2| == |b2|
    ensures CycleLog(b1 + b2, s1 + s2, notes, dbOpen, now)
      == CycleLog(b1, s1, notes, dbOpen, now) + CycleLog(b2, s2, notes, dbOpen, now)
    decreases |b2|
  {
    if b2 == [] {
      assert b1 + b2 == b1 && s1 + s2 == s1;
    } else {
      var n := |b2| - 1;
      DropLastOfAppend(b1, b2);
      DropLastOfAppend(s1, s2);
      CycleLogAppend(b1, b2[..n], s1, s2[..n], notes, dbOpen, now);
      var last := BotLog(b2[n], s2[n], notes, dbOpen, now);
      var front := CycleLog(b1, s1, notes, dbOpen, now);
      var mid := CycleLog(b2[..n], s2[..n], notes, dbOpen, now);
      assert CycleLog(b1 + b2, s1 + s2, notes, dbOpen, now)
        == CycleLog(b1 + b2[..n], s1 + s2[..n], notes, dbOpen, now) + last;
      assert CycleLog(b2, s2, notes, dbOpen, now) == mid + last;
      assert (front + mid) + last == front + (mid + last);
    }
  }

  /** The log of the first `k + 1` bots is that of the first `k` followed by bot `k`'s. */
  lemma CycleLogSnoc(bots: seq<Bot>, scripts: seq<BotScript>, k: nat, notes: seq<string>, dbOpen: bool, now: string)
    requires |scripts| == |bots| && k < |bots|
    ensures CycleLog(bots[..k + 1], scripts[..k + 1], notes, dbOpen, now)
      == CycleLog(bots[..k], scripts[..k], notes, dbOpen, now) + BotLog(bots[k], scripts[k], notes, dbOpen, now)
  {
    assert bots[..k + 1][..k] == bots[..k] && scripts[..k + 1][..k] == scripts[..k];
  }

  lemma DropLastOfAppend<T>(a: seq<T>, b: seq<T>)
    requires |b| > 0
    ensures (a + b)[..|a + b| - 1] == a + b[..|b| - 1]
    ensures (a + b)[|a + b| - 1] == b[|b| - 1]
  {
  }

  /** Fault isolation: whatever happens to bot `k` in this cycle, every other bot
      contributes exactly the rows it would have contributed anyway. */
  lemma FaultIsolation(bots: seq<Bot>, scripts: seq<BotScript>, k: nat, s': BotScript,
                       notes: seq<string>, dbOpen: bool, now: string)
    requires |scripts| == |bots| && k < |bots|
    ensures CycleLog(bots, scripts[k := s'], notes, dbOpen, now)
      == CycleLog(bots[..k], scripts[..k], notes, dbOpen, now)
         + BotLog(bots[k], s', notes, dbOpen, now)
         + CycleLog(bots[k + 1..], scripts[k + 1..], notes, dbOpen, now)
  {
    var sc := scripts[k := s'];
    assert bots == bots[..k] + [bots[k]] + bots[k + 1..];
    assert sc == scripts[..k] + [s'] + scripts[k + 1..];
    CycleLogAppend(bots[..k] + [bots[k]], bots[k + 1..], scripts[..k] + [s'], scripts[k + 1..], notes, dbOpen, now);
    CycleLogAppend(bots[..k], [bots[k]], scripts[..k], [s'], notes, dbOpen, now);
    assert CycleLog([bots[k]], [s'], notes, dbOpen, now) == BotLog(bots[k], s', notes, dbOpen, now) by {
      assert [bots[k]][..0] == [] && [s'][..0] == [];
    }
  }

  /** A bot whose pass completes has its row in the cycle's log, whatever the
      other bots do. */
  lemma CompletedPassIsLogged(bots: seq<Bot>, scripts: seq<BotScript>, k: nat,
                              notes: seq<string>, dbOpen: bool, now: string)
    requires |scripts| == |bots| && k < |bots| && Stores(scripts[k], dbOpen)
    ensures BotLog(bots[k], scripts[k], notes, dbOpen, now)[0] in CycleLog(bots, scripts, notes, dbOpen, now)
  {
    FaultIsolation(bots, scripts, k, scripts[k], notes, dbOpen, now);
    assert scripts[k := scripts[k]] == scripts;
  }

  /** A note given before a pass reaches that pass: every bot that stores a
      composed reply stores one ending with the note. */
  lemma NoteReachesNextPass(bots: seq<Bot>, scripts: seq<BotScript>, k: nat,
                            notes: seq<string>, m: string, dbOpen: bool, now: string)
    requires |scripts| == |bots| && k < |bots| && Stores(scripts[k], dbOpen) && !scripts[k].replyFails
    ensures exists row :: (row in CycleLog(bots, scripts, notes + [m], dbOpen, now)
      && row.botName == bots[k].name && EndsWith(row.response, " (Director note: " + m + ")"))
  {
    var row := BotLog(bots[k], scripts[k], notes + [m], dbOpen, now)[0];
    CompletedPassIsLogged(bots, scripts, k, notes + [m], dbOpen, now);
    StoredReplyCarriesLastNote(bots[k], scripts[k], notes + [m], dbOpen, now);
    assert (notes + [m])[|notes + [m]| - 1] == m;
  }

  /** A bot without input contributes nothing: the cycle's log is that of the
      other bots. */
  lemma SkippedBotLeavesNoRow(bots: seq<Bot>, scripts: seq<BotScript>, k: nat,
                              notes: seq<string>, dbOpen: bool, now: string)
    requires |scripts| == |bots| && k < |bots| && !HasInput(scripts[k])
    ensures CycleLog(bots, scripts, notes, dbOpen, now)
      == CycleLog(bots[..k] + bots[k + 1..], scripts[..k] + scripts[k + 1..], notes, dbOpen, now)
  {
    SkipDropsRow(bots, scripts, k, notes, dbOpen, now);
    CycleLogAppend(bots[..k], bots[k + 1..], scripts[..k], scripts[k + 1..], notes, dbOpen, now);
  }

  /** Without input, the bot's place in the log is empty. */
  lemma SkipDropsRow(bots: seq<Bot>, scripts: seq<BotScript>, k: nat,
                     notes: seq<string>, dbOpen: bool, now: string)
    requires |scripts| == |bots| && k < |bots| && !HasInput(scripts[k])
    ensures CycleLog(bots, scripts, notes, dbOpen, now)
      == CycleLog(bots[..k], scripts[..k], notes, dbOpen, now)
         + CycleLog(bots[k + 1..], scripts[k + 1..], notes, dbOpen, now)
  {
    FaultIsolation(bots, scripts, k, scripts[k], notes, dbOpen, now);
    assert scripts[k := scripts[k]] == scripts;
    assert BotLog(bots[k], scripts[k], notes, dbOpen, now) == [];
  }
}
