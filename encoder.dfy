/** The encoder side of a bot: the argument vector handed to ffmpeg
    (`spawnFfmpeg`), the placeholder speech synthesiser (`generateTTS`), and the
    encoder process with the piped stdin the cycle writes into
    (`pipeAudioBufferToFfmpeg`). The spawn itself is foreign; a process is an
    object with a `killed` flag and a stdin buffer. */
module Encoder {
  import opened JsString

  /** The five option templates of `FFMPEG_OPTIONS`. */
  datatype FfmpegOptions = FfmpegOptions(
    videoInput: string, audioInput: string, videoCodec: string,
    audioCodec: string, outputFormat: string)

  /** `xs.filter(arg => arg !== '')`. */
  function NonEmpty(xs: seq<string>): (r: seq<string>)
    ensures forall k :: 0 <= k < |r| ==> r[k] != "" && r[k] in xs
    ensures forall x :: x in r <==> x in xs && x != ""
    ensures forall x :: x != "" ==> multiset(r)[x] == multiset(xs)[x]
    ensures |r| <= |xs|
  {
    if xs == [] then []
    else
      assert xs == [xs[0]] + xs[1..];
      (if xs[0] == "" then [] else [xs[0]]) + NonEmpty(xs[1..])
  }

  /** Filtering distributes over concatenation. */
  lemma {:induction false} NonEmptyAppend(xs: seq<string>, ys: seq<string>)
    ensures NonEmpty(xs + ys) == NonEmpty(xs) + NonEmpty(ys)
    decreases |xs|
  {
    if xs == [] {
      assert xs + ys == ys;
    } else {
      assert (xs + ys)[0] == xs[0];
      assert (xs + ys)[1..] == xs[1..] + ys;
      NonEmptyAppend(xs[1..], ys);
      var h := if xs[0] == "" then [] else [xs[0]];
      assert h + (NonEmpty(xs[1..]) + NonEmpty(ys)) == (h + NonEmpty(xs[1..])) + NonEmpty(ys);
    }
  }

  /** A sequence with no empty element passes the filter unchanged. */
  lemma {:induction false} NonEmptyKeepsClean(xs: seq<string>)
    requires forall k :: 0 <= k < |xs| ==> xs[k] != ""
    ensures NonEmpty(xs) == xs
    decreases |xs|
  {
    if xs != [] {
      NonEmptyKeepsClean(xs[1..]);
      assert [xs[0]] + xs[1..] == xs;
    }
  }

  /** The non-empty space-separated words of a template. */
  function Words(template: string): (r: seq<string>)
    ensures forall k :: 0 <= k < |r| ==> r[k] != "" && ' ' !in r[k]
  {
    NonEmpty(Split(template, ' '))
  }

  /** The argument vector of `spawnFfmpeg`: every template split on spaces, the
      background path right after the video input, the stream key last, and
      every empty token dropped (the path and key included). */
  function FfmpegArgs(streamKey: string, o: FfmpegOptions, backgroundPath: string): (r: seq<string>)
    ensures forall k :: 0 <= k < |r| ==> r[k] != ""
    ensures backgroundPath in r <==> backgroundPath != ""
    ensures streamKey in r <==> streamKey != ""
  {
    NonEmpty(Split(o.videoInput, ' ') + [backgroundPath]
      + Split(o.audioInput, ' ') + Split(o.videoCodec, ' ')
      + Split(o.audioCodec, ' ') + Split(o.outputFormat, ' ')
      + [streamKey])
  }

  /** The argument vector is the template words in their fixed order, with the
      path after the video input and the key at the end, each kept only when
      non-empty; so no argument is empty. */
  lemma FfmpegArgsLayout(streamKey: string, o: FfmpegOptions, backgroundPath: string)
    ensures FfmpegArgs(streamKey, o, backgroundPath)
      == Words(o.videoInput) + NonEmpty([backgroundPath])
         + Words(o.audioInput) + Words(o.videoCodec) + Words(o.audioCodec) + Words(o.outputFormat)
         + NonEmpty([streamKey])
    ensures forall k :: 0 <= k < |FfmpegArgs(streamKey, o, backgroundPath)| ==>
      FfmpegArgs(streamKey, o, backgroundPath)[k] != ""
  {
    var a, b, c, d, e, f, g :=
      Split(o.videoInput, ' '), [backgroundPath], Split(o.audioInput, ' '), Split(o.videoCodec, ' '),
      Split(o.audioCodec, ' '), Split(o.outputFormat, ' '), [streamKey];
    NonEmptyAppend(a + b + c + d + e + f, g);
    NonEmptyAppend(a + b + c + d + e, f);
    NonEmptyAppend(a + b + c + d, e);
    NonEmptyAppend(a + b + c, d);
    NonEmptyAppend(a + b, c);
    NonEmptyAppend(a, b);
  }

  /** With a non-empty path and key, the path follows the video-input words and
      the key is the last argument. */
  lemma FfmpegArgsPlacesPathAndKey(streamKey: string, o: FfmpegOptions, backgroundPath: string)
    requires streamKey != "" && backgroundPath != ""
    ensures var args := FfmpegArgs(streamKey, o, backgroundPath);
      |args| > |Words(o.videoInput)|
      && args[..|Words(o.videoInput)|] == Words(o.videoInput)
      && args[|Words(o.videoInput)|] == backgroundPath
      && args[|args| - 1] == streamKey
  {
    FfmpegArgsLayout(streamKey, o, backgroundPath);
    NonEmptySingle(backgroundPath);
    NonEmptySingle(streamKey);
    PlaceParts(FfmpegArgs(streamKey, o, backgroundPath), Words(o.videoInput), backgroundPath,
      Words(o.audioInput), Words(o.videoCodec), Words(o.audioCodec), Words(o.outputFormat), streamKey);
  }

  /** One token survives the filter exactly when it is not empty. With
      `NonEmptyAppend` this fixes the filter: the non-empty elements of `xs`, in
      their order in `xs`. */
  lemma NonEmptySingle(x: string)
    ensures NonEmpty([x]) == if x == "" then [] else [x]
  {
    assert [x][1..] == [];
  }

  /** Where the first block, the token after it and the last token sit. */
  lemma PlaceParts(args: seq<string>, v: seq<string>, p: string, a: seq<string>, b: seq<string>,
                   c: seq<string>, d: seq<string>, k: string)
    requires args == v + [p] + a + b + c + d + [k]
    ensures |args| > |v| && args[..|v|] == v && args[|v|] == p && args[|args| - 1] == k
  {
    assert args == v + ([p] + a + b + c + d + [k]);
  }

  type Byte = x: int | 0 <= x < 256

  /** Two seconds of 16-bit stereo audio at 44.1 kHz. */
  const TtsBytes: nat := 44100 * 2 * 2

  /** `generateTTS`: whatever the text, and on its error path too, two seconds of
      silence. */
  function GenerateTts(text: string): (r: seq<Byte>)
    ensures |r| == TtsBytes
    ensures forall k :: 0 <= k < |r| ==> r[k] == 0
  {
    seq(TtsBytes, _ => 0)
  }

  /** An encoder process started with `args`. Its stdin holds `queued` bytes not
      yet read by the encoder; `consumed` bytes have been read. A write fills the
      buffer and reports whether it is still under the high-water mark; a drain
      empties it. */
  class EncoderProcess {
    const args: seq<string>
    const highWaterMark: nat
    var killed: bool
    var killCalls: nat
    var queued: nat
    var consumed: nat

    /** Every byte written so far, read or still buffered. */
    function Submitted(): nat
      reads this
    {
      queued + consumed
    }

    /** `spawn('ffmpeg', args, { stdio: ['pipe', 'inherit', 'inherit'] })`. */
    constructor Spawn(args: seq<string>, highWaterMark: nat)
      ensures this.args == args && this.highWaterMark == highWaterMark
      ensures !killed && killCalls == 0 && queued == 0 && consumed == 0
    {
      this.args := args;
      this.highWaterMark := highWaterMark;
      killed, killCalls, queued, consumed := false, 0, 0, 0;
    }

    /** `kill()`. */
    method Kill()
      modifies this
      ensures killed && killCalls == old(killCalls) + 1
      ensures queued == old(queued) && consumed == old(consumed)
    {
      killed := true;
      killCalls := killCalls + 1;
    }

    /** `stdin.write(buffer)` on a live process: the bytes are buffered (none is
        dropped) and the result says whether the buffer is below the high-water
        mark. */
    method Write(n: nat) returns (belowMark: bool)
      requires !killed
      modifies this
      ensures queued == old(queued) + n && consumed == old(consumed)
      ensures killed == old(killed) && killCalls == old(killCalls)
      ensures belowMark <==> queued < highWaterMark
    {
      queued := queued + n;
      belowMark := queued < highWaterMark;
    }

    /** Waiting for `drain`: the encoder reads everything buffered. */
    method AwaitDrain()
      modifies this
      ensures queued == 0 && consumed == old(consumed) + old(queued)
      ensures killed == old(killed) && killCalls == old(killCalls)
    {
      consumed := consumed + queued;
      queued := 0;
    }
  }

  /** `pipeAudioBufferToFfmpeg`: write the buffer, and wait for `drain` when the
      write reports a full buffer. A write into a killed process fails and is
      swallowed here. The wait happens exactly when the write fills the buffer to
      its high-water mark. After it returns no byte has been lost and the buffer
      is below its high-water mark or empty: at most one buffer per bot is waiting. */
  method PipeAudioBuffer(p: EncoderProcess, buffer: seq<Byte>) returns (delivered: bool)
    modifies p
    ensures delivered <==> !old(p.killed)
    ensures p.killed == old(p.killed) && p.killCalls == old(p.killCalls)
    ensures delivered ==> p.Submitted() == old(p.Submitted()) + |buffer|
    ensures delivered ==> p.queued < p.highWaterMark || p.queued == 0
    ensures delivered && old(p.queued) + |buffer| < p.highWaterMark ==>
              p.queued == old(p.queued) + |buffer| && p.consumed == old(p.consumed)
    ensures delivered && old(p.queued) + |buffer| >= p.highWaterMark ==>
              p.queued == 0 && p.consumed == old(p.consumed) + old(p.queued) + |buffer|
    ensures !delivered ==> p.queued == old(p.queued) && p.consumed == old(p.consumed)
  {
    if p.killed {
      return false;
    }
    var belowMark := p.Write(|buffer|);
    if !belowMark {
      p.AwaitDrain();
    }
    return true;
  }
}
