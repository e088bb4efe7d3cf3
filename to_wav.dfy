/** The request pipeline of to_wav.py: cache keys and cache decisions, the
    line path, the SSML sentence router with its pauses, and the assembler
    that brings every fragment to one output format. */
module ToWav {
  import opened Common
  import opened Text
  import opened TtsBase

  /** The format fields the `wave` module reads from a WAV header. */
  datatype WavParams = WavParams(rate: nat, width: nat, channels: nat)

  /** One item of the fragment stream: WAV bytes and the sample rate yielded with them. */
  datatype Fragment = Fragment(wav: Bytes, rate: nat)

  /** The collaborators the pipeline calls and that this model leaves uninterpreted. */
  datatype Env = Env(
    /** `tts.say(text, voice_id, speaker_id=...)` of the engine registered under the name. */
    say: (string, string, string, Option<string>) -> Bytes,
    /** The header of a WAV byte string. */
    header: Bytes -> WavParams,
    /** `readframes(getnframes())`: the PCM frames of a WAV byte string. */
    frames: Bytes -> Bytes,
    /** A WAV container holding the given frames in the given format. */
    container: (WavParams, Bytes) -> Bytes,
    /** `sox`: a WAV byte string resampled to raw mono 16-bit PCM at the rate. */
    resample: (Bytes, nat) -> Bytes,
    /** `hashlib.sha256(...).hexdigest()`. */
    sha256: string -> string)

  // ---------------------------------------------------------------------------
  // Cache configuration and cache keys
  // ---------------------------------------------------------------------------

  /** The argument of `setCacheDir`. */
  datatype CacheDirArg = ArgStr(s: string) | ArgBool(b: bool) | ArgNone

  /** Where `setCacheDir` decides the cache lives. */
  datatype CacheLocation = UserDir(path: string) | TempDir

  /** The module globals `_CACHE_DIR` / `_CACHE_TEMP_DIR` of to_wav.py. */
  class CacheSettings {
    var cacheDir: Option<CacheLocation>

    constructor ()
      ensures cacheDir == None
    {
      cacheDir := None;
    }

    /** `setCacheDir(arg)`: "true"-like strings and booleans ask for a temporary
        directory, "false"-like strings for none, other strings name a directory.
        The assignments inside are to locals, so the global is left as it was;
        `decided` is the value the function logs. */
    method SetCacheDir(arg: CacheDirArg) returns (decided: Option<CacheLocation>)
      ensures cacheDir == old(cacheDir)
      ensures arg.ArgNone? ==> decided == None
      ensures arg.ArgBool? ==> decided == Some(TempDir)
      ensures arg.ArgStr? ==>
        decided == if Lower(arg.s) in ["true", "1", "t", "y", "yes", "ok"] then Some(TempDir)
                   else if Lower(arg.s) in ["false", "0", "f", "n", "no", "not"] then None
                   else Some(UserDir(arg.s))
    {
      var local: Option<CacheLocation> := None;
      var asFlag: Option<bool> := None;
      if arg.ArgStr? {
        var l := Lower(arg.s);
        if l in ["true", "1", "t", "y", "yes", "ok"] {
          asFlag := Some(true);
        } else if l in ["false", "0", "f", "n", "no", "not"] {
          return None;
        }
      }
      if arg.ArgNone? {
        local := None;
      } else if arg.ArgStr? && asFlag.None? {
        local := Some(UserDir(arg.s));
      } else {
        local := Some(TempDir);
      }
      decided := local;
    }
  }

  function ShowSetting(v: Option<string>): string {
    match v
    case None => "None"
    case Some(s) => s
  }

  function ShowBool(b: bool): string {
    if b then "True" else "False"
  }

  /** A number's text: never "None" and never containing ';'. */
  predicate WellFormedSetting(v: Option<string>) {
    v.Some? ==> v.value != "None" && ';' !in v.value
  }

  /** The four `name=value` fields of the settings string of `text_to_wav`:
      denoiser strength, noise scale, length scale and the ssml flag. Each
      number is given as its Python `str()` text. */
  function SettingsFields(denoiser: Option<string>, noise: Option<string>, length: Option<string>, ssml: bool): seq<string> {
    ["denoiser_strength=" + ShowSetting(denoiser), "noise_scale=" + ShowSetting(noise),
     "length_scale=" + ShowSetting(length), "ssml=" + ShowBool(ssml)]
  }

  /** The settings string: the fields separated by ';'. */
  function SettingsString(denoiser: Option<string>, noise: Option<string>, length: Option<string>, ssml: bool): string {
    Join(SettingsFields(denoiser, noise, length, ssml), ';')
  }

  lemma NoSemicolon(prefix: string, v: string)
    requires ';' !in prefix && ';' !in v
    ensures ';' !in prefix + v
  {
  }

  lemma SettingsSplit(denoiser: Option<string>, noise: Option<string>, length: Option<string>, ssml: bool)
    requires WellFormedSetting(denoiser) && WellFormedSetting(noise) && WellFormedSetting(length)
    ensures Split(SettingsString(denoiser, noise, length, ssml), ';') == SettingsFields(denoiser, noise, length, ssml)
  {
    NoSemicolon("denoiser_strength=", ShowSetting(denoiser));
    NoSemicolon("noise_scale=", ShowSetting(noise));
    NoSemicolon("length_scale=", ShowSetting(length));
    NoSemicolon("ssml=", ShowBool(ssml));
    SplitJoin(SettingsFields(denoiser, noise, length, ssml), ';');
  }

  lemma StripPrefix(p: string, a: string, b: string)
    requires p + a == p + b
    ensures a == b
  {
    assert a == (p + a)[|p|..];
    assert b == (p + b)[|p|..];
  }

  lemma ShowSettingInjective(a: Option<string>, b: Option<string>)
    requires WellFormedSetting(a) && WellFormedSetting(b)
    requires ShowSetting(a) == ShowSetting(b)
    ensures a == b
  {
  }

  /** Every audible setting enters the cache key: two settings strings are equal
      only when all four settings are. */
  lemma SettingsStringInjective(d1: Option<string>, n1: Option<string>, l1: Option<string>, s1: bool,
                                d2: Option<string>, n2: Option<string>, l2: Option<string>, s2: bool)
    requires WellFormedSetting(d1) && WellFormedSetting(n1) && WellFormedSetting(l1)
    requires WellFormedSetting(d2) && WellFormedSetting(n2) && WellFormedSetting(l2)
    requires SettingsString(d1, n1, l1, s1) == SettingsString(d2, n2, l2, s2)
    ensures d1 == d2 && n1 == n2 && l1 == l2 && s1 == s2
  {
    SettingsSplit(d1, n1, l1, s1);
    SettingsSplit(d2, n2, l2, s2);
    var f1 := SettingsFields(d1, n1, l1, s1);
    var f2 := SettingsFields(d2, n2, l2, s2);
    assert f1 == f2;
    StripPrefix("denoiser_strength=", ShowSetting(d1), ShowSetting(d2));
    StripPrefix("noise_scale=", ShowSetting(n1), ShowSetting(n2));
    StripPrefix("length_scale=", ShowSetting(l1), ShowSetting(l2));
    StripPrefix("ssml=", ShowBool(s1), ShowBool(s2));
    ShowSettingInjective(d1, d2);
    ShowSettingInjective(n1, n2);
    ShowSettingInjective(l1, l2);
  }

  /** The string `get_cache_key` hashes: text, voice and settings joined by '-'. */
  function CacheKeyString(text: string, voice: string, settings: string): (r: string)
    ensures |r| == |text| + |voice| + |settings| + 2
    ensures r[..|text|] == text && r[|text|] == '-'
    ensures r[|text| + 1..|text| + 1 + |voice|] == voice && r[|text| + 1 + |voice|] == '-'
    ensures r[|r| - |settings|..] == settings
  {
    text + "-" + voice + "-" + settings
  }

  /** Because '-' may occur in the text and the voice, different requests can
      share a key string. */
  lemma CacheKeyStringCollides(settings: string)
    ensures CacheKeyString("a-b", "tts:x", settings) == CacheKeyString("a", "b-tts:x", settings)
  {
  }

  /** One synthesis request as `text_to_wav` receives it. */
  datatype Request = Request(
    text: string,
    voice: string,
    lang: string,
    vocoder: Option<string>,
    denoiser: Option<string>,
    noise: Option<string>,
    length: Option<string>,
    useCache: bool,
    ssml: bool,
    ssmlArgs: seq<(string, bool)>)

  /** `<cache dir>/<sha256 hex of the key string>.wav` for a request and its voice. */
  function CachePath(dir: CacheLocation, req: Request, voice: string, env: Env): string {
    var settings := SettingsString(req.denoiser, req.noise, req.length, req.ssml);
    var dirName := match dir case UserDir(p) => p case TempDir => "offlinetts_";
    dirName + "/" + env.sha256(CacheKeyString(req.text, voice, settings)) + ".wav"
  }

  /** The vocoder and the SSML verbalisation options do not enter the key. */
  lemma CachePathIgnoresVocoderAndSsmlArgs(dir: CacheLocation, req: Request, vocoder: Option<string>,
                                           ssmlArgs: seq<(string, bool)>, voice: string, env: Env)
    ensures CachePath(dir, req, voice, env) == CachePath(dir, req.(vocoder := vocoder, ssmlArgs := ssmlArgs), voice, env)
  {
  }

  // ---------------------------------------------------------------------------
  // Silence
  // ---------------------------------------------------------------------------

  /** `make_silence_wav` size: ceil(seconds * rate * width * channels) zero
      bytes, with the pause in whole milliseconds. */
  function SilenceBytes(pauseMs: nat, p: WavParams): (n: nat)
    ensures n * 1000 >= pauseMs * (p.rate * p.width * p.channels)
    ensures n > 0 ==> (n - 1) * 1000 < pauseMs * (p.rate * p.width * p.channels)
  {
    var total := pauseMs * (p.rate * p.width * p.channels);
    (total + 999) / 1000
  }

  /** The silence fragment for a pause, in the given format. */
  function Silence(pauseMs: nat, p: WavParams, env: Env): Fragment {
    Fragment(env.container(p, Zeros(SilenceBytes(pauseMs, p))), p.rate)
  }

  // ---------------------------------------------------------------------------
  // Assembly
  // ---------------------------------------------------------------------------

  /** `max(sample_rates)` over the yielded rates. */
  function MaxRate(frags: seq<Fragment>): (m: nat)
    requires frags != []
    ensures forall i :: 0 <= i < |frags| ==> frags[i].rate <= m
    ensures exists i :: 0 <= i < |frags| && frags[i].rate == m
  {
    if |frags| == 1 then frags[0].rate
    else
      var rest := MaxRate(frags[1..]);
      assert forall i :: 1 <= i < |frags| ==> frags[i] == frags[1..][i - 1];
      if frags[0].rate >= rest then frags[0].rate else rest
  }

  /** The output format: the maximum rate, 16-bit, mono. */
  function OutputParams(frags: seq<Fragment>): (p: WavParams)
    requires frags != []
    ensures p.width == 2 && p.channels == 1
    ensures forall i :: 0 <= i < |frags| ==> frags[i].rate <= p.rate
  {
    WavParams(MaxRate(frags), 2, 1)
  }

  /** The frames one fragment contributes: copied when its header already has
      the output format, resampled otherwise. */
  function Piece(f: Fragment, out: WavParams, env: Env): Bytes {
    if env.header(f.wav) == out then env.frames(f.wav) else env.resample(f.wav, out.rate)
  }

  function AssembledFrames(frags: seq<Fragment>, out: WavParams, env: Env): Bytes {
    if frags == [] then [] else Piece(frags[0], out, env) + AssembledFrames(frags[1..], out, env)
  }

  /** Fragments contribute in order: assembly distributes over concatenation. */
  lemma {:induction false} AssembledFramesConcat(a: seq<Fragment>, b: seq<Fragment>, out: WavParams, env: Env)
    ensures AssembledFrames(a + b, out, env) == AssembledFrames(a, out, env) + AssembledFrames(b, out, env)
  {
    if a == [] {
      assert a + b == b;
    } else {
      assert (a + b)[1..] == a[1..] + b;
      AssembledFramesConcat(a[1..], b, out, env);
    }
  }

  /** The assembler: an empty stream is an assertion failure; otherwise each
      fragment's frames are written, in order, into one output WAV. */
  method Assemble(frags: seq<Fragment>, env: Env) returns (r: Result<Bytes>)
    ensures frags == [] ==> r == Err(AssertionFailed("No audio returned from synthesis"))
    ensures frags != [] ==>
      r == Ok(env.container(OutputParams(frags), AssembledFrames(frags, OutputParams(frags), env)))
  {
    if frags == [] {
      return Err(AssertionFailed("No audio returned from synthesis"));
    }
    var out := OutputParams(frags);
    var written: Bytes := [];
    var i := 0;
    while i < |frags|
      invariant 0 <= i <= |frags|
      invariant written == AssembledFrames(frags[..i], out, env)
    {
      AssembledFramesConcat(frags[..i], [frags[i]], out, env);
      assert frags[..i + 1] == frags[..i] + [frags[i]];
      var f := frags[i];
      if env.header(f.wav) != out {
        written := written + env.resample(f.wav, out.rate);
      } else {
        written := written + env.frames(f.wav);
      }
      i := i + 1;
    }
    assert frags[..i] == frags;
    r := Ok(env.container(out, written));
  }

  /** Rates 16000, 22050, 16000 give a 22050 Hz output in which the 16-bit mono
      22050 Hz fragment is copied and the others are resampled. */
  lemma AssembleMixedRates(a: Bytes, b: Bytes, c: Bytes, env: Env)
    requires env.header(a) == WavParams(16000, 2, 1)
    requires env.header(b) == WavParams(22050, 2, 1)
    requires env.header(c) == WavParams(16000, 2, 1)
    ensures var frags := [Fragment(a, 16000), Fragment(b, 22050), Fragment(c, 16000)];
      OutputParams(frags) == WavParams(22050, 2, 1)
      && AssembledFrames(frags, OutputParams(frags), env)
         == env.resample(a, 22050) + env.frames(b) + env.resample(c, 22050)
  {
    var frags := [Fragment(a, 16000), Fragment(b, 22050), Fragment(c, 16000)];
    assert MaxRate(frags[2..]) == 16000;
    assert MaxRate(frags[1..]) == 22050;
    var out := WavParams(22050, 2, 1);
    assert frags[1..][1..] == frags[2..];
    assert AssembledFrames(frags[2..], out, env) == env.resample(c, 22050);
  }

  // ---------------------------------------------------------------------------
  // Fragment streams with error propagation
  // ---------------------------------------------------------------------------

  /** `pre` followed by the fragments of `rest`, or the error of `rest`. */
  lemma ThenNil(rest: Result<seq<Fragment>>)
    ensures Then([], rest) == rest
  {
    if rest.Ok? { assert [] + rest.value == rest.value; }
  }

  function Then(pre: seq<Fragment>, rest: Result<seq<Fragment>>): Result<seq<Fragment>> {
    match rest
    case Err(e) => Err(e)
    case Ok(fs) => Ok(pre + fs)
  }

  lemma ThenThen(a: seq<Fragment>, b: seq<Fragment>, rest: Result<seq<Fragment>>)
    ensures Then(a, Then(b, rest)) == Then(a + b, rest)
  {
    if rest.Ok? {
      assert a + (b + rest.value) == (a + b) + rest.value;
    }
  }

  /** The voice id and the speaker id of the part after ':' of a resolved
      reference: split at the first '#', when there is one. */
  function SpeakerSplit(voiceId: string): (string, Option<string>) {
    if '#' in voiceId then (Before(voiceId, '#'), Some(After(voiceId, '#'))) else (voiceId, None)
  }

  // ---------------------------------------------------------------------------
  // The line path: text_to_wavs
  // ---------------------------------------------------------------------------

  function KeptLines(lines: seq<string>): (r: seq<string>)
    ensures forall i :: 0 <= i < |r| ==> r[i] != [] && !IsSpace(r[i][0]) && !IsSpace(r[i][|r[i]| - 1])
    ensures |r| <= |lines|
  {
    if lines == [] then []
    else (if Strip(lines[0]) == "" then [] else [Strip(lines[0])]) + KeptLines(lines[1..])
  }

  /** The lines `text_to_wavs` synthesizes: the non-blank lines of the stripped
      text, each stripped, in order. */
  function NonBlankLines(text: string): seq<string> {
    KeptLines(SplitLines(Strip(text)))
  }

  /** Every line with text is kept, stripped, and every kept line comes from
      a line of the input, in order. */
  lemma {:induction false} KeptLinesExactlyNonBlank(lines: seq<string>)
    ensures forall i :: 0 <= i < |lines| && Strip(lines[i]) != "" ==> Strip(lines[i]) in KeptLines(lines)
    ensures forall t :: t in KeptLines(lines) ==> exists i :: 0 <= i < |lines| && t == Strip(lines[i])
  {
    if lines != [] {
      KeptLinesExactlyNonBlank(lines[1..]);
      var head := if Strip(lines[0]) == "" then [] else [Strip(lines[0])];
      assert KeptLines(lines) == head + KeptLines(lines[1..]);
      forall i | 1 <= i < |lines| ensures lines[i] == lines[1..][i - 1] { }
      forall t | t in KeptLines(lines) ensures exists i :: 0 <= i < |lines| && t == Strip(lines[i]) {
        if t in head {
          assert t == Strip(lines[0]);
        } else {
          var k :| 0 <= k < |lines[1..]| && t == Strip(lines[1..][k]);
          assert t == Strip(lines[k + 1]);
        }
      }
    }
  }

  /** One `say` call per line, in order; an empty result is an assertion failure. */
  function SayLines(engine: string, lines: seq<string>, voiceId: string, speaker: Option<string>, env: Env): Result<seq<Fragment>> {
    if lines == [] then Ok([])
    else
      var wav := env.say(engine, lines[0], voiceId, speaker);
      if wav == [] then Err(AssertionFailed("No WAV audio from line"))
      else Then([Fragment(wav, env.header(wav).rate)], SayLines(engine, lines[1..], voiceId, speaker, env))
  }

  /** A successful line path yields exactly one fragment per line: the engine's
      output for that line, with the same voice and speaker on every line. */
  lemma {:induction false} SayLinesOnePerLine(engine: string, lines: seq<string>, voiceId: string, speaker: Option<string>, env: Env)
    ensures var r := SayLines(engine, lines, voiceId, speaker, env);
      r.Ok? ==> (|r.value| == |lines|
                 && forall i :: 0 <= i < |lines| ==>
                      r.value[i].wav == env.say(engine, lines[i], voiceId, speaker) && r.value[i].wav != [])
  {
    if lines != [] {
      SayLinesOnePerLine(engine, lines[1..], voiceId, speaker, env);
      var r := SayLines(engine, lines, voiceId, speaker, env);
      if r.Ok? {
        assert forall i :: 1 <= i < |lines| ==> lines[i] == lines[1..][i - 1];
      }
    }
  }

  /** What `text_to_wavs(text, voice)` yields, on a given alias table. */
  function LineFragments(aliases: map<string, seq<string>>, engines: set<string>, text: string, voice: string, env: Env): Result<seq<Fragment>> {
    match Resolve(aliases, engines, voice, None)
    case Err(e) => Err(e)
    case Ok(v) =>
      if ':' !in v then Err(AssertionFailed("Invalid voice"))
      else if Lower(Before(v, ':')) !in engines then Err(AssertionFailed("No TTS named"))
      else
        var (voiceId, speaker) := SpeakerSplit(After(v, ':'));
        SayLines(Lower(Before(v, ':')), NonBlankLines(text), voiceId, speaker, env)
  }

  /** The two assertions after resolution in `text_to_wavs` never fail: the
      resolved reference has a ':' and its engine is found by `get`. */
  lemma LineAssertionsHold(aliases: map<string, seq<string>>, engines: set<string>, text: string, voice: string, env: Env)
    requires forall name :: name in engines ==> Lower(name) == name
    ensures LineFragments(aliases, engines, text, voice, env) != Err(AssertionFailed("Invalid voice"))
    ensures LineFragments(aliases, engines, text, voice, env) != Err(AssertionFailed("No TTS named"))
  {
    ResolveNamesRegisteredEngine(aliases, engines, voice, None);
    FirstRegisteredErrors(Candidates(aliases, voice, None), engines);
    var r := Resolve(aliases, engines, voice, None);
    if r.Ok? {
      var name := Before(r.value, ':');
      assert name in engines;
      assert Lower(name) == name;
      var (voiceId, speaker) := SpeakerSplit(After(r.value, ':'));
      assert LineFragments(aliases, engines, text, voice, env) == SayLines(name, NonBlankLines(text), voiceId, speaker, env);
      SayLinesErrors(name, NonBlankLines(text), voiceId, speaker, env);
    }
  }

  lemma {:induction false} SayLinesErrors(engine: string, lines: seq<string>, voiceId: string, speaker: Option<string>, env: Env)
    ensures SayLines(engine, lines, voiceId, speaker, env).Err? ==>
      SayLines(engine, lines, voiceId, speaker, env) == Err(AssertionFailed("No WAV audio from line"))
  {
    if lines != [] {
      SayLinesErrors(engine, lines[1..], voiceId, speaker, env);
    }
  }

  /** Candidate lists that agree for every voice and alias lists that agree
      for every key: the alias table as the resolver and `get_preferred_voice`
      see it is unchanged. */
  ghost predicate SameResolution(a: map<string, seq<string>>, b: map<string, seq<string>>) {
    && (forall w, fb :: Candidates(a, w, fb) == Candidates(b, w, fb))
    && (forall l :: AliasesOf(a, l) == AliasesOf(b, l))
  }

  /** The table `resolve_voice` leaves behind resolves like the one before it. */
  lemma TouchSameResolution(aliases: map<string, seq<string>>, voice: string)
    ensures SameResolution(Touch(aliases, AliasKey(aliases, voice)), aliases)
  {
    forall w, fb ensures Candidates(Touch(aliases, AliasKey(aliases, voice)), w, fb) == Candidates(aliases, w, fb) {
      TouchStable(aliases, voice, w, fb);
    }
  }

  /** Tables that resolve alike prefer the same voice for every language. */
  lemma SameResolutionPreferred(a: map<string, seq<string>>, b: map<string, seq<string>>, lang: string)
    requires SameResolution(a, b)
    ensures PreferredVoice(a, lang) == PreferredVoice(b, lang)
  {
    assert AliasesOf(a, lang) == AliasesOf(b, lang);
  }

  /** `text_to_wavs`: resolve once, then one `say` per non-blank line. */
  method TextToWavs(reg: Registry, text: string, voice: string, env: Env) returns (r: Result<seq<Fragment>>)
    modifies reg`aliases
    ensures r == LineFragments(old(reg.aliases), reg.engines.Keys, text, voice, env)
    ensures SameResolution(reg.aliases, old(reg.aliases))
  {
    TouchSameResolution(reg.aliases, voice);
    var resolved := reg.ResolveVoice(voice, None);
    if resolved.Err? {
      return Err(resolved.error);
    }
    var v := resolved.value;
    if ':' !in v {
      return Err(AssertionFailed("Invalid voice"));
    }
    var name := Lower(Before(v, ':'));
    var engine := reg.Get(Before(v, ':'));
    if engine.None? {
      return Err(AssertionFailed("No TTS named"));
    }
    var voiceId := After(v, ':');
    var speaker: Option<string> := None;
    if '#' in voiceId {
      speaker := Some(After(voiceId, '#'));
      voiceId := Before(voiceId, '#');
    }
    r := SayEachLine(name, NonBlankLines(text), voiceId, speaker, env);
  }

  /** The loop of `text_to_wavs`: one `say` per line, stopping at an empty result. */
  method SayEachLine(engine: string, lines: seq<string>, voiceId: string, speaker: Option<string>, env: Env) returns (r: Result<seq<Fragment>>)
    ensures r == SayLines(engine, lines, voiceId, speaker, env)
  {
    var frags: seq<Fragment> := [];
    var i := 0;
    ThenNil(SayLines(engine, lines, voiceId, speaker, env));
    while i < |lines|
      invariant 0 <= i <= |lines|
      invariant SayLines(engine, lines, voiceId, speaker, env) == Then(frags, SayLines(engine, lines[i..], voiceId, speaker, env))
    {
      assert lines[i..][1..] == lines[i + 1..];
      var wav := env.say(engine, lines[i], voiceId, speaker);
      if wav == [] {
        return Err(AssertionFailed("No WAV audio from line"));
      }
      ThenThen(frags, [Fragment(wav, env.header(wav).rate)], SayLines(engine, lines[i + 1..], voiceId, speaker, env));
      frags := frags + [Fragment(wav, env.header(wav).rate)];
      i := i + 1;
    }
    assert frags + [] == frags;
    r := Ok(frags);
  }

  // ---------------------------------------------------------------------------
  // The SSML path: ssml_to_wavs
  // ---------------------------------------------------------------------------

  /** Break annotations of one word. */
  datatype Word = Word(pauseBeforeMs: int, pauseAfterMs: int)

  /** One parsed sentence: its text with whitespace, its voice and language
      attributes ("" when absent), its own pauses and its words. */
  datatype Sentence = Sentence(text: string, voice: string, lang: string,
                               pauseBeforeMs: int, pauseAfterMs: int, words: seq<Word>)

  /** The voice request for a sentence: its own voice; else, with a language,
      the default voice when the primary subtag of the part after ':' (with the
      speaker removed) is that language, and the language itself otherwise;
      else the default voice. A default voice without ':' leaves `lang` unbound. */
  function SentenceVoice(s: Sentence, defaultVoice: string): (r: Result<string>)
    ensures s.voice != "" ==> r == Ok(s.voice)
    ensures s.voice == "" && s.lang == "" ==> r == Ok(defaultVoice)
    ensures s.voice == "" && s.lang != "" && defaultVoice != "" && ':' !in Before(defaultVoice, '#') ==>
      r == Err(UnboundLocal)
    ensures r.Ok? && s.voice == "" && s.lang != "" ==>
      (r.value == s.lang || (r.value == defaultVoice && ':' in Before(defaultVoice, '#')
                             && PrimarySubtag(After(Before(defaultVoice, '#'), ':')) == s.lang))
    ensures (s.voice == "" && s.lang != "" && defaultVoice != "" && ':' in Before(defaultVoice, '#')
             && PrimarySubtag(After(Before(defaultVoice, '#'), ':')) == s.lang) ==> r == Ok(defaultVoice)
  {
    if s.voice != "" then Ok(s.voice)
    else if s.lang != "" then
      if defaultVoice != "" then
        var v := Before(defaultVoice, '#');
        if ':' !in v then Err(UnboundLocal)
        else if PrimarySubtag(After(v, ':')) == s.lang then Ok(defaultVoice)
        else Ok(s.lang)
      else Ok(s.lang)
    else Ok(defaultVoice)
  }

  /** An explicit voice wins over the sentence language and the default voice. */
  lemma ExplicitVoiceWins(text: string, voice: string, lang: string, b: int, a: int, words: seq<Word>, defaultVoice: string)
    requires voice != ""
    ensures SentenceVoice(Sentence(text, voice, lang, b, a, words), defaultVoice) == Ok(voice)
  {
  }

  /** Pause before a sentence: its own plus its first word's. */
  function PauseBefore(s: Sentence): int {
    s.pauseBeforeMs + (if s.words != [] then s.words[0].pauseBeforeMs else 0)
  }

  /** Pause after a sentence: its own plus its last word's. */
  function PauseAfter(s: Sentence): int {
    s.pauseAfterMs + (if s.words != [] then s.words[|s.words| - 1].pauseAfterMs else 0)
  }

  /** The fragments around one synthesized sentence: silence before if its
      pause is positive, the sentence, silence after if positive, all in the
      sentence's own format. */
  function Framed(s: Sentence, wav: Bytes, env: Env): (r: seq<Fragment>)
    ensures |r| == 1 + (if PauseBefore(s) > 0 then 1 else 0) + (if PauseAfter(s) > 0 then 1 else 0)
    ensures r[if PauseBefore(s) > 0 then 1 else 0] == Fragment(wav, env.header(wav).rate)
    ensures forall i :: 0 <= i < |r| ==> r[i].rate == env.header(wav).rate
    ensures PauseBefore(s) > 0 ==> r[0] == Silence(PauseBefore(s), env.header(wav), env)
    ensures PauseAfter(s) > 0 ==> r[|r| - 1] == Silence(PauseAfter(s), env.header(wav), env)
  {
    var p := env.header(wav);
    var before := PauseBefore(s);
    var after := PauseAfter(s);
    (if before > 0 then [Silence(before, p, env)] else [])
      + [Fragment(wav, p.rate)]
      + (if after > 0 then [Silence(after, p, env)] else [])
  }

  /** The pauses of a sentence and of its first and last words fold into one
      silence before and one after the sentence audio, in its format. */
  lemma PauseFolding(s: Sentence, wav: Bytes, env: Env)
    requires s.words != []
    ensures var before := s.pauseBeforeMs + s.words[0].pauseBeforeMs;
      var at := if before > 0 then 1 else 0;
      (before > 0 ==> Framed(s, wav, env)[0] == Silence(before, env.header(wav), env))
      && Framed(s, wav, env)[at] == Fragment(wav, env.header(wav).rate)
    ensures var after := s.pauseAfterMs + s.words[|s.words| - 1].pauseAfterMs;
      (after > 0 ==> Framed(s, wav, env)[|Framed(s, wav, env)| - 1] == Silence(after, env.header(wav), env))
      && (after <= 0 ==> Framed(s, wav, env)[|Framed(s, wav, env)| - 1] == Fragment(wav, env.header(wav).rate))
  {
  }

  /** What one sentence yields once its voice reference is resolved: the
      reference is split on every ':', the engine is looked up, the speaker id
      is this sentence's own, and the audio is framed by its pauses. */
  function SayResolved(resolved: Result<string>, engines: set<string>, s: Sentence, env: Env): Result<seq<Fragment>> {
    match resolved
    case Err(e) => Err(e)
    case Ok(v) =>
      if ':' !in v then Err(AssertionFailed("Invalid voice format"))
      else
        var parts := Split(v, ':');
        if |parts| != 2 then Err(UnpackValues)
        else if Lower(parts[0]) !in engines then Err(AssertionFailed("No TTS named"))
        else
          var (voiceId, speaker) := SpeakerSplit(parts[1]);
          var wav := env.say(Lower(parts[0]), s.text, voiceId, speaker);
          if wav == [] then Err(AssertionFailed("No WAV audio from sentence"))
          else Ok(Framed(s, wav, env))
  }

  /** Everything one sentence contributes, given the alias table: nothing for a
      blank sentence; else its voice request, resolved and synthesized. */
  function SentenceFragments(aliases: map<string, seq<string>>, engines: set<string>, s: Sentence, defaultVoice: string, env: Env): Result<seq<Fragment>> {
    if Strip(s.text) == "" then Ok([])
    else match SentenceVoice(s, defaultVoice)
    case Err(e) => Err(e)
    case Ok(request) => SayResolved(Resolve(aliases, engines, request, None), engines, s, env)
  }

  /** The fragments of each sentence under `f`, in order, stopping at the first error. */
  function EachSentence(f: Sentence -> Result<seq<Fragment>>, sentences: seq<Sentence>): Result<seq<Fragment>> {
    if sentences == [] then Ok([])
    else match f(sentences[0])
      case Err(e) => Err(e)
      case Ok(fs) => Then(fs, EachSentence(f, sentences[1..]))
  }

  /** What `ssml_to_wavs` yields for the parsed sentences. */
  function SsmlFragments(aliases: map<string, seq<string>>, engines: set<string>, sentences: seq<Sentence>, defaultVoice: string, env: Env): Result<seq<Fragment>>
  {
    EachSentence(s => SentenceFragments(aliases, engines, s, defaultVoice, env), sentences)
  }

  /** A whitespace-only sentence emits nothing, not even its pauses. */
  lemma BlankSentenceEmitsNothing(aliases: map<string, seq<string>>, engines: set<string>, s: Sentence, rest: seq<Sentence>, defaultVoice: string, env: Env)
    requires Strip(s.text) == ""
    ensures SsmlFragments(aliases, engines, [s] + rest, defaultVoice, env)
         == SsmlFragments(aliases, engines, rest, defaultVoice, env)
  {
    assert ([s] + rest)[1..] == rest;
    var r := SsmlFragments(aliases, engines, rest, defaultVoice, env);
    if r.Ok? { assert [] + r.value == r.value; }
  }

  /** The speaker a sentence is synthesized with is the one its own resolved
      reference names, or none: whatever `say_args` held from an earlier
      sentence is overwritten or popped before `say`. */
  lemma SentenceSpeakerIsOwn(engine: string, id: string, speaker: Option<string>, engines: set<string>, s: Sentence, env: Env)
    requires ':' !in engine && ':' !in id && '#' !in id
    requires speaker.Some? ==> ':' !in speaker.value
    requires Lower(engine) in engines
    ensures var wav := env.say(Lower(engine), s.text, id, speaker);
      SayResolved(Ok(engine + ":" + id + (if speaker.Some? then "#" + speaker.value else "")), engines, s, env)
      == if wav == [] then Err(AssertionFailed("No WAV audio from sentence")) else Ok(Framed(s, wav, env))
  {
    var suffix := if speaker.Some? then "#" + speaker.value else "";
    var tail := id + suffix;
    SpeakerTail(id, speaker);
    var ref := engine + ":" + id + suffix;
    assert ref == engine + [':'] + tail;
    ReferenceSplit(engine, tail);
    var parts := Split(ref, ':');
    assert |parts| == 2 && parts[0] == engine && parts[1] == tail;
    assert SpeakerSplit(parts[1]) == (id, speaker);
  }

  /** A reference with one ':' splits into the parts on either side of it. */
  lemma ReferenceSplit(engine: string, tail: string)
    requires ':' !in engine && ':' !in tail
    ensures ':' in engine + [':'] + tail
    ensures Split(engine + [':'] + tail, ':') == [engine, tail]
  {
    BeforeConcat(engine, ':', tail);
    assert (engine + [':'] + tail)[|engine|] == ':';
  }

  /** The part after ':' of a reference built from a voice id and an optional
      speaker id splits back into the two. */
  lemma SpeakerTail(id: string, speaker: Option<string>)
    requires ':' !in id && '#' !in id
    requires speaker.Some? ==> ':' !in speaker.value
    ensures var tail := id + (if speaker.Some? then "#" + speaker.value else "");
      ':' !in tail && SpeakerSplit(tail) == (id, speaker)
  {
    if speaker.Some? {
      var tail := id + ['#'] + speaker.value;
      assert tail == id + (if speaker.Some? then "#" + speaker.value else "");
      BeforeConcat(id, '#', speaker.value);
      assert tail[|id|] == '#';
      assert SpeakerSplit(tail) == (Before(tail, '#'), Some(After(tail, '#')));
    } else {
      assert id + "" == id;
    }
  }

  lemma SsmlFragmentsSnoc(aliases: map<string, seq<string>>, engines: set<string>, prev: seq<Sentence>, s: Sentence, defaultVoice: string, env: Env)
    requires SsmlFragments(aliases, engines, prev + [s], defaultVoice, env).Ok?
    ensures SentenceFragments(aliases, engines, s, defaultVoice, env).Ok?
    ensures SsmlFragments(aliases, engines, prev, defaultVoice, env).Ok?
    ensures SsmlFragments(aliases, engines, prev + [s], defaultVoice, env).value
            == SsmlFragments(aliases, engines, prev, defaultVoice, env).value
               + SentenceFragments(aliases, engines, s, defaultVoice, env).value
  {
    EachSentenceSnoc(s => SentenceFragments(aliases, engines, s, defaultVoice, env), prev, s);
  }

  lemma {:induction false} EachSentenceSnoc(f: Sentence -> Result<seq<Fragment>>, prev: seq<Sentence>, s: Sentence)
    requires EachSentence(f, prev + [s]).Ok?
    ensures f(s).Ok? && EachSentence(f, prev).Ok?
    ensures EachSentence(f, prev + [s]).value == EachSentence(f, prev).value + f(s).value
  {
    if prev == [] {
      assert prev + [s] == [s];
      assert [s][1..] == [];
      assert f(s).value + [] == f(s).value;
    } else {
      assert (prev + [s])[1..] == prev[1..] + [s];
      assert (prev + [s])[0] == prev[0];
      EachSentenceSnoc(f, prev[1..], s);
      var h := f(prev[0]).value;
      var a := EachSentence(f, prev[1..]).value;
      assert h + (a + f(s).value) == (h + a) + f(s).value;
    }
  }

  lemma SameResolutionTrans(a: map<string, seq<string>>, b: map<string, seq<string>>, c: map<string, seq<string>>)
    requires SameResolution(a, b) && SameResolution(b, c)
    ensures SameResolution(a, c)
  {
    forall w, fb ensures Candidates(a, w, fb) == Candidates(c, w, fb) {
      assert Candidates(a, w, fb) == Candidates(b, w, fb);
    }
    forall l ensures AliasesOf(a, l) == AliasesOf(c, l) {
      assert AliasesOf(a, l) == AliasesOf(b, l);
    }
  }

  /** Tables that resolve alike give every sentence the same fragments. */
  lemma SentenceFragmentsSameResolution(a: map<string, seq<string>>, b: map<string, seq<string>>, engines: set<string>,
                                        s: Sentence, defaultVoice: string, env: Env)
    requires SameResolution(a, b)
    ensures SentenceFragments(a, engines, s, defaultVoice, env) == SentenceFragments(b, engines, s, defaultVoice, env)
  {
    var request := SentenceVoice(s, defaultVoice);
    if request.Ok? {
      assert Candidates(a, request.value, None) == Candidates(b, request.value, None);
    }
  }

  /** One iteration of `ssml_to_wavs`: choose and resolve the voice, then
      synthesize with `SaySentence`. */
  method SynthesizeSentence(reg: Registry, s: Sentence, defaultVoice: string, speaker: Option<string>, env: Env)
    returns (r: Result<seq<Fragment>>, speaker': Option<string>)
    modifies reg`aliases
    ensures r == SentenceFragments(old(reg.aliases), reg.engines.Keys, s, defaultVoice, env)
    ensures SameResolution(reg.aliases, old(reg.aliases))
    ensures Strip(s.text) == "" ==> speaker' == speaker
  {
    speaker' := speaker;
    if Strip(s.text) == "" {
      return Ok([]), speaker';
    }
    var request := SentenceVoice(s, defaultVoice);
    if request.Err? {
      return Err(request.error), speaker';
    }
    TouchSameResolution(reg.aliases, request.value);
    var resolved := reg.ResolveVoice(request.value, None);
    r, speaker' := SaySentence(reg, resolved, s, speaker, env);
  }

  /** The rest of one iteration of `ssml_to_wavs`: split the resolved reference,
      set or clear the speaker id, call `say`, and add the pauses around the audio. */
  method SaySentence(reg: Registry, resolved: Result<string>, s: Sentence, speaker: Option<string>, env: Env)
    returns (r: Result<seq<Fragment>>, speaker': Option<string>)
    ensures r == SayResolved(resolved, reg.engines.Keys, s, env)
    ensures r.Ok? ==> resolved.Ok? && |Split(resolved.value, ':')| == 2
                      && speaker' == SpeakerSplit(Split(resolved.value, ':')[1]).1
  {
    speaker' := speaker;
    if resolved.Err? {
      return Err(resolved.error), speaker';
    }
    var v := resolved.value;
    if ':' !in v {
      return Err(AssertionFailed("Invalid voice format")), speaker';
    }
    var parts := Split(v, ':');
    if |parts| != 2 {
      return Err(UnpackValues), speaker';
    }
    var engine := reg.Get(parts[0]);
    if engine.None? {
      return Err(AssertionFailed("No TTS named")), speaker';
    }
    // `say_args["speaker_id"]` is set or popped before `say`.
    var voiceId := parts[1];
    if '#' in voiceId {
      speaker' := Some(After(voiceId, '#'));
      voiceId := Before(voiceId, '#');
    } else {
      speaker' := None;
    }
    var wav := env.say(Lower(parts[0]), s.text, voiceId, speaker');
    if wav == [] {
      return Err(AssertionFailed("No WAV audio from sentence")), speaker';
    }
    var p := env.header(wav);
    var piece: seq<Fragment> := [];
    if PauseBefore(s) > 0 {
      piece := piece + [Silence(PauseBefore(s), p, env)];
    }
    piece := piece + [Fragment(wav, p.rate)];
    if PauseAfter(s) > 0 {
      piece := piece + [Silence(PauseAfter(s), p, env)];
    }
    assert piece == Framed(s, wav, env);
    r := Ok(piece);
  }

  /** `ssml_to_wavs`: the sentences in order, each through `SynthesizeSentence`. */
  method SsmlToWavs(reg: Registry, sentences: seq<Sentence>, defaultVoice: string, env: Env) returns (r: Result<seq<Fragment>>)
    modifies reg`aliases
    ensures r == SsmlFragments(old(reg.aliases), reg.engines.Keys, sentences, defaultVoice, env)
    ensures SameResolution(reg.aliases, old(reg.aliases))
  {
    ghost var start := reg.aliases;
    var frags: seq<Fragment> := [];
    // The `speaker_id` entry of `say_args`, carried from sentence to sentence.
    var speaker: Option<string> := None;
    var i := 0;
    ThenNil(SsmlFragments(start, reg.engines.Keys, sentences, defaultVoice, env));
    while i < |sentences|
      invariant 0 <= i <= |sentences|
      invariant SameResolution(reg.aliases, start)
      invariant SsmlFragments(start, reg.engines.Keys, sentences, defaultVoice, env)
             == Then(frags, SsmlFragments(start, reg.engines.Keys, sentences[i..], defaultVoice, env))
    {
      assert sentences[i..][1..] == sentences[i + 1..];
      assert sentences[i..][0] == sentences[i];
      ghost var before := reg.aliases;
      var piece;
      piece, speaker := SynthesizeSentence(reg, sentences[i], defaultVoice, speaker, env);
      SentenceFragmentsSameResolution(before, start, reg.engines.Keys, sentences[i], defaultVoice, env);
      SameResolutionTrans(reg.aliases, before, start);
      if piece.Err? {
        return Err(piece.error);
      }
      ThenThen(frags, piece.value, SsmlFragments(start, reg.engines.Keys, sentences[i + 1..], defaultVoice, env));
      frags := frags + piece.value;
      i := i + 1;
    }
    assert frags + [] == frags;
    r := Ok(frags);
  }

  // ---------------------------------------------------------------------------
  // text_to_wav
  // ---------------------------------------------------------------------------

  /** Whether the cache file read and the cache file write fail. */
  datatype CacheFaults = CacheFaults(readFails: bool, writeFails: bool)

  /** The voice `text_to_wav` uses: the requested one, else the preferred one for the language. */
  function RequestVoice(aliases: map<string, seq<string>>, req: Request): string {
    if req.voice == "" then PreferredVoice(aliases, req.lang) else req.voice
  }

  /** The cache file a request reads and writes, when caching applies. */
  function RequestCachePath(aliases: map<string, seq<string>>, req: Request, cacheDir: Option<CacheLocation>, env: Env): Option<string> {
    if req.useCache && cacheDir.Some? then Some(CachePath(cacheDir.value, req, RequestVoice(aliases, req), env)) else None
  }

  /** Synthesis without the cache: the fragment stream of the line or SSML
      path, assembled into one WAV. */
  function Synthesized(aliases: map<string, seq<string>>, engines: set<string>, req: Request, sentences: seq<Sentence>,
                       voice: string, env: Env): Result<Bytes>
  {
    var frags := if req.ssml then SsmlFragments(aliases, engines, sentences, voice, env)
                 else LineFragments(aliases, engines, req.text, voice, env);
    if frags.Err? then Err(frags.error)
    else if frags.value == [] then Err(AssertionFailed("No audio returned from synthesis"))
    else
      var out := OutputParams(frags.value);
      Ok(env.container(out, AssembledFrames(frags.value, out, env)))
  }

  /** The cache files after the write-back: only a non-empty result with a
      cache path is written, and a failing write leaves the files as they were. */
  function Stored(files: map<string, Bytes>, path: Option<string>, out: Result<Bytes>, faults: CacheFaults): map<string, Bytes> {
    if out.Ok? && out.value != [] && path.Some? && !faults.writeFails then files[path.value := out.value] else files
  }

  /** The result of `text_to_wav` and the cache directory's files afterwards. */
  function TextToWavResult(aliases: map<string, seq<string>>, engines: set<string>, req: Request, sentences: seq<Sentence>,
                           cacheDir: Option<CacheLocation>, files: map<string, Bytes>, faults: CacheFaults, env: Env): (Result<Bytes>, map<string, Bytes>)
  {
    var voice := RequestVoice(aliases, req);
    if voice == "" then (Err(AssertionFailed("No voice provided")), files)
    else
      var path := RequestCachePath(aliases, req, cacheDir, env);
      if path.Some? && path.value in files && !faults.readFails then (Ok(files[path.value]), files)
      else
        var out := Synthesized(aliases, engines, req, sentences, voice, env);
        (out, Stored(files, path, out, faults))
  }

  /** `text_to_wav`: fill in the voice, try the cache, synthesize by lines or by
      SSML sentences, assemble, and write the result back to the cache. */
  method TextToWav(reg: Registry, req: Request, sentences: seq<Sentence>, cacheDir: Option<CacheLocation>,
                   files: map<string, Bytes>, faults: CacheFaults, env: Env) returns (r: Result<Bytes>, files': map<string, Bytes>)
    modifies reg`aliases
    ensures (r, files') == TextToWavResult(old(reg.aliases), reg.engines.Keys, req, sentences, cacheDir, files, faults, env)
    ensures SameResolution(reg.aliases, old(reg.aliases))
    ensures forall l :: PreferredVoice(reg.aliases, l) == PreferredVoice(old(reg.aliases), l)
  {
    ghost var a0 := reg.aliases;
    ghost var engines := reg.engines.Keys;
    var voice := req.voice;
    if voice == "" {
      voice := reg.GetPreferredVoice(req.lang);
    }
    assert voice == RequestVoice(a0, req);
    if voice == "" {
      return Err(AssertionFailed("No voice provided")), files;
    }
    var path: Option<string> := None;
    if req.useCache && cacheDir.Some? {
      path := Some(CachePath(cacheDir.value, req, voice, env));
    }
    assert path == RequestCachePath(a0, req, cacheDir, env);
    if path.Some? && path.value in files && !faults.readFails {
      return Ok(files[path.value]), files;
    }
    r := SynthesizeRequest(reg, req, sentences, voice, env);
    files' := Store(files, path, r, faults);
    forall l ensures PreferredVoice(reg.aliases, l) == PreferredVoice(a0, l) {
      SameResolutionPreferred(reg.aliases, a0, l);
    }
  }

  /** The write-back of `text_to_wav`. */
  method Store(files: map<string, Bytes>, path: Option<string>, r: Result<Bytes>, faults: CacheFaults) returns (files': map<string, Bytes>)
    ensures files' == Stored(files, path, r, faults)
  {
    files' := files;
    if r.Ok? && r.value != [] && path.Some? && !faults.writeFails {
      files' := files[path.value := r.value];
    }
  }

  /** The synthesis part of `text_to_wav`: by lines or by SSML sentences, then assembled. */
  method SynthesizeRequest(reg: Registry, req: Request, sentences: seq<Sentence>, voice: string, env: Env) returns (r: Result<Bytes>)
    modifies reg`aliases
    ensures r == Synthesized(old(reg.aliases), reg.engines.Keys, req, sentences, voice, env)
    ensures SameResolution(reg.aliases, old(reg.aliases))
  {
    var frags: Result<seq<Fragment>>;
    if req.ssml {
      frags := SsmlToWavs(reg, sentences, voice, env);
    } else {
      frags := TextToWavs(reg, req.text, voice, env);
    }
    if frags.Err? {
      return Err(frags.error);
    }
    r := Assemble(frags.value, env);
  }

  /** With no cache directory the cache is never read nor written. */
  lemma NoCacheDirNoCache(aliases: map<string, seq<string>>, engines: set<string>, req: Request, sentences: seq<Sentence>,
                          files: map<string, Bytes>, faults: CacheFaults, env: Env)
    ensures TextToWavResult(aliases, engines, req, sentences, None, files, faults, env).1 == files
  {
  }

  /** A readable cache hit returns the stored bytes and changes no file. */
  lemma CacheHitReturnsStored(aliases: map<string, seq<string>>, engines: set<string>, req: Request, sentences: seq<Sentence>,
                              dir: CacheLocation, files: map<string, Bytes>, env: Env)
    requires RequestVoice(aliases, req) != ""
    requires req.useCache
    requires CachePath(dir, req, RequestVoice(aliases, req), env) in files
    ensures TextToWavResult(aliases, engines, req, sentences, Some(dir), files, CacheFaults(false, false), env)
         == (Ok(files[CachePath(dir, req, RequestVoice(aliases, req), env)]), files)
  {
  }

  /** Tables that resolve alike give the line path the same fragments. */
  lemma LineFragmentsSameResolution(a: map<string, seq<string>>, b: map<string, seq<string>>, engines: set<string>,
                                    text: string, voice: string, env: Env)
    requires SameResolution(a, b)
    ensures LineFragments(a, engines, text, voice, env) == LineFragments(b, engines, text, voice, env)
  {
    assert Candidates(a, voice, None) == Candidates(b, voice, None);
  }

  /** Tables that resolve alike give the SSML path the same fragments. */
  lemma {:induction false} SsmlFragmentsSameResolution(a: map<string, seq<string>>, b: map<string, seq<string>>, engines: set<string>,
                                                       sentences: seq<Sentence>, defaultVoice: string, env: Env)
    requires SameResolution(a, b)
    ensures SsmlFragments(a, engines, sentences, defaultVoice, env) == SsmlFragments(b, engines, sentences, defaultVoice, env)
    decreases |sentences|
  {
    if sentences != [] {
      SentenceFragmentsSameResolution(a, b, engines, sentences[0], defaultVoice, env);
      SsmlFragmentsSameResolution(a, b, engines, sentences[1..], defaultVoice, env);
    }
  }

  /** A request gives the same result and the same cache files on tables that
      resolve alike: the table a call leaves behind answers the next call as
      the one before it would. */
  lemma TextToWavResultSameResolution(a: map<string, seq<string>>, b: map<string, seq<string>>, engines: set<string>, req: Request,
                                      sentences: seq<Sentence>, cacheDir: Option<CacheLocation>, files: map<string, Bytes>,
                                      faults: CacheFaults, env: Env)
    requires SameResolution(a, b)
    ensures TextToWavResult(a, engines, req, sentences, cacheDir, files, faults, env)
         == TextToWavResult(b, engines, req, sentences, cacheDir, files, faults, env)
  {
    SameResolutionPreferred(a, b, req.lang);
    var voice := RequestVoice(a, req);
    assert RequestVoice(b, req) == voice;
    assert RequestCachePath(a, req, cacheDir, env) == RequestCachePath(b, req, cacheDir, env);
    SynthesizedSameResolution(a, b, engines, req, sentences, voice, env);
  }

  lemma SynthesizedSameResolution(a: map<string, seq<string>>, b: map<string, seq<string>>, engines: set<string>, req: Request,
                                  sentences: seq<Sentence>, voice: string, env: Env)
    requires SameResolution(a, b)
    ensures Synthesized(a, engines, req, sentences, voice, env) == Synthesized(b, engines, req, sentences, voice, env)
  {
    if req.ssml {
      SsmlFragmentsSameResolution(a, b, engines, sentences, voice, env);
    } else {
      LineFragmentsSameResolution(a, b, engines, req.text, voice, env);
    }
  }

  /** Cache round trip: after a successful synthesis whose write succeeded,
      the same request on the table that call left behind is answered from the
      cache with the same bytes, and the files stay as they are. */
  lemma CacheRoundTrip(aliases: map<string, seq<string>>, after: map<string, seq<string>>, engines: set<string>, req: Request,
                       sentences: seq<Sentence>, dir: CacheLocation, files: map<string, Bytes>, faults: CacheFaults, env: Env)
    requires SameResolution(after, aliases)
    requires req.useCache && !faults.writeFails
    requires TextToWavResult(aliases, engines, req, sentences, Some(dir), files, faults, env).0.Ok?
    requires TextToWavResult(aliases, engines, req, sentences, Some(dir), files, faults, env).0.value != []
    ensures var first := TextToWavResult(aliases, engines, req, sentences, Some(dir), files, faults, env);
      TextToWavResult(after, engines, req, sentences, Some(dir), first.1, CacheFaults(false, false), env) == first
  {
    var first := TextToWavResult(aliases, engines, req, sentences, Some(dir), files, faults, env);
    TextToWavResultSameResolution(after, aliases, engines, req, sentences, Some(dir), first.1, CacheFaults(false, false), env);
    CacheRoundTripSameTable(aliases, engines, req, sentences, dir, files, faults, env);
  }

  /** The round trip on one unchanged table. */
  lemma CacheRoundTripSameTable(aliases: map<string, seq<string>>, engines: set<string>, req: Request, sentences: seq<Sentence>,
                                dir: CacheLocation, files: map<string, Bytes>, faults: CacheFaults, env: Env)
    requires req.useCache && !faults.writeFails
    requires TextToWavResult(aliases, engines, req, sentences, Some(dir), files, faults, env).0.Ok?
    requires TextToWavResult(aliases, engines, req, sentences, Some(dir), files, faults, env).0.value != []
    ensures var first := TextToWavResult(aliases, engines, req, sentences, Some(dir), files, faults, env);
      TextToWavResult(aliases, engines, req, sentences, Some(dir), first.1, CacheFaults(false, false), env) == first
  {
    var voice := RequestVoice(aliases, req);
    var path := CachePath(dir, req, voice, env);
    assert RequestCachePath(aliases, req, Some(dir), env) == Some(path);
    var first := TextToWavResult(aliases, engines, req, sentences, Some(dir), files, faults, env);
    if !(path in files && !faults.readFails) {
      var out := Synthesized(aliases, engines, req, sentences, voice, env);
      assert first == (out, files[path := out.value]);
    }
    assert path in first.1 && first.1[path] == first.0.value;
  }
}
