# Offline TTS server: voice resolution, synthesis pipeline and start-up

This project is a Dafny model of the core of an offline text-to-speech server. The server
wraps eSpeak and Coqui-TTS behind one voice registry. The model covers these parts:

- **Voice registry** (`TtsBase`, from `tts/tts_base.py`). The registry holds the
  registered engines (`_TTSList`), the language allow-list (`langs`), the default language and
  the alias table (`voice_aliases`).
  - Engines seed the alias table with their allowed voices.
  - `resolve_voice` turns a voice, language or locale request into an `engine:voice`
    reference. It tries the aliases, the fallback, the original request and an `espeak:` fallback,
    in that order.
- **Synthesis pipeline** (`ToWav`, from `to_wav.py`).
  - The cache settings and the cache key built from the settings string.
  - The line path (`text_to_wavs`) and the SSML path (`ssml_to_wavs`). The SSML path covers
    per-sentence voice choice, speaker suffixes and pauses.
  - Silence sizing, and assembly of the fragments into one WAV at the highest sample rate.
  - The read-through / write-back cache of `text_to_wav`.
- **Coqui-TTS engine** (`CoquiTts`, from `tts/coqui_tts.py`). The fixed voice table, the
  per-voice synthesizer cache, the listing of installed voices and the speaker default. It
  also covers text preparation: full stop, and Chinese punctuation folding.
- **eSpeak engine** (`EspeakTts`, from `tts/espeak_tts.py`). The choice of program, and the
  parser of the `--voices` listing.
- **Start-up** (`Utils`, from `utils.py`). `initTTS` sets the language list, the default
  language, the preferred voices (from the file, then the command line), the cache setting and
  the engine registration.
- **HTTP helpers** (`Api`, from `api.py`).
  - `clean_nones` and `convert_bool`.
  - The request built by `/api/tts` and by the MaryTTS `/process`.
  - The listings of `/api/voices` and `/api/languages`.
  - The MaryTTS `/voices` handler.

`Common` holds the shared `Option`/`Result`/error types. `Text` models the Python string
operations the code relies on (`lower`, `strip`, `split`, `splitlines`, `re.split(r"[-_]")`).

Engines, subprocesses, the SHA-256 hash and the WAV container are modelled as
uninterpreted functions in an `Env` record. They take bytes in and give bytes out. Files,
the program search path and the SSML parser's sentences are inputs.

Some behaviour of the code is modelled as written even though it looks unintended:

- `setCacheDir` assigns locals only, so the module cache directory stays unset, and
  `text_to_wav` never caches after start-up (`ToWav.CacheSettings.SetCacheDir`,
  `ToWav.NoCacheDirNoCache`).
- `initTTS` reads an undefined `log_level` when Coqui does not import, so it fails with
  `NameError` (`Utils.InitTTS`).
- `resolve_voice` puts the original request before the `espeak:` fallback. A colon-less request
  therefore stops the search with an unpacking error before that fallback is reached
  (`TtsBase.ResolveColonlessSkipsEspeak`).
- `ssml_to_wavs` reads `lang` before assigning it when a sentence has a language and the
  default voice has no engine prefix (`ToWav.SentenceVoice`).

## Model

| member | source | states |
|---|---|---|
| TtsBase.AllowedVoices | tts/tts_base.py:85-90 | a voice is yielded iff it is listed and its language is in the allow-list |
| TtsBase.AllowedVoicesConcat | tts/tts_base.py:85-90 | filtering distributes over concatenation, so the order is kept |
| TtsBase.WithAlias | tts/tts_base.py:96-109 | nothing is added if the language or voice is empty; otherwise the voice is in the language's list afterwards, which grows by at most that voice and holds nothing else new; old lists are prefixes of the new ones and other languages are untouched |
| TtsBase.WithAliasNoDuplicates | tts/tts_base.py:107-109 | adding an alias never creates a duplicate in a duplicate-free table |
| TtsBase.VoiceAliasSplits | tts/tts_base.py:101 | the alias `name:id` splits back into the class name and the voice id |
| TtsBase.SeedAliasesExtends | tts/tts_base.py:77-79 | seeding only appends to lists and keeps a table duplicate-free |
| TtsBase.SeedAliasesCovers | tts/tts_base.py:77-79 | every seeded voice with a language is listed under that language |
| TtsBase.SeedAliasesSound | tts/tts_base.py:77-79 | every alias after seeding was there before or is `name:id` of a seeded voice of that language |
| TtsBase.SeedAliasesFirstPreferred | tts/tts_base.py:62-79 | for a language with no aliases, the first seeded voice of that language becomes its preferred voice |
| TtsBase.SeedAliases | tts/tts_base.py:77-79 | `_init`'s seeding: each voice's `name:id` added under its language in order; its properties are `SeedAliasesExtends`, `SeedAliasesCovers`, `SeedAliasesSound` and `SeedAliasesFirstPreferred` |
| TtsBase.PreferredVoice | tts/tts_base.py:62-69 | the first alias of the language, and "" exactly when there is none or it is "" |
| TtsBase.AliasKey | tts/tts_base.py:141-161 | only a bound: the key is an existing alias key or its own primary subtag; the rule itself is stated by `CandidatesStartWithAliases` and `AliasKeyIgnoresSpeakerAndCase` |
| TtsBase.Candidates | tts/tts_base.py:141-166 | the search order: the key's aliases, the fallback, the original request, then `espeak:` for a colon-less voice; its properties are the lemmas below |
| TtsBase.CandidatesStartWithAliases | tts/tts_base.py:141-166 | the candidates begin with the aliases of the lower-cased voice without its `#speaker` suffix when that is a key, and otherwise with those of its primary subtag |
| TtsBase.AliasKeyIgnoresSpeakerAndCase | tts/tts_base.py:141-161 | a `#speaker` suffix and the letter case of a voice do not change its alias key |
| TtsBase.FirstRegistered | tts/tts_base.py:166-172 | the loop over the candidates; stated by `FirstRegisteredSound`, `FirstRegisteredErrors` and `FirstRegisteredCannotResolve` |
| TtsBase.Resolve | tts/tts_base.py:134-172 | `resolve_voice`'s result on a table; stated by `ResolveNamesRegisteredEngine` and the lemmas after it |
| TtsBase.Touch | tts/tts_base.py:166 | the defaultdict's insertion of an empty list; stated by `TouchStable` |
| TtsBase.FirstRegisteredErrors | tts/tts_base.py:166-172 | the search fails only with the unpacking error or "Cannot resolve voice" |
| TtsBase.FirstRegisteredSound | tts/tts_base.py:166-170 | the result is the first candidate naming a registered engine; every earlier one has a ':' and an unregistered engine |
| TtsBase.FirstRegisteredCannotResolve | tts/tts_base.py:166-172 | "Cannot resolve voice" is raised iff every candidate has a ':' and names an unregistered engine |
| TtsBase.FirstRegisteredStopsAtColonless | tts/tts_base.py:167 | a candidate without ':' ends the search; later candidates are never tried |
| TtsBase.FirstRegisteredColonlessIrrelevant | tts/tts_base.py:167 | which colon-less candidate ends the search makes no difference |
| TtsBase.ResolveNamesRegisteredEngine | tts/tts_base.py:134-172 | a resolved reference is one of the candidates, has a ':' and names a registered engine |
| TtsBase.ResolveColonlessSkipsEspeak | tts/tts_base.py:152-166 | for a request without ':' the `espeak:` fallback is never reached, and "Cannot resolve voice" is impossible |
| TtsBase.ResolveLocaleFallback | tts/tts_base.py:158-161 | a locale with no alias entry resolves exactly as its language |
| TtsBase.TouchStable | tts/tts_base.py:166 | the empty list the defaultdict inserts changes the candidates of no later request |
| TtsBase.Registry.constructor | tts/tts_base.py:52-60 | no engines, no aliases, no languages, default language "en" |
| TtsBase.Registry.AddVoiceAlias | tts/tts_base.py:96-109 | the table becomes `WithAlias` of the old one |
| TtsBase.Registry.AddVoiceAliasOf | tts/tts_base.py:97-101 | a voice is added as `name:id` under the given language, or under its own language when none is given |
| TtsBase.Registry.Voices | tts/tts_base.py:85-90 | an engine's voices whose language is allowed, and only those |
| TtsBase.Registry.InitAliases | tts/tts_base.py:77-79 | `_init` adds every allowed voice's alias in order |
| TtsBase.Registry.Register | tts/tts_base.py:111-124 | registers under the lower-cased name, or the class name when none is given; an existing name fails with "already exists" and changes nothing |
| TtsBase.Registry.Get | tts/tts_base.py:126-128 | finds an engine iff the lower-cased name is registered |
| TtsBase.Registry.Unregister | tts/tts_base.py:130-132 | removes and returns the engine under the exact name, without lower-casing |
| TtsBase.UnregisterMixedCaseFindsNothing | tts/tts_base.py:116-132 | a mixed-case name is never a registered key, so unregistering it finds nothing |
| TtsBase.Registry.GetPreferredVoice | tts/tts_base.py:62-69 | the first alias for the language, or "" |
| TtsBase.Registry.ResolveVoice | tts/tts_base.py:134-172 | returns `Resolve` of the table and leaves the table touched at the alias key |
| ToWav.CacheSettings.constructor | to_wav.py:20-21 | the cache directory starts unset |
| ToWav.CacheSettings.SetCacheDir | to_wav.py:28-47 | true-like strings and booleans choose a temporary directory, false-like strings none, other strings a user directory; the stored setting is unchanged |
| ToWav.SettingsSplit | to_wav.py:78 | the settings string splits on ';' back into its four fields |
| ToWav.SettingsStringInjective | to_wav.py:78 | different well-formed settings always give different settings strings |
| ToWav.SettingsString | to_wav.py:78 | the `;`-joined settings; stated by `SettingsSplit` and `SettingsStringInjective` |
| ToWav.CacheKeyString | to_wav.py:49-52 | the key text is the text, '-', the voice, '-', and the settings, each at its place |
| ToWav.CacheKeyStringCollides | to_wav.py:49-52 | a '-' in the text can make two different requests share one key |
| ToWav.CachePath | to_wav.py:74-80 | the cache file of a request: the hash of the key string in the cache directory; stated by `CachePathIgnoresVocoderAndSsmlArgs` and the cache lemmas |
| ToWav.CachePathIgnoresVocoderAndSsmlArgs | to_wav.py:76-80 | the vocoder and the SSML verbalisation options do not change the cache file |
| ToWav.SilenceBytes | to_wav.py:347-363 | the zero byte count is the ceiling of milliseconds times bytes per second over 1000 |
| ToWav.MaxRate | to_wav.py:125-128 | the output rate is the largest fragment rate and belongs to some fragment |
| ToWav.OutputParams | to_wav.py:125-128 | the output is 16-bit mono at a rate no lower than any fragment's |
| ToWav.Piece | to_wav.py:130-181 | one fragment's frames, copied when its format is the output's, else resampled; stated by `Assemble` and `AssembleMixedRates` |
| ToWav.AssembledFrames | to_wav.py:130-181 | the pieces joined in order; stated by `AssembledFramesConcat` and `Assemble` |
| ToWav.AssembledFramesConcat | to_wav.py:130-181 | assembly keeps the fragments in order |
| ToWav.Assemble | to_wav.py:122-181 | no fragments fail "No audio returned"; otherwise each fragment is copied or resampled to the output format and joined in order |
| ToWav.AssembleMixedRates | to_wav.py:130-181 | with 16 kHz and 22.05 kHz fragments, the output is at 22.05 kHz and only the 16 kHz ones are resampled |
| ToWav.ThenThen | to_wav.py:130-181 | fragment prefixes compose |
| ToWav.KeptLines | to_wav.py:216-222 | kept lines are non-empty, stripped and no more than the input lines |
| ToWav.KeptLinesExactlyNonBlank | to_wav.py:216-222 | every line with text is kept stripped, and every kept line comes from an input line |
| ToWav.SayLines | to_wav.py:216-224 | one `say` per kept line; stated by `SayLinesOnePerLine` and `SayLinesErrors` |
| ToWav.LineFragments | to_wav.py:201-232 | the line path's result on a table; stated by `LineAssertionsHold`, `TextToWavs` and `LineFragmentsSameResolution` |
| ToWav.SayLinesOnePerLine | to_wav.py:216-224 | success gives one fragment per line, from the engine, with the same voice and speaker throughout |
| ToWav.SayLinesErrors | to_wav.py:224 | the line path's only synthesis error is "No WAV audio from line" |
| ToWav.LineAssertionsHold | to_wav.py:204-209 | the "Invalid voice" and "No TTS named" assertions after resolution never fail |
| ToWav.TouchSameResolution | tts/tts_base.py:166 | a resolution leaves every later resolution unchanged |
| ToWav.SameResolutionPreferred | tts/tts_base.py:62-69 | tables that resolve alike prefer the same voice for every language |
| ToWav.TextToWavs | to_wav.py:201-232 | yields the line path's fragments and keeps every resolution unchanged |
| ToWav.SayEachLine | to_wav.py:216-224 | the per-line loop equals the line path's specification |
| ToWav.SentenceVoice | to_wav.py:261-277 | an explicit voice wins; otherwise the default voice when its language matches or the sentence has none; otherwise the language; `UnboundLocalError` when the default voice has no engine |
| ToWav.ExplicitVoiceWins | to_wav.py:261-263 | a sentence's own voice is always used |
| ToWav.Framed | to_wav.py:316-344 | the sentence fragment, with silence of the pause length before and after when the pause is positive, in the sentence fragment's format; nothing else |
| ToWav.PauseFolding | to_wav.py:316-330 | the first word's pause before and the last word's pause after add to the sentence's own pauses, and the silences of those sums frame the sentence fragment |
| ToWav.BlankSentenceEmitsNothing | to_wav.py:256-259 | a blank sentence contributes nothing |
| ToWav.SentenceSpeakerIsOwn | to_wav.py:279-301 | a reference `engine:id#speaker` reaches the engine with that speaker, and `engine:id` with none, whatever speaker an earlier sentence left in `say_args` |
| ToWav.SpeakerTail | to_wav.py:286-291 | the part after ':' splits at '#' back into the voice id and the speaker id |
| ToWav.SayResolved | to_wav.py:279-301 | one resolved sentence's result; stated by `SentenceSpeakerIsOwn` and `SaySentence` |
| ToWav.SentenceFragments | to_wav.py:256-301 | one sentence's result on a table; stated by `BlankSentenceEmitsNothing`, `SynthesizeSentence` and `SentenceFragmentsSameResolution` |
| ToWav.SsmlFragments | to_wav.py:235-344 | the SSML path's stream; stated by `SsmlFragmentsSnoc`, `SsmlToWavs` and `SsmlFragmentsSameResolution` |
| ToWav.SsmlFragmentsSnoc | to_wav.py:235-344 | the SSML stream is each sentence's fragments, in order |
| ToWav.EachSentenceSnoc | to_wav.py:235-344 | a successful sentence stream extends by one sentence's fragments |
| ToWav.SentenceFragmentsSameResolution | to_wav.py:279-301 | tables that resolve alike give the same sentence output |
| ToWav.SynthesizeSentence | to_wav.py:256-344 | one sentence's fragments per its specification, for every incoming speaker; resolutions unchanged; a blank sentence leaves the speaker as it was |
| ToWav.SaySentence | to_wav.py:280-301 | a resolved sentence fails on a bad reference or empty audio, otherwise yields the framed audio, for every incoming speaker; on success the carried speaker is the one this reference names, or none |
| ToWav.SsmlToWavs | to_wav.py:235-344 | the loop yields the SSML stream's specification; resolutions unchanged |
| ToWav.TextToWav | to_wav.py:55-198 | result and cache files equal `TextToWavResult`; resolutions and every language's preferred voice unchanged |
| ToWav.Store | to_wav.py:190-196 | non-empty audio is written to the cache path unless the write fails |
| ToWav.SynthesizeRequest | to_wav.py:98-128 | dispatches to the SSML or line path and assembles |
| ToWav.Synthesized | to_wav.py:98-128 | synthesis without the cache; stated by `SynthesizeRequest` and `SynthesizedSameResolution` |
| ToWav.TextToWavResult | to_wav.py:55-198 | `text_to_wav`'s result and files; stated by `TextToWav`, the cache lemmas and `TextToWavResultSameResolution` |
| ToWav.NoCacheDirNoCache | to_wav.py:76 | with no cache directory the cache files are never touched |
| ToWav.CacheHitReturnsStored | to_wav.py:76-88 | a readable stored file is returned as is |
| ToWav.LineFragmentsSameResolution | to_wav.py:201-232 | tables that resolve alike give the line path the same fragments |
| ToWav.SsmlFragmentsSameResolution | to_wav.py:235-344 | tables that resolve alike give the SSML path the same fragments |
| ToWav.SynthesizedSameResolution | to_wav.py:98-128 | tables that resolve alike give the same assembled audio |
| ToWav.TextToWavResultSameResolution | to_wav.py:55-198 | tables that resolve alike give the same result and cache files for every request |
| ToWav.CacheRoundTrip | to_wav.py:76-196 | repeating a request after a store, on the alias table the first call left behind, returns the same result and leaves the files as they are |
| ToWav.CacheRoundTripSameTable | to_wav.py:76-196 | on one unchanged table, a stored result is read back as it was written |
| CoquiTts.RunChar | tts/coqui_tts.py:121-127 | '.' and '．' become '。'; '!' and '?' move by 0xFEE0 to '！' and '？'; full-width marks are kept; every mark of the class becomes a Chinese stop |
| CoquiTts.RunLength | tts/coqui_tts.py:129 | the run is the longest prefix of punctuation |
| CoquiTts.CollapseRun | tts/coqui_tts.py:121-129 | a maximal run becomes the one character its last character maps to, followed by the rest folded |
| CoquiTts.Collapse | tts/coqui_tts.py:129 | never longer; empty iff the input is empty; the first and last characters keep their kind |
| CoquiTts.CollapseCollapsed | tts/coqui_tts.py:129 | after folding, no two punctuation marks are adjacent and every mark is a Chinese stop |
| CoquiTts.CollapseKeepsWords | tts/coqui_tts.py:129 | the non-punctuation text is unchanged |
| CoquiTts.CollapseFixed | tts/coqui_tts.py:129 | folded text folds to itself |
| CoquiTts.ZhSentence | tts/coqui_tts.py:120-131 | folded text that ends in a Chinese stop, with exactly one '。' appended and only when needed |
| CoquiTts.ZhSentenceFixed | tts/coqui_tts.py:118-131 | preparing prepared Chinese text changes nothing |
| CoquiTts.FullStop | tts/coqui_tts.py:132-133 | the text ends in '.', '?' or '!', with exactly one '.' appended and only when needed |
| CoquiTts.FullStopFixed | tts/coqui_tts.py:118-133 | full-stopped text is stripped and stable |
| CoquiTts.Prepare | tts/coqui_tts.py:117-133 | the prepared text is empty iff the stripped text is |
| CoquiTts.PrepareIdempotent | tts/coqui_tts.py:117-133 | preparing twice equals preparing once |
| CoquiTts.DefaultSpeaker | tts/coqui_tts.py:103-111 | a multi-speaker voice with no speaker or "" gets its first speaker name, else 0; otherwise the speaker is passed through |
| CoquiTts.SynthesizerFor | tts/coqui_tts.py:54-75 | checkpoint paths under the voice directory; vocoder and speaker files only when present |
| CoquiTts.FindVoice | tts/coqui_tts.py:100-101 | the table's voice with that id, or none exactly when no voice has it |
| CoquiTts.Loaded | tts/coqui_tts.py:85-92 | only the speaker table may change, and only for an installed multi-speaker voice without one |
| CoquiTts.LoadedIdempotent | tts/coqui_tts.py:85-92 | speakers are loaded at most once |
| CoquiTts.PresentMembers | tts/coqui_tts.py:82-94 | the yielded voices are exactly the table's voices whose model directory exists |
| CoquiTts.PresentConcat | tts/coqui_tts.py:82-94 | the listing keeps the table order |
| CoquiTts.Present | tts/coqui_tts.py:82-94 | the installed voices; stated by `PresentMembers` and `PresentConcat` |
| CoquiTts.CoquiVoices | tts/coqui_tts.py:25-49 | the fixed table of three voices; used by `CoquiEngine.constructor` |
| CoquiTts.CoquiEngine.constructor | tts/coqui_tts.py:16-49 | no synthesizers yet, and the fixed three-voice table |
| CoquiTts.CoquiEngine.GetSynthesizer | tts/coqui_tts.py:51-78 | a cached synthesizer is reused; otherwise one is built and cached; other entries are unchanged |
| CoquiTts.CoquiEngine.ListVoices | tts/coqui_tts.py:80-94 | each voice is loaded in place and the installed ones are yielded in order |
| CoquiTts.CoquiEngine.Visit | tts/coqui_tts.py:83-94 | one voice is loaded and reported present iff its directory exists |
| CoquiTts.CoquiEngine.Say | tts/coqui_tts.py:96-149 | an unknown voice fails "No Coqui-TTS voice" and changes nothing; otherwise the prepared text is synthesized with the default speaker by the voice's synthesizer, which is reused when cached and otherwise built by `SynthesizerFor` and added under the voice id alone |
| EspeakTts.EspeakEngine.constructor | tts/espeak_tts.py:13-16 | `espeak-ng` iff it is on the search path, else `espeak` |
| EspeakTts.LocaleOf | tts/espeak_tts.py:36-43 | `cmn` and `yue` become `zh-cmn`/`zh-yue` with language `zh`; otherwise the locale is the token and the language the part before the first '-', the whole token when there is none |
| EspeakTts.VoiceOfTokens | tts/espeak_tts.py:35-51 | four tokens or more give the voice (locale, gender from the last character, name); fewer raise `IndexError` |
| EspeakTts.ParseLine | tts/espeak_tts.py:35-51 | a line parses iff it has at least four whitespace tokens, with the fields taken from them |
| EspeakTts.ParsedLinesAllOk | tts/espeak_tts.py:30-51 | lines that all parse yield one voice each, in order |
| EspeakTts.ParsedLinesStopsAtError | tts/espeak_tts.py:30-51 | the first failing line ends the listing with its error |
| EspeakTts.ListingOnePerLine | tts/espeak_tts.py:28-51 | the header is skipped and each later well-formed line yields its voice |
| EspeakTts.ListingStopsAtShortLine | tts/espeak_tts.py:35-48 | a short line raises `IndexError` after the voices before it |
| EspeakTts.ParsedListing | tts/espeak_tts.py:28-51 | the header skipped and the later lines parsed; stated by `ListingOnePerLine`, `ListingStopsAtShortLine` and `ParseVoices` |
| EspeakTts.ParseVoices | tts/espeak_tts.py:28-51 | the `first_line` loop equals the listing's specification |
| Utils.Langs | utils.py:20 | never empty; joining it with ',' gives back the argument; no part holds ',' |
| Utils.DefaultLanguage | utils.py:22-38 | the stripped file text, else the argument, else the first language, else "en"; never empty |
| Utils.ChooseDefaultLanguage | utils.py:22-38 | the reassignment steps compute `DefaultLanguage` |
| Utils.PrependLookup | utils.py:53 | `insert(0, …)` puts the voice first in its language's list and changes no other language |
| Utils.PrependAll | utils.py:49-58 | the pairs inserted at the front in order; stated by `PrependAllShape`, `PrependAllConcat` and `LastPairFirst` |
| Utils.PrependAllShape | utils.py:49-58 | after the insertions a language's list is its pairs' voices, last first, followed by the old list |
| Utils.PrependAllConcat | utils.py:49-58 | inserting the file's pairs and then the command line's equals inserting them all in one pass |
| Utils.CommandLineOutranksFile | utils.py:49-58 | command-line voices come before the file's voices |
| Utils.LastPairFirst | utils.py:53-58 | the last inserted voice for a language is its preferred voice |
| Utils.ItemPair | utils.py:50-55 | a string item must split on ' ' into exactly two parts, which form the pair, or `ValueError` is raised; dict items give their "lang" and "voice"; other items add nothing |
| Utils.FilePairs | utils.py:49-55 | the only file error is the unpacking `ValueError` |
| Utils.StringItemNeedsOneSpace | utils.py:51-52 | an item with two spaces stops the file with `ValueError` |
| Utils.EnginesAfter | utils.py:64-80 | eSpeak is registered iff wanted and on the path; Coqui iff wanted and importable; nothing else |
| Utils.ApplyPreferredFile | utils.py:40-55 | the file's pairs are inserted in order up to the first failing item, whose error is returned |
| Utils.ApplyCommandLine | utils.py:56-58 | each command-line pair is inserted at the front in order |
| Utils.RegisterEngines | utils.py:64-80 | into an empty registry it registers `EnginesAfter` and seeds the alias table with the registered engines' allowed voices, eSpeak's first; it fails with `NameError` exactly when Coqui is wanted and does not import, after eSpeak's seeding |
| Utils.RegisterIf | utils.py:64-80 | a wanted engine is registered under its class name and seeds its allowed voices' aliases; an unwanted one changes nothing |
| Utils.StartupAliasesOrder | utils.py:40-80 | after start-up a language's list starts with the command-line voices, then the file's, then the old aliases; the engines' voices only follow |
| Utils.InitTTS | utils.py:16-86 | sets the languages and default language; a bad file item ends it with `ValueError` after its earlier pairs; otherwise the alias table is the file's and the command line's pairs inserted at the front and then the engines' seeded aliases, it registers the engines and returns the default language |
| Api.CleanNones | api.py:24-38 | lists and objects keep their shape and order, losing only `None` items; scalars are unchanged |
| Api.CleanItems | api.py:30 | a list's items cleaned, `None` items dropped; never longer; stated by `CleanNones` and `CleanItemsConcat` |
| Api.CleanEntries | api.py:31-36 | an object's entries cleaned, `None` values dropped; never longer; stated by `CleanNones` and `CleanEntriesConcat` |
| Api.CleanNonesNoneFree | api.py:24-38 | the result holds no `None` below the top |
| Api.CleanNonesKeepsNoneFree | api.py:24-38 | a value without `None` is returned unchanged |
| Api.CleanNonesIdempotent | api.py:24-38 | cleaning twice equals cleaning once |
| Api.CleanItemsConcat | api.py:30 | list cleaning keeps order across concatenation |
| Api.CleanEntriesConcat | api.py:32-36 | object cleaning keeps key order across concatenation |
| Api.ConvertBool | api.py:105-107 | only a bound: a true-reading value is at most six characters once stripped; what it reads as true is its definition, and `ConvertBoolNormalises` states the normalisation |
| Api.ConvertBoolNormalises | api.py:105-107 | surrounding whitespace and letter case do not matter |
| Api.SpeakerSuffix | api.py:129-131 | `#speakerId` is appended iff the id is non-empty and the voice has no '#' |
| Api.SpeakerSuffixReachesEngine | api.py:129-131 | the appended speaker reaches the engine after resolution splits the reference |
| Api.IsSsml | api.py:170 | only a bound: text read as SSML is never blank; the test itself is its definition |
| Api.LeadingSpaceHidesSsml | api.py:170 | SSML after leading whitespace is read as plain text |
| Api.Flag | api.py:119-137 | an absent parameter gives its default; a present one is read by `convert_bool` |
| Api.Matches | api.py:53-76 | the `/api/voices` filters: each non-empty filter must contain the engine name, language, locale or gender; stated by `AddVoices` and `ListedVoices` |
| Api.SsmlArgs | api.py:135-143 | the three verbalisation options in order, each `convert_bool` of its parameter, on when the parameter is absent |
| Api.SayRequest | api.py:110-152 | fails "No text provided" iff the text is empty; otherwise text, voice with speaker suffix, language (default "en"), and cache and SSML each `convert_bool` of their parameter, off when absent |
| Api.ProcessRequest | api.py:160-176 | text and voice from the form; SSML iff the text starts with '<'; the defaults of `text_to_wav`: language "en", cache on, no vocoder, no settings and no SSML options |
| Api.AddVoices | api.py:64-83 | adds every matching voice under `name:id`, keeps every entry a matching voice under its own key, and every entry is an old one or one of this engine's voices |
| Api.ListedVoices | api.py:51-85 | every entry is a matching voice of some engine, under its own key, and every matching voice of every engine is listed |
| Api.LaterEngineOverwrites | api.py:64-83 | a matching voice of the last engine with no later matching voice of the same id is listed as itself, overwriting any earlier entry with its key |
| Api.AddVoicesLastWins | api.py:78-83 | within one engine, the last matching voice with a given id is the one listed |
| Api.AppVoices | api.py:51-85 | the nested loops build `ListedVoices` |
| Api.AddEngineVoices | api.py:64-83 | the inner loop builds one engine's additions |
| Api.ListedLanguages | api.py:88-102 | a language is listed iff some voice of a selected engine has it |
| Api.LanguagesOfSpec | api.py:99-100 | one engine's languages are exactly its voices' languages |
| Api.AppLanguages | api.py:88-102 | the loops build `ListedLanguages` |
| Api.MaryVoicesAsWritten | api.py:181-191 | the handler as written always fails with `NameError` |
| Api.MaryVoicesAsWrittenFails | api.py:185 | with an engine and a voice registered, the handler still fails, though the intended listing is `name:id` |
| Api.MaryIds | api.py:184-188 | one id per voice: as many ids as the engines have voices |
| Api.MaryIdsAt | api.py:184-188 | voice `j` of engine `i` is listed as `name:id` after all voices of earlier engines, at position `j` among its engine's |
| Api.MaryVoices | api.py:181-191 | the ids joined by line breaks |
| Api.MaryVoicesLines | api.py:191 | with no line break in names or ids, the response splits back into the ids |

## Left out

- Subprocesses are not modelled. Running `espeak`/`espeak-ng` and `sox`, and Coqui inference,
  are opaque functions in `Env` or in method parameters: their output bytes are inputs to the
  model.
- The eSpeak engine's `say` is not modelled: it only runs the program.
- gruut's SSML parsing is not modelled; the parsed sentences and words are inputs.
- SHA-256 and the RIFF/WAVE header encoding are not modelled. They are uninterpreted, and WAV
  parameters are records of rate, width and channels.
- Floating point is not modelled. Settings enter the cache key as their text. Silence is sized
  in integer milliseconds with exact ceiling division, so float rounding is not reproduced.
- Filesystem probes are inputs: directory and file existence, temporary directories, and the
  LANGUAGE and PREFERRED_VOICES files, whose JSON is given already decoded.
- Logging, the async event loop, `async_run_and_get` and the async generators are not
  modelled. Generators are sequences.
- The Quart routing, Swagger, the version route, `Response` construction and the error
  handler are not modelled. jsonify's serialisation and the parsing of query strings and
  bodies are not modelled; parameters arrive as maps.
- The iteration order of `_TTSList` is not modelled. The registry is a map, and the HTTP
  listings take the engines as an explicit ordered sequence.
- Text.Lower: folds ASCII letters only, not full Unicode case mapping.
- Text.IsSpace: checks a fixed list of whitespace code points rather than Python's full
  `str.isspace`.
- The regular expression engine is not modelled. Only the punctuation-run substitution that
  `say` performs with it is modelled (`CoquiTts.Collapse`).
- Coqui's executor threading and the `Synthesizer` constructor are not modelled. The built
  synthesizer is its argument record.
- TtsBase.Registry.Register: takes the engine's voice listing as given. Engine construction
  (`create`) is not modelled separately.
- Utils.ItemPair: a dict item's "lang" and "voice" are taken as present strings; a missing
  key, which puts `None` into the alias table in the source, is not modelled because the table
  holds strings only.
- ToWav.CachePath: the temporary cache directory is named by its prefix "offlinetts_"; the
  random suffix `TemporaryDirectory` adds is not modelled.
- The `cleanCache` helper is not modelled: it only deletes a temporary directory.

## Findings

| source | as written | input that shows it | evidently intended | confidence | as-written member | corrected member |
|---|---|---|---|---|---|---|
| api.py:185 | the MaryTTS `/voices` handler iterates over `_TTS`, a name the module never defines | any GET of `/voices`, even with eSpeak registered with one voice | iterate over `TTSBase._TTSList` and return the `name:id` lines | not executed | Api.MaryVoicesAsWrittenFails | Api.MaryVoicesLines |
