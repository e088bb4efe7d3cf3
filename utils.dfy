/** Start-up configuration (`initTTS`): the language allow-list, the default
    language, the preferred voices put in front of the alias lists, the cache
    setting, and the registration of the eSpeak and Coqui engines. Files and
    the program search path are inputs. */
module Utils {
  import opened Common
  import opened Text
  import opened TtsBase
  import opened ToWav

  /** The command-line arguments `initTTS` reads. An absent `language` is "";
      an absent `preferred_voice` is the empty list. */
  datatype Args = Args(
    languages: string,
    language: string,
    preferredVoice: seq<(string, string)>,
    cache: CacheDirArg,
    noEspeak: bool,
    noCoqui: bool)

  /** An item of the PREFERRED_VOICES list: a "lang voice" string, a
      {"lang": …, "voice": …} object, or anything else (ignored). */
  datatype PrefItem = StrItem(s: string) | DictItem(lang: string, voice: string) | OtherItem

  /** The PREFERRED_VOICES file as `initTTS` sees it: missing or blank, not
      valid JSON (logged), valid JSON that is not a list, or a list of items. */
  datatype PreferredFile = NoFile | InvalidJson | NotAList | Items(items: seq<PrefItem>)

  // ---------------------------------------------------------------------------
  // Languages
  // ---------------------------------------------------------------------------

  /** `TTSBase.langs`: the comma-separated languages. Never empty, though it
      may be [""], and joining it back gives the argument. */
  function Langs(languages: string): (r: seq<string>)
    ensures |r| >= 1
    ensures Join(r, ',') == languages
    ensures forall i :: 0 <= i < |r| ==> ',' !in r[i]
  {
    JoinSplit(languages, ',');
    Split(languages, ',')
  }

  /** The default language: the stripped LANGUAGE file when non-empty, else
      the `--language` argument, else the first listed language, else "en". */
  function DefaultLanguage(languageFile: Option<string>, language: string, langs: seq<string>): (r: string)
    ensures r != ""
    ensures languageFile.Some? && Strip(languageFile.value) != "" ==> r == Strip(languageFile.value)
    ensures (languageFile.None? || Strip(languageFile.value) == "") ==>
      (language != "" ==> r == language)
      && (language == "" && langs != [] && langs[0] != "" ==> r == langs[0])
      && (language == "" && (langs == [] || langs[0] == "") ==> r == "en")
  {
    var fromFile := if languageFile.Some? then Strip(languageFile.value) else "";
    if fromFile != "" then fromFile
    else
      var chosen := if language != "" then language else if langs != [] then langs[0] else "";
      if chosen != "" then chosen else "en"
  }

  // ---------------------------------------------------------------------------
  // Preferred voices
  // ---------------------------------------------------------------------------

  /** `voice_aliases[lang].insert(0, voice)`. */
  function Prepend(aliases: map<string, seq<string>>, lang: string, voice: string): map<string, seq<string>> {
    aliases[lang := [voice] + AliasesOf(aliases, lang)]
  }

  /** The voice goes in front of its language's list; no other list changes. */
  lemma PrependLookup(aliases: map<string, seq<string>>, lang: string, voice: string, l: string)
    ensures AliasesOf(Prepend(aliases, lang, voice), l) == (if l == lang then [voice] else []) + AliasesOf(aliases, l)
  {
  }

  /** The (lang, voice) pairs inserted at the front, first to last. */
  function PrependAll(aliases: map<string, seq<string>>, pairs: seq<(string, string)>): map<string, seq<string>>
  {
    if pairs == [] then aliases
    else
      var last := pairs[|pairs| - 1];
      Prepend(PrependAll(aliases, pairs[..|pairs| - 1]), last.0, last.1)
  }

  /** The voices paired with `lang`, last pair first. */
  function ForLang(pairs: seq<(string, string)>, lang: string): seq<string>
  {
    if pairs == [] then []
    else
      var last := pairs[|pairs| - 1];
      (if last.0 == lang then [last.1] else []) + ForLang(pairs[..|pairs| - 1], lang)
  }

  /** After the insertions a language's list is its voices from the pairs, the
      later pair ahead, followed by the list it had: nothing is deduplicated
      and the earlier order is kept. */
  lemma {:induction false} PrependAllShape(aliases: map<string, seq<string>>, pairs: seq<(string, string)>, lang: string)
    ensures AliasesOf(PrependAll(aliases, pairs), lang) == ForLang(pairs, lang) + AliasesOf(aliases, lang)
  {
    if pairs != [] {
      var init, last := pairs[..|pairs| - 1], pairs[|pairs| - 1];
      PrependAllShape(aliases, init, lang);
      PrependLookup(PrependAll(aliases, init), last.0, last.1, lang);
    }
  }

  lemma {:induction false} ForLangConcat(a: seq<(string, string)>, b: seq<(string, string)>, lang: string)
    ensures ForLang(a + b, lang) == ForLang(b, lang) + ForLang(a, lang)
  {
    if b == [] {
      assert a + b == a;
    } else {
      assert (a + b)[..|a + b| - 1] == a + b[..|b| - 1];
      ForLangConcat(a, b[..|b| - 1], lang);
    }
  }

  /** Command-line pairs, inserted after the file's, come before all of them. */
  lemma CommandLineOutranksFile(aliases: map<string, seq<string>>, file: seq<(string, string)>, cli: seq<(string, string)>, lang: string)
    ensures AliasesOf(PrependAll(aliases, file + cli), lang)
         == ForLang(cli, lang) + ForLang(file, lang) + AliasesOf(aliases, lang)
  {
    PrependAllShape(aliases, file + cli, lang);
    ForLangConcat(file, cli, lang);
  }

  /** Inserting the pairs `p` and then the pairs `q` is inserting `p + q`. */
  lemma {:induction false} PrependAllConcat(aliases: map<string, seq<string>>, p: seq<(string, string)>, q: seq<(string, string)>)
    ensures PrependAll(PrependAll(aliases, p), q) == PrependAll(aliases, p + q)
    decreases |q|
  {
    if q == [] {
      assert p + q == p;
    } else {
      var init := q[..|q| - 1];
      PrependAllConcat(aliases, p, init);
      assert (p + q)[..|p + q| - 1] == p + init;
      assert (p + q)[|p + q| - 1] == q[|q| - 1];
    }
  }

  /** The last pair for a language is that language's first alias. */
  lemma LastPairFirst(aliases: map<string, seq<string>>, pairs: seq<(string, string)>, lang: string, voice: string)
    ensures AliasesOf(PrependAll(aliases, pairs + [(lang, voice)]), lang)[0] == voice
  {
    assert (pairs + [(lang, voice)])[..|pairs|] == pairs;
  }

  /** What one item of the list inserts: a string must split on ' ' into
      exactly two parts or `ValueError` is raised; an object gives its "lang"
      and "voice"; anything else inserts nothing. */
  function ItemPair(item: PrefItem): (r: Result<Option<(string, string)>>)
    ensures r.Err? <==> item.StrItem? && |Split(item.s, ' ')| != 2
    ensures r.Err? ==> r.error == UnpackValues
    ensures item.OtherItem? ==> r == Ok(None)
    ensures item.DictItem? ==> r == Ok(Some((item.lang, item.voice)))
    ensures item.StrItem? && r.Ok? ==> r.value == Some((Split(item.s, ' ')[0], Split(item.s, ' ')[1]))
    ensures r.Ok? && r.value.Some? && item.StrItem? ==> item.s == r.value.value.0 + " " + r.value.value.1
  {
    match item
    case StrItem(s) =>
      var parts := Split(s, ' ');
      if |parts| != 2 then Err(UnpackValues)
      else
        JoinSplit(s, ' ');
        assert Join(parts, ' ') == parts[0] + [' '] + parts[1];
        Ok(Some((parts[0], parts[1])))
    case DictItem(lang, voice) => Ok(Some((lang, voice)))
    case OtherItem => Ok(None)
  }

  /** One item's contribution in front of the rest's: an error discards the rest. */
  function Step(item: Result<Option<(string, string)>>, rest: (seq<(string, string)>, Option<Error>)): (seq<(string, string)>, Option<Error>) {
    match item
    case Err(e) => ([], Some(e))
    case Ok(None) => rest
    case Ok(Some(pair)) => ([pair] + rest.0, rest.1)
  }

  /** The pairs the file's items insert, in order, up to the first string
      item that fails to unpack, whose `ValueError` ends `initTTS`. */
  function FilePairs(items: seq<PrefItem>): (r: (seq<(string, string)>, Option<Error>))
    ensures r.1.Some? ==> r.1.value == UnpackValues
    ensures |r.0| <= |items|
  {
    if items == [] then ([], None)
    else Step(ItemPair(items[0]), FilePairs(items[1..]))
  }

  lemma FilePairsAt(items: seq<PrefItem>, i: nat)
    requires i < |items|
    ensures FilePairs(items[i..]) == Step(ItemPair(items[i]), FilePairs(items[i + 1..]))
  {
    assert items[i..][0] == items[i] && items[i..][1..] == items[i + 1..];
  }

  /** The pairs of the whole file: none unless it holds a JSON list. */
  function FileEntries(file: PreferredFile): (seq<(string, string)>, Option<Error>) {
    if file.Items? then FilePairs(file.items) else ([], None)
  }

  /** A string item with more than one space fails the unpacking. */
  lemma StringItemNeedsOneSpace(a: string, b: string, c: string, rest: seq<PrefItem>)
    requires ' ' !in a && ' ' !in b && ' ' !in c
    ensures FilePairs([StrItem(a + " " + b + " " + c)] + rest) == ([], Some(UnpackValues))
  {
    JoinThree(a, b, c);
    SplitJoin([a, b, c], ' ');
    FilePairsAt([StrItem(a + " " + b + " " + c)] + rest, 0);
  }

  lemma JoinThree(a: string, b: string, c: string)
    ensures Join([a, b, c], ' ') == a + " " + b + " " + c
  {
    assert [a, b, c][1..] == [b, c] && [b, c][1..] == [c];
    assert Join([b, c], ' ') == b + [' '] + c;
    assert a + " " + b + " " + c == a + [' '] + (b + [' '] + c);
  }

  // ---------------------------------------------------------------------------
  // initTTS
  // ---------------------------------------------------------------------------

  /** The engines `initTTS` registers into an empty registry: eSpeak when it
      is wanted and `espeak-ng` is on the search path, Coqui when it is wanted
      and its package imports. */
  function EnginesAfter(args: Args, espeakOnPath: bool, coquiImports: bool, espeakVoices: seq<Voice>, coquiVoices: seq<Voice>): (r: map<string, Engine>)
    ensures "espeak" in r <==> !args.noEspeak && espeakOnPath
    ensures "tts" in r <==> !args.noCoqui && coquiImports
    ensures r.Keys <= {"espeak", "tts"}
    ensures "espeak" in r ==> r["espeak"] == Engine("espeak", espeakVoices)
    ensures "tts" in r ==> r["tts"] == Engine("tts", coquiVoices)
  {
    var withEspeak: map<string, Engine> := if !args.noEspeak && espeakOnPath then map["espeak" := Engine("espeak", espeakVoices)] else map[];
    if !args.noCoqui && coquiImports then withEspeak["tts" := Engine("tts", coquiVoices)] else withEspeak
  }

  /** The alias table after the registrations of `initTTS` into an empty
      registry: each registered engine's allowed voices are added, eSpeak's first. */
  function AliasesAfter(aliases: map<string, seq<string>>, langs: seq<string>, args: Args, espeakOnPath: bool, coquiImports: bool,
                        espeakVoices: seq<Voice>, coquiVoices: seq<Voice>): map<string, seq<string>>
  {
    SeededIf(SeededIf(aliases, !args.noEspeak && espeakOnPath, "espeak", espeakVoices, langs),
             !args.noCoqui && coquiImports, "tts", coquiVoices, langs)
  }

  /** After start-up a language's list begins with its command-line voices
      (last first), then its file voices (last first), then the list it had;
      the engines' own voices only come after all of them. */
  lemma StartupAliasesOrder(aliases: map<string, seq<string>>, file: seq<(string, string)>, cli: seq<(string, string)>,
                            langs: seq<string>, args: Args, espeakOnPath: bool, coquiImports: bool,
                            espeakVoices: seq<Voice>, coquiVoices: seq<Voice>, lang: string)
    ensures ForLang(cli, lang) + ForLang(file, lang) + AliasesOf(aliases, lang)
         <= AliasesOf(AliasesAfter(PrependAll(aliases, file + cli), langs, args, espeakOnPath, coquiImports, espeakVoices, coquiVoices), lang)
  {
    var start := PrependAll(aliases, file + cli);
    CommandLineOutranksFile(aliases, file, cli, lang);
    var withEspeak := SeededIf(start, !args.noEspeak && espeakOnPath, "espeak", espeakVoices, langs);
    SeedAliasesExtends(start, "espeak", AllowedVoices(espeakVoices, langs));
    SeedAliasesExtends(withEspeak, "tts", AllowedVoices(coquiVoices, langs));
  }

  /** `initTTS`: configure the registry from the arguments and the files,
      then register the engines; the result is the default language. The
      engines' voice listings are inputs. */
  method InitTTS(reg: Registry, cache: CacheSettings, args: Args, languageFile: Option<string>, prefs: PreferredFile,
                 espeakOnPath: bool, coquiImports: bool, espeakVoices: seq<Voice>, coquiVoices: seq<Voice>)
    returns (r: Result<string>)
    requires reg.Valid()
    modifies reg, cache
    ensures reg.Valid()
    ensures reg.langs == Langs(args.languages)
    ensures reg.defaultLang == DefaultLanguage(languageFile, args.language, Langs(args.languages))
    ensures cache.cacheDir == old(cache.cacheDir)
    ensures FileEntries(prefs).1.Some? ==>
      r == Err(UnpackValues) && reg.engines == old(reg.engines)
      && reg.aliases == PrependAll(old(reg.aliases), FileEntries(prefs).0)
    ensures r.Ok? ==> r.value == reg.defaultLang
    ensures FileEntries(prefs).1.None? && old(reg.engines) == map[] ==>
      (r.Ok? <==> args.noCoqui || coquiImports)
      && (r.Err? ==> r.error == UndefinedName)
      && reg.engines == EnginesAfter(args, espeakOnPath, coquiImports, espeakVoices, coquiVoices)
      && reg.aliases == AliasesAfter(PrependAll(old(reg.aliases), FileEntries(prefs).0 + args.preferredVoice), reg.langs,
                                     args, espeakOnPath, coquiImports, espeakVoices, coquiVoices)
  {
    reg.langs := Langs(args.languages);
    reg.defaultLang := ChooseDefaultLanguage(languageFile, args.language, reg.langs);
    var failed := ApplyPreferredFile(reg, prefs);
    if failed.Some? {
      return Err(failed.value);
    }
    ApplyCommandLine(reg, args.preferredVoice);
    PrependAllConcat(old(reg.aliases), FileEntries(prefs).0, args.preferredVoice);
    var _ := cache.SetCacheDir(args.cache);
    var registered := RegisterEngines(reg, args, espeakOnPath, coquiImports, espeakVoices, coquiVoices);
    if registered.Err? {
      return Err(registered.error);
    }
    r := Ok(reg.defaultLang);
  }

  /** The registration steps of `initTTS`: eSpeak, then Coqui, whose failed
      import ends start-up with `NameError`. */
  method RegisterEngines(reg: Registry, args: Args, espeakOnPath: bool, coquiImports: bool, espeakVoices: seq<Voice>, coquiVoices: seq<Voice>)
    returns (r: Result<()>)
    requires reg.Valid()
    modifies reg`engines, reg`aliases
    ensures reg.Valid()
    ensures old(reg.engines) == map[] ==>
      (r.Ok? <==> args.noCoqui || coquiImports)
      && (r.Err? ==> r.error == UndefinedName)
      && reg.engines == EnginesAfter(args, espeakOnPath, coquiImports, espeakVoices, coquiVoices)
      && reg.aliases == AliasesAfter(old(reg.aliases), reg.langs, args, espeakOnPath, coquiImports, espeakVoices, coquiVoices)
  {
    ghost var empty := reg.engines == map[];
    assert Lower("espeak") == "espeak" && Lower("tts") == "tts";
    var registered := RegisterIf(reg, !args.noEspeak && espeakOnPath, Engine("espeak", espeakVoices));
    if registered.Err? {
      return Err(registered.error);
    }
    assert empty ==> reg.engines == EnginesAfter(args, espeakOnPath, false, espeakVoices, coquiVoices);
    if !args.noCoqui && !coquiImports {
      // The import handler reads `log_level`, which utils.py never defines.
      return Err(UndefinedName);
    }
    r := RegisterIf(reg, !args.noCoqui && coquiImports, Engine("tts", coquiVoices));
  }

  /** The aliases after `register` of `className`'s engine when `wanted`. */
  function SeededIf(aliases: map<string, seq<string>>, wanted: bool, className: string, listed: seq<Voice>, langs: seq<string>): map<string, seq<string>> {
    if wanted then SeedAliases(aliases, className, AllowedVoices(listed, langs)) else aliases
  }

  /** `Cls.register()` when `wanted`: a fresh lower-case class name is
      registered and its voices seeded. */
  method RegisterIf(reg: Registry, wanted: bool, engine: Engine) returns (r: Result<()>)
    requires reg.Valid()
    modifies reg`engines, reg`aliases
    ensures reg.Valid()
    ensures Lower(engine.className) == engine.className && engine.className !in old(reg.engines) ==>
      r.Ok? && reg.engines == (if wanted then old(reg.engines)[engine.className := engine] else old(reg.engines))
      && reg.aliases == SeededIf(old(reg.aliases), wanted, engine.className, engine.listed, reg.langs)
  {
    if wanted {
      var registered := reg.Register(engine, "");
      if registered.Err? {
        return Err(registered.error);
      }
    }
    r := Ok(());
  }

  /** The default-language steps of `initTTS`, reassigning one variable. */
  method ChooseDefaultLanguage(languageFile: Option<string>, language: string, langs: seq<string>) returns (lang: string)
    ensures lang == DefaultLanguage(languageFile, language, langs)
  {
    lang := "";
    if languageFile.Some? {
      lang := Strip(languageFile.value);
    }
    if lang == "" {
      if language != "" {
        lang := language;
      } else if langs != [] {
        lang := langs[0];
      }
      if lang == "" {
        lang := "en";
      }
    }
  }

  /** The PREFERRED_VOICES loop: each item inserted at the front of its
      language's list, until a string item fails to unpack. */
  method ApplyPreferredFile(reg: Registry, prefs: PreferredFile) returns (failed: Option<Error>)
    modifies reg`aliases
    ensures failed == FileEntries(prefs).1
    ensures reg.aliases == PrependAll(old(reg.aliases), FileEntries(prefs).0)
  {
    failed := None;
    if !prefs.Items? {
      return;
    }
    var items := prefs.items;
    ghost var done: seq<(string, string)> := [];
    var i := 0;
    assert items[0..] == items;
    assert [] + FilePairs(items).0 == FilePairs(items).0;
    while i < |items|
      invariant 0 <= i <= |items|
      invariant reg.aliases == PrependAll(old(reg.aliases), done)
      invariant FilePairs(items) == (done + FilePairs(items[i..]).0, FilePairs(items[i..]).1)
    {
      var step := ItemPair(items[i]);
      FilePairsAt(items, i);
      ghost var rest := FilePairs(items[i + 1..]);
      if step.Err? {
        assert done + [] == done;
        return Some(step.error);
      }
      if step.value.Some? {
        var (lang, voice) := step.value.value;
        PrependAllSnoc(old(reg.aliases), done, lang, voice);
        assert done + ([(lang, voice)] + rest.0) == (done + [(lang, voice)]) + rest.0;
        reg.aliases := Prepend(reg.aliases, lang, voice);
        done := done + [(lang, voice)];
      }
      i := i + 1;
    }
    assert done + [] == done;
  }

  /** The `--preferred-voice` loop: each pair inserted at the front. */
  method ApplyCommandLine(reg: Registry, pairs: seq<(string, string)>)
    modifies reg`aliases
    ensures reg.aliases == PrependAll(old(reg.aliases), pairs)
  {
    var i := 0;
    while i < |pairs|
      invariant 0 <= i <= |pairs|
      invariant reg.aliases == PrependAll(old(reg.aliases), pairs[..i])
    {
      PrependAllSnoc(old(reg.aliases), pairs[..i], pairs[i].0, pairs[i].1);
      assert pairs[..i + 1] == pairs[..i] + [pairs[i]];
      reg.aliases := Prepend(reg.aliases, pairs[i].0, pairs[i].1);
      i := i + 1;
    }
    assert pairs[..i] == pairs;
  }

  lemma PrependAllSnoc(aliases: map<string, seq<string>>, pairs: seq<(string, string)>, lang: string, voice: string)
    ensures PrependAll(aliases, pairs + [(lang, voice)]) == Prepend(PrependAll(aliases, pairs), lang, voice)
  {
    assert (pairs + [(lang, voice)])[..|pairs|] == pairs;
  }
}
