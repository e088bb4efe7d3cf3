/** The engine registry and the voice resolver shared by every engine
    (`TTSBase` in tts/tts_base.py): the table of registered engines, the
    per-language alias lists, and `resolve_voice`. */
module TtsBase {
  import opened Common
  import opened Text

  /** One synthesis voice as an engine reports it. `speakers` is the ordered
      speaker-name to speaker-number mapping of a multi-speaker voice. */
  datatype Voice = Voice(
    id: string,
    name: string,
    gender: string,
    language: string,
    locale: string,
    multispeaker: bool,
    speakers: Option<seq<(string, int)>>)

  /** An engine as the registry sees it: the class-level `name` and the voices
      its `_voices()` generator yields. Synthesis is outside the registry. */
  datatype Engine = Engine(className: string, listed: seq<Voice>)

  // ---------------------------------------------------------------------------
  // voices(): the language filter
  // ---------------------------------------------------------------------------

  /** `voices()`: the `_voices()` entries whose language is allowed, in order. */
  function AllowedVoices(vs: seq<Voice>, langs: seq<string>): (r: seq<Voice>)
    ensures forall v :: v in r <==> v in vs && v.language in langs
    ensures |r| <= |vs|
  {
    if vs == [] then []
    else (if vs[0].language in langs then [vs[0]] else []) + AllowedVoices(vs[1..], langs)
  }

  /** The filter keeps relative order: it distributes over concatenation. */
  lemma {:induction false} AllowedVoicesConcat(a: seq<Voice>, b: seq<Voice>, langs: seq<string>)
    ensures AllowedVoices(a + b, langs) == AllowedVoices(a, langs) + AllowedVoices(b, langs)
  {
    if a == [] {
      assert a + b == b;
    } else {
      assert (a + b)[1..] == a[1..] + b;
      AllowedVoicesConcat(a[1..], b, langs);
    }
  }

  // ---------------------------------------------------------------------------
  // The alias table
  // ---------------------------------------------------------------------------

  /** The list a defaultdict lookup would see: the entry, or the empty list. */
  function AliasesOf(aliases: map<string, seq<string>>, lang: string): seq<string> {
    if lang in aliases then aliases[lang] else []
  }

  predicate NoDuplicates(s: seq<string>) {
    forall i, j :: 0 <= i < j < |s| ==> s[i] != s[j]
  }

  /** No alias list holds a reference twice. */
  predicate DuplicateFree(aliases: map<string, seq<string>>) {
    forall l :: l in aliases ==> NoDuplicates(aliases[l])
  }

  /** Every list of `a` is still there in `r`, possibly with more at its end. */
  predicate Extends(a: map<string, seq<string>>, r: map<string, seq<string>>) {
    forall l :: l in a ==> l in r && a[l] <= r[l]
  }

  /** The table after `add_voice_aliases(voice, lang)` with a string voice. */
  function WithAlias(aliases: map<string, seq<string>>, lang: string, voice: string): (r: map<string, seq<string>>)
    ensures lang == "" || voice == "" ==> r == aliases
    ensures lang != "" && voice != "" ==> lang in r && voice in r[lang]
    ensures Extends(aliases, r)
    ensures forall l :: l in r && l != lang ==> l in aliases && r[l] == aliases[l]
    ensures lang != "" && voice != "" ==> |r[lang]| <= |AliasesOf(aliases, lang)| + 1
    ensures lang != "" && voice != "" ==> forall x :: x in r[lang] ==> x in AliasesOf(aliases, lang) || x == voice
  {
    if lang == "" || voice == "" then aliases
    else
      var cur := AliasesOf(aliases, lang);
      aliases[lang := if voice in cur then cur else cur + [voice]]
  }

  /** Adding an alias never creates a duplicate in a list that had none. */
  lemma WithAliasNoDuplicates(aliases: map<string, seq<string>>, lang: string, voice: string)
    requires DuplicateFree(aliases)
    ensures DuplicateFree(WithAlias(aliases, lang, voice))
  {
  }

  /** The alias string `add_voice_aliases` builds for a `Voice`: class name, ':' and id. */
  function VoiceAlias(className: string, v: Voice): string {
    className + ":" + v.id
  }

  /** When the class name has no ':', the alias splits back into class name and voice id. */
  lemma VoiceAliasSplits(className: string, v: Voice)
    requires ':' !in className
    ensures Before(VoiceAlias(className, v), ':') == className
    ensures After(VoiceAlias(className, v), ':') == v.id
  {
    BeforeConcat(className, ':', v.id);
  }

  /** The table after `_init`: `add_voice_aliases(voice)` for each allowed voice, in order. */
  function SeedAliases(aliases: map<string, seq<string>>, className: string, vs: seq<Voice>): (r: map<string, seq<string>>)
    decreases |vs|
  {
    if vs == [] then aliases
    else SeedAliases(WithAlias(aliases, vs[0].language, VoiceAlias(className, vs[0])), className, vs[1..])
  }

  /** Seeding only appends: every earlier list is a prefix of its new list,
      and a table without duplicates keeps none. */
  lemma {:induction false} SeedAliasesExtends(aliases: map<string, seq<string>>, className: string, vs: seq<Voice>)
    ensures Extends(aliases, SeedAliases(aliases, className, vs))
    ensures DuplicateFree(aliases) ==> DuplicateFree(SeedAliases(aliases, className, vs))
    decreases |vs|
  {
    if vs != [] {
      var next := WithAlias(aliases, vs[0].language, VoiceAlias(className, vs[0]));
      if DuplicateFree(aliases) {
        WithAliasNoDuplicates(aliases, vs[0].language, VoiceAlias(className, vs[0]));
      }
      SeedAliasesExtends(next, className, vs[1..]);
      ExtendsTrans(aliases, next, SeedAliases(aliases, className, vs));
    }
  }

  lemma ExtendsTrans(a: map<string, seq<string>>, b: map<string, seq<string>>, c: map<string, seq<string>>)
    requires Extends(a, b) && Extends(b, c)
    ensures Extends(a, c)
  {
  }

  /** Each seeded voice with a non-empty language is listed under that language. */
  lemma {:induction false} SeedAliasesCovers(aliases: map<string, seq<string>>, className: string, vs: seq<Voice>, k: nat)
    requires k < |vs| && vs[k].language != ""
    ensures var r := SeedAliases(aliases, className, vs);
      vs[k].language in r && VoiceAlias(className, vs[k]) in r[vs[k].language]
    decreases |vs|
  {
    var next := WithAlias(aliases, vs[0].language, VoiceAlias(className, vs[0]));
    SeedAliasesExtends(next, className, vs[1..]);
    if k > 0 {
      SeedAliasesCovers(next, className, vs[1..], k - 1);
    }
  }

  /** Seeding adds nothing but the aliases of seeded voices, each under its
      own language. */
  lemma {:induction false} SeedAliasesSound(aliases: map<string, seq<string>>, className: string, vs: seq<Voice>, l: string, x: string)
    requires x in AliasesOf(SeedAliases(aliases, className, vs), l)
    ensures x in AliasesOf(aliases, l)
            || exists k :: 0 <= k < |vs| && vs[k].language == l && x == VoiceAlias(className, vs[k])
    decreases |vs|
  {
    if vs != [] {
      var next := WithAlias(aliases, vs[0].language, VoiceAlias(className, vs[0]));
      SeedAliasesSound(next, className, vs[1..], l, x);
      if x !in AliasesOf(next, l) {
        var k :| 0 <= k < |vs[1..]| && vs[1..][k].language == l && x == VoiceAlias(className, vs[1..][k]);
        assert vs[k + 1] == vs[1..][k];
      } else if l == vs[0].language && x !in AliasesOf(aliases, l) {
        assert x == VoiceAlias(className, vs[0]);
      }
    }
  }

  /** The first seeded voice of a language that had no aliases becomes its
      preferred voice. */
  lemma {:induction false} SeedAliasesFirstPreferred(aliases: map<string, seq<string>>, className: string, vs: seq<Voice>, k: nat)
    requires k < |vs| && vs[k].language != ""
    requires AliasesOf(aliases, vs[k].language) == []
    requires forall j :: 0 <= j < k ==> vs[j].language != vs[k].language
    ensures PreferredVoice(SeedAliases(aliases, className, vs), vs[k].language) == VoiceAlias(className, vs[k])
    decreases k
  {
    var l := vs[k].language;
    var next := WithAlias(aliases, vs[0].language, VoiceAlias(className, vs[0]));
    SeedAliasesExtends(next, className, vs[1..]);
    if k == 0 {
      assert next[l] == [VoiceAlias(className, vs[0])];
    } else {
      assert AliasesOf(next, l) == [];
      assert vs[1..][k - 1] == vs[k];
      forall j | 0 <= j < k - 1 ensures vs[1..][j].language != l {
        assert vs[1..][j] == vs[j + 1];
      }
      SeedAliasesFirstPreferred(next, className, vs[1..], k - 1);
    }
  }

  /** `get_preferred_voice(lang)`: the first alias for `lang`, or "". */
  function PreferredVoice(aliases: map<string, seq<string>>, lang: string): (r: string)
    ensures r == "" <==> AliasesOf(aliases, lang) == [] || AliasesOf(aliases, lang)[0] == ""
    ensures r != "" ==> r == aliases[lang][0]
  {
    if lang in aliases && aliases[lang] != [] then aliases[lang][0] else ""
  }

  // ---------------------------------------------------------------------------
  // resolve_voice
  // ---------------------------------------------------------------------------

  /** The requested voice without its `#speaker` suffix. */
  function Stripped(voice: string): string {
    Before(voice, '#')
  }

  /** The alias key: the lower-cased stripped voice if it is a key, else its primary subtag. */
  function AliasKey(aliases: map<string, seq<string>>, voice: string): (k: string)
    ensures k in aliases || PrimarySubtag(k) == k
  {
    var full := Lower(Stripped(voice));
    if full in aliases then full
    else
      PrimarySubtagIdempotent(full);
      PrimarySubtag(full)
  }

  /** The candidates begin with the aliases of the lower-cased voice without
      its speaker suffix when that is a key, and otherwise with those of its
      primary subtag. */
  lemma CandidatesStartWithAliases(aliases: map<string, seq<string>>, voice: string, fallback: Option<string>)
    ensures Lower(Stripped(voice)) in aliases ==>
      AliasesOf(aliases, Lower(Stripped(voice))) <= Candidates(aliases, voice, fallback)
    ensures Lower(Stripped(voice)) !in aliases ==>
      AliasesOf(aliases, PrimarySubtag(Lower(Stripped(voice)))) <= Candidates(aliases, voice, fallback)
  {
  }

  /** The speaker suffix and the letter case of a voice do not change its alias key. */
  lemma AliasKeyIgnoresSpeakerAndCase(aliases: map<string, seq<string>>, voice: string, speaker: string)
    requires '#' !in voice
    ensures AliasKey(aliases, voice + "#" + speaker) == AliasKey(aliases, voice)
    ensures AliasKey(aliases, Lower(voice)) == AliasKey(aliases, voice)
  {
    assert voice + "#" + speaker == voice + ['#'] + speaker;
    BeforeConcat(voice, '#', speaker);
    assert '#' !in Lower(voice) by {
      assert forall i :: 0 <= i < |voice| ==> Lower(voice)[i] == LowerChar(voice[i]) != '#';
    }
    LowerIdempotent(voice);
  }

  function FallbackList(fallback: Option<string>): seq<string> {
    match fallback
    case None => []
    case Some(f) => [f]
  }

  /** The candidates `resolve_voice` tries, in order. */
  function Candidates(aliases: map<string, seq<string>>, voice: string, fallback: Option<string>): seq<string> {
    AliasesOf(aliases, AliasKey(aliases, voice))
      + FallbackList(fallback)
      + [voice]
      + (if ':' !in Stripped(voice) then ["espeak:" + Stripped(voice)] else [])
  }

  /** The engine name of a candidate: the text before its first ':'. */
  function EngineOf(candidate: string): string {
    Before(candidate, ':')
  }

  /** The loop of `resolve_voice`: the first candidate naming a registered
      engine; a colon-less candidate met first fails the tuple unpacking. */
  function FirstRegistered(cands: seq<string>, engines: set<string>): Result<string> {
    if cands == [] then Err(CannotResolve)
    else if ':' !in cands[0] then Err(UnpackValues)
    else if EngineOf(cands[0]) in engines then Ok(cands[0])
    else FirstRegistered(cands[1..], engines)
  }

  /** The search fails only with the two errors of `resolve_voice`. */
  lemma {:induction false} FirstRegisteredErrors(cands: seq<string>, engines: set<string>)
    ensures FirstRegistered(cands, engines).Err? ==>
      FirstRegistered(cands, engines).error == CannotResolve || FirstRegistered(cands, engines).error == UnpackValues
  {
    if cands != [] && ':' in cands[0] && EngineOf(cands[0]) !in engines {
      FirstRegisteredErrors(cands[1..], engines);
    }
  }

  /** What `resolve_voice(voice, fallback)` returns on a given table. */
  function Resolve(aliases: map<string, seq<string>>, engines: set<string>, voice: string, fallback: Option<string>): Result<string> {
    FirstRegistered(Candidates(aliases, voice, fallback), engines)
  }

  /** The table after `resolve_voice`: the defaultdict lookup inserts an empty
      list under a missing alias key. */
  function Touch(aliases: map<string, seq<string>>, key: string): map<string, seq<string>> {
    aliases[key := AliasesOf(aliases, key)]
  }

  /** The result of the search is one of the candidates; it names a registered
      engine, and every candidate before it has a ':' and an unregistered engine. */
  lemma {:induction false} FirstRegisteredSound(cands: seq<string>, engines: set<string>)
    ensures FirstRegistered(cands, engines).Ok? ==>
      var c := FirstRegistered(cands, engines).value;
      exists k :: 0 <= k < |cands| && cands[k] == c
        && ':' in c && EngineOf(c) in engines
        && forall j :: 0 <= j < k ==> ':' in cands[j] && EngineOf(cands[j]) !in engines
  {
    if cands != [] && ':' in cands[0] && EngineOf(cands[0]) !in engines {
      FirstRegisteredSound(cands[1..], engines);
      if FirstRegistered(cands, engines).Ok? {
        var c := FirstRegistered(cands, engines).value;
        var k :| 0 <= k < |cands[1..]| && cands[1..][k] == c
          && ':' in c && EngineOf(c) in engines
          && forall j :: 0 <= j < k ==> ':' in cands[1..][j] && EngineOf(cands[1..][j]) !in engines;
        assert cands[k + 1] == c;
        assert forall j :: 0 <= j < k + 1 ==> ':' in cands[j] && EngineOf(cands[j]) !in engines by {
          forall j | 0 <= j < k + 1 ensures ':' in cands[j] && EngineOf(cands[j]) !in engines {
            if j > 0 { assert cands[j] == cands[1..][j - 1]; }
          }
        }
      }
    }
  }

  /** "Cannot resolve voice" is raised exactly when every candidate has a ':'
      and names no registered engine. */
  lemma {:induction false} FirstRegisteredCannotResolve(cands: seq<string>, engines: set<string>)
    ensures FirstRegistered(cands, engines) == Err(CannotResolve) <==>
      forall j :: 0 <= j < |cands| ==> ':' in cands[j] && EngineOf(cands[j]) !in engines
  {
    if cands != [] {
      FirstRegisteredCannotResolve(cands[1..], engines);
      assert forall j :: 1 <= j < |cands| ==> cands[j] == cands[1..][j - 1];
    }
  }

  /** A colon-less candidate ends the search: nothing after it is ever tried. */
  lemma {:induction false} FirstRegisteredStopsAtColonless(a: seq<string>, x: string, b: seq<string>, engines: set<string>)
    requires ':' !in x
    ensures FirstRegistered(a + [x] + b, engines) == FirstRegistered(a + [x], engines)
  {
    if a == [] {
    } else {
      assert (a + [x] + b)[1..] == a[1..] + [x] + b;
      assert (a + [x])[1..] == a[1..] + [x];
      FirstRegisteredStopsAtColonless(a[1..], x, b, engines);
    }
  }

  /** Which colon-less candidate ends the search does not matter. */
  lemma {:induction false} FirstRegisteredColonlessIrrelevant(a: seq<string>, x: string, y: string, engines: set<string>)
    requires ':' !in x && ':' !in y
    ensures FirstRegistered(a + [x], engines) == FirstRegistered(a + [y], engines)
  {
    if a != [] {
      assert (a + [x])[1..] == a[1..] + [x];
      assert (a + [y])[1..] == a[1..] + [y];
      FirstRegisteredColonlessIrrelevant(a[1..], x, y, engines);
    }
  }

  /** `resolve_voice` never returns a reference to an unregistered engine. */
  lemma ResolveNamesRegisteredEngine(aliases: map<string, seq<string>>, engines: set<string>, voice: string, fallback: Option<string>)
    ensures var r := Resolve(aliases, engines, voice, fallback);
      r.Ok? ==> (':' in r.value && EngineOf(r.value) in engines
                 && r.value in Candidates(aliases, voice, fallback))
  {
    FirstRegisteredSound(Candidates(aliases, voice, fallback), engines);
  }

  /** A voice without ':' is itself a colon-less candidate, so the search stops
      at it with an unpacking error and the "espeak:" fallback is never tried. */
  lemma ResolveColonlessSkipsEspeak(aliases: map<string, seq<string>>, engines: set<string>, voice: string, fallback: Option<string>)
    requires ':' !in voice
    ensures Resolve(aliases, engines, voice, fallback)
      == FirstRegistered(AliasesOf(aliases, AliasKey(aliases, voice)) + FallbackList(fallback) + [voice], engines)
    ensures Resolve(aliases, engines, voice, fallback) != Err(CannotResolve)
  {
    var a := AliasesOf(aliases, AliasKey(aliases, voice)) + FallbackList(fallback);
    var tail := if ':' !in Stripped(voice) then ["espeak:" + Stripped(voice)] else [];
    assert Candidates(aliases, voice, fallback) == a + [voice] + tail;
    FirstRegisteredStopsAtColonless(a, voice, tail, engines);
    FirstRegisteredCannotResolve(a + [voice], engines);
    assert (a + [voice])[|a|] == voice;
  }

  /** Locale fallback: with no entry for the lower-cased locale, a locale such
      as "en-US" resolves exactly like its language "en". */
  lemma ResolveLocaleFallback(aliases: map<string, seq<string>>, engines: set<string>, locale: string, lang: string)
    requires ':' !in locale && '#' !in locale && ':' !in lang && '#' !in lang
    requires Lower(locale) !in aliases
    requires Lower(lang) in aliases
    requires PrimarySubtag(Lower(locale)) == Lower(lang)
    ensures Resolve(aliases, engines, locale, None) == Resolve(aliases, engines, lang, None)
  {
    assert AliasKey(aliases, locale) == Lower(lang);
    assert AliasKey(aliases, lang) == Lower(lang);
    ResolveColonlessSkipsEspeak(aliases, engines, locale, None);
    ResolveColonlessSkipsEspeak(aliases, engines, lang, None);
    var a := AliasesOf(aliases, Lower(lang));
    assert a + FallbackList(None) == a;
    FirstRegisteredColonlessIrrelevant(a, locale, lang, engines);
  }

  /** The empty list `resolve_voice` may insert changes no later resolution:
      every voice has the same candidates before and after. */
  lemma TouchStable(aliases: map<string, seq<string>>, voice: string, other: string, fallback: Option<string>)
    ensures Candidates(Touch(aliases, AliasKey(aliases, voice)), other, fallback)
      == Candidates(aliases, other, fallback)
  {
    var key := AliasKey(aliases, voice);
    var a' := Touch(aliases, key);
    var full := Lower(Stripped(other));
    PrimarySubtagIdempotent(full);
    if key !in aliases {
      assert PrimarySubtag(key) == key;
      if full !in aliases && full != key {
        assert AliasKey(a', other) == PrimarySubtag(full);
      }
    }
    assert AliasesOf(a', AliasKey(a', other)) == AliasesOf(aliases, AliasKey(aliases, other));
  }

  // ---------------------------------------------------------------------------
  // The registry
  // ---------------------------------------------------------------------------

  /** The process-wide class attributes of `TTSBase`. */
  class Registry {
    /** `_TTSList`: registered name to engine. */
    var engines: map<string, Engine>
    /** `voice_aliases`: language to preferred voice references, best first. */
    var aliases: map<string, seq<string>>
    /** `langs`: the languages `voices()` lets through. */
    var langs: seq<string>
    /** `default_lang`. */
    var defaultLang: string

    /** Every registered name is lower case, as `register` stores it. */
    ghost predicate Valid()
      reads this
    {
      forall name :: name in engines ==> Lower(name) == name
    }

    constructor ()
      ensures Valid()
      ensures engines == map[] && aliases == map[] && langs == [] && defaultLang == "en"
    {
      engines := map[];
      aliases := map[];
      langs := [];
      defaultLang := "en";
    }

    /** `add_voice_aliases(voice, lang)` for a string voice. */
    method AddVoiceAlias(voice: string, lang: string)
      modifies this`aliases
      ensures aliases == WithAlias(old(aliases), lang, voice)
    {
      if lang != "" && voice != "" {
        var cur := if lang in aliases then aliases[lang] else [];
        if voice !in cur {
          cur := cur + [voice];
        }
        aliases := aliases[lang := cur];
      }
    }

    /** `add_voice_aliases(voice, lang)` for a `Voice` of the engine class named
        `className`: the alias is class name ':' id, the language defaults to the voice's. */
    method AddVoiceAliasOf(className: string, v: Voice, lang: string)
      modifies this`aliases
      ensures aliases == WithAlias(old(aliases), if lang == "" then v.language else lang, VoiceAlias(className, v))
    {
      var l := if lang == "" then v.language else lang;
      AddVoiceAlias(className + ":" + v.id, l);
    }

    /** `voices()` of an engine under the current language allow-list. */
    function Voices(engine: Engine): (r: seq<Voice>)
      reads this
      ensures forall v :: v in r <==> v in engine.listed && v.language in langs
    {
      AllowedVoices(engine.listed, langs)
    }

    /** `_init`: seed the aliases from the engine's allowed voices, in order. */
    method InitAliases(engine: Engine)
      modifies this`aliases
      ensures aliases == SeedAliases(old(aliases), engine.className, Voices(engine))
    {
      var vs := Voices(engine);
      var i := 0;
      while i < |vs|
        invariant 0 <= i <= |vs|
        invariant SeedAliases(aliases, engine.className, vs[i..]) == SeedAliases(old(aliases), engine.className, vs)
      {
        assert vs[i..][1..] == vs[i + 1..];
        AddVoiceAliasOf(engine.className, vs[i], "");
        i := i + 1;
      }
    }

    /** `register(name)`: the name (the class name when none is given) is
        lower-cased; a taken name raises and changes nothing, otherwise the
        engine's voices seed the aliases and exactly that one name is added. */
    method Register(engine: Engine, name: string) returns (r: Result<Engine>)
      requires Valid()
      modifies this`engines, this`aliases
      ensures Valid()
      ensures var key := Lower(if name == "" then engine.className else name);
        if key in old(engines) then
          r == Err(RegisterExists) && engines == old(engines) && aliases == old(aliases)
        else
          r == Ok(engine) && engines == old(engines)[key := engine]
          && aliases == SeedAliases(old(aliases), engine.className, AllowedVoices(engine.listed, langs))
    {
      var key := Lower(if name == "" then engine.className else name);
      if key in engines {
        return Err(RegisterExists);
      }
      InitAliases(engine);
      LowerIdempotent(if name == "" then engine.className else name);
      engines := engines[key := engine];
      r := Ok(engine);
    }

    /** `get(name)`: looks the lower-cased name up. */
    function Get(name: string): (r: Option<Engine>)
      reads this
      ensures r.Some? <==> Lower(name) in engines
      ensures r.Some? ==> r.value == engines[Lower(name)]
    {
      if Lower(name) in engines then Some(engines[Lower(name)]) else None
    }

    /** `unregister(name)`: pops the name exactly as given, without lower-casing. */
    method Unregister(name: string) returns (r: Option<Engine>)
      requires Valid()
      modifies this`engines
      ensures Valid()
      ensures r == if name in old(engines) then Some(old(engines)[name]) else None
      ensures engines == old(engines) - {name}
    {
      if name in engines {
        r := Some(engines[name]);
      } else {
        r := None;
      }
      engines := engines - {name};
    }

    /** `get_preferred_voice(lang)`: a pure read of the alias table. */
    function GetPreferredVoice(lang: string): (r: string)
      reads this
      ensures r != "" ==> lang in aliases && aliases[lang] != [] && r == aliases[lang][0]
      ensures lang in aliases && aliases[lang] != [] ==> r == aliases[lang][0]
    {
      PreferredVoice(aliases, lang)
    }

    /** `resolve_voice(voice, fallback_voice)`: tries the candidates in order and
        returns the first whose engine prefix is a registered name (compared
        as written); the alias lookup may insert an empty list. */
    method ResolveVoice(voice: string, fallback: Option<string>) returns (r: Result<string>)
      modifies this`aliases
      ensures r == Resolve(old(aliases), engines.Keys, voice, fallback)
      ensures aliases == Touch(old(aliases), AliasKey(old(aliases), voice))
    {
      var cands := Candidates(aliases, voice, fallback);
      var key := AliasKey(aliases, voice);
      aliases := Touch(aliases, key);
      var i := 0;
      while i < |cands|
        invariant 0 <= i <= |cands|
        invariant FirstRegistered(cands[i..], engines.Keys) == FirstRegistered(cands, engines.Keys)
      {
        var c := cands[i];
        assert cands[i..][1..] == cands[i + 1..];
        if ':' !in c {
          return Err(UnpackValues);
        }
        if Before(c, ':') in engines {
          return Ok(c);
        }
        i := i + 1;
      }
      r := Err(CannotResolve);
    }
  }

  /** Unregistering under a name that is not all lower case finds nothing. */
  lemma UnregisterMixedCaseFindsNothing(r: Registry, name: string)
    requires r.Valid()
    requires Lower(name) != name
    ensures name !in r.engines
  {
  }
}
