/** The HTTP layer's own logic: `clean_nones` over JSON values, the request
    parameters of `/api/tts` and `/process`, and the listings of
    `/api/voices`, `/api/languages` and the MaryTTS `/voices`. Routing and
    response construction are outside the model. */
module Api {
  import opened Common
  import opened Text
  import opened TtsBase
  import opened ToWav

  // ---------------------------------------------------------------------------
  // clean_nones
  // ---------------------------------------------------------------------------

  /** A JSON value; an object keeps its entries in insertion order. */
  datatype Json =
    | JNone
    | JBool(b: bool)
    | JNum(n: int)
    | JStr(s: string)
    | JList(items: seq<Json>)
    | JObject(entries: seq<(string, Json)>)

  /** `clean_nones`: `None` list elements and `None`-valued entries are
      dropped at every depth; anything else is returned as it is. */
  function CleanNones(v: Json): (r: Json)
    ensures v.JList? <==> r.JList?
    ensures v.JObject? <==> r.JObject?
    ensures !v.JList? && !v.JObject? ==> r == v
    ensures v.JList? ==> |r.items| <= |v.items|
    ensures v.JObject? ==> |r.entries| <= |v.entries|
    decreases v, 1
  {
    match v
    case JList(items) => JList(CleanItems(items))
    case JObject(entries) => JObject(CleanEntries(entries))
    case _ => v
  }

  /** The list comprehension: non-`None` elements, cleaned, in order. */
  function CleanItems(items: seq<Json>): (r: seq<Json>)
    ensures |r| <= |items|
    decreases items, 0
  {
    if items == [] then []
    else (if items[0].JNone? then [] else [CleanNones(items[0])]) + CleanItems(items[1..])
  }

  /** The dict comprehension: non-`None` entries, values cleaned, in order. */
  function CleanEntries(entries: seq<(string, Json)>): (r: seq<(string, Json)>)
    ensures |r| <= |entries|
    decreases entries, 0
  {
    if entries == [] then []
    else
      assert entries[0] in entries && entries[0].1 < entries[0];
      (if entries[0].1.JNone? then [] else [(entries[0].0, CleanNones(entries[0].1))])
      + CleanEntries(entries[1..])
  }

  /** A value with no `None` at any depth. */
  predicate NoneFree(v: Json)
    decreases v, 1
  {
    match v
    case JNone => false
    case JList(items) => ItemsNoneFree(items)
    case JObject(entries) => EntriesNoneFree(entries)
    case _ => true
  }

  predicate ItemsNoneFree(items: seq<Json>)
    decreases items, 0
  {
    items == [] || (NoneFree(items[0]) && ItemsNoneFree(items[1..]))
  }

  predicate EntriesNoneFree(entries: seq<(string, Json)>)
    decreases entries, 0
  {
    entries == [] || (assert entries[0] in entries && entries[0].1 < entries[0]; NoneFree(entries[0].1) && EntriesNoneFree(entries[1..]))
  }

  /** The result holds no `None` unless the input itself is `None`. */
  lemma {:induction false} CleanNonesNoneFree(v: Json)
    ensures v.JNone? || NoneFree(CleanNones(v))
    decreases v, 1
  {
    match v
    case JList(items) => CleanItemsNoneFree(items);
    case JObject(entries) => CleanEntriesNoneFree(entries);
    case _ =>
  }

  lemma {:induction false} CleanItemsNoneFree(items: seq<Json>)
    ensures ItemsNoneFree(CleanItems(items))
    decreases items, 0
  {
    if items != [] {
      CleanItemsNoneFree(items[1..]);
      if !items[0].JNone? {
        CleanNonesNoneFree(items[0]);
        var r := CleanItems(items);
        assert r[0] == CleanNones(items[0]) && r[1..] == CleanItems(items[1..]);
      } else {
        assert CleanItems(items) == CleanItems(items[1..]);
      }
    }
  }

  lemma {:induction false} CleanEntriesNoneFree(entries: seq<(string, Json)>)
    ensures EntriesNoneFree(CleanEntries(entries))
    decreases entries, 0
  {
    if entries != [] {
      CleanEntriesNoneFree(entries[1..]);
      assert entries[0] in entries && entries[0].1 < entries[0];
      if !entries[0].1.JNone? {
        CleanNonesNoneFree(entries[0].1);
        var r := CleanEntries(entries);
        assert r[0].1 == CleanNones(entries[0].1) && r[1..] == CleanEntries(entries[1..]);
      } else {
        assert CleanEntries(entries) == CleanEntries(entries[1..]);
      }
    }
  }

  /** A value with no `None` is left as it is. */
  lemma {:induction false} CleanNonesKeepsNoneFree(v: Json)
    requires NoneFree(v)
    ensures CleanNones(v) == v
    decreases v, 1
  {
    match v
    case JList(items) => CleanItemsKeepsNoneFree(items);
    case JObject(entries) => CleanEntriesKeepsNoneFree(entries);
    case _ =>
  }

  lemma {:induction false} CleanItemsKeepsNoneFree(items: seq<Json>)
    requires ItemsNoneFree(items)
    ensures CleanItems(items) == items
    decreases items, 0
  {
    if items != [] {
      CleanNonesKeepsNoneFree(items[0]);
      CleanItemsKeepsNoneFree(items[1..]);
    }
  }

  lemma {:induction false} CleanEntriesKeepsNoneFree(entries: seq<(string, Json)>)
    requires EntriesNoneFree(entries)
    ensures CleanEntries(entries) == entries
    decreases entries, 0
  {
    if entries != [] {
      assert entries[0] in entries && entries[0].1 < entries[0];
      CleanNonesKeepsNoneFree(entries[0].1);
      CleanEntriesKeepsNoneFree(entries[1..]);
    }
  }

  /** Cleaning twice is cleaning once. */
  lemma CleanNonesIdempotent(v: Json)
    ensures CleanNones(CleanNones(v)) == CleanNones(v)
  {
    CleanNonesNoneFree(v);
    if !v.JNone? {
      CleanNonesKeepsNoneFree(CleanNones(v));
    }
  }

  /** The comprehension works element by element: the order of the kept
      elements is the input's order. */
  lemma {:induction false} CleanItemsConcat(a: seq<Json>, b: seq<Json>)
    ensures CleanItems(a + b) == CleanItems(a) + CleanItems(b)
  {
    if a == [] {
      assert a + b == b;
    } else {
      assert (a + b)[1..] == a[1..] + b;
      CleanItemsConcat(a[1..], b);
    }
  }

  /** Likewise for objects: kept entries stay in insertion order. */
  lemma {:induction false} CleanEntriesConcat(a: seq<(string, Json)>, b: seq<(string, Json)>)
    ensures CleanEntries(a + b) == CleanEntries(a) + CleanEntries(b)
  {
    if a == [] {
      assert a + b == b;
    } else {
      assert (a + b)[1..] == a[1..] + b;
      CleanEntriesConcat(a[1..], b);
    }
  }

  // ---------------------------------------------------------------------------
  // Request parameters
  // ---------------------------------------------------------------------------

  /** `convert_bool`: an HTML form value read as a boolean. */
  function ConvertBool(s: string): (r: bool)
    ensures r ==> |Strip(s)| <= 6
  {
    Lower(Strip(s)) in {"true", "yes", "on", "1", "enable"}
  }

  /** Surrounding whitespace and letter case do not matter. */
  lemma ConvertBoolNormalises(s: string)
    ensures ConvertBool(Lower(Strip(s))) == ConvertBool(s)
  {
    var t := Strip(s);
    LowerIdempotent(t);
    if t != [] {
      assert !IsSpace(LowerChar(t[0])) && !IsSpace(LowerChar(t[|t| - 1]));
    }
  }

  /** The `speakerId` rule of `/api/tts`: the id is appended after '#' unless
      it is empty or the voice already names a speaker. */
  function SpeakerSuffix(voice: string, speakerId: string): (r: string)
    ensures speakerId == "" || '#' in voice ==> r == voice
    ensures speakerId != "" && '#' !in voice ==> Before(r, '#') == voice && '#' in r && After(r, '#') == speakerId
  {
    if speakerId != "" && '#' !in voice then
      BeforeConcat(voice, '#', speakerId);
      voice + "#" + speakerId
    else voice
  }

  /** After resolution the suffixed speaker reaches the engine: a full
      reference `engine:id` comes apart into the engine, the voice id and the
      speaker id that `text_to_wavs` passes on. */
  lemma SpeakerSuffixReachesEngine(engine: string, id: string, speakerId: string)
    requires ':' !in engine && '#' !in engine + ":" + id && speakerId != ""
    ensures var v := SpeakerSuffix(engine + ":" + id, speakerId);
      ':' in v && Before(v, ':') == engine && SpeakerSplit(After(v, ':')) == (id, Some(speakerId))
  {
    var v := SpeakerSuffix(engine + ":" + id, speakerId);
    assert v == engine + [':'] + (id + "#" + speakerId);
    BeforeConcat(engine, ':', id + "#" + speakerId);
    assert '#' !in id by {
      assert forall k :: 0 <= k < |id| ==> (engine + ":" + id)[|engine| + 1 + k] == id[k];
    }
    BeforeConcat(id, '#', speakerId);
    assert id + "#" + speakerId == id + ['#'] + speakerId;
  }

  /** `/process` reads the text as SSML exactly when it begins with '<'. */
  function IsSsml(text: string): (r: bool)
    ensures r ==> Strip(text) != []
  {
    text != [] && text[0] == '<'
  }

  /** SSML after leading whitespace is read as plain text. */
  lemma LeadingSpaceHidesSsml(space: char, text: string)
    requires IsSpace(space)
    ensures !IsSsml([space] + text)
  {
  }

  /** The query parameter `key`, or `default` when it is absent. */
  function Arg(args: map<string, string>, key: string, default: string): string {
    if key in args then args[key] else default
  }

  /** A word with no whitespace at its ends and no capitals reads as itself. */
  lemma NormalisedWord(w: string)
    requires w != [] && !IsSpace(w[0]) && !IsSpace(w[|w| - 1])
    requires forall i :: 0 <= i < |w| ==> !('A' <= w[i] <= 'Z')
    ensures Lower(Strip(w)) == w
  {
  }

  /** The spelled-out defaults read as `convert_bool` reads them. */
  lemma ConvertBoolDefaults()
    ensures ConvertBool("true") && !ConvertBool("false")
  {
    NormalisedWord("true");
    NormalisedWord("false");
  }

  /** A boolean parameter read through `convert_bool`, with the default
      spelled "true" or "false" when it is absent. */
  function Flag(args: map<string, string>, key: string, default: bool): (r: bool)
    ensures key !in args ==> r == default
    ensures key in args ==> r == ConvertBool(args[key])
  {
    ConvertBoolDefaults();
    ConvertBool(Arg(args, key, if default then "true" else "false"))
  }

  /** The SSML verbalisation options of `/api/tts`, each on unless its
      parameter says otherwise. */
  function SsmlArgs(args: map<string, string>): (r: seq<(string, bool)>)
    ensures |r| == 3 && r[0].0 == "verbalize_numbers" && r[1].0 == "verbalize_dates" && r[2].0 == "verbalize_currency"
    ensures r[0].1 == Flag(args, "ssmlNumbers", true)
    ensures r[1].1 == Flag(args, "ssmlDates", true)
    ensures r[2].1 == Flag(args, "ssmlCurrency", true)
  {
    [("verbalize_numbers", Flag(args, "ssmlNumbers", true)),
     ("verbalize_dates", Flag(args, "ssmlDates", true)),
     ("verbalize_currency", Flag(args, "ssmlCurrency", true))]
  }

  /** The synthesis request `/api/tts` makes: the text comes from the body of
      a POST, else from `text`; an empty text fails the "No text provided"
      assertion. The cache is off and SSML is off unless asked for; the
      language defaults to "en". */
  function SayRequest(args: map<string, string>, isPost: bool, body: string): (r: Result<Request>)
    ensures r.Err? <==> (if isPost then body else Arg(args, "text", "")) == ""
    ensures r.Err? ==> r.error == AssertionFailed("No text provided")
    ensures r.Ok? ==>
      r.value.text == (if isPost then body else Arg(args, "text", ""))
      && r.value.lang == Arg(args, "lang", "en")
      && r.value.voice == SpeakerSuffix(Arg(args, "voice", ""), Arg(args, "speakerId", ""))
      && r.value.ssmlArgs == SsmlArgs(args)
    ensures r.Ok? ==> r.value.vocoder.None? && r.value.denoiser.None? && r.value.noise.None? && r.value.length.None?
    ensures r.Ok? ==> r.value.useCache == Flag(args, "cache", false) && r.value.ssml == Flag(args, "ssml", false)
  {
    var text := if isPost then body else Arg(args, "text", "");
    if text == "" then Err(AssertionFailed("No text provided"))
    else
      var voice := SpeakerSuffix(Arg(args, "voice", ""), Arg(args, "speakerId", ""));
      Ok(Request(text, voice, Arg(args, "lang", "en"), None, None, None, None,
                 Flag(args, "cache", false), Flag(args, "ssml", false), SsmlArgs(args)))
  }

  /** The synthesis request of the MaryTTS `/process`: INPUT_TEXT and VOICE,
      SSML detected from the text, and `text_to_wav`'s own defaults, so the
      cache is on and the language is the one `default_lang` held when
      to_wav.py was imported ("en"). An empty text is not refused here. */
  function ProcessRequest(form: map<string, string>): (r: Request)
    ensures r.text == Arg(form, "INPUT_TEXT", "") && r.voice == Arg(form, "VOICE", "")
    ensures r.ssml <==> r.text != [] && r.text[0] == '<'
    ensures r.useCache && r.lang == "en"
    ensures r.vocoder.None? && r.denoiser.None? && r.noise.None? && r.length.None? && r.ssmlArgs == []
  {
    var text := Arg(form, "INPUT_TEXT", "");
    Request(text, Arg(form, "VOICE", ""), "en", None, None, None, None, true, IsSsml(text), [])
  }

  // ---------------------------------------------------------------------------
  // /api/voices and /api/languages
  // ---------------------------------------------------------------------------

  /** The repeated query parameters of `/api/voices`; an empty set filters nothing. */
  datatype Filters = Filters(ttsNames: set<string>, languages: set<string>, locales: set<string>, genders: set<string>)

  /** A listed voice with the `tts_name` key added. */
  datatype VoiceEntry = VoiceEntry(voice: Voice, ttsName: string)

  /** Whether `/api/voices` lists a voice of the engine registered as `name`. */
  predicate Matches(f: Filters, name: string, v: Voice) {
    (f.ttsNames == {} || name in f.ttsNames)
    && (f.languages == {} || v.language in f.languages)
    && (f.locales == {} || v.locale in f.locales)
    && (f.genders == {} || v.gender in f.genders)
  }

  /** The key of a listed voice: registered name, ':' and voice id. */
  function FullId(name: string, v: Voice): string {
    name + ":" + v.id
  }

  /** Every entry of `m` is a matching voice stored under its own key. */
  predicate Sound(f: Filters, m: map<string, VoiceEntry>) {
    forall k :: k in m ==> Matches(f, m[k].ttsName, m[k].voice) && k == FullId(m[k].ttsName, m[k].voice)
  }

  /** The voices of one engine added to the listing, a later voice with the
      same key overwriting an earlier one. */
  function AddVoices(m: map<string, VoiceEntry>, f: Filters, name: string, vs: seq<Voice>): (r: map<string, VoiceEntry>)
    ensures Sound(f, m) ==> Sound(f, r)
    ensures m.Keys <= r.Keys
    ensures forall j :: 0 <= j < |vs| && Matches(f, name, vs[j]) ==> FullId(name, vs[j]) in r
    ensures forall k :: k in r ==> (k in m && r[k] == m[k]) || exists j :: 0 <= j < |vs| && r[k] == VoiceEntry(vs[j], name)
  {
    if vs == [] then m
    else
      var prev := AddVoices(m, f, name, vs[..|vs| - 1]);
      var v := vs[|vs| - 1];
      if Matches(f, name, v) then prev[FullId(name, v) := VoiceEntry(v, name)] else prev
  }

  /** The listing of `/api/voices` over the registered engines, in
      registration order, each with the voices it yields. */
  function ListedVoices(engines: seq<(string, seq<Voice>)>, f: Filters): (r: map<string, VoiceEntry>)
    ensures Sound(f, r)
    ensures forall i, j ::
      0 <= i < |engines| && 0 <= j < |engines[i].1| && Matches(f, engines[i].0, engines[i].1[j])
      ==> FullId(engines[i].0, engines[i].1[j]) in r
    ensures forall k :: k in r ==>
      exists i, j :: 0 <= i < |engines| && 0 <= j < |engines[i].1| && r[k] == VoiceEntry(engines[i].1[j], engines[i].0)
  {
    if engines == [] then map[]
    else
      var prev := ListedVoices(engines[..|engines| - 1], f);
      var (name, vs) := engines[|engines| - 1];
      if f.ttsNames != {} && name !in f.ttsNames then prev else AddVoices(prev, f, name, vs)
  }

  /** A voice of the last engine is listed as itself when no later voice of
      that engine with the same id matches: it wins over any earlier engine's
      voice with the same key. */
  lemma LaterEngineOverwrites(engines: seq<(string, seq<Voice>)>, f: Filters, name: string, vs: seq<Voice>, j: nat)
    requires j < |vs| && Matches(f, name, vs[j])
    requires forall k :: j < k < |vs| && Matches(f, name, vs[k]) ==> vs[k].id != vs[j].id
    ensures ListedVoices(engines + [(name, vs)], f)[FullId(name, vs[j])] == VoiceEntry(vs[j], name)
  {
    assert (engines + [(name, vs)])[..|engines|] == engines;
    AddVoicesLastWins(ListedVoices(engines, f), f, name, vs, j);
  }

  /** Within one engine, the last matching voice with a given id is the one listed. */
  lemma {:induction false} AddVoicesLastWins(m: map<string, VoiceEntry>, f: Filters, name: string, vs: seq<Voice>, j: nat)
    requires j < |vs| && Matches(f, name, vs[j])
    requires forall k :: j < k < |vs| && Matches(f, name, vs[k]) ==> vs[k].id != vs[j].id
    ensures AddVoices(m, f, name, vs)[FullId(name, vs[j])] == VoiceEntry(vs[j], name)
  {
    var init := vs[..|vs| - 1];
    var last := vs[|vs| - 1];
    if j < |vs| - 1 {
      assert init[j] == vs[j];
      assert forall k :: j < k < |init| ==> init[k] == vs[k];
      AddVoicesLastWins(m, f, name, init, j);
      if Matches(f, name, last) {
        assert FullId(name, last)[|name| + 1..] == last.id;
        assert FullId(name, vs[j])[|name| + 1..] == vs[j].id;
      }
    }
  }

  /** `app_voices`: a loop over the engines and, inside, over their voices. */
  method AppVoices(engines: seq<(string, seq<Voice>)>, f: Filters) returns (voices: map<string, VoiceEntry>)
    ensures voices == ListedVoices(engines, f)
  {
    voices := map[];
    var i := 0;
    while i < |engines|
      invariant 0 <= i <= |engines|
      invariant voices == ListedVoices(engines[..i], f)
    {
      assert engines[..i + 1][..i] == engines[..i];
      var (name, vs) := engines[i];
      if f.ttsNames != {} && name !in f.ttsNames {
        i := i + 1;
        continue;
      }
      voices := AddEngineVoices(voices, f, name, vs);
      i := i + 1;
    }
    assert engines[..i] == engines;
  }

  /** The inner loop of `app_voices` over one engine's voices. */
  method AddEngineVoices(m: map<string, VoiceEntry>, f: Filters, name: string, vs: seq<Voice>) returns (r: map<string, VoiceEntry>)
    ensures r == AddVoices(m, f, name, vs)
  {
    r := m;
    var j := 0;
    while j < |vs|
      invariant 0 <= j <= |vs|
      invariant r == AddVoices(m, f, name, vs[..j])
    {
      assert vs[..j + 1][..j] == vs[..j];
      var v := vs[j];
      if Matches(f, name, v) {
        r := r[FullId(name, v) := VoiceEntry(v, name)];
      }
      j := j + 1;
    }
    assert vs[..j] == vs;
  }

  /** The languages `/api/languages` lists: those of every voice of every
      selected engine. */
  function ListedLanguages(engines: seq<(string, seq<Voice>)>, ttsNames: set<string>): (r: set<string>)
    ensures forall l :: l in r <==> exists i, j ::
      0 <= i < |engines| && 0 <= j < |engines[i].1|
      && (ttsNames == {} || engines[i].0 in ttsNames) && engines[i].1[j].language == l
  {
    if engines == [] then {}
    else
      var prev := ListedLanguages(engines[..|engines| - 1], ttsNames);
      var (name, vs) := engines[|engines| - 1];
      LanguagesOfSpec(vs);
      var r := if ttsNames != {} && name !in ttsNames then prev else prev + LanguagesOf(vs);
      assert forall i :: 0 <= i < |engines| - 1 ==> engines[..|engines| - 1][i] == engines[i];
      r
  }

  function LanguagesOf(vs: seq<Voice>): set<string> {
    set j | 0 <= j < |vs| :: vs[j].language
  }

  lemma LanguagesOfSpec(vs: seq<Voice>)
    ensures forall l :: l in LanguagesOf(vs) <==> exists j :: 0 <= j < |vs| && vs[j].language == l
  {
  }

  /** `app_languages`: the loops adding each language to a set. */
  method AppLanguages(engines: seq<(string, seq<Voice>)>, ttsNames: set<string>) returns (languages: set<string>)
    ensures languages == ListedLanguages(engines, ttsNames)
  {
    languages := {};
    var i := 0;
    while i < |engines|
      invariant 0 <= i <= |engines|
      invariant languages == ListedLanguages(engines[..i], ttsNames)
    {
      assert engines[..i + 1][..i] == engines[..i];
      var (name, vs) := engines[i];
      if ttsNames != {} && name !in ttsNames {
        i := i + 1;
        continue;
      }
      var j := 0;
      ghost var before := languages;
      while j < |vs|
        invariant 0 <= j <= |vs|
        invariant languages == before + LanguagesOf(vs[..j])
      {
        assert LanguagesOf(vs[..j + 1]) == LanguagesOf(vs[..j]) + {vs[j].language};
        languages := languages + {vs[j].language};
        j := j + 1;
      }
      assert vs[..j] == vs;
      i := i + 1;
    }
    assert engines[..i] == engines;
  }

  // ---------------------------------------------------------------------------
  // MaryTTS /voices
  // ---------------------------------------------------------------------------

  /** The MaryTTS `/voices` handler as written: it iterates over `_TTS`, a
      name api.py never defines, so every request fails with `NameError`. */
  function MaryVoicesAsWritten(engines: seq<(string, seq<Voice>)>): (r: Result<string>)
    ensures r == Err(UndefinedName)
  {
    Err(UndefinedName)
  }

  /** Even with engines registered, the handler as written lists nothing. */
  lemma MaryVoicesAsWrittenFails(name: string, v: Voice)
    ensures MaryVoicesAsWritten([(name, [v])]).Err?
    ensures MaryVoices([(name, [v])]) == FullId(name, v)
  {
    assert MaryIds([(name, [v])]) == [FullId(name, v)] by {
      assert [(name, [v])][..0] == [];
      assert [v][..0] == [];
    }
  }

  /** How many voices the engines yield together. */
  function VoiceCount(engines: seq<(string, seq<Voice>)>): nat {
    if engines == [] then 0 else VoiceCount(engines[..|engines| - 1]) + |engines[|engines| - 1].1|
  }

  /** Every voice's full id, engine by engine: one per voice. */
  function MaryIds(engines: seq<(string, seq<Voice>)>): (r: seq<string>)
    ensures |r| == VoiceCount(engines)
  {
    if engines == [] then []
    else
      var (name, vs) := engines[|engines| - 1];
      MaryIds(engines[..|engines| - 1]) + seq(|vs|, j requires 0 <= j < |vs| => FullId(name, vs[j]))
  }

  /** The handler over the registered engines, as evidently intended: one
      line per voice of every engine, its full id. */
  function MaryVoices(engines: seq<(string, seq<Voice>)>): (r: string)
  {
    Join(MaryIds(engines), '\n')
  }

  /** With no line break in any name or id, the response splits back into
      exactly the voices' full ids, in order. */
  lemma MaryVoicesLines(engines: seq<(string, seq<Voice>)>)
    requires forall i, j :: 0 <= i < |engines| && 0 <= j < |engines[i].1| ==> '\n' !in FullId(engines[i].0, engines[i].1[j])
    requires MaryIds(engines) != []
    ensures Split(MaryVoices(engines), '\n') == MaryIds(engines)
  {
    MaryIdsNoBreak(engines);
    SplitJoin(MaryIds(engines), '\n');
  }

  /** The voice `j` of engine `i` is listed after the voices of the engines
      before it, at its own position among its engine's voices. */
  lemma {:induction false} MaryIdsAt(engines: seq<(string, seq<Voice>)>, i: nat, j: nat)
    requires i < |engines| && j < |engines[i].1|
    ensures VoiceCount(engines[..i]) + j < |MaryIds(engines)|
    ensures MaryIds(engines)[VoiceCount(engines[..i]) + j] == FullId(engines[i].0, engines[i].1[j])
  {
    var n := |engines| - 1;
    var init := engines[..n];
    if i < n {
      assert init[..i] == engines[..i];
      assert init[i] == engines[i];
      MaryIdsAt(init, i, j);
    } else {
      assert engines[..i] == init;
    }
  }

  lemma {:induction false} MaryIdsNoBreak(engines: seq<(string, seq<Voice>)>)
    requires forall i, j :: 0 <= i < |engines| && 0 <= j < |engines[i].1| ==> '\n' !in FullId(engines[i].0, engines[i].1[j])
    ensures forall k :: 0 <= k < |MaryIds(engines)| ==> '\n' !in MaryIds(engines)[k]
  {
    if engines != [] {
      var init := engines[..|engines| - 1];
      assert forall i :: 0 <= i < |init| ==> init[i] == engines[i];
      MaryIdsNoBreak(init);
    }
  }
}
