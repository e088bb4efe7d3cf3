/** The Coqui TTS engine wrapper: its three voices, the memo of loaded
    synthesizers, the lazy loading of speaker tables, and the text and speaker
    preparation done before synthesis. The neural synthesis itself is a
    parameter. */
module CoquiTts {
  import opened Common
  import opened Text
  import opened TtsBase

  // ---------------------------------------------------------------------------
  // Text preparation
  // ---------------------------------------------------------------------------

  /** U+3002 IDEOGRAPHIC FULL STOP. */
  const IdeographicFullStop: char := 0x3002 as char
  /** U+FF01 FULLWIDTH EXCLAMATION MARK. */
  const FullwidthExclamation: char := 0xFF01 as char
  /** U+FF1F FULLWIDTH QUESTION MARK. */
  const FullwidthQuestion: char := 0xFF1F as char
  /** U+FF0E FULLWIDTH FULL STOP. */
  const FullwidthFullStop: char := 0xFF0E as char

  /** The character class `[.!?。！？．]` whose runs are merged for `zh_baker`. */
  predicate IsRunPunct(c: char) {
    c == '.' || c == '!' || c == '?' || c == IdeographicFullStop
    || c == FullwidthExclamation || c == FullwidthQuestion || c == FullwidthFullStop
  }

  /** The sentence ends `zh_baker` accepts without an extra full stop: 。？！ */
  predicate IsZhStop(c: char) {
    c == IdeographicFullStop || c == FullwidthQuestion || c == FullwidthExclamation
  }

  /** The replacement of a punctuation run, from its last character: '.' and
      '．' become '。', other characters below 255 move by 0xFEE0 into the
      Halfwidth and Fullwidth Forms block, and the rest stay as they are. */
  function RunChar(c: char): (r: char)
    ensures IsRunPunct(c) ==> IsZhStop(r)
    ensures IsZhStop(c) ==> r == c
    ensures c == '.' || c == FullwidthFullStop ==> r == IdeographicFullStop
    ensures c == '!' ==> r == FullwidthExclamation
    ensures c == '?' ==> r == FullwidthQuestion
  {
    if c == '.' || c == FullwidthFullStop then IdeographicFullStop
    else if (c as int) < 255 then (c as int + 0xFEE0) as char
    else c
  }

  /** Length of the longest prefix of `s` made of run punctuation. */
  function RunLength(s: string): (n: nat)
    ensures n <= |s|
    ensures forall i :: 0 <= i < n ==> IsRunPunct(s[i])
    ensures n < |s| ==> !IsRunPunct(s[n])
  {
    if s == [] || !IsRunPunct(s[0]) then 0 else 1 + RunLength(s[1..])
  }

  /** `re.sub(r'([.!?。！？．])+', mReplacer, s)`: every maximal run of the
      class becomes the one character `RunChar` gives for its last character. */
  function Collapse(s: string): (r: string)
    ensures |r| <= |s| && (r == [] <==> s == [])
    ensures r != [] ==> (IsRunPunct(r[0]) <==> IsRunPunct(s[0]))
    ensures r != [] && !IsRunPunct(s[0]) ==> r[0] == s[0]
    ensures r != [] ==> (IsRunPunct(r[|r| - 1]) <==> IsRunPunct(s[|s| - 1]))
    ensures r != [] && !IsRunPunct(s[|s| - 1]) ==> r[|r| - 1] == s[|s| - 1]
    decreases |s|
  {
    if s == [] then []
    else if IsRunPunct(s[0]) then
      var n := RunLength(s);
      [RunChar(s[n - 1])] + Collapse(s[n..])
    else [s[0]] + Collapse(s[1..])
  }

  /** A maximal run of the class, followed by text that does not continue it,
      becomes the one character its last character maps to. */
  lemma CollapseRun(run: string, rest: string)
    requires run != [] && forall i :: 0 <= i < |run| ==> IsRunPunct(run[i])
    requires rest == [] || !IsRunPunct(rest[0])
    ensures Collapse(run + rest) == [RunChar(run[|run| - 1])] + Collapse(rest)
  {
    var s := run + rest;
    var n := RunLength(s);
    assert forall i :: 0 <= i < |run| ==> s[i] == run[i];
    assert |run| < |s| ==> s[|run|] == rest[0];
    assert s[n..] == rest;
    assert s[n - 1] == run[|run| - 1];
  }

  /** The characters outside the punctuation class, in order. */
  function Words(s: string): string {
    if s == [] then [] else (if IsRunPunct(s[0]) then [] else [s[0]]) + Words(s[1..])
  }

  lemma {:induction false} WordsSkipRun(s: string, n: nat)
    requires n <= |s| && forall i :: 0 <= i < n ==> IsRunPunct(s[i])
    ensures Words(s) == Words(s[n..])
  {
    if n > 0 {
      WordsSkipRun(s[1..], n - 1);
      assert s[1..][n - 1..] == s[n..];
    }
  }

  /** The merge touches punctuation only: the other characters stay, in order. */
  lemma {:induction false} CollapseKeepsWords(s: string)
    ensures Words(Collapse(s)) == Words(s)
    decreases |s|
  {
    if s != [] {
      if IsRunPunct(s[0]) {
        var n := RunLength(s);
        CollapseKeepsWords(s[n..]);
        WordsSkipRun(s, n);
        var r := [RunChar(s[n - 1])] + Collapse(s[n..]);
        assert r[1..] == Collapse(s[n..]);
      } else {
        CollapseKeepsWords(s[1..]);
        var r := [s[0]] + Collapse(s[1..]);
        assert r[1..] == Collapse(s[1..]);
      }
    }
  }

  /** Text the merge leaves alone: every run character is a sentence end and
      no two of them are adjacent. */
  predicate Collapsed(s: string) {
    (forall i :: 0 <= i < |s| && IsRunPunct(s[i]) ==> IsZhStop(s[i]))
    && (forall i :: 0 <= i < |s| - 1 ==> !(IsRunPunct(s[i]) && IsRunPunct(s[i + 1])))
  }

  /** The merge leaves every run character a sentence end, with no two adjacent. */
  lemma {:induction false} CollapseCollapsed(s: string)
    ensures Collapsed(Collapse(s))
    decreases |s|
  {
    if s != [] {
      if IsRunPunct(s[0]) {
        var n := RunLength(s);
        CollapseCollapsed(s[n..]);
        ConsCollapsed(RunChar(s[n - 1]), Collapse(s[n..]));
      } else {
        CollapseCollapsed(s[1..]);
        ConsCollapsed(s[0], Collapse(s[1..]));
      }
    }
  }

  lemma ConsCollapsed(c: char, rest: string)
    requires Collapsed(rest)
    requires IsRunPunct(c) ==> IsZhStop(c)
    requires IsRunPunct(c) && rest != [] ==> !IsRunPunct(rest[0])
    ensures Collapsed([c] + rest)
  {
    var r := [c] + rest;
    assert forall i :: 0 < i < |r| ==> r[i] == rest[i - 1];
  }

  lemma SnocCollapsed(s: string, c: char)
    requires Collapsed(s)
    requires IsZhStop(c)
    requires s != [] ==> !IsRunPunct(s[|s| - 1])
    ensures Collapsed(s + [c])
  {
    var r := s + [c];
    assert forall i :: 0 <= i < |s| ==> r[i] == s[i];
  }

  lemma CollapsedTail(s: string)
    requires s != [] && Collapsed(s)
    ensures Collapsed(s[1..])
  {
    var t := s[1..];
    assert forall i :: 0 <= i < |t| ==> t[i] == s[i + 1];
  }

  /** Merged text is a fixed point of the merge. */
  lemma {:induction false} CollapseFixed(s: string)
    requires Collapsed(s)
    ensures Collapse(s) == s
    decreases |s|
  {
    if s != [] {
      CollapsedTail(s);
      CollapseFixed(s[1..]);
      CollapseSingle(s);
      assert s == [s[0]] + s[1..];
    }
  }

  /** A character that does not start a run of two is kept by the merge, or
      replaced by itself when it is a sentence end. */
  lemma CollapseSingle(s: string)
    requires s != [] && Collapsed(s)
    ensures Collapse(s) == [s[0]] + Collapse(s[1..])
  {
    if IsRunPunct(s[0]) {
      assert |s| > 1 ==> !IsRunPunct(s[1]);
      assert RunLength(s[1..]) == 0;
      assert RunLength(s) == 1;
      assert RunChar(s[0]) == s[0];
    }
  }

  /** `zh_baker`'s ending: the runs merged, and '。' appended unless the text
      then ends in 。？！. */
  function ZhSentence(t: string): (r: string)
    requires t != []
    ensures Collapsed(r) && r != [] && IsZhStop(r[|r| - 1])
    ensures |r| >= |Collapse(t)| && r[..|Collapse(t)|] == Collapse(t)
    ensures |r| == |Collapse(t)| <==> IsZhStop(Collapse(t)[|Collapse(t)| - 1])
    ensures |r| <= |Collapse(t)| + 1
    ensures |r| > |Collapse(t)| ==> r[|r| - 1] == IdeographicFullStop
  {
    var c := Collapse(t);
    CollapseCollapsed(t);
    if IsZhStop(c[|c| - 1]) then c
    else
      SnocCollapsed(c, IdeographicFullStop);
      var r := c + [IdeographicFullStop];
      assert r[..|c|] == c;
      r
  }

  /** The other voices' ending: '.' appended unless the text ends in . ? or !. */
  function FullStop(t: string): (r: string)
    requires t != []
    ensures r != [] && r[|r| - 1] in ".?!"
    ensures |r| >= |t| && r[..|t|] == t
    ensures |r| == |t| <==> t[|t| - 1] in ".?!"
    ensures |r| <= |t| + 1
    ensures |r| > |t| ==> r[|t|] == '.'
  {
    if t[|t| - 1] in ".?!" then t
    else
      var r := t + ".";
      assert r[..|t|] == t;
      r
  }

  /** The text Coqui synthesizes for `voice_id`: the stripped text, left empty
      when it is empty, else ended as `ZhSentence` or `FullStop` says. */
  function Prepare(voiceId: string, text: string): (r: string)
    ensures r == [] <==> Strip(text) == []
  {
    var t := Strip(text);
    if t == [] then []
    else if voiceId == "zh_baker" then ZhSentence(t)
    else FullStop(t)
  }

  /** Preparing prepared text changes nothing. */
  lemma PrepareIdempotent(voiceId: string, text: string)
    ensures Prepare(voiceId, Prepare(voiceId, text)) == Prepare(voiceId, text)
  {
    var t := Strip(text);
    if t != [] {
      if voiceId == "zh_baker" {
        ZhSentenceFixed(t);
      } else {
        FullStopFixed(t);
      }
    }
  }

  lemma ZhSentenceFixed(t: string)
    requires t != [] && !IsSpace(t[0])
    ensures Strip(ZhSentence(t)) == ZhSentence(t)
    ensures ZhSentence(ZhSentence(t)) == ZhSentence(t)
  {
    ZhSentenceStripped(t);
    ZhSentenceStable(ZhSentence(t));
  }

  lemma ZhSentenceStripped(t: string)
    requires t != [] && !IsSpace(t[0])
    ensures Strip(ZhSentence(t)) == ZhSentence(t)
  {
    var p := ZhSentence(t);
    var c := Collapse(t);
    assert c != [];
    assert p[0] == c[0];
    if IsRunPunct(c[0]) {
      ZhStopNotSpace(c[0]);
    }
    ZhStopNotSpace(p[|p| - 1]);
  }

  lemma ZhSentenceStable(p: string)
    requires p != [] && Collapsed(p) && IsZhStop(p[|p| - 1])
    ensures ZhSentence(p) == p
  {
    CollapseFixed(p);
  }

  lemma ZhStopNotSpace(c: char)
    requires IsZhStop(c)
    ensures !IsSpace(c)
  {
  }

  lemma FullStopFixed(t: string)
    requires t != [] && !IsSpace(t[0])
    ensures Strip(FullStop(t)) == FullStop(t)
    ensures FullStop(FullStop(t)) == FullStop(t)
  {
    var p := FullStop(t);
    assert p[0] == t[0];
    assert !IsSpace(p[|p| - 1]);
  }

  // ---------------------------------------------------------------------------
  // Speaker choice
  // ---------------------------------------------------------------------------

  /** The `speaker_name` passed to the synthesizer: a name, a number, or none. */
  datatype SpeakerArg = SpeakerName(name: string) | SpeakerNumber(n: int) | NoSpeaker

  /** `say`'s speaker choice: a multi-speaker voice asked for no speaker, or for
      "", gets the first name of its speaker table when the table is non-empty,
      else speaker 0; every other request is passed through unchanged. */
  function DefaultSpeaker(v: Voice, speaker: Option<string>): (r: SpeakerArg)
    ensures !v.multispeaker || (speaker.Some? && speaker.value != "") ==>
      r == (if speaker.Some? then SpeakerName(speaker.value) else NoSpeaker)
    ensures v.multispeaker ==> r != NoSpeaker
    ensures v.multispeaker && (speaker.None? || speaker.value == "") ==>
      (if v.speakers.Some? && v.speakers.value != [] then r == SpeakerName(v.speakers.value[0].0)
       else r == SpeakerNumber(0))
    ensures r.SpeakerNumber? ==> r.n == 0
  {
    if v.multispeaker && (speaker.None? || speaker.value == "") then
      if v.speakers.Some? && v.speakers.value != [] then SpeakerName(v.speakers.value[0].0)
      else SpeakerNumber(0)
    else if speaker.Some? then SpeakerName(speaker.value)
    else NoSpeaker
  }

  // ---------------------------------------------------------------------------
  // The engine object
  // ---------------------------------------------------------------------------

  /** The constructor arguments of a Coqui `Synthesizer`: checkpoint and config
      paths of the model and of its vocoder, and the speaker file ("" when absent). */
  datatype Synthesizer = Synthesizer(
    ttsCheckpoint: string,
    ttsConfig: string,
    vocoderCheckpoint: string,
    vocoderConfig: string,
    speakersFile: string)

  /** The model directory of a voice: `models_dir / id`. */
  function ModelDir(modelsDir: string, id: string): string {
    modelsDir + "/" + id
  }

  /** The synthesizer `getSynthesizer` builds, given whether the vocoder
      directory and the speaker file exist. */
  function SynthesizerFor(modelsDir: string, id: string, hasVocoder: bool, hasSpeakersFile: bool): (s: Synthesizer)
    ensures s.ttsCheckpoint == ModelDir(modelsDir, id) + "/model_file.pth.tar"
    ensures (s.vocoderCheckpoint == "") == !hasVocoder && (s.vocoderConfig == "") == !hasVocoder
    ensures (s.speakersFile == "") == !hasSpeakersFile
  {
    var dir := ModelDir(modelsDir, id);
    Synthesizer(
      dir + "/model_file.pth.tar",
      dir + "/config.json",
      if hasVocoder then dir + "/vocoder/model_file.pth.tar" else "",
      if hasVocoder then dir + "/vocoder/config.json" else "",
      if hasSpeakersFile then dir + "/speaker_ids.json" else "")
  }

  /** The voices of `tts_voices`, in dict order. */
  function CoquiVoices(): seq<Voice> {
    [Voice("en_vctk", "vctk", "MF", "en", "en-us", true, None),
     Voice("ja_kokoro", "kokoro", "M", "ja", "ja-ja", false, None),
     Voice("zh_baker", "baker", "F", "zh", "zh-cn", false, None)]
  }

  /** The first voice with the given id (`tts_voices.get`). */
  function FindVoice(vs: seq<Voice>, id: string): (r: Option<Voice>)
    ensures r.Some? ==> r.value in vs && r.value.id == id
    ensures r.None? <==> forall i :: 0 <= i < |vs| ==> vs[i].id != id
  {
    if vs == [] then None else if vs[0].id == id then Some(vs[0]) else FindVoice(vs[1..], id)
  }

  /** A voice after `_voices` visits it: a present multi-speaker voice without a
      speaker table takes the one in its `speaker_ids.json`, when that is a file. */
  function Loaded(v: Voice, modelsDir: string, isDir: string -> bool, speakerIds: string -> Option<seq<(string, int)>>): (r: Voice)
    ensures r.(speakers := v.speakers) == v
    ensures r.speakers != v.speakers ==> v.multispeaker && v.speakers.None? && isDir(ModelDir(modelsDir, v.id))
  {
    var dir := ModelDir(modelsDir, v.id);
    if isDir(dir) && v.multispeaker && v.speakers.None? && speakerIds(dir + "/speaker_ids.json").Some?
    then v.(speakers := speakerIds(dir + "/speaker_ids.json"))
    else v
  }

  /** A second visit loads nothing more. */
  lemma LoadedIdempotent(v: Voice, modelsDir: string, isDir: string -> bool, speakerIds: string -> Option<seq<(string, int)>>)
    ensures Loaded(Loaded(v, modelsDir, isDir, speakerIds), modelsDir, isDir, speakerIds)
         == Loaded(v, modelsDir, isDir, speakerIds)
  {
  }

  /** The voices `_voices` yields: those whose model directory exists, in order. */
  function Present(vs: seq<Voice>, modelsDir: string, isDir: string -> bool): (r: seq<Voice>)
    ensures |r| <= |vs|
  {
    if vs == [] then []
    else (if isDir(ModelDir(modelsDir, vs[0].id)) then [vs[0]] else []) + Present(vs[1..], modelsDir, isDir)
  }

  class CoquiEngine {
    var modelsDir: string
    /** The memo of `getSynthesizer`, by voice id. */
    var synthesizers: map<string, Synthesizer>
    /** The ids a synthesizer was built for, in order of construction. */
    ghost var built: seq<string>
    /** `tts_voices.values()`, in dict order. */
    var voices: seq<Voice>

    /** Each id was built once, and exactly the built ids are memoised. */
    ghost predicate Valid()
      reads this
    {
      (forall i, j :: 0 <= i < j < |built| ==> built[i] != built[j])
      && (forall id :: id in synthesizers <==> id in built)
    }

    constructor (modelsDir: string)
      ensures Valid()
      ensures this.modelsDir == modelsDir && synthesizers == map[] && built == [] && voices == CoquiVoices()
    {
      this.modelsDir := modelsDir;
      synthesizers := map[];
      built := [];
      voices := CoquiVoices();
    }

    /** `getSynthesizer`: the memoised synthesizer of `id`, built and stored
        on the first request only. */
    method GetSynthesizer(id: string, hasVocoder: bool, hasSpeakersFile: bool) returns (s: Synthesizer)
      requires Valid()
      modifies this`synthesizers, this`built
      ensures Valid()
      ensures id in synthesizers && synthesizers[id] == s
      ensures id in old(synthesizers) ==>
        s == old(synthesizers)[id] && synthesizers == old(synthesizers) && built == old(built)
      ensures id !in old(synthesizers) ==>
        s == SynthesizerFor(modelsDir, id, hasVocoder, hasSpeakersFile)
        && synthesizers == old(synthesizers)[id := s] && built == old(built) + [id]
      ensures forall k :: k in old(synthesizers) ==> k in synthesizers && synthesizers[k] == old(synthesizers)[k]
    {
      if id in synthesizers {
        s := synthesizers[id];
        return;
      }
      s := SynthesizerFor(modelsDir, id, hasVocoder, hasSpeakersFile);
      synthesizers := synthesizers[id := s];
      built := built + [id];
    }

    /** `_voices`: visit every voice, loading speaker tables on the way, and
        yield the present ones. */
    method ListVoices(isDir: string -> bool, speakerIds: string -> Option<seq<(string, int)>>) returns (yielded: seq<Voice>)
      modifies this`voices
      ensures |voices| == |old(voices)|
      ensures forall i :: 0 <= i < |voices| ==> voices[i] == Loaded(old(voices)[i], modelsDir, isDir, speakerIds)
      ensures yielded == Present(voices, modelsDir, isDir)
    {
      var i := 0;
      yielded := [];
      while i < |voices|
        invariant 0 <= i <= |voices| && |voices| == |old(voices)|
        invariant forall k :: 0 <= k < i ==> voices[k] == Loaded(old(voices)[k], modelsDir, isDir, speakerIds)
        invariant forall k :: i <= k < |voices| ==> voices[k] == old(voices)[k]
        invariant yielded == Present(voices[..i], modelsDir, isDir)
      {
        var present := Visit(i, isDir, speakerIds);
        if present {
          yielded := yielded + [voices[i]];
        }
        assert voices[..i + 1] == voices[..i] + [voices[i]];
        PresentConcat(voices[..i], [voices[i]], modelsDir, isDir);
        i := i + 1;
      }
      assert voices[..i] == voices;
    }

    /** One step of `_voices`: whether the voice's model directory exists, and
        its speaker table loaded when it is a present multi-speaker voice without one. */
    method Visit(i: nat, isDir: string -> bool, speakerIds: string -> Option<seq<(string, int)>>) returns (present: bool)
      requires i < |voices|
      modifies this`voices
      ensures voices == old(voices)[i := Loaded(old(voices)[i], modelsDir, isDir, speakerIds)]
      ensures present == isDir(ModelDir(modelsDir, voices[i].id))
    {
      var v := voices[i];
      var dir := ModelDir(modelsDir, v.id);
      present := isDir(dir);
      if present && v.multispeaker && v.speakers.None? {
        var table := speakerIds(dir + "/speaker_ids.json");
        if table.Some? {
          voices := voices[i := v.(speakers := table)];
        }
      }
    }

    /** `say`: find the voice, choose the speaker, fetch the synthesizer,
        prepare the text and synthesize with `tts`. */
    method Say(text: string, voiceId: string, speaker: Option<string>, hasVocoder: bool, hasSpeakersFile: bool,
               tts: (Synthesizer, string, SpeakerArg) -> Bytes) returns (r: Result<Bytes>)
      requires Valid()
      modifies this`synthesizers, this`built
      ensures Valid()
      ensures FindVoice(voices, voiceId).None? ==>
        r == Err(AssertionFailed("No Coqui-TTS voice")) && synthesizers == old(synthesizers) && built == old(built)
      ensures FindVoice(voices, voiceId).Some? ==>
        voiceId in synthesizers
        && r == Ok(tts(synthesizers[voiceId], Prepare(voiceId, text), DefaultSpeaker(FindVoice(voices, voiceId).value, speaker)))
      ensures FindVoice(voices, voiceId).Some? && voiceId in old(synthesizers) ==>
        synthesizers == old(synthesizers) && built == old(built)
      ensures FindVoice(voices, voiceId).Some? && voiceId !in old(synthesizers) ==>
        synthesizers == old(synthesizers)[voiceId := SynthesizerFor(modelsDir, voiceId, hasVocoder, hasSpeakersFile)]
        && built == old(built) + [voiceId]
      ensures forall k :: k in old(synthesizers) ==> k in synthesizers && synthesizers[k] == old(synthesizers)[k]
    {
      var found := FindVoice(voices, voiceId);
      if found.None? {
        return Err(AssertionFailed("No Coqui-TTS voice"));
      }
      var voice := found.value;
      var speakerArg := DefaultSpeaker(voice, speaker);
      var synthesizer := GetSynthesizer(voice.id, hasVocoder, hasSpeakersFile);
      var prepared := Prepare(voice.id, text);
      r := Ok(tts(synthesizer, prepared, speakerArg));
    }
  }

  /** The present voices are exactly the listed voices whose model directory exists. */
  lemma {:induction false} PresentMembers(vs: seq<Voice>, modelsDir: string, isDir: string -> bool)
    ensures forall v :: v in Present(vs, modelsDir, isDir) <==> v in vs && isDir(ModelDir(modelsDir, v.id))
  {
    if vs != [] {
      PresentMembers(vs[1..], modelsDir, isDir);
      assert forall v :: v in vs <==> v == vs[0] || v in vs[1..];
    }
  }

  lemma {:induction false} PresentConcat(a: seq<Voice>, b: seq<Voice>, modelsDir: string, isDir: string -> bool)
    ensures Present(a + b, modelsDir, isDir) == Present(a, modelsDir, isDir) + Present(b, modelsDir, isDir)
  {
    if a != [] {
      assert (a + b)[0] == a[0] && (a + b)[1..] == a[1..] + b;
      PresentConcat(a[1..], b, modelsDir, isDir);
      var head := if isDir(ModelDir(modelsDir, a[0].id)) then [a[0]] else [];
      assert Present(a + b, modelsDir, isDir) == head + Present(a[1..] + b, modelsDir, isDir);
      assert head + (Present(a[1..], modelsDir, isDir) + Present(b, modelsDir, isDir))
          == (head + Present(a[1..], modelsDir, isDir)) + Present(b, modelsDir, isDir);
    } else {
      assert a + b == b;
    }
  }
}
