/** The eSpeak engine wrapper: the choice of program and the parser of the
    `--voices` listing. Running the program is outside the model; its output
    is an input. */
module EspeakTts {
  import opened Common
  import opened Text
  import opened TtsBase

  class EspeakEngine {
    /** `espeak_prog`. */
    var program: string

    /** `__init__`: `espeak-ng` when it is on the PATH, else `espeak`. */
    constructor (onPath: string -> bool)
      ensures program == "espeak-ng" <==> onPath("espeak-ng")
      ensures program == "espeak" <==> !onPath("espeak-ng")
    {
      var prog := "espeak-ng";
      if !onPath(prog) {
        prog := "espeak";
      }
      program := prog;
    }
  }

  /** The locale and language of a listing line's second token: the language is
      the text before the first '-', and `cmn` and `yue` are renamed into `zh`. */
  function LocaleOf(token: string): (r: (string, string))
    ensures '-' !in r.1
    ensures token == "cmn" ==> r == ("zh-cmn", "zh")
    ensures token == "yue" ==> r == ("zh-yue", "zh")
    ensures token != "cmn" && token != "yue" ==> r.0 == token && r.1 <= token
    ensures token != "cmn" && token != "yue" && '-' in token ==> token[|r.1|] == '-'
    ensures token != "cmn" && token != "yue" && '-' !in token ==> r.1 == token
  {
    if token == "cmn" then ("zh-cmn", "zh")
    else if token == "yue" then ("zh-yue", "zh")
    else (token, Before(token, '-'))
  }

  /** The voice a listing line's whitespace tokens describe: the locale
      (second), the gender (last character of the third) and the name
      (fourth); fewer than four tokens raise `IndexError`. */
  function VoiceOfTokens(parts: seq<string>): (r: Result<Voice>)
    requires forall i :: 0 <= i < |parts| ==> parts[i] != []
    ensures r.Ok? <==> |parts| >= 4
    ensures r.Err? ==> r.error == IndexOutOfRange
    ensures r.Ok? ==>
      r.value.id == r.value.locale == LocaleOf(parts[1]).0
      && r.value.language == LocaleOf(parts[1]).1 && '-' !in r.value.language
      && r.value.gender == [parts[2][|parts[2]| - 1]]
      && r.value.name == parts[3]
      && !r.value.multispeaker && r.value.speakers.None?
  {
    if |parts| < 4 then Err(IndexOutOfRange)
    else
      var (locale, language) := LocaleOf(parts[1]);
      Ok(Voice(locale, parts[3], [parts[2][|parts[2]| - 1]], language, locale, false, None))
  }

  /** One line of the listing after the header, parsed from its tokens. */
  function ParseLine(line: string): (r: Result<Voice>)
    ensures r.Ok? <==> |Tokens(line)| >= 4
    ensures r.Err? ==> r.error == IndexOutOfRange
    ensures r.Ok? ==>
      var parts := Tokens(line);
      r.value.id == r.value.locale == LocaleOf(parts[1]).0
      && r.value.language == LocaleOf(parts[1]).1
      && r.value.gender == [parts[2][|parts[2]| - 1]]
      && r.value.name == parts[3]
  {
    VoiceOfTokens(Tokens(line))
  }

  /** What a generator parsing `lines` with `parse` yields: the voices up to
      the first line that fails, and that line's error, which ends it. */
  function ParsedLines(parse: string -> Result<Voice>, lines: seq<string>): (seq<Voice>, Option<Error>) {
    if lines == [] then ([], None)
    else
      match parse(lines[0])
      case Err(e) => ([], Some(e))
      case Ok(v) =>
        var rest := ParsedLines(parse, lines[1..]);
        ([v] + rest.0, rest.1)
  }

  /** What `_voices` yields for the listing's lines: the header is skipped and
      every later line goes through `ParseLine`. */
  function ParsedListing(lines: seq<string>): (seq<Voice>, Option<Error>) {
    if lines == [] then ([], None) else ParsedLines(ParseLine, lines[1..])
  }

  /** Lines that all parse give one voice each, in order, and no error. */
  lemma {:induction false} ParsedLinesAllOk(parse: string -> Result<Voice>, lines: seq<string>)
    requires forall i :: 0 <= i < |lines| ==> parse(lines[i]).Ok?
    ensures ParsedLines(parse, lines).1.None?
    ensures |ParsedLines(parse, lines).0| == |lines|
    ensures forall i :: 0 <= i < |lines| ==> ParsedLines(parse, lines).0[i] == parse(lines[i]).value
  {
    if lines != [] {
      assert forall i :: 1 <= i < |lines| ==> lines[1..][i - 1] == lines[i];
      ParsedLinesAllOk(parse, lines[1..]);
    }
  }

  /** The first line that fails ends the generator after the voices before it. */
  lemma {:induction false} ParsedLinesStopsAtError(parse: string -> Result<Voice>, good: seq<string>, bad: string, rest: seq<string>)
    requires forall i :: 0 <= i < |good| ==> parse(good[i]).Ok?
    requires parse(bad).Err?
    ensures ParsedLines(parse, good + [bad] + rest) == (ParsedLines(parse, good).0, Some(parse(bad).error))
  {
    if good == [] {
      assert good + [bad] + rest == [bad] + rest;
    } else {
      assert (good + [bad] + rest)[1..] == good[1..] + [bad] + rest;
      assert forall i :: 1 <= i < |good| ==> good[1..][i - 1] == good[i];
      ParsedLinesStopsAtError(parse, good[1..], bad, rest);
    }
  }

  /** The header is skipped and every later well-formed line yields exactly
      one voice, in order. */
  lemma ListingOnePerLine(lines: seq<string>)
    requires lines != []
    requires forall i :: 1 <= i < |lines| ==> |Tokens(lines[i])| >= 4
    ensures ParsedListing(lines).1.None?
    ensures |ParsedListing(lines).0| == |lines| - 1
    ensures forall i :: 1 <= i < |lines| ==> ParsedListing(lines).0[i - 1] == ParseLine(lines[i]).value
  {
    var body := lines[1..];
    forall i | 0 <= i < |body| ensures ParseLine(body[i]).Ok? {
      assert body[i] == lines[i + 1];
    }
    ParsedLinesAllOk(ParseLine, body);
  }

  /** A line with fewer than four tokens after well-formed ones ends the
      listing with `IndexError`, after the voices of the lines before it. */
  lemma ListingStopsAtShortLine(lines: seq<string>, k: nat)
    requires 1 <= k < |lines|
    requires forall i :: 1 <= i < k ==> |Tokens(lines[i])| >= 4
    requires |Tokens(lines[k])| < 4
    ensures ParsedListing(lines).1 == Some(IndexOutOfRange)
    ensures |ParsedListing(lines).0| == k - 1
  {
    var good := lines[1..k];
    forall i | 0 <= i < |good| ensures ParseLine(good[i]).Ok? {
      assert good[i] == lines[i + 1];
    }
    BodySplitsAt(lines, k);
    ParsedLinesStopsAtError(ParseLine, good, lines[k], lines[k + 1..]);
    ParsedLinesAllOk(ParseLine, good);
  }

  lemma BodySplitsAt(lines: seq<string>, k: nat)
    requires 1 <= k < |lines|
    ensures lines[1..] == lines[1..k] + [lines[k]] + lines[k + 1..]
  {
  }

  /** `_voices` over the program's output: a loop over its lines with a
      `first_line` flag that skips the header. */
  method ParseVoices(output: string) returns (voices: seq<Voice>, err: Option<Error>)
    ensures (voices, err) == ParsedListing(SplitLines(output))
  {
    var lines := SplitLines(output);
    var firstLine := true;
    voices := [];
    err := None;
    var i := 0;
    while i < |lines|
      invariant 0 <= i <= |lines|
      invariant firstLine <==> i == 0
      invariant i == 0 ==> voices == []
      invariant i > 0 ==> ParsedListing(lines) == (voices + ParsedLines(ParseLine, lines[i..]).0, ParsedLines(ParseLine, lines[i..]).1)
    {
      if firstLine {
        firstLine := false;
        i := i + 1;
        assert voices + ParsedLines(ParseLine, lines[1..]).0 == ParsedLines(ParseLine, lines[1..]).0;
        continue;
      }
      assert lines[i..][1..] == lines[i + 1..];
      var parsed := ParseLine(lines[i]);
      if parsed.Err? {
        err := Some(parsed.error);
        assert voices + [] == voices;
        return;
      }
      ghost var rest := ParsedLines(ParseLine, lines[i + 1..]).0;
      assert voices + ([parsed.value] + rest) == (voices + [parsed.value]) + rest;
      voices := voices + [parsed.value];
      i := i + 1;
    }
    if lines != [] {
      assert lines[i..] == [];
      assert voices + [] == voices;
    }
  }
}
