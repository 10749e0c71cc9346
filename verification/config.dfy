/** `model::readConfig` (src/model.cpp): the `key value` lines of a `\config` section,
    read up to and including the first empty line. */
module Config {
  import opened Results
  import opened Text
  import opened Model

  /** Why reading a config section stops the program. */
  datatype ConfigError =
    | MalformedLine(line: string)        // a key without the value field it needs
    | BadNumber(text: string)            // a value `lexical_cast<int>` rejects
    | VersionMismatch(found: int)        // `version` other than 1
    | MissingKey(key: string)            // a topology key never given
    | InvalidTopology(topology: Topology)  // dimensions the layer resizes reject

  /** What the reader has collected so far. `None` is a topology local that no line has
      set yet; the vocabulary sizes and the activation start from the model's own. */
  datatype Settings = Settings(
    ngramSize: Option<int>,
    inputVocabSize: int,
    outputVocabSize: int,
    inputEmbeddingDimension: Option<int>,
    numHidden: Option<int>,
    outputEmbeddingDimension: Option<int>,
    activation: string,
    warnings: seq<string>)

  function InitialSettings(m: LanguageModel): Settings {
    Settings(None, m.topology.inputVocabSize, m.topology.outputVocabSize, None, None, None, m.activation, [])
  }

  /** The keys whose value is read with `lexical_cast<int>`. */
  const IntegerKeys: set<string> := {
    "ngram_size", "vocab_size", "input_vocab_size", "output_vocab_size",
    "input_embedding_dimension", "num_hidden", "output_embedding_dimension", "version" }

  predicate IsKnownKey(key: string) {
    key in IntegerKeys || key == "activation_function"
  }

  /** One config line. A known key overwrites its setting (`vocab_size` both vocabulary
      sizes); an unknown key only adds a warning; `version` must be 1. */
  function ApplyLine(s: Settings, line: string): (r: Result<Settings, ConfigError>)
    ensures r.Ok? ==> r.value.ngramSize == s.ngramSize || r.value.ngramSize.Some?
    ensures r.Ok? ==> s.warnings <= r.value.warnings
    ensures |Fields(line)| >= 1 && !IsKnownKey(Fields(line)[0]) ==>
              r == Ok(s.(warnings := s.warnings + [Fields(line)[0]]))
    ensures |Fields(line)| == 0 ==> r == Err(MalformedLine(line))
    ensures |Fields(line)| == 1 && IsKnownKey(Fields(line)[0]) ==> r == Err(MalformedLine(line))
    ensures |Fields(line)| >= 2 && Fields(line)[0] in IntegerKeys && ParseInt(Fields(line)[1]).None? ==>
              r == Err(BadNumber(Fields(line)[1]))
    ensures |Fields(line)| >= 2 && Fields(line)[0] == "version" ==>
              (r.Ok? <==> ParseInt(Fields(line)[1]) == Some(1))
  {
    var f := Fields(line);
    if |f| == 0 then Err(MalformedLine(line))
    else if !IsKnownKey(f[0]) then Ok(s.(warnings := s.warnings + [f[0]]))
    else if |f| < 2 then Err(MalformedLine(line))
    else if f[0] == "activation_function" then Ok(s.(activation := f[1]))
    else
      match ParseInt(f[1])
      case None => Err(BadNumber(f[1]))
      case Some(v) => Assign(s, f[0], v)
  }

  /** The effect of an integer-valued key once its value has been cast. */
  function Assign(s: Settings, key: string, v: int): (r: Result<Settings, ConfigError>)
    requires key in IntegerKeys
    ensures r.Err? <==> key == "version" && v != 1
    ensures r.Err? ==> r.error == VersionMismatch(v)
    ensures r.Ok? ==> r.value.warnings == s.warnings && r.value.activation == s.activation
  {
    if key == "ngram_size" then Ok(s.(ngramSize := Some(v)))
    else if key == "vocab_size" then Ok(s.(inputVocabSize := v, outputVocabSize := v))
    else if key == "input_vocab_size" then Ok(s.(inputVocabSize := v))
    else if key == "output_vocab_size" then Ok(s.(outputVocabSize := v))
    else if key == "input_embedding_dimension" then Ok(s.(inputEmbeddingDimension := Some(v)))
    else if key == "num_hidden" then Ok(s.(numHidden := Some(v)))
    else if key == "output_embedding_dimension" then Ok(s.(outputEmbeddingDimension := Some(v)))
    else if v != 1 then Err(VersionMismatch(v))
    else Ok(s)
  }

  datatype Collected = Collected(settings: Settings, rest: seq<string>)

  /** The `getline` loop: applies lines until the first line equal to "" (untrimmed),
      which is consumed, or the end of the input. */
  function Collect(s: Settings, lines: seq<string>): (r: Result<Collected, ConfigError>)
    ensures r.Ok? ==> |r.value.rest| <= |lines|
    ensures r.Ok? ==> s.warnings <= r.value.settings.warnings
    decreases |lines|
  {
    if |lines| == 0 then Ok(Collected(s, []))
    else if lines[0] == "" then Ok(Collected(s, lines[1..]))
    else
      match ApplyLine(s, lines[0])
      case Err(e) => Err(e)
      case Ok(s') => Collect(s', lines[1..])
  }

  datatype ConfigResult = ConfigResult(model: LanguageModel, rest: seq<string>, warnings: seq<string>)

  /** `readConfig`: collect the settings, then `resize` with them and set the activation. */
  function ReadConfig(m: LanguageModel, lines: seq<string>): (r: Result<ConfigResult, ConfigError>)
    ensures r.Ok? ==> WellShaped(r.value.model) && !r.value.model.premultiplied
    ensures r.Ok? ==> |r.value.rest| <= |lines|
  {
    match Collect(InitialSettings(m), lines)
    case Err(e) => Err(e)
    case Ok(c) =>
      var s := c.settings;
      if s.ngramSize.None? then Err(MissingKey("ngram_size"))
      else if s.inputEmbeddingDimension.None? then Err(MissingKey("input_embedding_dimension"))
      else if s.numHidden.None? then Err(MissingKey("num_hidden"))
      else if s.outputEmbeddingDimension.None? then Err(MissingKey("output_embedding_dimension"))
      else
        var t := Topology(s.ngramSize.value, s.inputVocabSize, s.outputVocabSize,
                          s.inputEmbeddingDimension.value, s.numHidden.value,
                          s.outputEmbeddingDimension.value);
        if !ValidTopology(t) then Err(InvalidTopology(t))
        else Ok(ConfigResult(Resize(m, t).(activation := s.activation), c.rest, s.warnings))
  }

  // A reference reading of a config block, independent of the line-by-line reader.

  /** The lines `readConfig` consumes: everything up to and including the first "" line. */
  function BlockLength(lines: seq<string>): (n: nat)
    ensures n <= |lines|
    ensures forall i :: 0 <= i < n ==> lines[i] != ""
    ensures n < |lines| ==> lines[n] == ""
  {
    if |lines| == 0 || lines[0] == "" then 0 else 1 + BlockLength(lines[1..])
  }

  /** The lines left for the caller once the config block and its terminator are consumed. */
  function AfterBlock(lines: seq<string>): seq<string> {
    var n := BlockLength(lines);
    if n < |lines| then lines[n + 1..] else []
  }

  /** The value a single line gives to a setting named by `keys`, if any. */
  function LineSetting(line: string, keys: set<string>): Option<string> {
    var f := Fields(line);
    if |f| >= 2 && f[0] in keys then Some(f[1]) else None
  }

  /** The value field of the last line of the block whose key is in `keys`. */
  function LastSetting(lines: seq<string>, keys: set<string>): Option<string>
    decreases |lines|
  {
    if |lines| == 0 || lines[0] == "" then None
    else
      match LastSetting(lines[1..], keys)
      case Some(v) => Some(v)
      case None => LineSetting(lines[0], keys)
  }

  /** A setting overridden by the block's last value for it, if any; an integer value
      that does not parse leaves no value at all. */
  function Override(prior: Option<int>, text: Option<string>): Option<int> {
    match text
    case None => prior
    case Some(v) => ParseInt(v)
  }

  function OverrideText(prior: string, text: Option<string>): string {
    match text
    case None => prior
    case Some(v) => v
  }

  /** Every setting `c` holds is the last value `lines` gives for it, or the setting of `s`
      when the block never mentions it; `vocab_size` counts for both vocabulary sizes. */
  ghost predicate FollowsLastSettings(c: Settings, s: Settings, lines: seq<string>) {
    && c.ngramSize == Override(s.ngramSize, LastSetting(lines, {"ngram_size"}))
    && Some(c.inputVocabSize)
       == Override(Some(s.inputVocabSize), LastSetting(lines, {"vocab_size", "input_vocab_size"}))
    && Some(c.outputVocabSize)
       == Override(Some(s.outputVocabSize), LastSetting(lines, {"vocab_size", "output_vocab_size"}))
    && c.inputEmbeddingDimension
       == Override(s.inputEmbeddingDimension, LastSetting(lines, {"input_embedding_dimension"}))
    && c.numHidden == Override(s.numHidden, LastSetting(lines, {"num_hidden"}))
    && c.outputEmbeddingDimension
       == Override(s.outputEmbeddingDimension, LastSetting(lines, {"output_embedding_dimension"}))
    && c.activation == OverrideText(s.activation, LastSetting(lines, {"activation_function"}))
  }

  /** The effect of one accepted line, stated through the settings it names. */
  lemma ApplyLineFollows(s: Settings, line: string)
    requires line != ""
    requires ApplyLine(s, line).Ok?
    ensures FollowsLastSettings(ApplyLine(s, line).value, s, [line])
  {
    forall keys: set<string> ensures LastSetting([line], keys) == LineSetting(line, keys) {
      SingleLineSetting(line, keys);
    }
    ApplyLineDimensions(s, line);
    ApplyLineVocabulary(s, line);
  }

  lemma ApplyLineDimensions(s: Settings, line: string)
    requires ApplyLine(s, line).Ok?
    ensures var c := ApplyLine(s, line).value;
      && c.ngramSize == Override(s.ngramSize, LineSetting(line, {"ngram_size"}))
      && c.inputEmbeddingDimension
         == Override(s.inputEmbeddingDimension, LineSetting(line, {"input_embedding_dimension"}))
      && c.numHidden == Override(s.numHidden, LineSetting(line, {"num_hidden"}))
      && c.outputEmbeddingDimension
         == Override(s.outputEmbeddingDimension, LineSetting(line, {"output_embedding_dimension"}))
  {
    ApplyLineNgramSize(s, line);
    ApplyLineInputDimension(s, line);
    ApplyLineHidden(s, line);
    ApplyLineOutputDimension(s, line);
  }

  lemma ApplyLineNgramSize(s: Settings, line: string)
    requires ApplyLine(s, line).Ok?
    ensures ApplyLine(s, line).value.ngramSize
            == Override(s.ngramSize, LineSetting(line, {"ngram_size"}))
  {
  }

  lemma ApplyLineInputDimension(s: Settings, line: string)
    requires ApplyLine(s, line).Ok?
    ensures ApplyLine(s, line).value.inputEmbeddingDimension
            == Override(s.inputEmbeddingDimension, LineSetting(line, {"input_embedding_dimension"}))
  {
  }

  lemma ApplyLineHidden(s: Settings, line: string)
    requires ApplyLine(s, line).Ok?
    ensures ApplyLine(s, line).value.numHidden == Override(s.numHidden, LineSetting(line, {"num_hidden"}))
  {
  }

  lemma ApplyLineOutputDimension(s: Settings, line: string)
    requires ApplyLine(s, line).Ok?
    ensures ApplyLine(s, line).value.outputEmbeddingDimension
            == Override(s.outputEmbeddingDimension, LineSetting(line, {"output_embedding_dimension"}))
  {
  }

  lemma ApplyLineVocabulary(s: Settings, line: string)
    requires ApplyLine(s, line).Ok?
    ensures var c := ApplyLine(s, line).value;
      && Some(c.inputVocabSize)
         == Override(Some(s.inputVocabSize), LineSetting(line, {"vocab_size", "input_vocab_size"}))
      && Some(c.outputVocabSize)
         == Override(Some(s.outputVocabSize), LineSetting(line, {"vocab_size", "output_vocab_size"}))
      && c.activation == OverrideText(s.activation, LineSetting(line, {"activation_function"}))
  {
    ApplyLineInputVocabulary(s, line);
    ApplyLineOutputVocabulary(s, line);
    ApplyLineActivation(s, line);
  }

  lemma ApplyLineInputVocabulary(s: Settings, line: string)
    requires ApplyLine(s, line).Ok?
    ensures Some(ApplyLine(s, line).value.inputVocabSize)
            == Override(Some(s.inputVocabSize), LineSetting(line, {"vocab_size", "input_vocab_size"}))
  {
  }

  lemma ApplyLineOutputVocabulary(s: Settings, line: string)
    requires ApplyLine(s, line).Ok?
    ensures Some(ApplyLine(s, line).value.outputVocabSize)
            == Override(Some(s.outputVocabSize), LineSetting(line, {"vocab_size", "output_vocab_size"}))
  {
  }

  lemma ApplyLineActivation(s: Settings, line: string)
    requires ApplyLine(s, line).Ok?
    ensures ApplyLine(s, line).value.activation
            == OverrideText(s.activation, LineSetting(line, {"activation_function"}))
  {
  }

  lemma SingleLineSetting(line: string, keys: set<string>)
    requires line != ""
    ensures LastSetting([line], keys) == LineSetting(line, keys)
  {
    assert [line][1..] == [];
  }

  /** The later of two settings wins. */
  function Later(earlier: Option<string>, later: Option<string>): Option<string> {
    if later.Some? then later else earlier
  }

  lemma LastSettingStep(lines: seq<string>, keys: set<string>)
    requires |lines| > 0 && lines[0] != ""
    ensures LastSetting(lines, keys) == Later(LastSetting([lines[0]], keys), LastSetting(lines[1..], keys))
  {
    assert [lines[0]][1..] == [];
  }

  lemma OverrideLater(x: Option<int>, a: Option<string>, b: Option<string>)
    ensures Override(Override(x, a), b) == Override(x, Later(a, b))
  {
  }

  lemma {:induction false} CollectFollowsLastSettings(s: Settings, lines: seq<string>)
    requires Collect(s, lines).Ok?
    ensures FollowsLastSettings(Collect(s, lines).value.settings, s, lines)
    ensures Collect(s, lines).value.rest == AfterBlock(lines)
    decreases |lines|
  {
    if |lines| > 0 && lines[0] != "" {
      var s1 := ApplyLine(s, lines[0]).value;
      var c := Collect(s1, lines[1..]).value.settings;
      assert Collect(s, lines).value.settings == c;
      ApplyLineFollows(s, lines[0]);
      CollectFollowsLastSettings(s1, lines[1..]);
      var head := [lines[0]];
      var tail := lines[1..];
      LastSettingStep(lines, {"ngram_size"});
      LastSettingStep(lines, {"vocab_size", "input_vocab_size"});
      LastSettingStep(lines, {"vocab_size", "output_vocab_size"});
      LastSettingStep(lines, {"input_embedding_dimension"});
      LastSettingStep(lines, {"num_hidden"});
      LastSettingStep(lines, {"output_embedding_dimension"});
      LastSettingStep(lines, {"activation_function"});
      OverrideLater(s.ngramSize, LastSetting(head, {"ngram_size"}), LastSetting(tail, {"ngram_size"}));
      OverrideLater(Some(s.inputVocabSize), LastSetting(head, {"vocab_size", "input_vocab_size"}),
                    LastSetting(tail, {"vocab_size", "input_vocab_size"}));
      OverrideLater(Some(s.outputVocabSize), LastSetting(head, {"vocab_size", "output_vocab_size"}),
                    LastSetting(tail, {"vocab_size", "output_vocab_size"}));
      OverrideLater(s.inputEmbeddingDimension, LastSetting(head, {"input_embedding_dimension"}),
                    LastSetting(tail, {"input_embedding_dimension"}));
      OverrideLater(s.numHidden, LastSetting(head, {"num_hidden"}), LastSetting(tail, {"num_hidden"}));
      OverrideLater(s.outputEmbeddingDimension, LastSetting(head, {"output_embedding_dimension"}),
                    LastSetting(tail, {"output_embedding_dimension"}));
      assert BlockLength(lines) == 1 + BlockLength(lines[1..]);
      assert AfterBlock(lines) == AfterBlock(lines[1..]);
    }
  }

  /** `readConfig` ends with `resize` of the collected values: each topology integer is the
      block's last value for its key, a vocabulary size absent from the block keeps the
      model's, and the reader resumes right after the first "" line. */
  lemma ReadConfigSettings(m: LanguageModel, lines: seq<string>)
    requires ReadConfig(m, lines).Ok?
    ensures var r := ReadConfig(m, lines).value;
      && r.model == Resize(m, r.model.topology).(activation := r.model.activation)
      && Some(r.model.topology.ngramSize) == Override(None, LastSetting(lines, {"ngram_size"}))
      && Some(r.model.topology.inputVocabSize)
         == Override(Some(m.topology.inputVocabSize), LastSetting(lines, {"vocab_size", "input_vocab_size"}))
      && Some(r.model.topology.outputVocabSize)
         == Override(Some(m.topology.outputVocabSize), LastSetting(lines, {"vocab_size", "output_vocab_size"}))
      && Some(r.model.topology.inputEmbeddingDimension)
         == Override(None, LastSetting(lines, {"input_embedding_dimension"}))
      && Some(r.model.topology.numHidden) == Override(None, LastSetting(lines, {"num_hidden"}))
      && Some(r.model.topology.outputEmbeddingDimension)
         == Override(None, LastSetting(lines, {"output_embedding_dimension"}))
      && r.model.activation == OverrideText(m.activation, LastSetting(lines, {"activation_function"}))
      && r.rest == AfterBlock(lines)
  {
    CollectFollowsLastSettings(InitialSettings(m), lines);
  }

  /** A `version` line with any value but 1 is an error of its own. */
  lemma VersionLineFails(s: Settings, v: int)
    requires InIntRange(v) && v != 1
    ensures ApplyLine(s, "version " + IntToDecimal(v)) == Err(VersionMismatch(v))
  {
    var value := IntToDecimal(v);
    VersionKey(s, v);
    FieldsOfPair("version", value);
    assert "version " + value == "version" + " " + value;
    ParseIntRoundTrip(v);
  }

  /** `version` is an integer key whose only accepted value is 1. */
  lemma VersionKey(s: Settings, v: int)
    ensures IsField("version") && "version" in IntegerKeys && "version" != "activation_function"
    ensures Assign(s, "version", v) == if v == 1 then Ok(s) else Err(VersionMismatch(v))
  {
  }

  /** A `version` line whose value is not 1 is fatal once the reader reaches it. */
  lemma {:induction false} VersionMismatchIsFatal(s: Settings, pre: seq<string>, v: int, post: seq<string>)
    requires forall i :: 0 <= i < |pre| ==> pre[i] != ""
    requires Collect(s, pre).Ok?
    requires InIntRange(v) && v != 1
    ensures Collect(s, pre + ["version " + IntToDecimal(v)] + post) == Err(VersionMismatch(v))
    decreases |pre|
  {
    var line := "version " + IntToDecimal(v);
    if |pre| == 0 {
      assert pre + [line] + post == [line] + post;
      assert line != "" by { assert |line| > 0; }
      VersionLineFails(s, v);
    } else {
      var s1 := ApplyLine(s, pre[0]).value;
      assert (pre + [line] + post)[1..] == pre[1..] + [line] + post;
      VersionMismatchIsFatal(s1, pre[1..], v, post);
    }
  }

  /** A block the reader accepts line by line but that never sets `ngram_size` is
      rejected for that missing key. */
  lemma ReadConfigNeedsNgramSize(m: LanguageModel, lines: seq<string>)
    requires Collect(InitialSettings(m), lines).Ok?
    requires LastSetting(lines, {"ngram_size"}) == None
    ensures ReadConfig(m, lines) == Err(MissingKey("ngram_size"))
  {
    CollectFollowsLastSettings(InitialSettings(m), lines);
  }
}
