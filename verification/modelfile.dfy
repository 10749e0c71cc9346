/** The model file (src/model.cpp): `model::read`, a state machine over right-trimmed
    lines that dispatches on section markers, and `model::write`, which emits the
    sections in a fixed order. The file is modelled as its sequence of lines. */
module ModelFile {
  import opened Results
  import opened Text
  import opened Matrices
  import opened Model
  import opened Config

  /** The numeric text layout the layer classes read and write a matrix in. That layout
      is not part of this model; it is passed in as a pair of functions. */
  datatype Codec = Codec(encode: Matrix -> seq<string>, decode: seq<string> -> Matrix)

  /** Everything `read` can change: the model, the input word list, the output word list
      (`None` when the caller passed no list) and the warnings written to `cerr`. */
  datatype ReadState = ReadState(
    model: LanguageModel,
    inputWords: seq<string>,
    outputWords: Option<seq<string>>,
    warnings: seq<string>)

  /** The state `read` ends in and the lines it left unread. */
  datatype Loaded = Loaded(state: ReadState, rest: seq<string>)

  /** The markers of the seven parameter sections, in the order `write` emits them. */
  const ParameterSections: seq<string> := [
    "\\input_embeddings", "\\hidden_weights 1", "\\hidden_biases 1",
    "\\hidden_weights 2", "\\hidden_biases 2", "\\output_weights", "\\output_biases"]

  /** Every marker `read` acts on. */
  const KnownSections: set<string> :=
    {"\\end", "\\config", "\\vocab", "\\input_vocab", "\\output_vocab"}
    + set i | 0 <= i < |ParameterSections| :: ParameterSections[i]

  /** The matrix a parameter section holds. */
  function Parameter(m: LanguageModel, name: string): Matrix
    requires name in ParameterSections
  {
    if name == ParameterSections[0] then m.inputEmbeddings
    else if name == ParameterSections[1] then m.hiddenWeights1
    else if name == ParameterSections[2] then m.hiddenBiases1
    else if name == ParameterSections[3] then m.hiddenWeights2
    else if name == ParameterSections[4] then m.hiddenBiases2
    else if name == ParameterSections[5] then m.outputWeights
    else m.outputBiases
  }

  /** The model with the matrix of one parameter section replaced. */
  function SetParameter(m: LanguageModel, name: string, value: Matrix): (r: LanguageModel)
    requires name in ParameterSections
    ensures Parameter(r, name) == value
    ensures forall other :: other in ParameterSections && other != name ==>
              Parameter(r, other) == Parameter(m, other)
    ensures r.topology == m.topology && r.activation == m.activation
    ensures r.premultiplied == m.premultiplied
    ensures r.firstActivationSize == m.firstActivationSize
    ensures r.secondActivationSize == m.secondActivationSize
  {
    SectionsDistinct();
    if name == ParameterSections[0] then m.(inputEmbeddings := value)
    else if name == ParameterSections[1] then m.(hiddenWeights1 := value)
    else if name == ParameterSections[2] then m.(hiddenBiases1 := value)
    else if name == ParameterSections[3] then m.(hiddenWeights2 := value)
    else if name == ParameterSections[4] then m.(hiddenBiases2 := value)
    else if name == ParameterSections[5] then m.(outputWeights := value)
    else m.(outputBiases := value)
  }

  datatype Block = Block(body: seq<string>, rest: seq<string>)

  /** How the word-list and layer readers consume a section body: every line up to the
      first empty line, which is consumed too. */
  function TakeBlock(lines: seq<string>): (r: Block)
    ensures |r.rest| <= |lines|
    decreases |lines|
  {
    if |lines| == 0 then Block([], [])
    else if lines[0] == "" then Block([], lines[1..])
    else
      var b := TakeBlock(lines[1..]);
      Block([lines[0]] + b.body, b.rest)
  }

  /** The `skip_section` loop: discard lines through the first one that is blank once trimmed. */
  function SkipSection(lines: seq<string>): (rest: seq<string>)
    ensures |rest| <= |lines|
    decreases |lines|
  {
    if |lines| == 0 then []
    else if RightTrim(lines[0]) == [] then lines[1..]
    else SkipSection(lines[1..])
  }

  /** One transition of the reader: go on with the remaining lines, stop at `\end`,
      or stop the program on a fatal config error. */
  datatype Step =
    | Continue(state: ReadState, rest: seq<string>)
    | Stop(state: ReadState, rest: seq<string>)
    | Fail(error: ConfigError)

  /** One iteration of the `getline` loop of `read`, starting at `lines[0]`. */
  function ReadStep(st: ReadState, lines: seq<string>, codec: Codec): (r: Step)
    requires |lines| > 0
    ensures !r.Fail? ==> |r.rest| < |lines|
    ensures !r.Fail? ==> st.warnings <= r.state.warnings
    ensures !r.Fail? ==> r.state.outputWords.Some? == st.outputWords.Some?
  {
    var line := RightTrim(lines[0]);
    var tail := lines[1..];
    if line == [] then Continue(st, tail)
    else if line[0] != '\\' then
      Continue(st.(warnings := st.warnings + [line]), SkipSection(tail))
    else if line == "\\end" then Stop(st, tail)
    else if line == "\\config" then
      match ReadConfig(st.model, tail)
      case Err(e) => Fail(e)
      case Ok(c) => Continue(st.(model := c.model, warnings := st.warnings + c.warnings), c.rest)
    else if line == "\\vocab" then
      var b := TakeBlock(tail);
      Continue(st.(inputWords := b.body,
                   outputWords := if st.outputWords.Some? then Some(b.body) else None), b.rest)
    else if line == "\\input_vocab" then
      var b := TakeBlock(tail);
      Continue(st.(inputWords := b.body), b.rest)
    else if line == "\\output_vocab" then
      if st.outputWords.Some? then
        var b := TakeBlock(tail);
        Continue(st.(outputWords := Some(b.body)), b.rest)
      else
        Continue(st, SkipSection(tail))
    else if line in ParameterSections then
      var b := TakeBlock(tail);
      Continue(st.(model := SetParameter(st.model, line, codec.decode(b.body))), b.rest)
    else
      Continue(st, tail)
  }

  /** The reader stops exactly at `\end`, leaving its state as it was, and only a
      `\config` section can stop the program. */
  lemma ReadStepOutcomes(st: ReadState, lines: seq<string>, codec: Codec)
    requires |lines| > 0
    ensures ReadStep(st, lines, codec).Stop? <==> RightTrim(lines[0]) == "\\end"
    ensures ReadStep(st, lines, codec).Stop? ==> ReadStep(st, lines, codec) == Stop(st, lines[1..])
    ensures ReadStep(st, lines, codec).Fail? ==> RightTrim(lines[0]) == "\\config"
  {
  }

  /** `model::read`: run the reader until `\end`, the end of the input or a fatal error. */
  function Read(st: ReadState, lines: seq<string>, codec: Codec): (r: Result<Loaded, ConfigError>)
    ensures r.Ok? ==> |r.value.rest| <= |lines|
    ensures r.Ok? ==> st.warnings <= r.value.state.warnings
    ensures r.Ok? ==> r.value.state.outputWords.Some? == st.outputWords.Some?
    decreases |lines|
  {
    if |lines| == 0 then Ok(Loaded(st, []))
    else
      match ReadStep(st, lines, codec)
      case Fail(e) => Err(e)
      case Stop(s, rest) => Ok(Loaded(s, rest))
      case Continue(s, rest) => Read(s, rest, codec)
  }

  // The reader's transitions.

  /** A line that is blank once trimmed changes nothing. */
  lemma ReadSkipsBlankLine(st: ReadState, line: string, lines: seq<string>, codec: Codec)
    requires RightTrim(line) == []
    ensures Read(st, [line] + lines, codec) == Read(st, lines, codec)
  {
    assert ([line] + lines)[1..] == lines;
  }

  /** `\end` stops the reader and leaves every later line unread. */
  lemma ReadStopsAtEnd(st: ReadState, line: string, lines: seq<string>, codec: Codec)
    requires RightTrim(line) == "\\end"
    ensures Read(st, [line] + lines, codec) == Ok(Loaded(st, lines))
  {
    assert ([line] + lines)[1..] == lines;
  }

  /** A marker line naming no known section is consumed and nothing else happens. */
  lemma ReadIgnoresUnknownMarker(st: ReadState, line: string, lines: seq<string>, codec: Codec)
    requires RightTrim(line) != [] && RightTrim(line)[0] == '\\'
    requires RightTrim(line) !in KnownSections
    ensures Read(st, [line] + lines, codec) == Read(st, lines, codec)
  {
    assert ([line] + lines)[1..] == lines;
    var name := RightTrim(line);
    assert name != ParameterSections[0] && name != ParameterSections[1]
        && name != ParameterSections[2] && name != ParameterSections[3]
        && name != ParameterSections[4] && name != ParameterSections[5]
        && name != ParameterSections[6];
  }

  /** Lines none of which is blank once trimmed. */
  predicate NoBlankLine(lines: seq<string>) {
    forall i :: 0 <= i < |lines| ==> RightTrim(lines[i]) != []
  }

  lemma {:induction false} SkipSectionThroughBlank(body: seq<string>, blank: string, lines: seq<string>)
    requires NoBlankLine(body)
    requires RightTrim(blank) == []
    ensures SkipSection(body + [blank] + lines) == lines
    decreases |body|
  {
    if |body| == 0 {
      assert body + [blank] + lines == [blank] + lines;
      assert ([blank] + lines)[1..] == lines;
    } else {
      assert (body + [blank] + lines)[1..] == body[1..] + [blank] + lines;
      SkipSectionThroughBlank(body[1..], blank, lines);
    }
  }

  /** A non-blank line that is not a marker draws a warning, and it and every line
      through the next blank line are discarded. */
  lemma ReadSkipsStrayText(st: ReadState, line: string, body: seq<string>, blank: string,
                           lines: seq<string>, codec: Codec)
    requires RightTrim(line) != [] && RightTrim(line)[0] != '\\'
    requires NoBlankLine(body) && RightTrim(blank) == []
    ensures Read(st, [line] + body + [blank] + lines, codec)
         == Read(st.(warnings := st.warnings + [RightTrim(line)]), lines, codec)
  {
    var all := [line] + body + [blank] + lines;
    assert all[1..] == body + [blank] + lines;
    SkipSectionThroughBlank(body, blank, lines);
  }

  /** An `\output_vocab` section the caller asked no output list for is discarded
      through the next blank line, without a warning. */
  lemma ReadSkipsUnrequestedOutputVocab(st: ReadState, line: string, words: seq<string>,
                                        blank: string, lines: seq<string>, codec: Codec)
    requires st.outputWords.None?
    requires RightTrim(line) == "\\output_vocab"
    requires NoBlankLine(words) && RightTrim(blank) == []
    ensures Read(st, [line] + words + [blank] + lines, codec) == Read(st, lines, codec)
  {
    var all := [line] + words + [blank] + lines;
    assert all[1..] == words + [blank] + lines;
    SkipSectionThroughBlank(words, blank, lines);
  }

  /** An unknown section between known ones is discarded: its marker is consumed silently,
      then its first body line (when it is not itself a marker) draws the warning and the
      rest of the body is skipped through the blank line that ends it. */
  lemma ReadDiscardsUnknownSection(st: ReadState, marker: string, first: string, body: seq<string>,
                                   blank: string, lines: seq<string>, codec: Codec)
    requires RightTrim(marker) != [] && RightTrim(marker)[0] == '\\'
    requires RightTrim(marker) !in KnownSections
    requires RightTrim(first) != [] && RightTrim(first)[0] != '\\'
    requires NoBlankLine(body) && RightTrim(blank) == []
    ensures Read(st, [marker] + ([first] + body + [blank] + lines), codec)
         == Read(st.(warnings := st.warnings + [RightTrim(first)]), lines, codec)
  {
    ReadIgnoresUnknownMarker(st, marker, [first] + body + [blank] + lines, codec);
    ReadSkipsStrayText(st, first, body, blank, lines, codec);
  }

  // The writer.

  /** A section: its marker line, its body and the blank line that ends it. */
  function Section(marker: string, body: seq<string>): seq<string> {
    [marker] + body + [""]
  }

  /** One `key value` line of the config section. */
  function Setting(key: string, value: int): string {
    key + " " + IntToDecimal(value)
  }

  /** The integer settings `write` emits, in its order; the first is the format version. */
  function WrittenIntegers(t: Topology): (pairs: seq<(string, int)>)
    ensures forall i :: 0 <= i < |pairs| ==> pairs[i].0 in IntegerKeys
  {
    [ ("version", 1),
      ("ngram_size", t.ngramSize),
      ("input_vocab_size", t.inputVocabSize),
      ("output_vocab_size", t.outputVocabSize),
      ("input_embedding_dimension", t.inputEmbeddingDimension),
      ("num_hidden", t.numHidden),
      ("output_embedding_dimension", t.outputEmbeddingDimension) ]
  }

  function SettingLines(pairs: seq<(string, int)>): (lines: seq<string>)
    ensures |lines| == |pairs|
  {
    if |pairs| == 0 then [] else [Setting(pairs[0].0, pairs[0].1)] + SettingLines(pairs[1..])
  }

  /** The body of the `\config` section `write` emits. */
  function ConfigBody(m: LanguageModel): seq<string> {
    SettingLines(WrittenIntegers(m.topology)) + ["activation_function " + m.activation]
  }

  /** A word-list section, present only when the caller passed a list. */
  function VocabSection(marker: string, words: Option<seq<string>>): seq<string> {
    if words.Some? then Section(marker, words.value) else []
  }

  /** The parameter sections from the `i`-th on, then `\end`. */
  function ParameterLines(m: LanguageModel, codec: Codec, i: nat): (lines: seq<string>)
    requires i <= |ParameterSections|
    ensures |lines| >= 1 && lines[|lines| - 1] == "\\end"
    decreases |ParameterSections| - i
  {
    if i == |ParameterSections| then ["\\end"]
    else
      Section(ParameterSections[i], codec.encode(Parameter(m, ParameterSections[i])))
      + ParameterLines(m, codec, i + 1)
  }

  /** The config section opens with the format version, 1. */
  lemma VersionFirst(m: LanguageModel)
    ensures |ConfigBody(m)| == 8 && ConfigBody(m)[0] == "version 1"
  {
    assert IntToDecimal(1) == "1";
  }

  /** `model::write`: `\config`, the optional word lists, the seven parameter sections
      in fixed order, then `\end`. */
  function Write(m: LanguageModel, inputWords: Option<seq<string>>, outputWords: Option<seq<string>>,
                 codec: Codec): (lines: seq<string>)
    ensures |lines| >= 2 && lines[0] == "\\config" && lines[|lines| - 1] == "\\end"
  {
    var tail := VocabSection("\\input_vocab", inputWords)
                + (VocabSection("\\output_vocab", outputWords) + ParameterLines(m, codec, 0));
    Section("\\config", ConfigBody(m)) + tail
  }

  /** The first setting `write` emits is the format version, 1. */
  lemma WriteStartsWithVersion(m: LanguageModel, inputWords: Option<seq<string>>,
                               outputWords: Option<seq<string>>, codec: Codec)
    ensures Write(m, inputWords, outputWords, codec)[1] == "version 1"
  {
    VersionFirst(m);
  }

  // Round trip: reading back what `write` emits.

  /** Lines none of which is the empty line that ends a block. */
  predicate NoEmptyLine(lines: seq<string>) {
    forall i :: 0 <= i < |lines| ==> lines[i] != ""
  }

  lemma {:induction false} TakeBlockThroughEmpty(body: seq<string>, lines: seq<string>)
    requires NoEmptyLine(body)
    ensures TakeBlock(body + [""] + lines) == Block(body, lines)
    decreases |body|
  {
    if |body| == 0 {
      assert body + [""] + lines == [""] + lines;
      assert ([""] + lines)[1..] == lines;
    } else {
      assert (body + [""] + lines)[1..] == body[1..] + [""] + lines;
      TakeBlockThroughEmpty(body[1..], lines);
      assert [body[0]] + body[1..] == body;
    }
  }

  lemma CollectCons(s: Settings, line: string, lines: seq<string>)
    requires line != "" && ApplyLine(s, line).Ok?
    ensures Collect(s, [line] + lines) == Collect(ApplyLine(s, line).value, lines)
  {
    assert ([line] + lines)[1..] == lines;
  }

  lemma SettingLine(key: string, value: int)
    requires IsField(key) && InIntRange(value)
    ensures Fields(Setting(key, value)) == [key, IntToDecimal(value)]
    ensures ParseInt(IntToDecimal(value)) == Some(value)
    ensures Setting(key, value) != ""
  {
    FieldsOfPair(key, IntToDecimal(value));
    ParseIntRoundTrip(value);
  }

  /** A written `key value` line with an integer key reads back as that key's assignment. */
  lemma ApplySetting(s: Settings, key: string, value: int)
    requires key in IntegerKeys && IsField(key) && InIntRange(value)
    ensures Setting(key, value) != ""
    ensures ApplyLine(s, Setting(key, value)) == Assign(s, key, value)
  {
    SettingLine(key, value);
    var f := Fields(Setting(key, value));
    assert f[0] == key && f[1] == IntToDecimal(value);
    assert key != "activation_function" by { IntegerKeyIsNotActivation(key); }
    assert IsKnownKey(f[0]);
  }

  lemma IntegerKeyIsNotActivation(key: string)
    requires key in IntegerKeys
    ensures key != "activation_function"
  {
  }

  /** The topology integers a 32-bit `int` can hold. */
  predicate TopologyInIntRange(t: Topology) {
    && InIntRange(t.ngramSize) && InIntRange(t.inputVocabSize) && InIntRange(t.outputVocabSize)
    && InIntRange(t.inputEmbeddingDimension) && InIntRange(t.numHidden)
    && InIntRange(t.outputEmbeddingDimension)
  }

  /** Casting and assigning the integer settings one after another; the first error wins. */
  function AssignAll(s: Settings, pairs: seq<(string, int)>): Result<Settings, ConfigError>
    requires forall i :: 0 <= i < |pairs| ==> pairs[i].0 in IntegerKeys
    decreases |pairs|
  {
    if |pairs| == 0 then Ok(s)
    else
      match Assign(s, pairs[0].0, pairs[0].1)
      case Err(e) => Err(e)
      case Ok(s') => AssignAll(s', pairs[1..])
  }

  /** Settings that `write` can print and the reader accepts as written. */
  predicate Printable(pairs: seq<(string, int)>) {
    forall i :: 0 <= i < |pairs| ==>
      pairs[i].0 in IntegerKeys && IsField(pairs[i].0) && InIntRange(pairs[i].1)
  }

  /** Reading printed integer settings is assigning them. */
  lemma {:induction false} CollectSettingLines(s: Settings, pairs: seq<(string, int)>, rest: seq<string>)
    requires Printable(pairs) && AssignAll(s, pairs).Ok?
    ensures Collect(s, SettingLines(pairs) + rest) == Collect(AssignAll(s, pairs).value, rest)
    decreases |pairs|
  {
    if |pairs| > 0 {
      var line := Setting(pairs[0].0, pairs[0].1);
      ApplySetting(s, pairs[0].0, pairs[0].1);
      assert Assign(s, pairs[0].0, pairs[0].1).Ok?;
      var next := Assign(s, pairs[0].0, pairs[0].1).value;
      assert AssignAll(s, pairs) == AssignAll(next, pairs[1..]);
      PrintableTail(pairs);
      assert SettingLines(pairs) == [line] + SettingLines(pairs[1..]);
      ConsAssociates(line, SettingLines(pairs[1..]), rest);
      CollectCons(s, line, SettingLines(pairs[1..]) + rest);
      CollectSettingLines(next, pairs[1..], rest);
    } else {
      assert SettingLines(pairs) + rest == rest;
    }
  }

  lemma PrintableTail(pairs: seq<(string, int)>)
    requires Printable(pairs) && |pairs| > 0
    ensures Printable(pairs[1..])
  {
    forall i | 0 <= i < |pairs[1..]| ensures pairs[1..][i] == pairs[i + 1] { }
  }

  lemma ConsAssociates<T>(x: T, a: seq<T>, b: seq<T>)
    ensures [x] + a + b == [x] + (a + b)
  {
  }

  /** What the reader holds after the config section `write` emits. */
  function WrittenSettings(s: Settings, m: LanguageModel): Settings {
    var t := m.topology;
    s.(ngramSize := Some(t.ngramSize), inputVocabSize := t.inputVocabSize,
       outputVocabSize := t.outputVocabSize,
       inputEmbeddingDimension := Some(t.inputEmbeddingDimension),
       numHidden := Some(t.numHidden), outputEmbeddingDimension := Some(t.outputEmbeddingDimension),
       activation := m.activation)
  }

  lemma WrittenIntegersPrintable(t: Topology)
    requires TopologyInIntRange(t)
    ensures Printable(WrittenIntegers(t))
  {
    IntegerKeysAreFields();
  }

  lemma IntegerKeysAreFields()
    ensures forall key :: key in IntegerKeys ==> IsField(key)
  {
    SizeKeysAreFields();
    DimensionKeysAreFields();
  }

  lemma SizeKeysAreFields()
    ensures IsField("version") && IsField("ngram_size") && IsField("vocab_size")
    ensures IsField("input_vocab_size") && IsField("output_vocab_size")
  {
  }

  lemma DimensionKeysAreFields()
    ensures IsField("input_embedding_dimension") && IsField("num_hidden")
    ensures IsField("output_embedding_dimension")
  {
    FieldsJoin("input_", "embedding_dimension");
    FieldsJoin("output_", "embedding_dimension");
  }

  /** Two fields written together make one field. */
  lemma FieldsJoin(a: string, b: string)
    requires IsField(a) && IsField(b)
    ensures IsField(a + b)
  {
  }

  lemma AssignWrittenIntegers(s: Settings, m: LanguageModel)
    ensures AssignAll(s, WrittenIntegers(m.topology)) == Ok(WrittenSettings(s, m).(activation := s.activation))
  {
    var t := m.topology;
    var p := WrittenIntegers(t);
    var s1 := s.(ngramSize := Some(t.ngramSize));
    var s2 := s1.(inputVocabSize := t.inputVocabSize);
    var s3 := s2.(outputVocabSize := t.outputVocabSize);
    var s4 := s3.(inputEmbeddingDimension := Some(t.inputEmbeddingDimension));
    var s5 := s4.(numHidden := Some(t.numHidden));
    var s6 := s5.(outputEmbeddingDimension := Some(t.outputEmbeddingDimension));
    assert AssignAll(s6, p[7..]) == Ok(s6);
    assert AssignAll(s5, p[6..]) == AssignAll(s6, p[7..]);
    assert AssignAll(s4, p[5..]) == AssignAll(s5, p[6..]);
    assert AssignAll(s3, p[4..]) == AssignAll(s4, p[5..]);
    assert AssignAll(s2, p[3..]) == AssignAll(s3, p[4..]);
    assert AssignAll(s1, p[2..]) == AssignAll(s2, p[3..]);
    assert AssignAll(s, p[1..]) == AssignAll(s1, p[2..]);
    assert AssignAll(s, p) == AssignAll(s, p[1..]);
  }

  lemma ReadsActivation(s: Settings, activation: string)
    requires IsField(activation)
    ensures ApplyLine(s, "activation_function " + activation) == Ok(s.(activation := activation))
  {
    assert IsField("activation_function");
    FieldsOfPair("activation_function", activation);
    assert "activation_function " + activation == "activation_function" + " " + activation;
  }

  /** The config section `write` emits sets every topology integer and the activation. */
  lemma CollectConfigBody(s: Settings, m: LanguageModel, lines: seq<string>)
    requires TopologyInIntRange(m.topology) && IsField(m.activation)
    ensures Collect(s, ConfigBody(m) + [""] + lines) == Ok(Collected(WrittenSettings(s, m), lines))
  {
    var pairs := WrittenIntegers(m.topology);
    var act := "activation_function " + m.activation;
    WrittenIntegersPrintable(m.topology);
    AssignWrittenIntegers(s, m);
    var mid := WrittenSettings(s, m).(activation := s.activation);
    assert ConfigBody(m) + [""] + lines == SettingLines(pairs) + ([act] + ([""] + lines));
    CollectSettingLines(s, pairs, [act] + ([""] + lines));
    ReadsActivation(mid, m.activation);
    CollectCons(mid, act, [""] + lines);
    assert ([""] + lines)[1..] == lines;
  }

  // Reading back each kind of section `write` emits.

  /** A line ending in a non-space character is left alone by the trim. */
  lemma RightTrimKeeps(s: string)
    requires |s| > 0 && NotSpace(s[|s| - 1])
    ensures RightTrim(s) == s
  {
  }

  /** The settings `readConfig` starts from give way to the written ones: the model is
      resized to the written topology and takes the written activation. */
  lemma ReadConfigWritten(prior: LanguageModel, m: LanguageModel, lines: seq<string>)
    requires ValidTopology(m.topology) && TopologyInIntRange(m.topology) && IsField(m.activation)
    ensures ReadConfig(prior, ConfigBody(m) + [""] + lines)
         == Ok(ConfigResult(Resize(prior, m.topology).(activation := m.activation), lines, []))
  {
    CollectConfigBody(InitialSettings(prior), m, lines);
  }

  lemma ReadConfigSection(st: ReadState, m: LanguageModel, lines: seq<string>, codec: Codec)
    requires ValidTopology(m.topology) && TopologyInIntRange(m.topology) && IsField(m.activation)
    ensures Read(st, Section("\\config", ConfigBody(m)) + lines, codec)
         == Read(st.(model := Resize(st.model, m.topology).(activation := m.activation)), lines, codec)
  {
    var all := Section("\\config", ConfigBody(m)) + lines;
    assert all[0] == "\\config";
    assert all[1..] == ConfigBody(m) + [""] + lines;
    RightTrimKeeps("\\config");
    ReadConfigWritten(st.model, m, lines);
    assert st.warnings + [] == st.warnings;
  }

  lemma ReadInputVocabSection(st: ReadState, words: seq<string>, lines: seq<string>, codec: Codec)
    requires NoEmptyLine(words)
    ensures Read(st, Section("\\input_vocab", words) + lines, codec)
         == Read(st.(inputWords := words), lines, codec)
  {
    var all := Section("\\input_vocab", words) + lines;
    assert all[0] == "\\input_vocab";
    assert all[1..] == words + [""] + lines;
    RightTrimKeeps("\\input_vocab");
    TakeBlockThroughEmpty(words, lines);
  }

  /** A `\vocab` section fills the input list and, when the caller passed one, the output
      list with the same words. */
  lemma ReadSharedVocabSection(st: ReadState, words: seq<string>, lines: seq<string>, codec: Codec)
    requires NoEmptyLine(words)
    ensures Read(st, Section("\\vocab", words) + lines, codec)
         == Read(st.(inputWords := words,
                     outputWords := if st.outputWords.Some? then Some(words) else None), lines, codec)
  {
    var all := Section("\\vocab", words) + lines;
    assert all[0] == "\\vocab";
    assert all[1..] == words + [""] + lines;
    RightTrimKeeps("\\vocab");
    TakeBlockThroughEmpty(words, lines);
  }

  /** An `\output_vocab` section fills the output list only when the caller asked for one. */
  lemma ReadOutputVocabSection(st: ReadState, words: seq<string>, lines: seq<string>, codec: Codec)
    requires NoBlankLine(words)
    ensures Read(st, Section("\\output_vocab", words) + lines, codec)
         == Read(if st.outputWords.Some? then st.(outputWords := Some(words)) else st, lines, codec)
  {
    var all := Section("\\output_vocab", words) + lines;
    assert all[0] == "\\output_vocab";
    assert all[1..] == words + [""] + lines;
    RightTrimKeeps("\\output_vocab");
    if st.outputWords.Some? {
      NoBlankIsNoEmpty(words);
      TakeBlockThroughEmpty(words, lines);
    } else {
      SkipSectionThroughBlank(words, "", lines);
    }
  }

  lemma NoBlankIsNoEmpty(lines: seq<string>)
    requires NoBlankLine(lines)
    ensures NoEmptyLine(lines)
  {
    forall i | 0 <= i < |lines| ensures lines[i] != "" {
      assert RightTrim(lines[i]) != [];
    }
  }

  /** A parameter section hands its body to the codec and replaces that one matrix. */
  lemma ReadParameterSection(st: ReadState, name: string, body: seq<string>, lines: seq<string>,
                             codec: Codec)
    requires name in ParameterSections && NoEmptyLine(body)
    ensures Read(st, Section(name, body) + lines, codec)
         == Read(st.(model := SetParameter(st.model, name, codec.decode(body))), lines, codec)
  {
    var all := Section(name, body) + lines;
    assert all[0] == name;
    assert all[1..] == body + [""] + lines;
    RightTrimKeeps(name);
    TakeBlockThroughEmpty(body, lines);
  }

  /** The codec reads back, as the same matrix, the text it writes for each of the
      model's parameters, and that text holds no empty line. */
  ghost predicate Faithful(codec: Codec, m: LanguageModel) {
    forall name :: name in ParameterSections ==>
      && codec.decode(codec.encode(Parameter(m, name))) == Parameter(m, name)
      && NoEmptyLine(codec.encode(Parameter(m, name)))
  }

  lemma SectionsDistinct()
    ensures forall i, j :: 0 <= i < j < |ParameterSections| ==> ParameterSections[i] != ParameterSections[j]
  {
  }

  /** The model after the parameter sections from the `i`-th on have been read back. */
  function CopyParameters(x: LanguageModel, m: LanguageModel, i: nat): (r: LanguageModel)
    requires i <= |ParameterSections|
    ensures forall j :: i <= j < |ParameterSections| ==>
              Parameter(r, ParameterSections[j]) == Parameter(m, ParameterSections[j])
    ensures forall j :: 0 <= j < i ==>
              Parameter(r, ParameterSections[j]) == Parameter(x, ParameterSections[j])
    ensures r.topology == x.topology && r.activation == x.activation
    ensures r.premultiplied == x.premultiplied
    ensures r.firstActivationSize == x.firstActivationSize
    ensures r.secondActivationSize == x.secondActivationSize
    decreases |ParameterSections| - i
  {
    if i == |ParameterSections| then x
    else
      SectionsDistinct();
      var name := ParameterSections[i];
      CopyParameters(SetParameter(x, name, Parameter(m, name)), m, i + 1)
  }

  lemma {:induction false} ReadParameterLines(st: ReadState, m: LanguageModel, codec: Codec, i: nat)
    requires i <= |ParameterSections| && Faithful(codec, m)
    ensures Read(st, ParameterLines(m, codec, i), codec)
         == Ok(Loaded(st.(model := CopyParameters(st.model, m, i)), []))
    decreases |ParameterSections| - i
  {
    if i == |ParameterSections| {
      RightTrimKeeps("\\end");
      assert ["\\end"][1..] == [];
    } else {
      var name := ParameterSections[i];
      var body := codec.encode(Parameter(m, name));
      ReadParameterSection(st, name, body, ParameterLines(m, codec, i + 1), codec);
      ReadParameterLines(st.(model := SetParameter(st.model, name, Parameter(m, name))), m, codec, i + 1);
    }
  }

  /** Two models that agree on every parameter section and every other field are equal. */
  lemma SameParameters(a: LanguageModel, b: LanguageModel)
    requires forall j :: 0 <= j < |ParameterSections| ==>
               Parameter(a, ParameterSections[j]) == Parameter(b, ParameterSections[j])
    requires a.topology == b.topology && a.activation == b.activation
    requires a.premultiplied == b.premultiplied
    requires a.firstActivationSize == b.firstActivationSize
    requires a.secondActivationSize == b.secondActivationSize
    ensures a == b
  {
    assert Parameter(a, ParameterSections[0]) == Parameter(b, ParameterSections[0]);
    assert Parameter(a, ParameterSections[1]) == Parameter(b, ParameterSections[1]);
    assert Parameter(a, ParameterSections[2]) == Parameter(b, ParameterSections[2]);
    assert Parameter(a, ParameterSections[3]) == Parameter(b, ParameterSections[3]);
    assert Parameter(a, ParameterSections[4]) == Parameter(b, ParameterSections[4]);
    assert Parameter(a, ParameterSections[5]) == Parameter(b, ParameterSections[5]);
    assert Parameter(a, ParameterSections[6]) == Parameter(b, ParameterSections[6]);
  }

  /** Clearing the premultiplied mark leaves every parameter as it was. */
  lemma UnmarkedParameters(m: LanguageModel)
    ensures forall j :: 0 <= j < |ParameterSections| ==>
              Parameter(m.(premultiplied := false), ParameterSections[j]) == Parameter(m, ParameterSections[j])
  {
    forall j | 0 <= j < |ParameterSections|
      ensures Parameter(m.(premultiplied := false), ParameterSections[j]) == Parameter(m, ParameterSections[j])
    {
      var name := ParameterSections[j];
      assert m.(premultiplied := false) == SetParameter(m, name, Parameter(m, name)).(premultiplied := false);
    }
  }

  /** The word list a reader holds after an optional word-list section. */
  function AfterInputVocab(prior: seq<string>, words: Option<seq<string>>): seq<string> {
    if words.Some? then words.value else prior
  }

  function AfterOutputVocab(prior: Option<seq<string>>, words: Option<seq<string>>): Option<seq<string>> {
    if prior.Some? && words.Some? then words else prior
  }

  /** The optional word-list sections change the word lists and nothing else. */
  lemma ReadVocabSections(st: ReadState, inputWords: Option<seq<string>>,
                          outputWords: Option<seq<string>>, lines: seq<string>, codec: Codec)
    requires inputWords.Some? ==> NoEmptyLine(inputWords.value)
    requires outputWords.Some? ==> NoBlankLine(outputWords.value)
    ensures Read(st, VocabSection("\\input_vocab", inputWords)
                     + (VocabSection("\\output_vocab", outputWords) + lines), codec)
         == Read(st.(inputWords := AfterInputVocab(st.inputWords, inputWords),
                     outputWords := AfterOutputVocab(st.outputWords, outputWords)), lines, codec)
  {
    var outSection := VocabSection("\\output_vocab", outputWords);
    var st2 := st.(inputWords := AfterInputVocab(st.inputWords, inputWords));
    if inputWords.Some? {
      ReadInputVocabSection(st, inputWords.value, outSection + lines, codec);
    } else {
      assert VocabSection("\\input_vocab", inputWords) + (outSection + lines) == outSection + lines;
    }
    if outputWords.Some? {
      ReadOutputVocabSection(st2, outputWords.value, lines, codec);
    } else {
      assert outSection + lines == lines;
    }
  }

  /** Copying every parameter of a well-shaped model into a model resized to its topology
      and given its activation yields that model, unmarked as premultiplied. */
  lemma CopyIntoResized(prior: LanguageModel, m: LanguageModel)
    requires WellShaped(m)
    ensures CopyParameters(Resize(prior, m.topology).(activation := m.activation), m, 0)
         == m.(premultiplied := false)
  {
    var x := Resize(prior, m.topology).(activation := m.activation);
    ResizedSizes(prior, m);
    UnmarkedParameters(m);
    SameParameters(CopyParameters(x, m, 0), m.(premultiplied := false));
  }

  /** `resize` derives the activation sizes from the topology, as a well-shaped model has them. */
  lemma ResizedSizes(prior: LanguageModel, m: LanguageModel)
    requires WellShaped(m)
    ensures Resize(prior, m.topology).firstActivationSize == m.firstActivationSize
    ensures Resize(prior, m.topology).secondActivationSize == m.secondActivationSize
  {
  }

  /** What `write` emits, `read` reads back: the model (no longer marked premultiplied;
      its layers are what `codec` decodes, with no resizing of their own), the word lists
      it was given — the output list only when the reader asks for one —
      every line through `\end`, and no warning. */
  lemma WriteReadRoundTrip(st: ReadState, m: LanguageModel, inputWords: Option<seq<string>>,
                           outputWords: Option<seq<string>>, codec: Codec)
    requires WellShaped(m) && TopologyInIntRange(m.topology) && IsField(m.activation)
    requires inputWords.Some? ==> NoEmptyLine(inputWords.value)
    requires outputWords.Some? ==> NoBlankLine(outputWords.value)
    requires Faithful(codec, m)
    ensures Read(st, Write(m, inputWords, outputWords, codec), codec)
         == Ok(Loaded(ReadState(m.(premultiplied := false),
                                AfterInputVocab(st.inputWords, inputWords),
                                AfterOutputVocab(st.outputWords, outputWords),
                                st.warnings), []))
  {
    var params := ParameterLines(m, codec, 0);
    var rest := VocabSection("\\input_vocab", inputWords)
                + (VocabSection("\\output_vocab", outputWords) + params);
    ReadConfigSection(st, m, rest, codec);
    var st1 := st.(model := Resize(st.model, m.topology).(activation := m.activation));
    ReadVocabSections(st1, inputWords, outputWords, params, codec);
    var st3 := st1.(inputWords := AfterInputVocab(st.inputWords, inputWords),
                    outputWords := AfterOutputVocab(st.outputWords, outputWords));
    ReadParameterLines(st3, m, codec, 0);
    CopyIntoResized(st.model, m);
  }

  /** `write` does not record the premultiplied flag, and `read` marks what it loads as
      unfused. Clearing the flag of a premultiplied model while keeping its fused
      first-stage weights and 1x1 embedding table breaks the shape invariant, unless the
      unfused embedding table would itself be 1x1. */
  lemma PremultipliedModelReadsBackMisshaped(m: LanguageModel)
    requires WellShaped(m) && m.premultiplied
    requires m.topology.inputVocabSize != 1 || m.topology.inputEmbeddingDimension != 1
    ensures !WellShaped(m.(premultiplied := false))
  {
    if m.topology.inputVocabSize == 1 {
      assert |m.inputEmbeddings[0]| != m.topology.inputEmbeddingDimension;
    }
  }
}
