/**
 * The converter object: its settings, the column detection it keeps from
 * the last analysis, the log it appends to, and the files it produces.
 * `ConvertFile` chooses the mapping, projects the input table and writes
 * the output files, logging each step; an error ends the run with one
 * error message.
 */
module Converter {
  import opened Text
  import opened Fields
  import opened Wrappers
  import opened Detection
  import opened Mapping
  import opened Projection
  import opened Output

  /** The outcome of reading a file: its content, or the error's text. */
  datatype Loaded<T> = Read(value: T) | ReadFailed(reason: string)

  /** The log lines, without their timestamps. */
  datatype Message =
    | Starting
    | UsingDetected
    | UsingOriginalNames
    | LoadedConfiguration(name: string)
    | InputLoaded(rows: nat, columns: nat)
    | UsingIntelligent
    | Mapped(field: string, letter: string, header: string)
    | ColumnOutOfRange(letter: string, columns: nat)
    | InvalidColumnLetter(letter: string)
    | NoMapping(field: string)
    | Processed(rows: nat)
    | Splitting(files: nat)
    | Created(path: string)
    | Completed
    | Failed(reason: string)
    | Analyzed(rows: nat, columns: nat)
    | AutoDetected
    | DetectedEntry(field: string, header: string)
    | NoneDetected
    | AnalysisFailed(reason: string)

  /** The text each message is logged with. */
  function MessageText(m: Message): string {
    match m
    case Starting => "Starting conversion..."
    case UsingDetected => "Using auto-detected column mapping"
    case UsingOriginalNames => "Using original column names (bypassing template)"
    case LoadedConfiguration(name) => "Loaded configuration: " + name
    case InputLoaded(rows, columns) =>
      "Input file loaded: " + NatToString(rows) + " rows, " + NatToString(columns) + " columns"
    case UsingIntelligent => "Using intelligent column mapping (bypassing template)"
    case Mapped(field, letter, header) => "Mapped " + field + " → Column " + letter + " (" + header + ")"
    case ColumnOutOfRange(letter, columns) =>
      "Warning: Column '" + letter + "' is out of range (file has " + NatToString(columns) + " columns)"
    case InvalidColumnLetter(letter) =>
      "Warning: Invalid column letter '" + letter + "': ord() expected a character, but string of length "
      + NatToString(|letter|) + " found"
    case NoMapping(field) => "Warning: No mapping found for '" + field + "'"
    case Processed(rows) => "Processed " + NatToString(rows) + " rows"
    case Splitting(files) => "Splitting into " + NatToString(files) + " files..."
    case Created(path) => "Created: " + path
    case Completed => "Conversion completed successfully!"
    case Failed(reason) => "Error during conversion: " + reason
    case Analyzed(rows, columns) =>
      "Analyzed input file: " + NatToString(rows) + " rows, " + NatToString(columns) + " columns"
    case AutoDetected => "Auto-detected columns:"
    case DetectedEntry(field, header) => "  " + field + " → " + header
    case NoneDetected => "No columns could be auto-detected"
    case AnalysisFailed(reason) => "Error analyzing input file: " + reason
  }

  predicate IsWarning(m: Message) {
    var text := MessageText(m);
    |text| >= 9 && text[..9] == "Warning: "
  }

  /** The message the projector logs for field f. */
  function FieldMessage(t: Table, f: Field, r: Resolution): Message
    requires r.Copied? ==> r.index < |t.headers|
  {
    match r
    case Copied(i, letter) => Mapped(FieldName(f), letter, t.headers[i])
    case OutOfRange(letter) => ColumnOutOfRange(letter, |t.headers|)
    case InvalidLetter(letter) => InvalidColumnLetter(letter)
    case Unmapped => NoMapping(FieldName(f))
  }

  /** The projector's messages: one per template field, in template order. */
  function FieldLog(t: Table, config: map<string, string>): (log: seq<Message>)
    ensures |log| == |FieldOrder|
  {
    var res := Resolutions(config, |t.headers|);
    seq(|FieldOrder|, k requires 0 <= k < |FieldOrder| => FieldMessage(t, FieldOrder[k], res[k]))
  }

  /** What `process_dataframe` logs before projecting. */
  function SelectionLog(bypass: bool, autoDetect: bool, detected: map<string, string>): seq<Message> {
    if !bypass then []
    else if autoDetect && detected != map[] then [UsingDetected]
    else [UsingIntelligent]
  }

  /** What `generate_output` logs for the files it writes. */
  function OutputLog(files: seq<OutputFile>, rows: nat): seq<Message> {
    (if rows > ChunkSize then [Splitting(ChunkCount(rows))] else [])
    + seq(|files|, i requires 0 <= i < |files| => Created(files[i].path))
  }

  /** The settings a conversion reads. */
  datatype Settings = Settings(
    bypass: bool, autoDetect: bool, detected: map<string, string>, leadTime: string,
    outputDirectory: string, supplierConfig: string, inputFilePath: string)

  /** What a conversion leaves behind: its log lines and the files it wrote. */
  datatype Outcome = Outcome(log: seq<Message>, files: seq<OutputFile>)

  /** The configuration `convert_file` builds when bypassing without a detection. */
  function IdentityConfig(headers: seq<string>): map<string, string> {
    map h | h in headers :: h
  }

  predicate Usable(t: Table) {
    WellFormed(t) && |t.headers| <= MaxColumns
  }

  /** The configuration the projector uses under these settings. */
  function Effective(s: Settings, t: Table, config: map<string, string>): map<string, string>
    requires Usable(t)
  {
    SelectConfig(s.bypass, s.autoDetect, s.detected, config, t.headers)
  }

  /** The rows `process_dataframe` returns under these settings. */
  function RowsOf(s: Settings, t: Table, config: map<string, string>): seq<seq<Cell>>
    requires Usable(t)
  {
    Projected(t, Effective(s, t, config))
  }

  /** What `process_dataframe` logs. */
  function ProcessingLog(s: Settings, t: Table, config: map<string, string>): seq<Message>
    requires Usable(t)
  {
    SelectionLog(s.bypass, s.autoDetect, s.detected) + FieldLog(t, Effective(s, t, config))
    + [Processed(|RowsOf(s, t, config)|)]
  }

  /** The files `generate_output` writes under these settings. */
  function FilesOf(s: Settings, t: Table, config: map<string, string>): seq<OutputFile>
    requires Usable(t)
  {
    PlannedFiles(s.outputDirectory, Stem(s.inputFilePath), s.leadTime, RowsOf(s, t, config))
  }

  /** Everything after the input table is in hand: its log lines and the files written. */
  function Run(s: Settings, t: Table, config: map<string, string>): Outcome
    requires Usable(t)
  {
    var files := FilesOf(s, t, config);
    Outcome(
      [InputLoaded(|t.rows|, |t.headers|)] + ProcessingLog(s, t, config)
      + OutputLog(files, |RowsOf(s, t, config)|) + [Completed],
      files)
  }

  function After(prefix: seq<Message>, o: Outcome): Outcome {
    Outcome(prefix + o.log, o.files)
  }

  /** `convert_file`, as a function of the settings and of what reading the files gives. */
  function Conversion(s: Settings, input: Loaded<Table>, configFile: Loaded<map<string, string>>): Outcome
    requires input.Read? ==> Usable(input.value)
  {
    if s.bypass && s.autoDetect && s.detected != map[] then
      match input
      case ReadFailed(reason) => Outcome([Starting, UsingDetected, Failed(reason)], [])
      case Read(t) => After([Starting, UsingDetected], Run(s, t, s.detected))
    else if s.bypass then
      match input
      case ReadFailed(reason) => Outcome([Starting, Failed(reason)], [])
      case Read(t) => After([Starting, UsingOriginalNames], Run(s, t, IdentityConfig(t.headers)))
    else
      match configFile
      case ReadFailed(reason) => Outcome([Starting, Failed(reason)], [])
      case Read(config) =>
        match input
        case ReadFailed(reason) => Outcome([Starting, LoadedConfiguration(s.supplierConfig), Failed(reason)], [])
        case Read(t) => After([Starting, LoadedConfiguration(s.supplierConfig)], Run(s, t, config))
  }

  /** The log lines of an analysis that found this detection, in the order the map was filled. */
  function DetectionEntries(detected: map<string, string>, fields: seq<Field>): seq<Message>
    decreases |fields|
  {
    if |fields| == 0 then []
    else
      var name := FieldName(fields[0]);
      (if name in detected then [DetectedEntry(name, detected[name])] else [])
      + DetectionEntries(detected, fields[1..])
  }

  /** What an analysis logs after its first line. */
  function DetectionLog(detected: map<string, string>): seq<Message> {
    if detected == map[] then [NoneDetected] else [AutoDetected] + DetectionEntries(detected, FieldOrder)
  }

  function AnalysisLog(t: Table, detected: map<string, string>): seq<Message> {
    [Analyzed(|t.rows|, |t.headers|)] + DetectionLog(detected)
  }

  class PriceListConverter {
    var bypassTemplate: bool
    var autoDetectColumns: bool
    var detectedColumns: map<string, string>
    var leadTime: string
    var outputDirectory: string
    var supplierConfig: string
    var inputFilePath: string
    var log: seq<Message>
    var files: seq<OutputFile>

    /** The settings the conversion reads; the log and the written files are not among them. */
    function Current(): Settings
      reads this`bypassTemplate, this`autoDetectColumns, this`detectedColumns, this`leadTime
      reads this`outputDirectory, this`supplierConfig, this`inputFilePath
    {
      Settings(bypassTemplate, autoDetectColumns, detectedColumns, leadTime,
               outputDirectory, supplierConfig, inputFilePath)
    }

    /** The initial settings: template on, auto-detect on, lead time "0". */
    constructor ()
      ensures Current() == Settings(false, true, map[], "0", "", "", "")
      ensures log == [] && files == []
    {
      bypassTemplate := false;
      autoDetectColumns := true;
      detectedColumns := map[];
      leadTime := "0";
      outputDirectory := "";
      supplierConfig := "";
      inputFilePath := "";
      log := [];
      files := [];
    }

    method LogMessage(m: Message)
      modifies this`log
      ensures log == old(log) + [m]
    {
      log := log + [m];
    }

    /** `analyze_input_file`: detect the columns of a freshly read table; nothing happens without an input path. */
    method AnalyzeInput(input: Loaded<Table>)
      modifies this`detectedColumns, this`log
      ensures inputFilePath == "" ==> detectedColumns == old(detectedColumns) && log == old(log)
      ensures inputFilePath != "" && input.Read? ==>
                (detectedColumns == Detected(input.value.headers)
                 && log == old(log) + AnalysisLog(input.value, detectedColumns))
      ensures inputFilePath != "" && input.ReadFailed? ==>
                (detectedColumns == old(detectedColumns) && log == old(log) + [AnalysisFailed(input.reason)])
    {
      if inputFilePath == "" {
        return;
      }
      match input
      case ReadFailed(reason) =>
        LogMessage(AnalysisFailed(reason));
      case Read(t) =>
        var detected := DetectColumns(t.headers);
        detectedColumns := detected;
        ghost var l0 := log;
        LogMessage(Analyzed(|t.rows|, |t.headers|));
        LogDetection(detected);
        Regroup3(l0, [Analyzed(|t.rows|, |t.headers|)], DetectionLog(detected));
    }

    /** The report of a detection: one line when nothing was found, else a heading and the entries. */
    method LogDetection(detected: map<string, string>)
      modifies this`log
      ensures log == old(log) + DetectionLog(detected)
    {
      if detected != map[] {
        ghost var l0 := log;
        LogMessage(AutoDetected);
        LogEntries(detected, FieldOrder);
        Regroup3(l0, [AutoDetected], DetectionEntries(detected, FieldOrder));
      } else {
        LogMessage(NoneDetected);
      }
    }

    /** The loop over the detected map's items, in the order they were filled. */
    method LogEntries(detected: map<string, string>, fields: seq<Field>)
      modifies this`log
      ensures log == old(log) + DetectionEntries(detected, fields)
    {
      for k := 0 to |fields|
        invariant log == old(log) + DetectionEntries(detected, fields[..k])
      {
        EntriesAppend(detected, fields[..k], fields[k]);
        assert fields[..k + 1] == fields[..k] + [fields[k]];
        var name := FieldName(fields[k]);
        if name in detected {
          LogMessage(DetectedEntry(name, detected[name]));
        }
      }
      assert fields[..|fields|] == fields;
    }

    /** The mode branch of `process_dataframe`. */
    method SelectMapping(t: Table, config: map<string, string>) returns (effective: map<string, string>)
      requires Usable(t)
      modifies this`log
      ensures effective == SelectConfig(bypassTemplate, autoDetectColumns, detectedColumns, config, t.headers)
      ensures log == old(log) + SelectionLog(bypassTemplate, autoDetectColumns, detectedColumns)
    {
      effective := config;
      if bypassTemplate {
        if autoDetectColumns && detectedColumns != map[] {
          effective := detectedColumns;
          LogMessage(UsingDetected);
        } else {
          effective := IntelligentMapping(t.headers);
          LogMessage(UsingIntelligent);
        }
      }
    }

    /** The assignment loop over the seven template fields. */
    method AssignFields(t: Table, effective: map<string, string>) returns (frame: Frame)
      requires WellFormed(t)
      modifies this`log
      ensures frame == FrameAfter(t, Resolutions(effective, |t.headers|), |FieldOrder|)
      ensures log == old(log) + FieldLog(t, effective)
    {
      ghost var res := Resolutions(effective, |t.headers|);
      ghost var messages := FieldLog(t, effective);
      frame := EmptyFrame();
      for k := 0 to |FieldOrder|
        invariant frame == FrameAfter(t, res, k)
        invariant log == old(log) + messages[..k]
      {
        assert messages[..k + 1] == messages[..k] + [messages[k]];
        frame := AssignField(t, effective, k, frame);
      }
      assert messages[..|FieldOrder|] == messages;
    }

    /** One pass of the assignment loop: field k is copied from its column or left blank, and logged. */
    method AssignField(t: Table, effective: map<string, string>, k: nat, frame: Frame) returns (next: Frame)
      requires WellFormed(t) && k < |FieldOrder| && ValidFrame(frame)
      requires frame.height == 0 || frame.height == |t.rows|
      modifies this`log
      ensures var r := Resolve(effective, FieldOrder[k], |t.headers|);
              (r.Copied? ==> r.index < |t.headers|)
              && next == Step(t, frame, k, r) && log == old(log) + [FieldMessage(t, FieldOrder[k], r)]
    {
      var name := FieldName(FieldOrder[k]);
      if name in effective {
        var letter := Upper(effective[name]);
        if |letter| == 1 {
          var index := letter[0] as int - 'A' as int;
          if 0 <= index < |t.headers| {
            next := AssignSeries(frame, k, Column(t, index));
            LogMessage(Mapped(name, letter, t.headers[index]));
          } else {
            LogMessage(ColumnOutOfRange(letter, |t.headers|));
            next := AssignBlank(frame, k);
          }
        } else {
          LogMessage(InvalidColumnLetter(letter));
          next := AssignBlank(frame, k);
        }
      } else {
        LogMessage(NoMapping(name));
        next := AssignBlank(frame, k);
      }
    }

    /** `process_dataframe`: choose the mapping, assign the seven fields, drop Lead Time and empty rows. */
    method ProcessDataframe(t: Table, config: map<string, string>) returns (rows: seq<seq<Cell>>)
      requires Usable(t)
      modifies this`log
      ensures rows == RowsOf(Current(), t, config)
      ensures log == old(log) + ProcessingLog(Current(), t, config)
    {
      ghost var s := Current();
      ghost var l0 := log;
      var effective := SelectMapping(t, config);
      assert effective == Effective(s, t, config);
      var frame := AssignFields(t, effective);
      rows := DropEmpty(DataRows(frame));
      assert rows == RowsOf(s, t, config);
      LogMessage(Processed(|rows|));
      assert Current() == s;
      assert ProcessingLog(s, t, config)
          == SelectionLog(s.bypass, s.autoDetect, s.detected) + FieldLog(t, effective) + [Processed(|rows|)];
      Regroup(l0, SelectionLog(s.bypass, s.autoDetect, s.detected), FieldLog(t, effective), [Processed(|rows|)]);
    }

    /** `write_csv_with_lead_time`: the lead-time line, then the data lines. */
    method WriteCsvWithLeadTime(rows: seq<seq<Cell>>, path: string, leadTimeValue: string)
      modifies this`files
      ensures files == old(files) + [OutputFile(path, FileLines(leadTimeValue, rows))]
    {
      var first := if leadTimeValue != "" then leadTimeValue else "";
      var lines := [first] + seq(|rows|, r requires 0 <= r < |rows| => RenderRow(rows[r]));
      files := files + [OutputFile(path, lines)];
    }

    /** `generate_output`: one file, or numbered parts of at most 10000 rows. */
    method GenerateOutput(rows: seq<seq<Cell>>)
      modifies this`log, this`files
      ensures var planned := PlannedFiles(outputDirectory, Stem(inputFilePath), leadTime, rows);
              files == old(files) + planned && log == old(log) + OutputLog(planned, |rows|)
    {
      var stem := Stem(inputFilePath);
      ghost var planned := PlannedFiles(outputDirectory, stem, leadTime, rows);
      ghost var l0 := log;
      if |rows| > ChunkSize {
        var count := ChunkCount(|rows|);
        LogMessage(Splitting(count));
        WriteParts(rows, stem);
        Regroup3(l0, [Splitting(count)], seq(|planned|, i requires 0 <= i < |planned| => Created(planned[i].path)));
      } else {
        var path := PathJoin(outputDirectory, SingleName(stem));
        assert OutputLog(planned, |rows|) == [Created(path)];
        WriteCsvWithLeadTime(rows, path, leadTime);
        LogMessage(Created(path));
      }
    }

    /** The loop of `generate_output` over the parts of a large table. */
    method WriteParts(rows: seq<seq<Cell>>, stem: string)
      requires |rows| > ChunkSize
      modifies this`log, this`files
      ensures var planned := PlannedFiles(outputDirectory, stem, leadTime, rows);
              files == old(files) + planned
              && log == old(log) + seq(|planned|, i requires 0 <= i < |planned| => Created(planned[i].path))
    {
      ghost var planned := PlannedFiles(outputDirectory, stem, leadTime, rows);
      ghost var created := seq(|planned|, i requires 0 <= i < |planned| => Created(planned[i].path));
      var count := ChunkCount(|rows|);
      ghost var start := log;
      ghost var before := files;
      for i := 0 to count
        invariant files == before + planned[..i]
        invariant log == start + created[..i]
      {
        assert planned[..i + 1] == planned[..i] + [planned[i]];
        assert created[..i + 1] == created[..i] + [created[i]];
        var startIndex := i * ChunkSize;
        var endIndex := if (i + 1) * ChunkSize < |rows| then (i + 1) * ChunkSize else |rows|;
        var chunk := rows[startIndex..endIndex];
        var path := PathJoin(outputDirectory, PartName(stem, i));
        WriteCsvWithLeadTime(chunk, path, leadTime);
        LogMessage(Created(path));
      }
      assert planned[..count] == planned;
      assert created[..count] == created;
    }

    /** From the loaded table on: process, write, report completion. */
    method RunConversion(t: Table, config: map<string, string>)
      requires Usable(t)
      modifies this`log, this`files
      ensures log == old(log) + Run(old(Current()), t, config).log
      ensures files == old(files) + Run(old(Current()), t, config).files
    {
      ghost var l0 := log;
      LogMessage(InputLoaded(|t.rows|, |t.headers|));
      var rows := ProcessDataframe(t, config);
      GenerateOutput(rows);
      LogMessage(Completed);
      AppendAssoc(l0, [InputLoaded(|t.rows|, |t.headers|)], ProcessingLog(old(Current()), t, config),
                  OutputLog(FilesOf(old(Current()), t, config), |rows|), [Completed]);
    }

    /** `convert_file`: the whole run; an error logs one message and writes nothing more. */
    method ConvertFile(input: Loaded<Table>, configFile: Loaded<map<string, string>>)
      requires input.Read? ==> Usable(input.value)
      modifies this`log, this`files
      ensures log == old(log) + Conversion(old(Current()), input, configFile).log
      ensures files == old(files) + Conversion(old(Current()), input, configFile).files
    {
      ghost var s := Current();
      ghost var l0 := log;
      ghost var prefix: seq<Message>;
      LogMessage(Starting);
      var config: map<string, string>;
      if bypassTemplate {
        if autoDetectColumns && detectedColumns != map[] {
          config := detectedColumns;
          LogMessage(UsingDetected);
          prefix := [Starting, UsingDetected];
        } else {
          if input.ReadFailed? {
            LogMessage(Failed(input.reason));
            return;
          }
          config := OriginalNames(input.value.headers);
          LogMessage(UsingOriginalNames);
          prefix := [Starting, UsingOriginalNames];
        }
      } else {
        if configFile.ReadFailed? {
          LogMessage(Failed(configFile.reason));
          return;
        }
        config := configFile.value;
        LogMessage(LoadedConfiguration(supplierConfig));
        prefix := [Starting, LoadedConfiguration(s.supplierConfig)];
      }
      if input.ReadFailed? {
        LogMessage(Failed(input.reason));
        assert Conversion(s, input, configFile) == Outcome(prefix + [Failed(input.reason)], []);
        return;
      }
      assert log == l0 + prefix;
      assert Conversion(s, input, configFile) == After(prefix, Run(s, input.value, config));
      RunConversion(input.value, config);
      Regroup3(l0, prefix, Run(s, input.value, config).log);
    }
  }

  // ---------------------------------------------------------------------
  // What a conversion promises.

  /** A field message is a warning exactly when the field was not copied. */
  lemma FieldMessageWarning(t: Table, f: Field, r: Resolution)
    requires r.Copied? ==> r.index < |t.headers|
    ensures IsWarning(FieldMessage(t, f, r)) <==> !r.Copied?
  {
    match r
    case Copied(i, letter) => MappedIsNoWarning(FieldName(f), letter, t.headers[i]);
    case OutOfRange(letter) => OutOfRangeWarns(letter, |t.headers|);
    case InvalidLetter(letter) => InvalidLetterWarns(letter);
    case Unmapped => NoMappingWarns(FieldName(f));
  }

  lemma MappedIsNoWarning(field: string, letter: string, header: string)
    ensures !IsWarning(Mapped(field, letter, header))
  {
    assert MessageText(Mapped(field, letter, header))[0] == 'M';
  }

  lemma OutOfRangeWarns(letter: string, columns: nat)
    ensures IsWarning(ColumnOutOfRange(letter, columns))
  {
    var w := "Warning: Column '";
    var x := "' is out of range (file has ";
    KeepsWarning(w, letter);
    KeepsWarning(w + letter, x);
    KeepsWarning(w + letter + x, NatToString(columns));
    KeepsWarning(w + letter + x + NatToString(columns), " columns)");
  }

  lemma InvalidLetterWarns(letter: string)
    ensures IsWarning(InvalidColumnLetter(letter))
  {
    var w := "Warning: Invalid column letter '";
    var x := "': ord() expected a character, but string of length ";
    KeepsWarning(w, letter);
    KeepsWarning(w + letter, x);
    KeepsWarning(w + letter + x, NatToString(|letter|));
    KeepsWarning(w + letter + x + NatToString(|letter|), " found");
  }

  lemma NoMappingWarns(field: string)
    ensures IsWarning(NoMapping(field))
  {
    var w := "Warning: No mapping found for '";
    KeepsWarning(w, field);
    KeepsWarning(w + field, "'");
  }

  /** Appending to a text that starts with the warning prefix keeps the prefix. */
  lemma KeepsWarning(a: string, b: string)
    requires |a| >= 9 && a[..9] == "Warning: "
    ensures |a + b| >= 9 && (a + b)[..9] == "Warning: "
  {
    assert (a + b)[..9] == a[..9];
  }


  /** The projector warns about field k exactly when it could not copy a column for it. */
  lemma FieldLogWarnings(t: Table, config: map<string, string>, k: nat)
    requires k < |FieldOrder|
    ensures IsWarning(FieldLog(t, config)[k]) <==> !Resolutions(config, |t.headers|)[k].Copied?
  {
    var res := Resolutions(config, |t.headers|);
    FieldMessageWarning(t, FieldOrder[k], res[k]);
  }

  /** `generate_output` announces each file it writes. */
  lemma OutputLogAnnounces(files: seq<OutputFile>, rows: nat, i: nat)
    requires i < |files|
    ensures Created(files[i].path) in OutputLog(files, rows)
  {
    var head := if rows > ChunkSize then [Splitting(ChunkCount(rows))] else [];
    assert OutputLog(files, rows)[|head| + i] == Created(files[i].path);
  }

  /** Every file a run writes is announced in its log. */
  lemma RunReportsEveryFile(s: Settings, t: Table, config: map<string, string>, i: nat)
    requires Usable(t)
    requires i < |Run(s, t, config).files|
    ensures Created(Run(s, t, config).files[i].path) in Run(s, t, config).log
  {
    var files := FilesOf(s, t, config);
    var out := OutputLog(files, |RowsOf(s, t, config)|);
    OutputLogAnnounces(files, |RowsOf(s, t, config)|, i);
    var before := [InputLoaded(|t.rows|, |t.headers|)] + ProcessingLog(s, t, config);
    assert Run(s, t, config).log == before + out + [Completed];
  }

  /**
   * A run starts by reporting the table's size, then names the mapping
   * when bypassing, then logs the seven field lines as one block, then the
   * processed count; it ends with the completion message.
   */
  lemma RunFrame(s: Settings, t: Table, config: map<string, string>)
    requires Usable(t)
    ensures var log := Run(s, t, config).log;
            var f := if s.bypass then 2 else 1;
            |log| >= f + |FieldOrder| + 2 && log[0] == InputLoaded(|t.rows|, |t.headers|)
            && log[f..f + |FieldOrder|] == FieldLog(t, Effective(s, t, config))
            && log[f + |FieldOrder|] == Processed(|RowsOf(s, t, config)|)
            && log[|log| - 1] == Completed
  {
    var sel := SelectionLog(s.bypass, s.autoDetect, s.detected);
    var rows := RowsOf(s, t, config);
    assert |sel| == if s.bypass then 1 else 0;
    LogBlocks(InputLoaded(|t.rows|, |t.headers|), sel, FieldLog(t, Effective(s, t, config)),
              Processed(|rows|), OutputLog(FilesOf(s, t, config), |rows|), Completed);
  }

  /** Without the template bypass, the configuration file's mapping is projected and the detection is ignored. */
  lemma TemplateModeUsesConfigFile(s: Settings, t: Table, config: map<string, string>)
    requires Usable(t) && !s.bypass
    ensures Conversion(s, Read(t), Read(config))
         == After([Starting, LoadedConfiguration(s.supplierConfig), InputLoaded(|t.rows|, |t.headers|)]
                  + FieldLog(t, config) + [Processed(|Projected(t, config)|)],
                  Outcome(OutputLog(FilesOf(s, t, config), |Projected(t, config)|) + [Completed],
                          FilesOf(s, t, config)))
    ensures FilesOf(s, t, config)
         == PlannedFiles(s.outputDirectory, Stem(s.inputFilePath), s.leadTime, Projected(t, config))
  {
    var o := Run(s, t, config);
    assert Effective(s, t, config) == config;
    assert ProcessingLog(s, t, config) == FieldLog(t, config) + [Processed(|Projected(t, config)|)];
    var prefix := [Starting, LoadedConfiguration(s.supplierConfig)];
    var rest := OutputLog(FilesOf(s, t, config), |Projected(t, config)|) + [Completed];
    AppendAssoc(prefix, [InputLoaded(|t.rows|, |t.headers|)], ProcessingLog(s, t, config),
                OutputLog(FilesOf(s, t, config), |Projected(t, config)|), [Completed]);
    assert prefix + o.log
        == prefix + [InputLoaded(|t.rows|, |t.headers|)] + ProcessingLog(s, t, config) + rest;
  }

  /** With the bypass on, the configuration file is never consulted. */
  lemma BypassIgnoresConfigFile(s: Settings, input: Loaded<Table>,
                                one: Loaded<map<string, string>>, other: Loaded<map<string, string>>)
    requires input.Read? ==> Usable(input.value)
    requires s.bypass
    ensures Conversion(s, input, one) == Conversion(s, input, other)
  {
  }

  /** A bypassing run says which kind of mapping it uses right after the table's size. */
  lemma BypassRunOpens(s: Settings, t: Table, config: map<string, string>)
    requires Usable(t) && s.bypass
    ensures Run(s, t, config).log[..2]
         == [InputLoaded(|t.rows|, |t.headers|),
             if s.autoDetect && s.detected != map[] then UsingDetected else UsingIntelligent]
  {
    var m := if s.autoDetect && s.detected != map[] then UsingDetected else UsingIntelligent;
    var selection := SelectionLog(s.bypass, s.autoDetect, s.detected);
    assert selection == [m];
    var fields := FieldLog(t, Effective(s, t, config));
    var processed := [Processed(|RowsOf(s, t, config)|)];
    Opening(selection, fields, processed, []);
    var rows := RowsOf(s, t, config);
    var files := FilesOf(s, t, config);
    Opening([InputLoaded(|t.rows|, |t.headers|)], ProcessingLog(s, t, config), OutputLog(files, |rows|), [Completed]);
  }

  /** Bypassing with a detection at hand projects the detected mapping. */
  lemma BypassUsesDetection(s: Settings, t: Table, configFile: Loaded<map<string, string>>)
    requires Usable(t) && s.bypass && s.autoDetect && s.detected != map[]
    ensures Conversion(s, Read(t), configFile).files
         == PlannedFiles(s.outputDirectory, Stem(s.inputFilePath), s.leadTime, Projected(t, s.detected))
    ensures Conversion(s, Read(t), configFile).log[..4]
         == [Starting, UsingDetected, InputLoaded(|t.rows|, |t.headers|), UsingDetected]
  {
    assert Effective(s, t, s.detected) == s.detected;
    BypassRunOpens(s, t, s.detected);
    var l := Run(s, t, s.detected).log;
    assert ([Starting, UsingDetected] + l)[..4] == [Starting, UsingDetected] + l[..2];
  }

  /**
   * Bypassing with a detection at hand copies no column at all: every
   * detected value is a header name of two or more characters, which the
   * projector rejects as a column letter. The run writes one file holding
   * only the lead-time line.
   */
  lemma DetectionModeWritesNoRows(s: Settings, headers: seq<string>, t: Table,
                                  configFile: Loaded<map<string, string>>)
    requires Usable(t) && s.bypass && s.autoDetect && s.detected != map[]
    requires s.detected == Detected(headers)
    ensures Projected(t, s.detected) == []
    ensures Conversion(s, Read(t), configFile).files
         == [OutputFile(PathJoin(s.outputDirectory, SingleName(Stem(s.inputFilePath))), FileLines(s.leadTime, []))]
  {
    forall key | key in s.detected
      ensures |s.detected[key]| >= 2
    {
      DetectedValuesLong(headers, key);
    }
    HeaderNamesGiveNoRows(t, s.detected);
    BypassUsesDetection(s, t, configFile);
  }

  /** Bypassing without a detection projects the heuristic mapping of the headers. */
  lemma BypassWithoutDetection(s: Settings, t: Table, configFile: Loaded<map<string, string>>)
    requires Usable(t) && s.bypass && !(s.autoDetect && s.detected != map[])
    ensures Conversion(s, Read(t), configFile).files
         == PlannedFiles(s.outputDirectory, Stem(s.inputFilePath), s.leadTime, Projected(t, Heuristic(t.headers)))
  {
    var config := IdentityConfig(t.headers);
    assert Conversion(s, Read(t), configFile).files == FilesOf(s, t, config);
    assert Effective(s, t, config) == Heuristic(t.headers);
  }

  /** ... and says so: first that it keeps the original names, then that the heuristic maps them. */
  lemma BypassWithoutDetectionLog(s: Settings, t: Table, configFile: Loaded<map<string, string>>)
    requires Usable(t) && s.bypass && !(s.autoDetect && s.detected != map[])
    ensures Conversion(s, Read(t), configFile).log[..4]
         == [Starting, UsingOriginalNames, InputLoaded(|t.rows|, |t.headers|), UsingIntelligent]
  {
    var config := IdentityConfig(t.headers);
    BypassRunOpens(s, t, config);
    OpeningAfter([Starting, UsingOriginalNames], Run(s, t, config).log);
  }

  lemma OpeningAfter(prefix: seq<Message>, log: seq<Message>)
    requires |log| >= 2
    ensures (prefix + log)[..|prefix| + 2] == prefix + log[..2]
  {
  }

  /** A configuration file that cannot be read stops the run before the input is touched. */
  lemma ConfigReadFailure(s: Settings, input: Loaded<Table>, reason: string)
    requires input.Read? ==> Usable(input.value)
    requires !s.bypass
    ensures Conversion(s, input, ReadFailed(reason)) == Outcome([Starting, Failed(reason)], [])
  {
  }

  /** An input that cannot be read writes no file and ends the log with its error. */
  lemma InputReadFailure(s: Settings, reason: string, configFile: Loaded<map<string, string>>)
    ensures Conversion(s, ReadFailed(reason), configFile).files == []
    ensures var log := Conversion(s, ReadFailed(reason), configFile).log;
            |log| >= 2 && log[0] == Starting && log[|log| - 1].Failed?
  {
  }

  /** A conversion fails, writing nothing, or completes, writing every planned file. */
  lemma ConversionEnds(s: Settings, input: Loaded<Table>, configFile: Loaded<map<string, string>>)
    requires input.Read? ==> Usable(input.value)
    ensures var o := Conversion(s, input, configFile);
            |o.log| >= 2 && o.log[0] == Starting
            && (o.log[|o.log| - 1] == Completed || (o.log[|o.log| - 1].Failed? && o.files == []))
  {
    if input.Read? && (s.bypass || configFile.Read?) {
      var config :=
        if s.bypass && s.autoDetect && s.detected != map[] then s.detected
        else if s.bypass then IdentityConfig(input.value.headers)
        else configFile.value;
      RunFrame(s, input.value, config);
    }
  }

  /** The entries an analysis logs are exactly the detected fields, each with its header. */
  lemma {:induction false} DetectionEntriesSpec(detected: map<string, string>, fields: seq<Field>)
    ensures forall m :: m in DetectionEntries(detected, fields) ==>
              m.DetectedEntry? && m.field in detected && detected[m.field] == m.header
    ensures forall f :: f in fields && FieldName(f) in detected ==>
              DetectedEntry(FieldName(f), detected[FieldName(f)]) in DetectionEntries(detected, fields)
    decreases |fields|
  {
    if |fields| > 0 {
      DetectionEntriesSpec(detected, fields[1..]);
      forall f | f in fields && FieldName(f) in detected
        ensures DetectedEntry(FieldName(f), detected[FieldName(f)]) in DetectionEntries(detected, fields)
      {
        if f != fields[0] {
          assert f in fields[1..];
        }
      }
    }
  }

  /** Every field the detector recorded is reported with the header it was recorded from. */
  lemma AnalysisReportsDetection(t: Table, f: Field)
    requires FieldName(f) in Detected(t.headers)
    ensures DetectedEntry(FieldName(f), Detected(t.headers)[FieldName(f)]) in AnalysisLog(t, Detected(t.headers))
  {
    var detected := Detected(t.headers);
    DetectionEntriesSpec(detected, FieldOrder);
    assert f in FieldOrder;
  }

  /** The loop that maps every header to itself. */
  method OriginalNames(headers: seq<string>) returns (config: map<string, string>)
    ensures config == IdentityConfig(headers)
  {
    config := map[];
    for k := 0 to |headers|
      invariant config == map h | h in headers[..k] :: h
    {
      assert headers[..k + 1] == headers[..k] + [headers[k]];
      config := config[headers[k] := headers[k]];
    }
    assert headers[..|headers|] == headers;
  }

  lemma Opening<T>(a: seq<T>, b: seq<T>, c: seq<T>, d: seq<T>)
    requires |a| == 1 && |b| >= 1
    ensures (a + b + c + d)[..2] == [a[0], b[0]]
    ensures (a + b + c)[0] == a[0]
  {
  }

  /** Where each piece of a run's log sits. */
  lemma LogBlocks<T>(first: T, sel: seq<T>, fields: seq<T>, count: T, out: seq<T>, last: T)
    ensures var log := [first] + (sel + fields + [count]) + out + [last];
            var f := 1 + |sel|;
            |log| == f + |fields| + 2 + |out| && log[0] == first
            && log[f..f + |fields|] == fields && log[f + |fields|] == count && log[|log| - 1] == last
  {
    var log := [first] + (sel + fields + [count]) + out + [last];
    assert log == ([first] + sel) + fields + ([count] + out + [last]);
  }

  lemma Regroup<T>(a: seq<T>, b: seq<T>, c: seq<T>, d: seq<T>)
    ensures a + b + c + d == a + (b + c + d)
  {
  }

  lemma Regroup3<T>(a: seq<T>, b: seq<T>, c: seq<T>)
    ensures a + b + c == a + (b + c)
  {
  }

  lemma AppendAssoc<T>(a: seq<T>, b: seq<T>, c: seq<T>, d: seq<T>, e: seq<T>)
    ensures a + b + c + d + e == a + (b + c + d + e)
  {
  }

  lemma {:induction false} EntriesAppend(detected: map<string, string>, fields: seq<Field>, f: Field)
    ensures DetectionEntries(detected, fields + [f])
         == DetectionEntries(detected, fields) + DetectionEntries(detected, [f])
    decreases |fields|
  {
    if |fields| == 0 {
      assert fields + [f] == [f];
    } else {
      assert (fields + [f])[1..] == fields[1..] + [f];
      EntriesAppend(detected, fields[1..], f);
    }
  }
}
