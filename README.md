# Price List Converter — a verified model of the conversion pipeline

The Price List Converter turns a supplier's price list, a table with arbitrary
headers, into a fixed seven-column template: Lead Time, Brand Name, Article,
Quantity, MOQ, MSRP, Price. It is driven by a column mapping. The mapping
comes from one of three places:

- a saved configuration file that maps template fields to column letters;
- a detection that matches the headers against a lexicon of English and Russian terms;
- a keyword heuristic with a positional fallback.

The converter projects the chosen columns and drops Lead Time (it goes into
cell A1 alone). It removes rows whose values are all missing. It writes one or
more `;`-separated CSV files of at most 10000 rows each, logging every step.

This project models that pipeline, with proofs, in nine modules:

- `Wrappers`: the option type.
- `Text`: the string primitives used.
  - Python's `str.isspace`, `lower`, `upper` on ASCII, Latin-1 and basic Cyrillic.
  - `strip`, substring test, decimal rendering, join and split.
- `Fields`: the template fields, their names, and the detector's lexicon.
  Each lexicon pattern is literal segments joined by `\s*`, with their
  `re.search` semantics.
- `Similarity`: `difflib.SequenceMatcher(None, a, b).ratio()` as an exact
  rational. It uses Ratcliff/Obershelp block matching with the
  `find_longest_match` tie rule (earliest in `a`, then earliest in `b`).
- `Detection`: `detect_columns` as nested loops over a score grid, proved
  against a reference choice.
- `Mapping`:
  - column letters `chr(65 + i)`;
  - the keyword heuristic and the positional fallback (as loops);
  - which mapping a run uses.
- `Projection`:
  - resolving a column reference;
  - the frame that assigns the seven fields one at a time, with pandas' row
    establishment (an empty frame takes its rows from the first column
    copied into it);
  - dropping Lead Time and all-missing rows;
  - a cell-by-cell reference definition of the same rows.
- `Output`: chunking, output file naming, `Path.stem`, and the lines of each file.
- `Converter`: the `PriceListConverter` class.
  - Its settings, its detection, its log and the files it writes are fields.
  - Its methods are `analyze_input_file`, `process_dataframe`,
    `generate_output`, `write_csv_with_lead_time` and `convert_file`.
  - Each method is proved equal to a specification function of the settings
    and inputs.

One consequence of the code as written is proved, not corrected. The
detector records original header names, and the projector reads every
mapping value as a column letter. Every detected name has two or more
characters, so a bypassing run that uses a detection copies no column. It
writes one file holding only the lead-time line
(`Converter.DetectionModeWritesNoRows`).

Reading the input table and the configuration file is not modelled. A
conversion takes what each read gave (`Loaded<T>`: the value, or the error's
text) as a parameter. A produced file is its path and its sequence of lines.

## Model

| member | source | states |
|---|---|---|
| Text.Lower | main.py:69 | `str.lower` keeps the length and maps each character by the lower-casing table; a reference definition element by element, whose properties Detection.NormalizeAll and the detection lemmas prove |
| Text.IsSpace | main.py:69 | `str.isspace()` for one character, also what `\s` matches; a reference table, whose use Text.TrimStart, Text.TrimEnd and Fields.SkipThenMatch characterise |
| Text.LowerChar | main.py:69 | `str.lower()` for one character; a reference table, which Text.Lower applies to every character |
| Text.UpperChar | main.py:547 | `str.upper()` for one character, never empty (sharp s gives "SS"); Projection.UpperOne and Projection.SharpSInvalid use it |
| Text.TrimStart | main.py:69 | the result is a suffix; everything removed is whitespace; it does not start with whitespace |
| Text.TrimEnd | main.py:69 | the result is a prefix; everything removed is whitespace; it does not end with whitespace |
| Text.Strip | main.py:69 | stripping never lengthens a header |
| Text.Upper | main.py:547 | `str.upper` never shortens a reference (sharp s becomes two letters) |
| Text.NatToString | main.py:472 | counts render as plain decimal digits without a leading zero; the digits denote the count, proved by Text.NatToStringValue |
| Text.DigitsValue | main.py:472 | the number a string of decimal digits denotes, read left to right; a reference definition digit by digit, against which Text.NatToStringValue is proved |
| Text.NatToStringValue | main.py:472 | the digits rendered for n denote n |
| Text.NatToStringInjective | main.py:472 | two counts render alike only if they are equal |
| Text.Split | main.py:619 | splitting yields at least one piece, and no piece holds the separator |
| Text.SplitJoin | main.py:619 | splitting a `;`-joined line gives back its fields when no field contains `;` |
| Text.JoinCount | main.py:619 | joining n separator-free fields puts exactly n - 1 separators in |
| Text.Join | main.py:620 | `sep.join(fields)`, the `;` of `to_csv(sep=';')`; a reference definition, whose properties Text.SplitJoin and Text.JoinCount prove |
| Text.ContainsAt | main.py:506-523 | an occurrence at any position makes `w in s` true |
| Text.Contains | main.py:510-523 | Python's `w in s`; a reference definition, whose property Text.ContainsAt proves |
| Fields.FieldNameInjective | main.py:492 | distinct template fields have distinct names |
| Fields.FieldName | main.py:492 | the output column names, which are the configuration's keys; a reference table, whose property Fields.FieldNameInjective proves |
| Fields.Position | main.py:492 | every field stands at exactly one place of the template order |
| Fields.Raw | main.py:36-66 | a pattern's text starts with its first literal segment |
| Fields.MatchAt | main.py:77 | `re.search` anchored at one position: the first literal there, then `\s*` and the rest; a reference definition, whose properties Fields.MatchAtFits and Fields.LiteralFoundInItself prove |
| Fields.SkipThenMatch | main.py:77 | `\s*` followed by the rest of the pattern: any run of `str.isspace` characters, then a match; a reference definition used by Fields.MatchAt |
| Fields.SearchFrom | main.py:77 | `re.search` trying every start from position i on; a reference definition, whose properties Fields.SearchNonEmpty and Fields.SearchFromFits prove |
| Fields.Search | main.py:77 | `re.search(pattern, header)` succeeds: the pattern matches at some position; a reference definition, whose properties Fields.SearchNonEmpty, Fields.SearchFromFits and Fields.LiteralFoundInItself prove |
| Fields.Patterns | main.py:36-66 | each field's lexicon, in the order `detect_columns` scans it; a reference table, whose properties Fields.LexiconSegmentsLong and Fields.FoundHeadersLong prove |
| Fields.SearchNonEmpty | main.py:77 | a lexicon pattern can only be found in a non-empty header |
| Fields.SearchFromFits | main.py:77 | a pattern is only found in a header at least as long as its first literal |
| Fields.LexiconSegmentsLong | main.py:36-66 | every lexicon entry starts with a literal of two or more characters |
| Fields.FoundHeadersLong | main.py:36-77 | the lexicon only finds headers of two or more characters |
| Fields.LiteralFoundInItself | main.py:77 | a one-word pattern is found in a header equal to it |
| Fields.RawShowsWhitespaceClass | main.py:37 | a two-word entry's text is its words around a literal `\s*` (a worked example) |
| Similarity.Run | main.py:79 | the run at (i, j) stays inside the window and stops only at the window's edge or at a mismatch |
| Similarity.RunIsCommon | main.py:79 | the stretch the run covers is the same text in both strings |
| Similarity.Scan | main.py:79 | the scan keeps a block inside the window and never shrinks the best size |
| Similarity.ScanIsRun | main.py:79 | the scan ends on its starting block or on the whole run found at some start |
| Similarity.Longest | main.py:79 | `find_longest_match` returns a common block inside the window |
| Similarity.LongestIsFirstLongest | main.py:79 | no block in the window is longer, and any earlier start is strictly shorter (the tie rule) |
| Similarity.Matches | main.py:79 | the matched total fits in both halves of the window |
| Similarity.MatchCount | main.py:79 | the matched total is at most either string's length |
| Similarity.RatioOf | main.py:79 | the ratio is 2·M/(\|a\|+\|b\|), a fraction in [0, 1] |
| Similarity.SelfMatch | main.py:79 | a string matches itself completely |
| Similarity.SelfRatio | main.py:79 | a non-empty string compared with itself scores exactly 1 |
| Similarity.GreaterThenAtLeast | main.py:80 | x > y and y >= z give x > z for the exact scores (an arithmetic fact) |
| Similarity.AtLeastThenGreater | main.py:80 | x >= y and y > z give x > z (an arithmetic fact) |
| Similarity.AtLeastTransitive | main.py:80 | >= on scores is transitive (an arithmetic fact) |
| Detection.NormalizeAll | main.py:69 | one normalised header per header, each `lower().strip()` of it; a reference definition element by element, whose properties Detection.DetectedIff and Detection.DetectedChoice prove |
| Detection.Normalize | main.py:69 | `header.lower().strip()` never lengthens a header |
| Detection.Similar | main.py:79 | every score is a fraction in [0, 1] |
| Detection.ScoreGrid | main.py:75-79 | cell (i, j) holds the score exactly when pattern j is found in header i; a reference definition element by element, whose properties Detection.BestInIsHit and Detection.BestInDominates prove |
| Detection.Consider | main.py:80-82 | one step of the inner loop: take the pair if it is a hit scoring strictly above the best so far; a reference definition, whose property Detection.ConsiderKeepsSummary proves |
| Detection.ScanRow | main.py:76-82 | the inner loop over one header's patterns; a reference definition, whose properties Detection.ScanRowSummary proves and Detection.ScanPatterns computes |
| Detection.ScanRows | main.py:75-82 | the outer loop over the headers; a reference definition, whose property Detection.ScanRowsSummary proves |
| Detection.BestFor | main.py:69-82 | one field's choice over the normalised headers, before the threshold; a reference definition, whose properties Detection.BestInIsFirstBest and Detection.BestInIsHit prove |
| Detection.BestIn | main.py:72-82 | a choice names a real header and a real pattern |
| Detection.Bests | main.py:71 | one choice per template field, in the lexicon's order; a reference definition element by element, whose properties Detection.DetectedLookup prove |
| Detection.BestMatch | main.py:72-82 | the nested loops compute the reference choice `BestIn` |
| Detection.ScanPatterns | main.py:76-82 | the inner loop over one header's patterns is the row scan `ScanRow` of the score grid |
| Detection.DetectField | main.py:72-85 | a field is recorded, with the original header, exactly when its choice passes the test |
| Detection.Recorded | main.py:84 | `if best_match and best_score > 0.2`; a reference definition, whose use Detection.RecordUpToLookup and Detection.DetectedIff characterise |
| Detection.DetectColumns | main.py:31-87 | `detect_columns` returns `Detected(headers)` |
| Detection.RecordFields | main.py:71-85 | the loop over the lexicon's fields records each field whose choice passes, in lexicon order |
| Detection.RecordUpTo | main.py:71-85 | the map after the first k fields of the lexicon; a reference definition field by field, whose properties Detection.RecordUpToLookup and Detection.RecordUpToKeys prove |
| Detection.Detected | main.py:31-87 | what `detect_columns` returns; a reference definition, whose properties Detection.DetectedIff, Detection.DetectedChoice, Detection.DetectedLookup and Detection.DetectedValuesLong prove |
| Detection.ScanRowsSummary | main.py:75-82 | after any number of headers, the choice is the first strictly best hit seen so far |
| Detection.ScanRowSummary | main.py:76-82 | after any number of one header's patterns, the choice is the first strictly best hit seen so far |
| Detection.ConsiderKeepsSummary | main.py:80-82 | one step of the inner loop keeps the choice the first strictly best hit seen so far |
| Detection.RecordUpToLookup | main.py:84-85 | a field is recorded exactly when its own choice passes, and with that header |
| Detection.RecordUpToKeys | main.py:85 | only template field names become keys |
| Detection.HitHeaderNotEmpty | main.py:77 | a header with a hit is not empty, so `best_match` is truthy |
| Detection.BestInIsHit | main.py:77-82 | the choice is a regex hit and carries that hit's own score |
| Detection.BestInDominates | main.py:80-82 | no hit beats the choice, and every earlier hit scores strictly lower |
| Detection.BestInIsFirstBest | main.py:75-82 | the choice is the first hit, in column then pattern order, with the highest score |
| Detection.DetectedLookup | main.py:84-85 | field f is in the result exactly when its choice passes, mapped to the original header |
| Detection.DetectedKeys | main.py:85 | every key of the result is a template field name |
| Detection.DetectedIff | main.py:71-85 | f is detected exactly when some hit for f scores above 0.2 |
| Detection.DetectedChoice | main.py:71-85 | a detected value is the original name of the header of the first best hit, which scores above 0.2 |
| Detection.DetectedValuesLong | main.py:69-85 | every detected value is an original header of two or more characters |
| Detection.GreaterThanThresholdIsPositive | main.py:84 | a score above 0.2 beats the initial `best_score` of 0 (an arithmetic fact) |
| Detection.FullScoreChosen | main.py:75-82 | a perfect hit makes the choice a perfect hit no later than it |
| Detection.ExactHeaderDetected | main.py:31-87 | a header that normalises to a one-word pattern gets its field detected, from that column or an earlier one |
| Mapping.Letter | main.py:507 | `chr(65 + i)` is one character of code 65 + i |
| Mapping.LetterInjective | main.py:507 | distinct columns get distinct letters |
| Mapping.ChainRank | main.py:510-523 | every field has one place in the if/elif chain |
| Mapping.Keywords | main.py:510-523 | the keyword list each branch of the chain tests, one per field; a reference table, used by Mapping.KeywordFieldSpec |
| Mapping.KeywordField | main.py:510-523 | the field the if/elif chain gives a normalised header; a reference definition, whose properties Mapping.KeywordFieldSpec and Mapping.KeywordFieldNone prove |
| Mapping.KeywordFieldSpec | main.py:510-523 | a header gets field f exactly when it mentions f and no field earlier in the chain |
| Mapping.KeywordFieldNone | main.py:510-523 | a header gets no field exactly when it mentions no keyword |
| Mapping.ColumnFields | main.py:504-523 | one chain result per column; a reference definition element by element, whose properties Mapping.KeywordMapSpec prove |
| Mapping.Slots | main.py:527-540 | column i's fallback slot, for every column; a reference definition element by element, whose properties Mapping.PositionalSpec prove |
| Mapping.MentionsAny | main.py:510 | the generator is true exactly when some keyword is a substring |
| Mapping.Mentions | main.py:510 | `any(word in col for word in words)`; a reference definition, whose property Mapping.MentionsIff proves |
| Mapping.MentionsIff | main.py:510 | a header mentions a list exactly when one of its words is a substring |
| Mapping.ChainField | main.py:510-523 | the chain computes `KeywordField` |
| Mapping.KeywordMapping | main.py:503-504 | the heuristic over the lower-cased, stripped headers computes `KeywordMap` |
| Mapping.AssignColumns | main.py:506-523 | the loop over the columns assigns each column its chain field's name, later columns overriding earlier ones |
| Mapping.PositionalMapping | main.py:526-540 | the fallback loop computes `PositionalMap` |
| Mapping.IntelligentMapping | main.py:502-540 | the heuristic computes `Heuristic` |
| Mapping.AssignUpToSpec | main.py:504-523 | a field is present exactly when some column was assigned it, and its letter is the last such column's |
| Mapping.AssignUpTo | main.py:506-523 | the dict after the first n columns, later columns overriding earlier ones; a reference definition, whose properties Mapping.AssignUpToSpec, Mapping.AssignUpToKeys and Mapping.AssignUpToEmpty prove |
| Mapping.AssignUpToKeys | main.py:504-523 | only field names are keys |
| Mapping.AssignedLettersDistinct | main.py:504-523 | no letter is given to two fields |
| Mapping.AssignUpToEmpty | main.py:526 | the map is empty exactly when no column was assigned |
| Mapping.KeywordMapEmpty | main.py:526 | the keyword map is empty exactly when no header mentions a keyword |
| Mapping.KeywordMapSpec | main.py:504-523 | field f maps to the letter of the last header whose chain result is f, and is present only if there is one |
| Mapping.KeywordMap | main.py:503-523 | the keyword heuristic's map; a reference definition, whose properties Mapping.KeywordMapSpec, Mapping.KeywordMapEmpty and Mapping.AssignedLettersDistinct prove |
| Mapping.SlotAgrees | main.py:529-540 | the fallback slot table read both ways |
| Mapping.Slot | main.py:529-540 | the fallback's slot for column i, with column C skipped; a reference table, whose properties Mapping.SlotAgrees and Mapping.PositionalSpec prove |
| Mapping.PositionalSpec | main.py:526-540 | A→Article, B→Brand Name, D→Quantity, E→Price, F→MSRP, each only if that column exists |
| Mapping.PositionalKeys | main.py:526-540 | only field names are keys of the fallback |
| Mapping.PositionalEmptyIff | main.py:526-540 | the fallback is empty only for a table without columns |
| Mapping.PositionalMap | main.py:525-540 | the positional fallback's map for n columns; a reference definition, whose properties Mapping.PositionalSpec, Mapping.PositionalKeys and Mapping.PositionalEmptyIff prove |
| Mapping.Heuristic | main.py:502-542 | the keyword map, or the positional map when it is empty; a reference definition, whose property Mapping.HeuristicFallback proves |
| Mapping.SelectConfig | main.py:495-542 | the mapping `process_dataframe` projects with; a reference definition, whose properties Mapping.BypassIgnoresConfig and Mapping.HeuristicFallback prove, and which Converter.PriceListConverter.SelectMapping computes |
| Mapping.BypassIgnoresConfig | main.py:495-542 | with bypass on, the incoming configuration does not matter |
| Mapping.HeuristicFallback | main.py:526 | the fallback is used exactly when no header mentions a keyword |
| Projection.Column | main.py:552 | `df.iloc[:, c]` is column c of every row; a reference definition element by element, whose properties Projection.FrameAfterShape prove |
| Projection.ResolveRef | main.py:547-559 | a copied index is a column of the table and its letter one character; the outcome is never "unmapped" and always carries the upper-cased reference that is logged; Projection.ResolveRefCopied and Projection.LongReferenceInvalid prove the rest |
| Projection.Resolve | main.py:545-562 | a field is reported unmapped exactly when the configuration has no entry for it; a copied index is in range |
| Projection.Resolutions | main.py:545-562 | one resolution per template field, in template order; every copied index is in range |
| Projection.Fill | main.py:556 | a filled column has the frame's height and the value on every row; a reference definition element by element, whose properties Projection.FrameAfterShape prove |
| Projection.EmptyFrame | main.py:493 | the new frame has seven columns and no rows |
| Projection.AssignSeries | main.py:552 | assigning a column keeps the frame rectangular |
| Projection.AssignBlank | main.py:556-562 | assigning `""` keeps the frame's height |
| Projection.Step | main.py:545-562 | each field's assignment leaves the frame with no rows or the table's rows |
| Projection.FrameAfter | main.py:545-562 | the same holds after any number of fields |
| Projection.DataRows | main.py:566-567 | dropping Lead Time leaves each row's six data fields in order; a reference definition element by element, whose properties Projection.ProjectedIsExpected prove |
| Projection.DropEmpty | main.py:570 | `dropna(how='all')` keeps only rows with a present value, taken from the input, never more |
| Projection.Projected | main.py:490-573 | the rows `process_dataframe` returns; a reference definition through the stepwise frame, whose properties Projection.ProjectedIsExpected and Projection.ProjectedShape prove |
| Projection.FirstCopied | main.py:552 | the first field whose reference copies a column |
| Projection.ExpectedUnfiltered | main.py:545-567 | each row's six data fields, defined cell by cell; a reference definition element by element, whose properties Projection.ProjectedIsExpected prove |
| Projection.FrameAfterShape | main.py:545-562 | the frame after k assignments, cell by cell: missing before the first copy, `""` after it, copies verbatim |
| Projection.ProjectedIsExpected | main.py:490-573 | the stepwise projection equals the cell-by-cell reference rows |
| Projection.DropEmptyAppend | main.py:570 | dropping distributes over concatenation, so survivors keep their order |
| Projection.DropEmptyKeeps | main.py:570 | a row with a present value survives |
| Projection.DropEmptyNone | main.py:570 | nothing is dropped exactly when no row is all missing |
| Projection.ProjectedShape | main.py:490-573 | every output row has six fields and a present value; there are never more rows than in the source |
| Projection.NothingCopiedNoRows | main.py:493-562 | when no reference resolves, the output has no rows |
| Projection.LongReferenceInvalid | main.py:547-559 | a reference of two or more characters is an invalid letter |
| Projection.HeaderNamesGiveNoRows | main.py:497-562 | a mapping whose values all have two or more characters yields no rows |
| Projection.BlankAfterCopyKeepsRows | main.py:552-570 | a `""` fill after the first copy keeps every source row |
| Projection.CopiedVerbatim | main.py:552 | a copied field holds the source cell unchanged |
| Projection.UpperOne | main.py:547 | upper-casing one character is the character's upper-case text |
| Projection.LetterResolves | main.py:507-552 | the letters of the first 32 columns resolve back to their own columns |
| Projection.LowerCaseLetterAliases | main.py:507-552 | the letter of column i, for 32 ≤ i < 58, resolves to column i - 32 |
| Projection.ResolveRefCopied | main.py:547-552 | a reference copies column i exactly when it upper-cases to the letter of i |
| Projection.SharpSInvalid | main.py:547-559 | `ß` upper-cases to "SS" and is an invalid letter |
| Projection.SampleResolutions | main.py:545-562 | the B..G configuration resolves Brand Name to B through Price to G, with no Lead Time |
| Projection.IdentityCopy | main.py:545-567 | when data field d copies column d + 1, each row is its columns B to G |
| Projection.IdentityProjected | main.py:490-573 | such a mapping projects each row onto columns B to G, minus empty rows |
| Projection.SampleConfiguration | main.py:490-573 | the B..G configuration projects every row onto columns B to G |
| Output.Chunk | main.py:594-596 | chunk i is rows [i·10000, min((i+1)·10000, n)); a reference definition element by element, whose properties Output.ChunkSizes and Output.ChunksCoverTable prove |
| Output.FileLines | main.py:606-620 | the first line is the lead time; line r + 1 is row r; a reference definition element by element, whose properties Output.EveryFileStartsWithLeadTime and Output.OneRowFile prove |
| Output.RenderRow | main.py:615-620 | one data line: an empty first field, then the row's fields, `;` between them; a reference definition, whose properties Output.RenderRowRoundTrip and Output.RenderRowStartsWithSeparator prove |
| Output.PlannedFiles | main.py:583-604 | the files `generate_output` writes, in order; a reference definition, whose properties Output.PlannedFilesLayout, Output.ChunksCoverTable, Output.EveryFileStartsWithLeadTime and Output.PartPathsDistinct prove |
| Output.Stem | main.py:582-584 | `Path(input_file_path).stem`; a reference definition, whose property Output.StemOfFileName proves |
| Output.LastDot | main.py:583 | the index of the last '.', or the length when there is none |
| Output.ChunkCountBounds | main.py:590 | the chunk count is the ceiling of n / 10000 |
| Output.ChunkCount | main.py:590 | `(len(df) + chunk_size - 1) // chunk_size`; a reference definition, whose property Output.ChunkCountBounds proves |
| Output.ConcatPrefix | main.py:593-596 | the first k chunks concatenated are the first min(k·10000, n) rows |
| Output.ChunksCoverTable | main.py:593-596 | all chunks concatenated in order are the table |
| Output.ChunkSizes | main.py:593-596 | every chunk holds 1 to 10000 rows, and all but the last exactly 10000 |
| Output.PartNamesDistinct | main.py:597-598 | two different parts get two different file names |
| Output.PathJoinInjective | main.py:598 | joining one directory to two different names gives two different paths |
| Output.PathJoin | main.py:598-602 | `output_dir / name`; a reference definition, whose property Output.PathJoinInjective proves |
| Output.SingleName | main.py:584-602 | `{stem}_output.csv`; a reference definition, whose use Output.PlannedFilesLayout shows |
| Output.PartName | main.py:584-598 | `{stem}_output_part_{i+1}.csv`; a reference definition, whose property Output.PartNamesDistinct proves |
| Output.PartPathsDistinct | main.py:593-600 | no two files of a split table share a path, so no part overwrites another |
| Output.TwentyFiveThousandRows | main.py:589-596 | 25000 rows make three parts of 10000, 10000 and 5000 (a worked example) |
| Output.PlannedFilesLayout | main.py:583-604 | up to 10000 rows: one `<stem>_output.csv`; more: numbered `<stem>_output_part_<i+1>.csv` parts, each with its chunk (a worked example) |
| Output.EveryFileStartsWithLeadTime | main.py:599-610 | every file, each chunk's included, starts with the lead-time line |
| Output.RenderRowRoundTrip | main.py:615-619 | a row of k fields has k separators and splits back into an empty field plus its fields |
| Output.RenderRowStartsWithSeparator | main.py:615-619 | every data line starts with `;` (the empty column A) |
| Output.MissingIsEmptyField | main.py:619 | a missing value is written as an empty field |
| Output.Render | main.py:620 | a written field: NaN as an empty field, a value as its text; a reference definition, whose property Output.MissingIsEmptyField proves |
| Output.OneRowFile | main.py:606-619 | a one-row file is the lead-time line, then the row's line |
| Output.FileText | main.py:608-620 | the file's text, each line followed by a newline; a reference definition, whose properties Output.OneRowFile and Output.EmptyLeadTime prove |
| Output.EmptyLeadTime | main.py:609-612 | an empty lead time gives an empty first line (the `""` case of Output.FileLines' first line) |
| Output.LastComponentAfterSlash | main.py:582-583 | the last path component follows the last '/' |
| Output.LastDotOfSuffix | main.py:583 | the suffix's dot is the last one |
| Output.StemOfFileName | main.py:582-584 | the stem of `dir/base.ext` is `base` |
| Converter.FieldLog | main.py:545-562 | the projector logs exactly one line per template field |
| Converter.MessageText | main.py:198-604 | the text each log message of the analysis and of the conversion is written with; a reference table, used by Converter.FieldMessageWarning and the warning lemmas |
| Converter.SelectionLog | main.py:495-542 | what `process_dataframe` logs before projecting; a reference definition, checked by Converter.BypassRunOpens and Converter.RunFrame |
| Converter.OutputLog | main.py:589-604 | what `generate_output` logs; a reference definition, whose property Converter.OutputLogAnnounces proves |
| Converter.Run | main.py:472-480 | everything a conversion does once the table is read; a reference definition, whose properties Converter.RunFrame and Converter.RunReportsEveryFile prove |
| Converter.Conversion | main.py:421-488 | `convert_file` as a function of the settings and of what the reads give; a reference definition, whose properties Converter.ConversionEnds, Converter.ConfigReadFailure, Converter.InputReadFailure and the bypass lemmas prove |
| Converter.AnalysisLog | main.py:198-204 | what an analysis logs; a reference definition, whose property Converter.AnalysisReportsDetection proves |
| Converter.PriceListConverter.constructor | main.py:12-29 | bypass off, auto-detect on, no detection, lead time "0", empty log |
| Converter.PriceListConverter.LogMessage | main.py:622-627 | a message is appended to the log |
| Converter.PriceListConverter.AnalyzeInput | main.py:182-207 | without a path nothing happens; a read table is detected and reported; a failed read logs its error and keeps the detection |
| Converter.PriceListConverter.LogDetection | main.py:199-204 | one line when nothing was detected, else a heading and the entries |
| Converter.PriceListConverter.LogEntries | main.py:201-202 | one entry per detected field, in the lexicon's order |
| Converter.PriceListConverter.SelectMapping | main.py:495-542 | the mapping used is `SelectConfig` of the settings, logged as the source does |
| Converter.PriceListConverter.AssignFields | main.py:545-562 | the loop over the template fields builds `FrameAfter` and logs `FieldLog`, one message per field in template order |
| Converter.PriceListConverter.AssignField | main.py:546-562 | field k is copied exactly when its upper-cased reference is one letter naming an existing column; otherwise it is blanked, and the message logged is the one for its resolution |
| Converter.PriceListConverter.ProcessDataframe | main.py:490-573 | the rows are `RowsOf` the settings, and the log gains `ProcessingLog` |
| Converter.PriceListConverter.WriteCsvWithLeadTime | main.py:606-620 | the file written has `FileLines` of the lead time and the rows |
| Converter.PriceListConverter.GenerateOutput | main.py:575-604 | the files written are `PlannedFiles`, each announced in the log |
| Converter.PriceListConverter.WriteParts | main.py:593-600 | part i holds rows [i·10000, min((i+1)·10000, n)) under the name `_part_{i+1}`, and each part is announced once it is written |
| Converter.PriceListConverter.RunConversion | main.py:472-480 | the log and files gain exactly `Run` of the settings |
| Converter.PriceListConverter.ConvertFile | main.py:421-488 | the log and files gain exactly `Conversion` of the settings and of what the reads gave |
| Converter.OriginalNames | main.py:443-445 | the loop maps every header to itself |
| Converter.IdentityConfig | main.py:443-445 | every header mapped to itself; a reference definition, which Converter.OriginalNames computes |
| Converter.FieldMessageWarning | main.py:545-562 | a field's message is a warning exactly when its column was not copied |
| Converter.FieldMessage | main.py:553-561 | the projector's log line for one field and its resolution; a reference definition, whose property Converter.FieldMessageWarning proves |
| Converter.MappedIsNoWarning | main.py:553 | the message for a copied column is not a warning |
| Converter.OutOfRangeWarns | main.py:555 | the message for a letter past the last column is a warning |
| Converter.InvalidLetterWarns | main.py:558 | the message for a reference `ord` rejects is a warning |
| Converter.NoMappingWarns | main.py:561 | the message for a field without a mapping is a warning |
| Converter.FieldLogWarnings | main.py:545-562 | the projector warns about field k exactly when field k was not copied |
| Converter.OutputLogAnnounces | main.py:600-604 | `generate_output` logs every file it writes |
| Converter.RunReportsEveryFile | main.py:472-480 | every file a run writes is announced in its log |
| Converter.RunFrame | main.py:472-480 | a run logs the table size first, then the mapping line when bypassing, then the seven field lines as one block, then the processed count, and the completion message last |
| Converter.TemplateModeUsesConfigFile | main.py:446-451 | without bypass, the configuration file's mapping is projected verbatim, whatever was detected |
| Converter.BypassIgnoresConfigFile | main.py:426-451 | with bypass, the configuration file is never consulted |
| Converter.BypassRunOpens | main.py:495-542 | a bypassing run names the mapping it uses right after the table size |
| Converter.BypassUsesDetection | main.py:426-430 | bypass with a detection projects the detected mapping |
| Converter.DetectionModeWritesNoRows | main.py:426-430 | bypass with a non-empty detection projects no rows and writes the single file holding only the lead-time line |
| Converter.BypassWithoutDetection | main.py:431-445 | bypass without a detection projects the heuristic, not the identity configuration |
| Converter.BypassWithoutDetectionLog | main.py:431-445 | such a run logs original names, then intelligent mapping |
| Converter.ConfigReadFailure | main.py:446-451 | an unreadable configuration file ends the run at once with its error |
| Converter.InputReadFailure | main.py:453-470 | an unreadable input writes no file and ends the log with its error |
| Converter.ConversionEnds | main.py:421-488 | every run either completes or fails having written nothing |
| Converter.DetectionEntriesSpec | main.py:201-202 | the entries are exactly the detected fields, each with its header |
| Converter.DetectionEntries | main.py:201-202 | one entry per detected field, in the lexicon's order; a reference definition, whose property Converter.DetectionEntriesSpec proves |
| Converter.DetectionLog | main.py:199-204 | the one line for no detection, else a heading and the entries; a reference definition, whose property Converter.AnalysisReportsDetection proves |
| Converter.AnalysisReportsDetection | main.py:195-202 | every detected field is reported with its header |

## Left out

- The Tk user interface is not modelled: the window, browse dialogs,
  configuration editor windows, message boxes, progress bar and the two
  toggles. The auto-detect toggle re-runs the analysis. Switching bypass on
  also turns auto-detect on and then re-runs the analysis. The model's
  settings still allow bypass without auto-detect, because the user can
  untick auto-detect afterwards.
- Threading and `root.after` are not modelled; a message is appended to the
  log at once. Timestamps come from a clock and are not modelled.
- File reading is a parameter. That covers `read_csv`, `read_excel`,
  sheet handling with its "Multiple sheets found" message, the JSON
  configuration load and the cached input table. An error is the error's text.
- Writing files cannot fail here. A failing write would end the run with
  "Error during conversion", after the files before it were written.
- Configuration values are strings. A non-string value would raise at
  `.upper()` and abort the run.
- The identity configuration in bypass mode reads the input file itself. In
  the model it reads the same table the conversion projects, because the
  input is read once.
- Cells are pre-rendered strings. Not modelled: the number-to-text rendering
  of pandas, CSV quoting, and the platform line terminator (each line ends in
  `\n`). Cells never contain `;`, quotes or newlines.
- Similarity.RatioOf, Detection.BestIn: scores are compared as exact
  fractions. The source compares the correctly rounded `float` values of
  `ratio()`. Two different fractions in [0, 1] with denominators below N
  differ by more than 1/N², so the two orders agree while 1/N² exceeds twice
  the rounding error 2^-53. The denominators are |header| + |pattern|, so this
  holds while that sum stays below 2^26 (about 6.7·10^7 characters). Longer
  headers are not modelled.
- Only literal text and `\s*` occur in the lexicon; the rest of the regex engine is not modelled.
- `re.IGNORECASE` is matching on the lower-cased header.
  - This is exact for the lexicon's letters.
  - Unicode's extra case-insensitive equivalences are not modelled, such as
    the long s or the Kelvin sign matching ASCII letters.
- Text.LowerChar, Text.UpperChar: only ASCII, Latin-1 and basic Cyrillic
  letters change case. Sharp s upper-cases to "SS".
- Text.IsSpace: the whitespace set is that of `str.isspace`. pandas' own
  header conversion is not modelled. Headers are strings.
- Mapping.Letter requires fewer than 0xD800 - 65 columns. Dafny characters
  have no surrogates, and `chr(65 + i)` is then a surrogate.
  Every conversion assumes this bound on its input table (`Converter.Usable`,
  required by Converter.Conversion and Converter.PriceListConverter.ConvertFile),
  template mode included, where no letter is computed; wider tables are not modelled.
- Output.Stem and Output.PathJoin are simplified:
  - paths use `/` only;
  - an empty output directory gives a bare file name;
  - `Path` normalisation (repeated or trailing slashes, `.`) is not modelled.
- `test_app.py`, `create_windows_exe.py` and `distribute_app.py` are not part
  of this model. The fixture configuration of columns B to G appears as
  `Projection.SampleConfig`.
