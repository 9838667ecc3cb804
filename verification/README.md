# chess-prep core, modelled in Dafny

chess-prep is a chess preparation tool. It imports PGN files into SQLite and
searches them. It also keeps analysis workspaces, which are trees of positions
with comments and NAGs, and runs a UCI engine on positions. This project
models the logic that sits between the database, the engine process and the
chess-rules library, and proves what that logic promises:

- **Engine protocol** (`engine.dfy`, module `Engine`):
  - waiting for a handshake token (`wait_for_uci_token`);
  - parsing one `info` line (`parse_info_line`);
  - the replacement rule `better_info` and the request normalisation;
  - the best-record-per-rank read loop and the final analysis of `collect_analysis_result`;
  - converting a principal variation to SAN (`pv_uci_to_san`) over an abstract move oracle.
- **Search filter compiler** (`query.dfy`, module `Query`): `normalized_filter_text`, `validate_date_input` and `build_where_clause`. The clause list is `seq<string>`, the values are a small datatype, and there is no database.
- **Pagination** (`pagination.dfy`, module `Paging`): `Pagination::default` and `Pagination::normalized`.
- **Analysis workspaces** (`workspace.dfy`, module `Workspace`):
  - the validation block of `save_analysis_workspace` and the node rows it then writes;
  - the name check of `rename_analysis_workspace`;
  - the NAG codec `serialize_nags` / `parse_nags`.
- **PGN import** (`import.dfy`, module `Import`):
  - `GameHeaders::set_tag` and `SingleGameCollector::san`, on a class updated in place;
  - the counters of `ingest_game_chunk`;
  - the chunk-splitting loop of `import_pgn_file_with_progress` over a line reader.
- **Support modules**:
  - `text.dfy` (module `Text`): Rust's `str::trim`, `split_whitespace`, `split`, `join` and `parse::<u32/i32>` as functions with their properties;
  - `line_reader.dfy` (module `LineIo`): `BufRead::read_line` over a finite sequence of lines;
  - `wrappers.dfy`: `Option` and `Result`.

Imperative code stays imperative:
- `wait_for_uci_token`, `parse_info_line`, `pv_uci_to_san`, `collect_analysis_result`, `build_where_clause`, the save validation loops and the import loop are methods with loops. Each is proved equal to a specification function, and the properties are lemmas about those functions.
- `GameHeaders` is a class whose methods update its fields.

Using up the 50,000-line bound of `collect_analysis_result` without a `bestmove` line is not an error:
- the loop just ends (src/engine.rs:190-224);
- the analysis then succeeds if some `info` record was stored (src/engine.rs:226-230);
- `Engine.ReadAnalysisEnds` and `Engine.CollectAnalysisErrors` state this.

Several record shapes in src/types.rs are stale, so the model rebuilds them from where they are used:
- `ImportSummary` gets the `errors` counter that src/import.rs:263 and tests/perf_guardrails.rs:54 use;
- `EngineLine` comes from src/engine.rs:236-243;
- `EngineAnalysis` comes from src/engine.rs:263-270.

## Model

| member | source | states |
|---|---|---|
| Text.Trim | src/query.rs:7 | The trimmed text is empty exactly when the input is all whitespace; otherwise it neither starts nor ends with whitespace |
| Text.TrimInfix | src/query.rs:7 | What trimming removes is whitespace at either end: the result is the infix after the leading whitespace, and the rest after it is blank |
| Text.LeadingSpace | src/query.rs:7 | The count is the length of the whitespace run at the start of the text |
| Text.TrimStart | src/query.rs:7 | The result is a suffix of the input, everything removed is whitespace, and the result does not start with whitespace |
| Text.TrimInfixFront | src/query.rs:7 | A leading whitespace character in front of a trimmed infix keeps it a trimmed infix |
| Text.TrimInfixBack | src/query.rs:7 | A trailing whitespace character behind a trimmed infix keeps it a trimmed infix |
| Text.TrimOfTrimmed | src/query.rs:7 | Text that neither starts nor ends with whitespace is its own trim |
| Text.BlankConcat | src/import.rs:326 | A concatenation is blank exactly when both parts are |
| Text.TrimIdempotent | src/query.rs:5-13 | Trimming twice is trimming once |
| Text.SplitWhitespace | src/engine.rs:60 | Every token is a non-empty run of non-whitespace characters |
| Text.WordLength | src/engine.rs:60 | The count is the length of the non-whitespace run at the start of the text |
| Text.WordPrefix | src/engine.rs:60 | Text that starts with a non-whitespace character starts with a non-empty word |
| Text.WordLengthOf | src/engine.rs:60 | A word followed by nothing or by whitespace is exactly the first run |
| Text.SplitWhitespaceBlank | src/engine.rs:60 | Blank text has no tokens |
| Text.SplitWhitespaceLeadingSpace | src/engine.rs:60 | Leading whitespace does not change the tokens |
| Text.SplitWhitespaceWord | src/engine.rs:60 | A single word is its only token |
| Text.SplitWhitespaceCons | src/engine.rs:60 | A word followed by whitespace is the first token, and the rest is split on its own |
| Text.SplitWhitespaceJoin | src/import.rs:68-78 | Words joined by single spaces split back into the same words |
| Text.Split | src/analysis_workspace.rs:391 | Splitting at a character gives at least one piece, and no piece contains that character |
| Text.IndexOf | src/analysis_workspace.rs:391 | The index is that of the first occurrence of the character, or the length when there is none |
| Text.IndexOfFirst | src/analysis_workspace.rs:391 | A position holding the character with none before it is the index found |
| Text.SplitNone | src/analysis_workspace.rs:391 | Text without the character is one piece |
| Text.SplitAround | src/analysis_workspace.rs:391 | Splitting `a`, the character, `b` is splitting `a` and then splitting `b` |
| Text.SplitAt | src/analysis_workspace.rs:391 | At the first occurrence of the character, the first piece is the text before it and the rest is split after it |
| Text.SplitAroundFirst | src/analysis_workspace.rs:391 | When `a` has no occurrence, splitting `a`, the character, `b` gives `a` and then the pieces of `b` |
| Text.SplitAroundLater | src/analysis_workspace.rs:391 | When `a` has an occurrence, splitting `a`, the character, `b` gives the text before it and then splits on after it |
| Text.SplitJoin | src/analysis_workspace.rs:373-396 | Splitting a join at its separator gives back the parts when no part holds the separator |
| Text.ParseU32 | src/engine.rs:71-75 | An accepted token starts with a digit or `+` |
| Text.ParseI32 | src/engine.rs:89-94 | An accepted token starts with a digit or a sign |
| LineIo.LineReader.ReadLine | src/engine.rs:39-40 | Delivers the next line and advances by one, or reports end of stream and stays put |
| LineIo.LineReader.constructor | src/engine.rs:39-40 | A new reader stands before the first of the given lines, none of which is empty |
| Engine.WaitOutcome | src/engine.rs:31-53 | The reader never moves backwards or past the end of the stream |
| Engine.WaitSucceedsIff | src/engine.rs:37-47 | Waiting succeeds exactly when some line within the bound equals the token once trimmed |
| Engine.TokenWithinStep | src/engine.rs:37-47 | A line that is not the token hands the search on to the next line with one step less |
| Engine.WaitFailureKind | src/engine.rs:40-52 | Without the token, end of stream inside the bound gives the "closed output" error, and otherwise the "did not receive" error |
| Engine.WaitForUciToken | src/engine.rs:31-53 | The loop returns the outcome and leaves the reader where the specification says |
| Engine.ParseInfoLine | src/engine.rs:55-122 | The loop computes the keyword scan; a line not starting with `info ` gives None; a returned record has a depth, a score or moves |
| Engine.ParseInfo | src/engine.rs:55-122 | Definition (no contract of its own): None unless the line starts with `info `, otherwise the keyword scan of its tokens, and None when the scan found no depth, score or moves |
| Engine.ScanFrom | src/engine.rs:67-108 | Definition (no contract of its own): the keyword loop from token `i`, where `pv` takes the rest of the line and ends it; `ScanStopsAtPv`, `ScanKeepsAbsentFields`, `ScanRank`, `ScanDepth`, `ScanCp` and `ScanMate` state it |
| Engine.Consume | src/engine.rs:69-97 | Definition (no contract of its own): the effect of one `depth`, `multipv` or `score` keyword on the record; `ScanDepthStep`, `ScanMultipvStep` and `ScanScoreStep` state it |
| Engine.NextKeyword | src/engine.rs:68-108 | Every arm of the keyword loop moves the index forward |
| Engine.ReachesForward | src/engine.rs:67-108 | The loop only visits positions at or after where it starts |
| Engine.ReachesStep | src/engine.rs:67-108 | Before a `pv` token and the end, the positions visited are this one and those visited from the next keyword position |
| Engine.ReachesAtEnd | src/engine.rs:68-106 | At a `pv` token or past the end the loop visits nothing further |
| Engine.ScanRank | src/engine.rs:78-85 | The rank is kept when no visited `multipv` keyword has a parsable value, and is otherwise the value of the last such keyword |
| Engine.ScanDepth | src/engine.rs:70-77 | The depth is kept when no visited `depth` keyword has a parsable value, and is otherwise the value of the last such keyword |
| Engine.ScanCp | src/engine.rs:86-97 | The centipawn score is kept when no visited `score cp` has a value token, and is otherwise the parse of the value after the last such keyword, so an unparsable value clears it; `score mate` leaves it alone |
| Engine.ScanMate | src/engine.rs:86-97 | The mate score is kept when no visited `score mate` has a value token, and is otherwise the parse of the value after the last such keyword, so an unparsable value clears it; `score cp` leaves it alone |
| Engine.ParseInfoRankAndDepth | src/engine.rs:64-97 | A parsed line has rank 1 unless a visited `multipv` keyword has a parsable value, and then the last such value; no depth unless a visited `depth` keyword has a parsable value, and then the last such value; no centipawn score unless a visited `score cp` has a value token, and then the parse of the last such value (so an unparsable one leaves none); the same for `score mate` |
| Engine.ScanStopsAtPv | src/engine.rs:98-106 | Once a `pv` keyword is reached, the moves are exactly the tokens after it, and nothing after it is interpreted |
| Engine.ScanKeepsAbsentFields | src/engine.rs:64-65 | Without a `pv` keyword the moves stay empty; without a `multipv` keyword the rank stays 1 |
| Engine.ParseInfoPv | src/engine.rs:64-106 | An `info` line with a reached `pv` keyword and moves after it parses; its moves are the tail after `pv`; its rank is 1 unless `multipv` precedes `pv` |
| Engine.ParseInfoWithoutKeywords | src/engine.rs:64-65 | A parsed line without `pv` has no moves, and without `multipv` it has rank 1 |
| Engine.BetterInfoIsKeyOrder | src/engine.rs:124-129 | `better_info` is exactly "greater (depth or 0, has moves) key", so it is irreflexive and transitive |
| Engine.BetterInfo | src/engine.rs:124-129 | Definition (no contract of its own): deeper wins, and at equal depth a record with moves beats one without; `BetterInfoIsKeyOrder` states it as a key order |
| Engine.DepthOrZero | src/engine.rs:125-126 | Definition (no contract of its own): a missing depth counts as 0 when records are compared; `KeyBoundsDepth` and `DeeperWinsEitherOrder` state how it orders records |
| Engine.NormalizedDepth | src/engine.rs:131-133 | Depth 0 becomes 18, and any other depth is kept |
| Engine.NormalizedMultipv | src/engine.rs:135-137 | The width lies in [1, 10] and is kept when already in range |
| Engine.NormalizationIdempotent | src/engine.rs:131-137 | Normalising twice is normalising once |
| Engine.SanRun | src/engine.rs:152-166 | Each SAN is the oracle's conversion of its move after the preceding moves, and the run stops exactly at the first failed conversion |
| Engine.PvToSanTruncates | src/engine.rs:139-169 | With a usable FEN, the SAN list is the longest convertible prefix of the moves, one SAN per move in order |
| Engine.SanRunPrefix | src/engine.rs:152-166 | Moves after the first failure never change the result |
| Engine.PvUciToSan | src/engine.rs:139-169 | The loop computes the SAN list; it is never longer than the moves |
| Engine.PvToSan | src/engine.rs:139-169 | Definition (no contract of its own): no SANs for an unusable FEN, otherwise the SAN run from the first move; `PvToSanTruncates` states what it computes |
| Engine.AbsorbStep | src/engine.rs:200-212 | A rank outside [1, requested] is never stored; other ranks are untouched; the stored record is at least as good as both the old one and the candidate |
| Engine.Absorb | src/engine.rs:200-212 | Definition (no contract of its own): a record outside the requested ranks is dropped, and a record replaces the stored one unless `better_info` says otherwise; `AbsorbStep` states its effect |
| Engine.AbsorbAll | src/engine.rs:190-213 | Definition (no contract of its own): absorbs the records in order; `AbsorbAllKeepsBest` and `AbsorbAllStores` state its result |
| Engine.AbsorbAllKeepsBest | src/engine.rs:190-213 | After any sequence of records, each requested rank holds a record at least as good as every record seen for it, taken from the input |
| Engine.KeyBoundsDepth | src/engine.rs:124-129 | Keeping the better record keeps the greater depth |
| Engine.DeeperWinsEitherOrder | src/engine.rs:205-211 | A deeper record for a rank wins in whichever order the two arrive |
| Engine.AbsorbAllPair | src/engine.rs:200-212 | Folding two records is absorbing one after the other |
| Engine.BestmoveToken | src/engine.rs:215-221 | A kept `bestmove` move is a single token and is not `(none)` |
| Engine.BestmoveTokenOf | src/engine.rs:215-221 | For `bestmove w` and for `bestmove w` followed by more text, with `w` a single token, the move is `w`, except that `(none)` gives no move |
| Engine.BestmoveTokenAfter | src/engine.rs:216-220 | Whatever tokens follow, a second token `w` is the move unless it is `(none)` |
| Engine.BestmoveKeywordOnly | src/engine.rs:215-221 | A bare `bestmove` line carries no move |
| Engine.BestmoveKeywordIsWord | src/engine.rs:215 | `bestmove` is a single token |
| Engine.BestmoveKeywordAlone | src/engine.rs:216 | A bare `bestmove` splits into that token alone |
| Engine.BestmoveSecondToken | src/engine.rs:216 | `bestmove w` splits into `bestmove` and `w` |
| Engine.BestmoveSecondTokenRest | src/engine.rs:216 | `bestmove w` followed by a space and more text splits into `bestmove`, `w` and the tokens of the rest |
| Engine.SecondToken | src/engine.rs:216 | Two words joined by a space split into those two words |
| Engine.SecondTokenRest | src/engine.rs:216 | Two words and a rest, separated by spaces, split into the two words and the tokens of the rest |
| Engine.Classify | src/engine.rs:199-223 | A line is an `info` record exactly when its trimmed text parses, and a `bestmove` line exactly when its trimmed text starts with `bestmove`; a `bestmove` line carries the move `BestmoveToken` finds in its trimmed text |
| Engine.IsBestmoveLine | src/engine.rs:215 | Definition (no contract of its own): the trimmed line starts with `bestmove`; `Classify` states it |
| Engine.Kinds | src/engine.rs:199-223 | One classification per line |
| Engine.ReadAnalysis | src/engine.rs:190-224 | The read loop stops within its budget and inside the stream |
| Engine.BestmoveWithinStep | src/engine.rs:190-224 | A line that is not a `bestmove` line hands the search on to the next line with one step less |
| Engine.ReadAnalysisIsFold | src/engine.rs:190-213 | The stored map is the fold of the replacement rule over the `info` records read |
| Engine.ReadAnalysisEnds | src/engine.rs:190-224 | The loop fails exactly when the stream ends within the bound before a `bestmove` line, with the "closed output" message; using up the bound succeeds with no move; otherwise a `bestmove` line ends the loop with that line's move |
| Engine.ReadAnalysisStopsAt | src/engine.rs:190-224 | When the first `bestmove` line from the current position lies within the bound, the loop succeeds, stops right after that line and keeps that line's move |
| Engine.ReadAnalysisStores | src/engine.rs:200-230 | Only requested ranks are stored; the map is empty exactly when no requested rank was seen; each stored rank is as deep as any record seen for it |
| Engine.AbsorbAllStores | src/engine.rs:200-212 | The same for a fold from an empty map |
| Engine.RankedLinesShape | src/engine.rs:232-246 | The lines are strictly increasing in rank; each reports a stored rank with its record, with a missing depth replaced by the requested depth; every stored rank is reported |
| Engine.RankedLines | src/engine.rs:232-246 | Definition (no contract of its own): one line per stored rank, in rank order, with its SANs and the requested depth standing in for a missing one; `RankedLinesShape` states its shape |
| Engine.RankedLinesFromStore | src/engine.rs:232-245 | Each line is made from the record stored for its rank |
| Engine.MakeLine | src/engine.rs:232-244 | Definition (no contract of its own): the reported line of a stored record, a missing depth replaced by the requested one and the SAN moves added; `RankedLinesFromStore` states that every line is made this way |
| Engine.RankedLinesStrict | src/engine.rs:246 | The ranks strictly increase along the lines |
| Engine.RankedLinesCover | src/engine.rs:232-245 | Every stored rank has a line |
| Engine.FindRank | src/engine.rs:248-250 | The index found is the first line of the rank, or no line has it |
| Engine.PrimaryIsFirst | src/engine.rs:246-251 | For lines sorted by rank, the primary line is the first |
| Engine.Primary | src/engine.rs:248-254 | Definition (no contract of its own): the line of rank 1, else the first line, else none; `PrimaryIsFirst` states it for sorted lines |
| Engine.ChooseBestmove | src/engine.rs:256-261 | Definition (no contract of its own): the first SAN, else the `bestmove` move, else the first raw move; `BestmoveChoice` states it |
| Engine.FinishAnalysisShape | src/engine.rs:226-270 | A non-empty map gives an analysis whose figures are those of the lowest-ranked line, with every ranked line |
| Engine.FinishAnalysis | src/engine.rs:226-270 | Definition (no contract of its own): the "no analysis info" error for an empty map, otherwise the primary line's figures with every ranked line; `FinishAnalysisShape` states it |
| Engine.BestmoveChoice | src/engine.rs:256-261 | The best move is the first SAN of the primary line, else the `bestmove` move, else the first raw move, and is absent only when all three are |
| Engine.CollectAnalysisErrors | src/engine.rs:180-230 | The analysis fails with "closed output" exactly when the read fails; otherwise it fails, with "no analysis info", exactly when no requested rank was seen |
| Engine.CollectAnalysis | src/engine.rs:180-271 | Definition (no contract of its own): the read loop over the classified lines, then the final analysis; `CollectAnalysisErrors` and `CollectAnalysisResult` state it |
| Engine.ClassifyLine | src/engine.rs:199-223 | The per-line decision computes the classification |
| Engine.ReadKind | src/engine.rs:191-199 | Reads one line and classifies it, or reports end of stream |
| Engine.ReadUntilBestmove | src/engine.rs:186-224 | The loop returns the map and move of the specification and leaves the reader where it stopped |
| Engine.BuildLines | src/engine.rs:232-246 | Builds the ranked lines of the specification |
| Engine.FinishAnalysisResult | src/engine.rs:226-270 | Computes the final analysis of the specification |
| Engine.CollectAnalysisResult | src/engine.rs:180-271 | The whole operation returns the specified analysis or error and leaves the reader at the specified position |
| Engine.ExampleNumbers | src/engine.rs:360-376 | The numbers in the unit tests parse to their values |
| Engine.ParseInfoExampleCp | src/engine.rs:358-367 | Any `info` line with the tokens of the centipawn test parses to depth 16, cp 34, no mate, pv `e2e4 e7e5 g1f3`, rank 1 |
| Engine.ScanExampleCpHead | src/engine.rs:360-366 | The first seven tokens of the centipawn test bring the scan to depth 16 with every other field as at the start |
| Engine.ScanExampleCpScore | src/engine.rs:360-366 | Its `score cp 34` sets cp 34 |
| Engine.ScanExampleCpRest | src/engine.rs:360-366 | Its `nodes` and `nps` tokens are skipped and `pv` takes the three moves after it |
| Engine.ScanExampleCpTail | src/engine.rs:360-366 | From its eighth token on, the scan ends with depth 16, cp 34, no mate, those moves, rank 1 |
| Engine.ScanOtherStep | src/engine.rs:107 | A token that is no keyword is skipped |
| Engine.ScanDepthStep | src/engine.rs:70-77 | `depth` with a parsable value sets the depth and skips two tokens |
| Engine.ScanMultipvStep | src/engine.rs:78-85 | `multipv` with a parsable value sets the rank and skips two tokens |
| Engine.ScanScoreStep | src/engine.rs:86-97 | `score cp v` sets the centipawns to the parse of `v`, `score mate v` sets the mate, any other kind sets nothing; three tokens are skipped |
| Engine.ScanPvStep | src/engine.rs:98-106 | `pv` ends the scan with every later token as the moves |
| Engine.ScanExampleCp | src/engine.rs:358-367 | The scan of that test's tokens gives that record |
| Engine.ExampleCpTokens | src/engine.rs:360 | The test's line splits into those tokens |
| Engine.ParseInfoExampleMate | src/engine.rs:369-377 | Any `info` line with the tokens of the mate test parses to depth 21, no cp, mate -3, pv `h7h8q` |
| Engine.ScanExampleMate | src/engine.rs:369-377 | The scan of that test's tokens gives that record |
| Engine.ExampleMateTokens | src/engine.rs:371 | The test's line splits into those tokens |
| Query.NormalizedFilterText | src/query.rs:5-13 | None exactly for absent or blank input; otherwise the trimmed text, non-empty and without whitespace at either end |
| Query.NormalizedFilterTextIdempotent | src/query.rs:5-13 | Normalising a normalised text changes nothing |
| Query.Normalize | src/query.rs:39-73 | Normalising the filter keeps the result filter; `BuildWhereNormalizes` states that it changes no outcome |
| Query.ValidateDateInput | src/query.rs:15-33 | A rejection carries the given field and value |
| Query.ValidateDateIff | src/query.rs:15-33 | A bound is accepted exactly when it is four digits, `.`, two digits, `.`, two digits |
| Query.DateError | src/query.rs:80-90 | Definition (no contract of its own): the error of `date_from` if it is invalid, else that of `date_to`; `DateErrorIff` states it |
| Query.DateExamples | src/query.rs:15-33 | `2024-01-01` is rejected naming `date_from`; `2024.01.01` is accepted |
| Query.ClausePlaceholders | src/query.rs:39-90 | Every clause text but the date-shape check holds one `?`; the shape check holds none |
| Query.SearchClausePlaceholders | src/query.rs:41 | The search clause holds one `?` |
| Query.EcoClausePlaceholders | src/query.rs:63 | The ECO clause holds one `?` |
| Query.EventOrSiteClausePlaceholders | src/query.rs:68 | The event-or-site clause holds one `?` |
| Query.DateShapeClausePlaceholders | src/query.rs:77 | The date-shape clause holds no `?` |
| Query.PlaceholdersAppend | src/query.rs:92-96 | The `?` count of a concatenation is the sum of the counts |
| Query.NoPlaceholders | src/query.rs:92-96 | Text without `?` has count 0 |
| Query.PlaceholderAt | src/query.rs:92-96 | Text with exactly one position holding `?` has count 1 |
| Query.SinglePlaceholderInPieces | src/query.rs:41-68 | A clause written as pieces with one `?` near its end has count 1 |
| Query.NoPlaceholdersInPieces | src/query.rs:77 | Pieces without `?` concatenate to count 0 |
| Query.ClausesOf | src/query.rs:36-90 | One clause per condition |
| Query.Conditions | src/query.rs:35-90 | Definition (no contract of its own): the conditions of the normalised filter; `BuildWhereNormalizes` relates the two |
| Query.NormalizedConditions | src/query.rs:36-90 | Definition (no contract of its own): the date error if there is one, else the search, result, ECO, event-or-site and date conditions in order; `BindingOrder`, `DateConditionsShape` and `SearchConditionLeads` state it |
| Query.ClauseText | src/query.rs:39-90 | Definition (no contract of its own): the SQL text of each condition; `ClausePlaceholders` and `Single` state it |
| Query.LikeCondition | src/query.rs:39-70 | Definition (no contract of its own): a present normalised text gives one `LIKE` condition bound to the text in `%`; `PushLike`, `LikeFiltersShape` and `SearchConditionLeads` state it |
| Query.ResultText | src/query.rs:46-60 | Definition (no contract of its own): the stored result each result filter asks for; `ResultOnly` states it |
| Query.ResultCondition | src/query.rs:46-60 | Definition (no contract of its own): one `result = ?` condition unless the filter is Any; `PushResult`, `ResultOnlyConditions` and `ResultOnly` state it |
| Query.DateConditions | src/query.rs:72-90 | Definition (no contract of its own): the shape check when a bound is given, then each given bound; `DateConditionsOf` and `DateConditionsShape` state it |
| Query.WhereString | src/query.rs:92-96 | Definition (no contract of its own): empty without clauses, otherwise ` WHERE ` and the clauses joined by ` AND `; `WherePlaceholders`, `SearchComesFirst` and `ResultOnly` state it |
| Query.Single | src/query.rs:36-90 | One condition gives its clause, and its value when it binds one |
| Query.TrackOne | src/query.rs:36-90 | Pushing one condition keeps clauses, values and conditions in step |
| Query.Track | src/query.rs:36-90 | Pushing a run of conditions keeps them in step |
| Query.BuildWhereClause | src/query.rs:35-98 | The step-by-step pushes compute the specified WHERE text and values, or the specified error |
| Query.BuildWhere | src/query.rs:35-98 | Definition (no contract of its own): the error of the conditions, or `" WHERE "` and the clauses joined by `" AND "` (empty without clauses) with their values; `WherePlaceholders`, `EmptyWhereIff` and `BuildWhereErrors` state it |
| Query.PushLike | src/query.rs:39-70 | A present text filter adds its clause and its `%`-wrapped value, kept in step |
| Query.PushResult | src/query.rs:46-60 | The result step adds the result condition |
| Query.PushBound | src/query.rs:80-90 | An invalid bound stops with its error; a valid one adds its comparison and its text |
| Query.PushDates | src/query.rs:72-90 | The date step adds the shape check and each bound, or stops at the first invalid bound |
| Query.PushShape | src/query.rs:74-78 | The shape check is added whenever either bound is given, binding nothing |
| Query.ValuesOfAppend | src/query.rs:36-37 | Clauses and values of consecutive conditions concatenate |
| Query.BindingOrder | src/query.rs:35-98 | The value of condition `i` is the value at the position equal to the number of binding conditions before it, so values are in clause order |
| Query.WherePlaceholders | src/query.rs:35-98 | The WHERE text holds as many `?` as there are values, and the clauses before condition `i` hold as many `?` as there are values before it |
| Query.ConditionPlaceholders | src/query.rs:92-96 | The same for any condition list with one `?` per bound value |
| Query.PrefixPlaceholders | src/query.rs:36-90 | The placeholders before a condition count the values before it |
| Query.WhereStringPlaceholders | src/query.rs:92-96 | `" WHERE "` and `" AND "` add no placeholder |
| Query.PlaceholdersCountValues | src/query.rs:36-90 | Clauses with one `?` per bound value hold as many `?` as values |
| Query.JoinPlaceholders | src/query.rs:95 | Joining with a `?`-free separator keeps the count of `?` |
| Query.NormalizedConditionsBind | src/query.rs:35-98 | Every condition binds a value except the date-shape check |
| Query.EmptyWhereIff | src/query.rs:92-96 | The WHERE text and the values are both empty exactly when every text filter is absent or blank and any result is allowed |
| Query.BuildWhereNormalizes | src/query.rs:39-73 | Normalising the filter first changes nothing |
| Query.BuildWhereErrors | src/query.rs:72-90 | The query fails exactly when a given bound is not a full date; `date_from` is reported first, with the trimmed text |
| Query.DateErrorIff | src/query.rs:80-90 | The same for the two bounds alone |
| Query.DateConditionsShape | src/query.rs:72-90 | The shape check is present exactly when a bound is given; each given bound is compared; one value per condition except the shape check |
| Query.NormalizedDateShape | src/query.rs:72-90 | The same on a normalised filter |
| Query.LikeFiltersShape | src/query.rs:62-70 | An ECO filter that is given and not blank binds one condition to its trimmed text wrapped in `%`, and otherwise there is no ECO condition; the same for the event-or-site filter |
| Query.NormalizedLikeShape | src/query.rs:62-70 | The same on a normalised filter: the ECO or event-or-site condition is there exactly when its text is, bound to that text in `%` |
| Query.DateConditionsOf | src/query.rs:74-90 | The same for the date conditions alone |
| Query.AllBound | src/query.rs:36-70 | Conditions that all bind a value give one value each |
| Query.SearchComesFirst | src/query.rs:39-44 | A search text gives the first clause and binds the first value, `%` + trimmed text + `%` |
| Query.SearchConditionLeads | src/query.rs:39-44 | The search condition is the first condition |
| Query.SearchLeadsNormalized | src/query.rs:39-44 | On a normalised filter with a search text, the first condition is the search with `%` + text + `%` |
| Query.JoinStartsWith | src/query.rs:95 | A join starts with its first part |
| Query.PrefixConcat | src/query.rs:95 | Putting the same text in front keeps a prefix a prefix |
| Query.ResultOnly | src/query.rs:46-98 | Any gives no clause; White, Black and Draw give one `result = ?` bound to `1-0`, `0-1` and `1/2-1/2` |
| Query.ResultOnlyConditions | src/query.rs:46-60 | A result-only filter has only the result condition |
| Query.HyphenatedDateRefused | src/query.rs:80-81 | A hyphenated `date_from` is refused, naming the field and the text |
| Paging.Default | src/types.rs:39-46 | Limit 50, offset 0 |
| Paging.Normalized | src/types.rs:48-62 | The limit lies in [1, 500]: 0 becomes 50, others are capped at 500; the offset is kept |
| Paging.NormalizedKeepsValid | src/types.rs:51-61 | A limit already in [1, 500] is unchanged |
| Paging.NormalizedIdempotent | src/types.rs:51-61 | Normalising twice is normalising once |
| Paging.DefaultIsNormal | src/types.rs:39-61 | The default page is already normal |
| Workspace.Reference | src/analysis_workspace.rs:70-73 | An optional reference is none exactly when absent or blank; otherwise its trimmed, non-empty text |
| Workspace.ValidateSave | src/analysis_workspace.rs:67-138 | The trims and checks compute the specified outcome |
| Workspace.SaveValidation | src/analysis_workspace.rs:67-138 | Definition (no contract of its own): trims the header fields and reports the first failing check; `SaveAcceptedIff` states it |
| Workspace.SaveError | src/analysis_workspace.rs:75-138 | Definition (no contract of its own): the message of the first failing check in source order; `SaveErrorNone`, `FieldsErrorFirst` and `ParentErrorFirst` state it |
| Workspace.Header | src/analysis_workspace.rs:67-73 | Definition (no contract of its own): the trimmed header fields, a blank current node id meaning none; `SaveAcceptedIff` states the header an accepted save keeps |
| Workspace.FieldsError | src/analysis_workspace.rs:96-107 | Definition (no contract of its own): the first node with a blank id, then FEN; `FieldsErrorNone`, `FieldsErrorFirst` and `FieldsErrorMessage` state it |
| Workspace.NodeIds | src/analysis_workspace.rs:109 | Definition (no contract of its own): the set of trimmed node ids; `SaveAcceptedIff` and `RowsAreNodes` state its use |
| Workspace.ParentError | src/analysis_workspace.rs:125-138 | Definition (no contract of its own): the first node whose given parent names no node; `ParentErrorNone`, `ParentErrorFirst` and `ParentErrorInitial` state it |
| Workspace.CheckSave | src/analysis_workspace.rs:75-138 | The checks report the first failing check's message, or accept the trimmed header |
| Workspace.CheckNodeFields | src/analysis_workspace.rs:96-107 | The loop reports the first node with a blank id or FEN |
| Workspace.CheckParents | src/analysis_workspace.rs:125-138 | The loop reports the first node whose given parent names no node |
| Workspace.FieldsErrorNone | src/analysis_workspace.rs:96-107 | No id/FEN error exactly when every node has a non-blank id and FEN |
| Workspace.ParentErrorNone | src/analysis_workspace.rs:125-138 | No parent error exactly when every given parent names a node |
| Workspace.SaveErrorNone | src/analysis_workspace.rs:75-138 | The trimmed payload passes exactly when every check holds |
| Workspace.SaveAcceptedIff | src/analysis_workspace.rs:67-138 | A save is accepted exactly when the source path, name and root are non-blank, there are nodes, each has a non-blank id and FEN, and the root, the current node (when given) and every given parent name a node id; the accepted header is the trimmed fields |
| Workspace.FieldsErrorFirst | src/analysis_workspace.rs:96-107 | The first node with a blank id or FEN is the one reported, the id checked before the FEN |
| Workspace.ParentErrorFirst | src/analysis_workspace.rs:125-138 | The first node with a dangling parent is reported, naming the trimmed parent and the node's id as given |
| Workspace.EmptyNodesRefused | src/analysis_workspace.rs:481-498 | With the header present, an empty node list is refused with its message |
| Workspace.AcceptedRowsClosed | src/analysis_workspace.rs:109-205 | The rows of an accepted payload have non-empty ids and FENs, the root is a row id, and every parent a row names is a row id |
| Workspace.RowsAreNodes | src/analysis_workspace.rs:173-205 | The rows carry the trimmed node ids and resolve their parents among them |
| Workspace.ToRow | src/analysis_workspace.rs:173-205 | Definition (no contract of its own): the trimmed id and FEN, the optional references, the comment, the stored NAG text and the order; `RowsAreNodes` and `AcceptedRowsClosed` state it |
| Workspace.RenameName | src/analysis_workspace.rs:217-222 | A rename name is accepted exactly when not blank, as its trimmed text; otherwise "workspace name is required" |
| Workspace.RenameAgreesWithSave | src/analysis_workspace.rs:217-222 | Rename refuses exactly the names a save refuses for its name, with the same message |
| Workspace.SaveErrorNotName | src/analysis_workspace.rs:75-138 | No check after the name check reports the name message |
| Workspace.SaveErrorInitial | src/analysis_workspace.rs:75-138 | Every message after the name check starts with a letter other than the name message's |
| Workspace.FieldsErrorMessage | src/analysis_workspace.rs:96-107 | The id/FEN loop reports only the id message or the FEN message |
| Workspace.ParentErrorInitial | src/analysis_workspace.rs:125-138 | The parent loop's message starts with `p` |
| Workspace.TrimmedEntries | src/analysis_workspace.rs:374-377 | The kept entries are non-empty and trimmed, and no more than the input; the contents are pinned by `TrimmedEntriesSingle` and `TrimmedEntriesAppend` |
| Workspace.TrimmedEntriesSingle | src/analysis_workspace.rs:374-376 | One entry is kept, trimmed, exactly when it is not blank |
| Workspace.TrimmedEntriesAppend | src/analysis_workspace.rs:374-377 | The entries kept from a concatenation are those kept from each part, in order |
| Workspace.TrimmedCommaFree | src/analysis_workspace.rs:373-379 | Trimming keeps comma-free entries comma-free |
| Workspace.SerializeNags | src/analysis_workspace.rs:373-379 | Definition (no contract of its own): the kept entries joined by commas; `SerializeParse` states its round trip |
| Workspace.ParseNags | src/analysis_workspace.rs:390-396 | Every parsed NAG is non-empty, trimmed and free of commas; the contents are pinned by `ParseNagsPieces` |
| Workspace.ParseNagsPieces | src/analysis_workspace.rs:390-396 | Parsing text around a comma is parsing each side in turn; a comma-free piece gives its trimmed text when not blank, else nothing |
| Workspace.TrimKeepsOut | src/analysis_workspace.rs:392 | Trimming adds no character |
| Workspace.TrimmedEntriesFixed | src/analysis_workspace.rs:374-377 | Trimmed non-empty entries pass through unchanged |
| Workspace.SerializeParse | src/analysis_workspace.rs:373-396 | For comma-free NAGs, parsing the stored text gives the trimmed non-blank NAGs in order |
| Workspace.ParseJoined | src/analysis_workspace.rs:390-396 | Parsing a comma-join of trimmed, non-empty, comma-free entries gives them back |
| Workspace.ParseEmpty | src/analysis_workspace.rs:390-396 | Empty stored text holds no NAGs |
| Workspace.ParseSerializeStable | src/analysis_workspace.rs:373-396 | Storing parsed text is stable under a second round trip |
| Import.WithTagSpec | src/import.rs:27-39 | A kept tag reads back as its new value; the other tags and the movetext are untouched; any other tag name changes nothing |
| Import.WithTag | src/import.rs:27-39 | Definition (no contract of its own): a kept tag name sets its field, any other name changes nothing; `WithTagSpec` states it |
| Import.WithTagOverwrites | src/import.rs:27-39 | A repeated tag overwrites the earlier value |
| Import.CollectedTags | src/import.rs:50-62 | Each kept tag of a collected game holds its last value, or none |
| Import.ApplyTagsMovetext | src/import.rs:27-39 | Tags leave the movetext alone |
| Import.MovetextJoin | src/import.rs:68-78 | With non-empty moves, the movetext is the moves joined by single spaces, with no leading space |
| Import.MovetextNonEmpty | src/import.rs:68-78 | A game whose last move is non-empty has non-empty movetext |
| Import.MovetextWords | src/import.rs:68-78 | Splitting the movetext at whitespace gives back whitespace-free moves |
| Import.AppendSan | src/import.rs:68-78 | Definition (no contract of its own): the move alone on empty movetext, else after a single space; `MovetextJoin` states it |
| Import.JoinSnoc | src/import.rs:68-78 | Joining one more part appends the separator and the part |
| Import.GameHeaders.constructor | src/import.rs:50-52 | A new collector holds no tags and no moves |
| Import.GameHeaders.SetTag | src/import.rs:27-39 | The fields become the specified tag update |
| Import.GameHeaders.PushSan | src/import.rs:68-78 | The movetext gets the move appended after a single space, or alone when empty |
| Import.CollectGame | src/import.rs:50-82 | Driving the collector through a game yields the specified headers |
| Import.Movetext | src/import.rs:68-78 | Definition (no contract of its own): the moves appended in order, space-separated; `MovetextJoin`, `MovetextNonEmpty` and `MovetextWords` state it |
| Import.ApplyTags | src/import.rs:27-39 | Definition (no contract of its own): the tags applied in order; `CollectedTags` and `ApplyTagsMovetext` state it |
| Import.Collected | src/import.rs:50-82 | Definition (no contract of its own): the headers the collector returns for a game; `CollectGame`, `CollectedTags` and `MovetextJoin` state it |
| Import.ToGameRow | src/import.rs:238-254 | The stored movetext is absent exactly when blank; otherwise it is the trimmed, non-empty movetext |
| Import.IngestGameChunk | src/import.rs:229-268 | Fails exactly when the insert of a parsed game fails; otherwise adds 1 to the total and exactly 1 to one of inserted, skipped or errors, with errors exactly for an unparsable chunk and inserted exactly when the insert wrote one row |
| Import.IngestAllTally | tests/perf_guardrails.rs:51-54 | A finished import has total equal to the number of chunks, total = inserted + skipped + errors, and errors equal to the unparsable chunks |
| Import.IngestAll | src/import.rs:320-340 | Definition (no contract of its own): ingests the chunks in order, stopping at the first error; `IngestAllTally` and `IngestAllStops` state it |
| Import.IngestAllInserted | src/import.rs:256-260 | The inserted counter of a finished import is the number of chunks that parse and whose insert wrote exactly one row |
| Import.IngestInsertedStep | src/import.rs:256-260 | Ingesting the last chunk adds one to the inserted counter exactly when it parses and its insert writes one row |
| Import.IngestAllInsertsEvery | tests/perf_guardrails.rs:51-54 | When every chunk parses and its insert writes one row, the import succeeds with total and inserted equal to the number of chunks and no skipped or failed chunk |
| Import.IngestAllStops | src/import.rs:326-337 | The first failing chunk's error is the import's error |
| Import.ScanInvariant | src/import.rs:320-340 | The closed chunks plus the open one reproduce the lines read; closed chunks are non-blank; every chunk after the first starts with `[Event ` |
| Import.ChunksSpec | src/import.rs:320-340 | No ingested chunk is blank; every one after the first starts with `[Event `; the left-over text is blank; chunks plus left-over reproduce the input exactly; where the cuts fall is pinned by `ChunksCut` |
| Import.SplitStep | src/import.rs:333-339 | Definition (no contract of its own): an `[Event ` line after a non-blank chunk closes the chunk and starts a new one; any other line is appended; `ScanInvariant` states it |
| Import.Scan | src/import.rs:320-340 | Definition (no contract of its own): the loop's state after the given lines; `ScanInvariant` and `ScanCuts` state it |
| Import.Chunks | src/import.rs:320-340 | Definition (no contract of its own): the closed chunks, and the chunk in hand unless blank; `ChunksSpec` and `ChunksCut` state it |
| Import.ChunksCut | src/import.rs:320-340 | For every cut of the input where the import cuts (pieces begin at line 0 or at an `[Event ` line after a non-blank piece, and no line inside a piece would cut), the chunks are exactly those pieces in order, less a blank last piece |
| Import.CutsExist | src/import.rs:320-340 | Every input has such a cut, so `ChunksCut` determines the chunks of every input |
| Import.ScanCuts | src/import.rs:320-340 | For such a cut, the closed chunks are every piece but the last and the chunk in hand is the last piece |
| Import.ScanClosing | src/import.rs:333-339 | At a line that opens a piece, the loop closes the last piece of the shorter input |
| Import.ScanExtending | src/import.rs:339 | At a line that extends the last piece, the chunk in hand grows by that line |
| Import.CutsClosing | src/import.rs:333-337 | A cut whose last piece is the last line alone is valid exactly when the cut without it is, its last piece is not blank and the line starts with `[Event ` |
| Import.CutsWithin | src/import.rs:333-339 | A cut whose last piece extends to the last line is valid exactly when it is valid without that line and the line does not cut |
| Import.OrderedClosing | src/import.rs:333-337 | Adding a start at the last line keeps the starts ordered exactly when they were |
| Import.PiecesClosing | src/import.rs:333-337 | Adding a start at the last line leaves the earlier pieces as they were |
| Import.HeadsClosing | src/import.rs:333-337 | With a start at the last line, every closed piece is non-blank and followed by `[Event ` exactly when that held before and for the new line |
| Import.InsidesClosing | src/import.rs:333-337 | With a start at the last line, no line inside a piece cuts exactly when none did without it |
| Import.OrderedWithin | src/import.rs:339 | Extending the last piece keeps the starts ordered exactly when they were |
| Import.PiecesWithin | src/import.rs:339 | Extending the last piece leaves the other pieces alone and appends the line to the last one |
| Import.HeadsWithin | src/import.rs:339 | Extending the last piece changes no head condition |
| Import.InsidesWithin | src/import.rs:333-339 | Extending the last piece keeps every inner line non-cutting exactly when it did and the new line does not cut |
| Import.SliceOfPrefix | src/import.rs:320-340 | A slice of a prefix is the slice of the whole |
| Import.PieceOfPrefix | src/import.rs:320-340 | A piece with the same bounds in a prefix has the same text |
| Import.NoCutAtPrefix | src/import.rs:333 | Whether a line cuts does not depend on later lines |
| Import.StartsWithAppend | src/import.rs:333 | Appending text keeps an `[Event ` prefix |
| Import.ConcatSnoc | src/import.rs:339 | Appending a line to the lines appends it to their text |
| Import.PieceEnd | src/import.rs:320-340 | A piece ends at or after its start and within the input |
| Import.ScanGrows | src/import.rs:333-337 | Chunks once closed are never changed |
| Import.ImportLines | src/import.rs:316-340 | The loop ingests exactly the specified chunks in order and, on success, reads the whole input |
| Import.ClosedChunkFails | src/import.rs:334 | A failing chunk closed mid-input makes the import fail with its error |

## Left out

- Process lifecycle is not modelled: spawning, pipes, flushing, `EngineSession::start`/`Drop` and `analyze_position*` (src/engine.rs:25-29, 171-178, 273-352). These are external process I/O. The engine's output is a finite sequence of lines.
- I/O and UTF-8 failures of `read_line` (`EngineError::Io`, `ImportError::Io`) are not modelled. The line reader always delivers its next line or reports end of stream.
- The chess rules are not modelled: shakmaty's FEN, UCI and SAN conversion. `pv_uci_to_san` uses an abstract oracle, `Engine.Rules`. It says whether a FEN is usable and gives the SAN of a move after the moves played so far, or none.
- `Engine.ParseInfoExampleCp` and `Engine.ParseInfoExampleMate` are stated for any `info` line with the unit tests' tokens. The splitting of the tests' own text is stated by `Engine.ExampleCpTokens` and `Engine.ExampleMateTokens`.
- `BTreeMap` iteration is modelled as a scan of ranks 1..requested width, because every stored rank lies in that range (`Engine.RankedLinesShape`). The `sort_by_key` that follows is therefore the identity and is not a separate step.
- The PGN parser (`parse_game_chunk`, `pgn_reader`) is an oracle from a chunk to its tags and moves, or none. `decode_utf8_lossy` is not modelled.
- The insert statement is an oracle from the game's index and row to the number of rows written, or an SQL error. `INSERT OR IGNORE` deduplication lives in SQLite.
- Import.IngestGameChunk: on a failed insert the source has already added 1 to `total` before `?` returns. The model returns only the error, because the import then stops and the summary is never reported.
- Import.ImportLines: only states where the reader is left on success. After a failure the source discards the reader.
- Progress reporting is not modelled: `maybe_emit_progress` and `on_progress` depend on the wall clock and a callback.
- Compressed input is not modelled: `ZstdProcessReader` and `open_pgn_reader` (src/import.rs:148-213) are external processes.
- SQL is not modelled: schema creation, the dedupe and cleanup statements (src/import.rs:85-146), `search_games`/`count_games`, LIMIT/OFFSET binding, and the insert, rename and delete statements. Of `save_analysis_workspace` the model keeps the validation and the node rows (`Workspace.ToRow`) but not the writes; of `rename_analysis_workspace` it keeps the name check.
- `now_unix_seconds` (src/analysis_workspace.rs:381-388) reads the clock and is not modelled. All validation happens before it is called.
- `usize` and `u32` overflow of the import counters is not modelled, because the counters are unbounded naturals. Parsed `u32`/`i32` values are range-checked as Rust's `parse` does.
- `validate_date_input` inspects bytes, while the model inspects characters. The two agree: a non-ASCII character makes both reject, since its bytes are neither digits nor `.`.
- Text.ParseU32 and Text.ParseI32: the contracts state only the shape of accepted text. The value is given by the definitions: optional sign, one or more ASCII digits, value in range.
- `AnalysisWorkspaceError` is not part of the files modelled. Its `InvalidInput` variant is rebuilt from its uses.
- The long SQL clause constants in `Query` are written as concatenations of pieces. Their text is the source's.
