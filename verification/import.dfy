/**
 * PGN import (src/import.rs): the header collector fed by the PGN parser, the
 * row a parsed game becomes, the tally kept per game, and the loop that cuts
 * the input's lines into one chunk per game at `[Event ` lines.
 *
 * The PGN parser and the database are not modelled: the parser is a function
 * from a chunk to the tags and moves it reports (or none), and the insert is
 * a function from the game's position in the input and its row to the number
 * of rows written or an error.
 */
module Import {
  import opened Wrappers
  import opened Text
  import opened LineIo

  // ---------------------------------------------------------------------
  // Headers collected from one game

  /** The tags a game row keeps, and its movetext. */
  datatype Headers = Headers(
    event: Option<string>,
    site: Option<string>,
    date: Option<string>,
    white: Option<string>,
    black: Option<string>,
    result: Option<string>,
    eco: Option<string>,
    movetext: string)

  /** `GameHeaders::default()` */
  const NO_HEADERS: Headers := Headers(None, None, None, None, None, None, None, "")

  /** The tag names the collector keeps. */
  const KEPT_TAGS: seq<string> := ["Event", "Site", "Date", "White", "Black", "Result", "ECO"]

  /** `GameHeaders::set_tag` on values: a kept tag replaces its field, any other tag is ignored. */
  function WithTag(h: Headers, name: string, value: string): Headers {
    if name == "Event" then h.(event := Some(value))
    else if name == "Site" then h.(site := Some(value))
    else if name == "Date" then h.(date := Some(value))
    else if name == "White" then h.(white := Some(value))
    else if name == "Black" then h.(black := Some(value))
    else if name == "Result" then h.(result := Some(value))
    else if name == "ECO" then h.(eco := Some(value))
    else h
  }

  /** The field that holds a kept tag, read independently of `WithTag`. */
  function TagValue(h: Headers, name: string): Option<string> {
    match name
    case "Event" => h.event
    case "Site" => h.site
    case "Date" => h.date
    case "White" => h.white
    case "Black" => h.black
    case "Result" => h.result
    case "ECO" => h.eco
    case _ => None
  }

  /**
   * Setting a kept tag makes it read back as the new value and leaves every
   * other kept tag and the movetext alone; any other tag changes nothing.
   */
  lemma WithTagSpec(h: Headers, name: string, value: string)
    ensures name in KEPT_TAGS ==> TagValue(WithTag(h, name, value), name) == Some(value)
    ensures forall other :: other in KEPT_TAGS && other != name ==>
      TagValue(WithTag(h, name, value), other) == TagValue(h, other)
    ensures WithTag(h, name, value).movetext == h.movetext
    ensures name !in KEPT_TAGS ==> WithTag(h, name, value) == h
  {
  }

  /** A repeated tag overwrites the earlier value. */
  lemma WithTagOverwrites(h: Headers, name: string, first: string, second: string)
    ensures WithTag(WithTag(h, name, first), name, second) == WithTag(h, name, second)
  {
  }

  /** `SingleGameCollector::san` on text: a move is appended after a single space, or alone when nothing precedes it. */
  function AppendSan(movetext: string, san: string): string {
    if movetext == [] then san else movetext + " " + san
  }

  /** The movetext left by appending the moves in order to an empty one. */
  function Movetext(moves: seq<string>): string {
    if moves == [] then "" else AppendSan(Movetext(moves[..|moves| - 1]), moves[|moves| - 1])
  }

  /** The tags applied in order. */
  function ApplyTags(h: Headers, tags: seq<(string, string)>): Headers {
    if tags == [] then h else WithTag(ApplyTags(h, tags[..|tags| - 1]), tags[|tags| - 1].0, tags[|tags| - 1].1)
  }

  /** What the PGN parser reports for one game: its tag pairs, then its moves in SAN. */
  datatype PgnGame = PgnGame(tags: seq<(string, string)>, moves: seq<string>)

  /** The headers the collector hands back for a game. */
  function Collected(game: PgnGame): Headers {
    ApplyTags(NO_HEADERS, game.tags).(movetext := Movetext(game.moves))
  }

  /** The value of the last pair carrying `name`, if any. */
  function LastValue(tags: seq<(string, string)>, name: string): Option<string> {
    if tags == [] then None
    else if tags[|tags| - 1].0 == name then Some(tags[|tags| - 1].1)
    else LastValue(tags[..|tags| - 1], name)
  }

  /** Each kept tag of a collected game holds the value of its last occurrence, or none. */
  lemma {:induction false} CollectedTags(tags: seq<(string, string)>, name: string)
    requires name in KEPT_TAGS
    ensures TagValue(ApplyTags(NO_HEADERS, tags), name) == LastValue(tags, name)
  {
    if tags != [] {
      var init := tags[..|tags| - 1];
      CollectedTags(init, name);
      WithTagSpec(ApplyTags(NO_HEADERS, init), tags[|tags| - 1].0, tags[|tags| - 1].1);
    }
  }

  /** Tags leave the movetext alone. */
  lemma {:induction false} ApplyTagsMovetext(h: Headers, tags: seq<(string, string)>)
    ensures ApplyTags(h, tags).movetext == h.movetext
  {
    if tags != [] {
      ApplyTagsMovetext(h, tags[..|tags| - 1]);
    }
  }

  lemma {:induction false} JoinSnoc(parts: seq<string>, last: string, sep: string)
    requires parts != []
    ensures Join(parts + [last], sep) == Join(parts, sep) + sep + last
  {
    if |parts| > 1 {
      JoinSnoc(parts[1..], last, sep);
      assert (parts + [last])[1..] == parts[1..] + [last];
    }
  }

  /** With non-empty moves, the movetext is the moves joined by single spaces. */
  lemma {:induction false} MovetextJoin(moves: seq<string>)
    requires forall i :: 0 <= i < |moves| ==> moves[i] != []
    ensures Movetext(moves) == Join(moves, " ")
  {
    if |moves| > 1 {
      var init := moves[..|moves| - 1];
      MovetextJoin(init);
      MovetextNonEmpty(init);
      JoinSnoc(init, moves[|moves| - 1], " ");
      assert init + [moves[|moves| - 1]] == moves;
    }
  }

  lemma MovetextNonEmpty(moves: seq<string>)
    requires moves != [] && moves[|moves| - 1] != []
    ensures Movetext(moves) != []
  {
  }

  /** Moves without whitespace are recovered by splitting the movetext at whitespace. */
  lemma MovetextWords(moves: seq<string>)
    requires forall i :: 0 <= i < |moves| ==> IsWord(moves[i])
    ensures SplitWhitespace(Movetext(moves)) == moves
  {
    MovetextJoin(moves);
    SplitWhitespaceJoin(moves);
  }

  /** `GameHeaders`, updated in place by the collector. */
  class GameHeaders {
    var event: Option<string>
    var site: Option<string>
    var date: Option<string>
    var white: Option<string>
    var black: Option<string>
    var result: Option<string>
    var eco: Option<string>
    var movetext: string

    function Value(): Headers
      reads this
    {
      Headers(event, site, date, white, black, result, eco, movetext)
    }

    /** `GameHeaders::default()`: no tags and no moves. */
    constructor ()
      ensures Value() == NO_HEADERS
    {
      event, site, date, white, black, result, eco := None, None, None, None, None, None, None;
      movetext := "";
    }

    /** `GameHeaders::set_tag` */
    method SetTag(name: string, value: string)
      modifies this
      ensures Value() == WithTag(old(Value()), name, value)
    {
      if name == "Event" {
        event := Some(value);
      } else if name == "Site" {
        site := Some(value);
      } else if name == "Date" {
        date := Some(value);
      } else if name == "White" {
        white := Some(value);
      } else if name == "Black" {
        black := Some(value);
      } else if name == "Result" {
        result := Some(value);
      } else if name == "ECO" {
        eco := Some(value);
      }
    }

    /** `SingleGameCollector::san` */
    method PushSan(san: string)
      modifies this
      ensures Value() == old(Value()).(movetext := AppendSan(old(movetext), san))
    {
      if movetext != [] {
        movetext := movetext + " ";
      }
      movetext := movetext + san;
    }
  }

  /** The collector driven through one game: default headers, each tag, then each move. */
  method CollectGame(game: PgnGame) returns (h: GameHeaders)
    ensures fresh(h)
    ensures h.Value() == Collected(game)
  {
    h := new GameHeaders();
    for i := 0 to |game.tags|
      invariant h.Value() == ApplyTags(NO_HEADERS, game.tags[..i])
    {
      h.SetTag(game.tags[i].0, game.tags[i].1);
      assert game.tags[..i + 1][..i] == game.tags[..i];
    }
    assert game.tags[..|game.tags|] == game.tags;
    ApplyTagsMovetext(NO_HEADERS, game.tags);
    for i := 0 to |game.moves|
      invariant h.Value() == ApplyTags(NO_HEADERS, game.tags).(movetext := Movetext(game.moves[..i]))
    {
      h.PushSan(game.moves[i]);
      assert game.moves[..i + 1][..i] == game.moves[..i];
    }
    assert game.moves[..|game.moves|] == game.moves;
  }

  // ---------------------------------------------------------------------
  // One game ingested

  /** The values bound to the insert: the tags, and the trimmed movetext or none when it is blank. */
  datatype GameRow = GameRow(
    event: Option<string>,
    site: Option<string>,
    date: Option<string>,
    white: Option<string>,
    black: Option<string>,
    result: Option<string>,
    eco: Option<string>,
    pgn: Option<string>)

  function ToGameRow(h: Headers): (row: GameRow)
    ensures row.pgn.None? <==> IsBlank(h.movetext)
    ensures row.pgn.Some? ==> row.pgn.value == Trim(h.movetext) && row.pgn.value != []
  {
    var movetext := Trim(h.movetext);
    GameRow(h.event, h.site, h.date, h.white, h.black, h.result, h.eco,
            if movetext == [] then None else Some(movetext))
  }

  /** `ImportSummary`, with the `errors` counter the import keeps. */
  datatype ImportSummary = ImportSummary(total: nat, inserted: nat, skipped: nat, errors: nat)

  const EMPTY_SUMMARY: ImportSummary := ImportSummary(0, 0, 0, 0)

  datatype ImportError = Io(message: string) | Sql(message: string)

  /** Every game counted is counted exactly once as inserted, skipped or failed to parse. */
  predicate Balanced(s: ImportSummary) {
    s.total == s.inserted + s.skipped + s.errors
  }

  /**
   * `ingest_game_chunk`: count the game; a chunk the parser rejects is an
   * error, otherwise the row is inserted and counts as inserted when exactly
   * one row was written and as skipped otherwise; a failing insert aborts.
   * The insert sees how many games were counted before this one.
   */
  function IngestGameChunk(summary: ImportSummary, chunk: string,
                           parse: string -> Option<PgnGame>,
                           insert: (nat, GameRow) -> Result<nat, ImportError>): (r: Result<ImportSummary, ImportError>)
    ensures r.Err? <==> parse(chunk).Some? && insert(summary.total, ToGameRow(Collected(parse(chunk).value))).Err?
    ensures r.Ok? ==> r.value.total == summary.total + 1
    ensures r.Ok? ==> r.value.inserted + r.value.skipped + r.value.errors == summary.inserted + summary.skipped + summary.errors + 1
    ensures r.Ok? ==> summary.inserted <= r.value.inserted && summary.skipped <= r.value.skipped && summary.errors <= r.value.errors
    ensures r.Ok? ==> (r.value.errors == summary.errors + 1 <==> parse(chunk).None?)
    ensures r.Ok? && parse(chunk).Some? ==>
      (r.value.inserted == summary.inserted + 1 <==> insert(summary.total, ToGameRow(Collected(parse(chunk).value))) == Ok(1))
  {
    var counted := summary.(total := summary.total + 1);
    match parse(chunk)
    case None => Ok(counted.(errors := counted.errors + 1))
    case Some(game) =>
      match insert(summary.total, ToGameRow(Collected(game)))
      case Err(e) => Err(e)
      case Ok(rows) =>
        if rows == 1 then Ok(counted.(inserted := counted.inserted + 1))
        else Ok(counted.(skipped := counted.skipped + 1))
  }

  /** The chunks ingested in order from an empty summary, stopping at the first error. */
  function IngestAll(chunks: seq<string>, parse: string -> Option<PgnGame>,
                     insert: (nat, GameRow) -> Result<nat, ImportError>): Result<ImportSummary, ImportError>
  {
    if chunks == [] then Ok(EMPTY_SUMMARY)
    else match IngestAll(chunks[..|chunks| - 1], parse, insert)
      case Err(e) => Err(e)
      case Ok(s) => IngestGameChunk(s, chunks[|chunks| - 1], parse, insert)
  }

  /** The number of chunks the parser rejects. */
  function Unparsable(chunks: seq<string>, parse: string -> Option<PgnGame>): nat {
    if chunks == [] then 0
    else Unparsable(chunks[..|chunks| - 1], parse) + if parse(chunks[|chunks| - 1]).None? then 1 else 0
  }

  /** Chunk `i` parses and its insert, seeing `i` games counted before it, writes exactly one row. */
  predicate InsertsOne(chunks: seq<string>, i: nat, parse: string -> Option<PgnGame>,
                       insert: (nat, GameRow) -> Result<nat, ImportError>)
    requires i < |chunks|
  {
    parse(chunks[i]).Some? && insert(i, ToGameRow(Collected(parse(chunks[i]).value))) == Ok(1)
  }

  /** The number of chunks whose insert writes exactly one row. */
  function Inserted(chunks: seq<string>, parse: string -> Option<PgnGame>,
                    insert: (nat, GameRow) -> Result<nat, ImportError>): nat
  {
    if chunks == [] then 0
    else Inserted(chunks[..|chunks| - 1], parse, insert) + if InsertsOne(chunks, |chunks| - 1, parse, insert) then 1 else 0
  }

  /**
   * A finished import counts every chunk once: the total is the number of
   * chunks, it is the sum of inserted, skipped and errors, and errors are the
   * chunks the parser rejected.
   */
  lemma {:induction false} IngestAllTally(chunks: seq<string>, parse: string -> Option<PgnGame>,
                                          insert: (nat, GameRow) -> Result<nat, ImportError>)
    requires IngestAll(chunks, parse, insert).Ok?
    ensures var s := IngestAll(chunks, parse, insert).value;
      && s.total == |chunks| && Balanced(s) && s.errors == Unparsable(chunks, parse)
  {
    if chunks != [] {
      var init, last := chunks[..|chunks| - 1], chunks[|chunks| - 1];
      IngestAllTally(init, parse, insert);
      var s0 := IngestAll(init, parse, insert).value;
      assert IngestAll(chunks, parse, insert) == IngestGameChunk(s0, last, parse, insert);
      assert Unparsable(chunks, parse) == Unparsable(init, parse) + if parse(last).None? then 1 else 0;
    }
  }

  /** The inserted games of a finished import are the chunks whose insert wrote exactly one row. */
  lemma {:induction false} IngestAllInserted(chunks: seq<string>, parse: string -> Option<PgnGame>,
                                             insert: (nat, GameRow) -> Result<nat, ImportError>)
    requires IngestAll(chunks, parse, insert).Ok?
    ensures IngestAll(chunks, parse, insert).value.inserted == Inserted(chunks, parse, insert)
  {
    if chunks != [] {
      var init := chunks[..|chunks| - 1];
      IngestAllTally(init, parse, insert);
      IngestAllInserted(init, parse, insert);
      var s0 := IngestAll(init, parse, insert).value;
      assert IngestAll(chunks, parse, insert) == IngestGameChunk(s0, chunks[|chunks| - 1], parse, insert);
      IngestInsertedStep(chunks, s0, parse, insert);
      assert Inserted(chunks, parse, insert)
        == Inserted(init, parse, insert) + if InsertsOne(chunks, |chunks| - 1, parse, insert) then 1 else 0;
    }
  }

  /** The last chunk adds one to `inserted` exactly when its insert writes one row. */
  lemma IngestInsertedStep(chunks: seq<string>, s0: ImportSummary, parse: string -> Option<PgnGame>,
                           insert: (nat, GameRow) -> Result<nat, ImportError>)
    requires chunks != [] && s0.total == |chunks| - 1
    requires IngestGameChunk(s0, chunks[|chunks| - 1], parse, insert).Ok?
    ensures var s := IngestGameChunk(s0, chunks[|chunks| - 1], parse, insert).value;
      s.inserted == s0.inserted + if InsertsOne(chunks, |chunks| - 1, parse, insert) then 1 else 0
  {
  }

  /**
   * When every chunk parses and every insert writes one row, the import
   * succeeds with every game inserted, none skipped and no errors.
   */
  lemma {:induction false} IngestAllInsertsEvery(chunks: seq<string>, parse: string -> Option<PgnGame>,
                                                 insert: (nat, GameRow) -> Result<nat, ImportError>)
    requires forall i :: 0 <= i < |chunks| ==> InsertsOne(chunks, i, parse, insert)
    ensures IngestAll(chunks, parse, insert) == Ok(ImportSummary(|chunks|, |chunks|, 0, 0))
  {
    if chunks != [] {
      var init, last := chunks[..|chunks| - 1], chunks[|chunks| - 1];
      forall i | 0 <= i < |init| ensures InsertsOne(init, i, parse, insert) {
        assert InsertsOne(chunks, i, parse, insert);
        assert init[i] == chunks[i];
      }
      IngestAllInsertsEvery(init, parse, insert);
      assert InsertsOne(chunks, |init|, parse, insert);
    }
  }

  /** Once a prefix of the chunks fails, ingesting more chunks reports the same error. */
  lemma {:induction false} IngestAllStops(chunks: seq<string>, n: nat, parse: string -> Option<PgnGame>,
                                          insert: (nat, GameRow) -> Result<nat, ImportError>)
    requires n <= |chunks| && IngestAll(chunks[..n], parse, insert).Err?
    ensures IngestAll(chunks, parse, insert) == IngestAll(chunks[..n], parse, insert)
    decreases |chunks|
  {
    if n < |chunks| {
      var init := chunks[..|chunks| - 1];
      assert init[..n] == chunks[..n];
      IngestAllStops(init, n, parse, insert);
    } else {
      assert chunks[..n] == chunks;
    }
  }

  // ---------------------------------------------------------------------
  // Cutting the input into games

  const EVENT_PREFIX: string := "[Event "

  /** The loop's state: the chunks handed to ingestion so far and the chunk being filled. */
  datatype Splitter = Splitter(done: seq<string>, chunk: string)

  /** One line of the loop: an `[Event ` line closes a non-blank chunk and starts the next one. */
  function SplitStep(st: Splitter, line: string): Splitter {
    if StartsWith(line, EVENT_PREFIX) && !IsBlank(st.chunk) then Splitter(st.done + [st.chunk], line)
    else Splitter(st.done, st.chunk + line)
  }

  /** The loop's state after the given lines. */
  function Scan(lines: seq<string>): Splitter {
    if lines == [] then Splitter([], "") else SplitStep(Scan(lines[..|lines| - 1]), lines[|lines| - 1])
  }

  /** The chunks ingested for an input: those closed by an `[Event ` line, then the last one unless it is blank. */
  function Chunks(lines: seq<string>): seq<string> {
    var st := Scan(lines);
    if IsBlank(st.chunk) then st.done else st.done + [st.chunk]
  }

  /** What is left over and not ingested: the last chunk when it is blank. */
  function Remainder(lines: seq<string>): string {
    var st := Scan(lines);
    if IsBlank(st.chunk) then st.chunk else ""
  }

  /** The strings one after the other. */
  function Concat(parts: seq<string>): string {
    if parts == [] then "" else Concat(parts[..|parts| - 1]) + parts[|parts| - 1]
  }

  /** Every chunk but the first starts with `[Event `. */
  predicate GameStarts(chunks: seq<string>) {
    forall j :: 0 < j < |chunks| ==> StartsWith(chunks[j], EVENT_PREFIX)
  }

  predicate NoneBlank(chunks: seq<string>) {
    forall j :: 0 <= j < |chunks| ==> !IsBlank(chunks[j])
  }

  lemma StartsWithAppend(s: string, t: string, prefix: string)
    requires StartsWith(s, prefix)
    ensures StartsWith(s + t, prefix)
  {
    assert (s + t)[..|prefix|] == s[..|prefix|];
  }

  /** What the loop keeps true from line to line. */
  lemma {:induction false} ScanInvariant(lines: seq<string>)
    ensures var st := Scan(lines);
      && Concat(st.done) + st.chunk == Concat(lines)
      && NoneBlank(st.done)
      && GameStarts(st.done + [st.chunk])
  {
    if lines != [] {
      var init := lines[..|lines| - 1];
      var line := lines[|lines| - 1];
      var st := Scan(init);
      ScanInvariant(init);
      if StartsWith(line, EVENT_PREFIX) && !IsBlank(st.chunk) {
        assert Concat(st.done + [st.chunk]) == Concat(st.done) + st.chunk by {
          assert (st.done + [st.chunk])[..|st.done|] == st.done;
        }
        assert (st.done + [st.chunk]) + [line] == st.done + [st.chunk, line];
      } else {
        if st.done != [] {
          StartsWithAppend(st.chunk, line, EVENT_PREFIX);
        }
        assert forall j :: 0 <= j < |st.done| ==> (st.done + [st.chunk + line])[j] == (st.done + [st.chunk])[j];
      }
    }
  }

  /**
   * The ingested chunks are never blank, every one after the first starts
   * with `[Event `, and they reproduce the input line for line once the blank
   * remainder is added back.
   */
  lemma ChunksSpec(lines: seq<string>)
    ensures NoneBlank(Chunks(lines))
    ensures GameStarts(Chunks(lines))
    ensures IsBlank(Remainder(lines))
    ensures Concat(Chunks(lines)) + Remainder(lines) == Concat(lines)
  {
    ScanInvariant(lines);
    var st := Scan(lines);
    if IsBlank(st.chunk) {
      assert forall j :: 0 < j < |st.done| ==> st.done[j] == (st.done + [st.chunk])[j];
    } else {
      assert Concat(st.done + [st.chunk]) == Concat(st.done) + st.chunk by {
        assert (st.done + [st.chunk])[..|st.done|] == st.done;
      }
      assert IsBlank("");
      assert Concat(st.done + [st.chunk]) + "" == Concat(st.done + [st.chunk]);
    }
  }

  /** `Concat` adds the last part at the end. */
  lemma ConcatSnoc(parts: seq<string>, last: string)
    ensures Concat(parts + [last]) == Concat(parts) + last
  {
    assert (parts + [last])[..|parts|] == parts;
  }

  /**
   * `starts` lists where the pieces of `lines` begin: the first at line 0,
   * then strictly increasing line indices inside the input.
   */
  predicate StartsOrdered(lines: seq<string>, starts: seq<nat>) {
    && |starts| >= 1 && starts[0] == 0
    && (forall p, q :: 0 <= p < q < |starts| ==> starts[p] < starts[q])
    && (forall p :: 0 < p < |starts| ==> starts[p] < |lines|)
  }

  /** Where piece `p` ends: at the next start, or at the end of the input. */
  function PieceEnd(lines: seq<string>, starts: seq<nat>, p: nat): (e: nat)
    requires StartsOrdered(lines, starts) && p < |starts|
    ensures starts[p] <= e <= |lines|
  {
    if p + 1 < |starts| then starts[p + 1] else |lines|
  }

  /** The text of piece `p`: its lines one after the other. */
  function Piece(lines: seq<string>, starts: seq<nat>, p: nat): string
    requires StartsOrdered(lines, starts) && p < |starts|
  {
    Concat(lines[starts[p]..PieceEnd(lines, starts, p)])
  }

  /** Line `k` does not cut: it is no `[Event ` line, or the text since line `from` is blank. */
  predicate NoCutAt(lines: seq<string>, from: nat, k: nat)
    requires from <= k < |lines|
  {
    !(StartsWith(lines[k], EVENT_PREFIX) && !IsBlank(Concat(lines[from..k])))
  }

  /** Every piece but the last is non-blank and is followed by an `[Event ` line. */
  ghost predicate HeadsCut(lines: seq<string>, starts: seq<nat>)
    requires StartsOrdered(lines, starts)
  {
    forall p :: 0 <= p < |starts| - 1 ==>
      !IsBlank(Piece(lines, starts, p)) && StartsWith(lines[starts[p + 1]], EVENT_PREFIX)
  }

  /** No line inside a piece cuts. */
  ghost predicate InsidesUncut(lines: seq<string>, starts: seq<nat>)
    requires StartsOrdered(lines, starts)
  {
    forall p, k :: 0 <= p < |starts| && starts[p] < k < PieceEnd(lines, starts, p) ==> NoCutAt(lines, starts[p], k)
  }

  /**
   * The pieces are cut where the import cuts: a piece begins at an `[Event `
   * line that follows a non-blank piece, and inside a piece no `[Event ` line
   * follows non-blank text of that piece.
   */
  ghost predicate CutsOf(lines: seq<string>, starts: seq<nat>) {
    StartsOrdered(lines, starts) && HeadsCut(lines, starts) && InsidesUncut(lines, starts)
  }

  lemma SliceOfPrefix(lines: seq<string>, n: nat, a: nat, b: nat)
    requires a <= b <= n <= |lines|
    ensures lines[..n][a..b] == lines[a..b]
  {
  }

  lemma PieceOfPrefix(lines: seq<string>, n: nat, s: seq<nat>, t: seq<nat>, p: nat)
    requires n <= |lines| && StartsOrdered(lines[..n], s) && StartsOrdered(lines, t)
    requires p < |s| && p < |t| && s[p] == t[p] && PieceEnd(lines[..n], s, p) == PieceEnd(lines, t, p)
    ensures Piece(lines[..n], s, p) == Piece(lines, t, p)
  {
    SliceOfPrefix(lines, n, s[p], PieceEnd(lines, t, p));
  }

  lemma NoCutAtPrefix(lines: seq<string>, n: nat, a: nat, k: nat)
    requires a <= k < n <= |lines|
    ensures NoCutAt(lines[..n], a, k) <==> NoCutAt(lines, a, k)
  {
    SliceOfPrefix(lines, n, a, k);
  }

  // The input with one more line, which opens a new piece.

  lemma OrderedClosing(lines: seq<string>, s: seq<nat>)
    requires |lines| > 1 && |s| >= 1
    ensures StartsOrdered(lines, s + [|lines| - 1]) <==> StartsOrdered(lines[..|lines| - 1], s)
  {
    var n := |lines| - 1;
    var t := s + [n];
    assert forall p :: 0 <= p < |s| ==> t[p] == s[p];
    if StartsOrdered(lines, t) {
      forall p | 0 < p < |s| ensures s[p] < n {
        assert t[p] < t[|s|];
      }
    }
    if StartsOrdered(lines[..n], s) {
      forall p, q | 0 <= p < q < |t| ensures t[p] < t[q] {
        if q < |s| {
          assert s[p] < s[q];
        }
      }
    }
  }

  lemma PiecesClosing(lines: seq<string>, s: seq<nat>)
    requires |lines| > 1 && StartsOrdered(lines, s + [|lines| - 1]) && StartsOrdered(lines[..|lines| - 1], s)
    ensures var t, init := s + [|lines| - 1], lines[..|lines| - 1];
      forall p :: 0 <= p < |s| ==> Piece(init, s, p) == Piece(lines, t, p)
  {
    var n := |lines| - 1;
    var t := s + [n];
    forall p | 0 <= p < |s| ensures Piece(lines[..n], s, p) == Piece(lines, t, p) {
      assert t[p] == s[p];
      if p + 1 < |s| {
        assert t[p + 1] == s[p + 1];
      }
      PieceOfPrefix(lines, n, s, t, p);
    }
  }

  lemma HeadsClosing(lines: seq<string>, s: seq<nat>)
    requires |lines| > 1 && StartsOrdered(lines, s + [|lines| - 1]) && StartsOrdered(lines[..|lines| - 1], s)
    ensures var t, init := s + [|lines| - 1], lines[..|lines| - 1];
      HeadsCut(lines, t) <==>
        HeadsCut(init, s) && !IsBlank(Piece(init, s, |s| - 1)) && StartsWith(lines[|lines| - 1], EVENT_PREFIX)
  {
    var n := |lines| - 1;
    var t, init := s + [n], lines[..n];
    PiecesClosing(lines, s);
    if HeadsCut(init, s) && !IsBlank(Piece(init, s, |s| - 1)) && StartsWith(lines[n], EVENT_PREFIX) {
      forall p | 0 <= p < |t| - 1
        ensures !IsBlank(Piece(lines, t, p)) && StartsWith(lines[t[p + 1]], EVENT_PREFIX)
      {
        assert Piece(init, s, p) == Piece(lines, t, p);
        if p < |s| - 1 {
          assert t[p + 1] == s[p + 1] && lines[s[p + 1]] == init[s[p + 1]];
        } else {
          assert t[p + 1] == n;
        }
      }
      assert HeadsCut(lines, t);
    }
    if HeadsCut(lines, t) {
      assert t[|s|] == n;
      assert !IsBlank(Piece(lines, t, |s| - 1)) && StartsWith(lines[t[|s|]], EVENT_PREFIX);
      assert Piece(init, s, |s| - 1) == Piece(lines, t, |s| - 1);
      forall p | 0 <= p < |s| - 1
        ensures !IsBlank(Piece(init, s, p)) && StartsWith(init[s[p + 1]], EVENT_PREFIX)
      {
        assert Piece(init, s, p) == Piece(lines, t, p);
        assert t[p + 1] == s[p + 1] && lines[s[p + 1]] == init[s[p + 1]];
      }
      assert HeadsCut(init, s);
    }
  }

  lemma InsidesClosing(lines: seq<string>, s: seq<nat>)
    requires |lines| > 1 && StartsOrdered(lines, s + [|lines| - 1]) && StartsOrdered(lines[..|lines| - 1], s)
    ensures InsidesUncut(lines, s + [|lines| - 1]) <==> InsidesUncut(lines[..|lines| - 1], s)
  {
    var n := |lines| - 1;
    var t, init := s + [n], lines[..n];
    forall p, k | 0 <= p < |s| && s[p] < k < PieceEnd(init, s, p)
      ensures InsidesUncut(lines, t) ==> NoCutAt(init, s[p], k)
    {
      assert t[p] == s[p];
      if p + 1 < |s| {
        assert t[p + 1] == s[p + 1];
      }
      NoCutAtPrefix(lines, n, s[p], k);
    }
    forall p, k | 0 <= p < |t| && t[p] < k < PieceEnd(lines, t, p)
      ensures InsidesUncut(init, s) ==> NoCutAt(lines, t[p], k)
    {
      assert t[p] == if p < |s| then s[p] else n;
      if p + 1 < |s| {
        assert t[p + 1] == s[p + 1];
      }
      assert p < |s| && s[p] < k < PieceEnd(init, s, p);
      NoCutAtPrefix(lines, n, s[p], k);
    }
  }

  /** Cuts of an input whose last line opens a piece are the cuts without it, plus that line. */
  lemma CutsClosing(lines: seq<string>, s: seq<nat>)
    requires |lines| > 1 && |s| >= 1
    ensures var init := lines[..|lines| - 1];
      CutsOf(lines, s + [|lines| - 1]) <==>
        CutsOf(init, s) && !IsBlank(Piece(init, s, |s| - 1)) && StartsWith(lines[|lines| - 1], EVENT_PREFIX)
  {
    OrderedClosing(lines, s);
    if StartsOrdered(lines[..|lines| - 1], s) {
      HeadsClosing(lines, s);
      InsidesClosing(lines, s);
    }
  }

  // The input with one more line, which extends the last piece.

  lemma OrderedWithin(lines: seq<string>, s: seq<nat>)
    requires |lines| > 0 && |s| >= 1 && s[|s| - 1] < |lines| - 1
    ensures StartsOrdered(lines, s) <==> StartsOrdered(lines[..|lines| - 1], s)
  {
    if StartsOrdered(lines, s) {
      forall p | 0 < p < |s| ensures s[p] < |lines| - 1 {
        if p < |s| - 1 {
          assert s[p] < s[|s| - 1];
        }
      }
    }
  }

  lemma PiecesWithin(lines: seq<string>, s: seq<nat>)
    requires |lines| > 0 && StartsOrdered(lines, s) && StartsOrdered(lines[..|lines| - 1], s)
    requires s[|s| - 1] < |lines| - 1
    ensures var init := lines[..|lines| - 1];
      forall p :: 0 <= p < |s| - 1 ==> Piece(init, s, p) == Piece(lines, s, p)
    ensures Piece(lines, s, |s| - 1) == Piece(lines[..|lines| - 1], s, |s| - 1) + lines[|lines| - 1]
    ensures Concat(lines[s[|s| - 1]..|lines| - 1]) == Piece(lines[..|lines| - 1], s, |s| - 1)
  {
    var n := |lines| - 1;
    forall p | 0 <= p < |s| - 1 ensures Piece(lines[..n], s, p) == Piece(lines, s, p) {
      PieceOfPrefix(lines, n, s, s, p);
    }
    var a := s[|s| - 1];
    SliceOfPrefix(lines, n, a, n);
    assert lines[a..|lines|] == lines[a..n] + [lines[n]];
    ConcatSnoc(lines[a..n], lines[n]);
  }

  lemma InsidesWithin(lines: seq<string>, s: seq<nat>)
    requires |lines| > 0 && StartsOrdered(lines, s) && StartsOrdered(lines[..|lines| - 1], s)
    requires s[|s| - 1] < |lines| - 1
    ensures InsidesUncut(lines, s) <==>
      InsidesUncut(lines[..|lines| - 1], s) && NoCutAt(lines, s[|s| - 1], |lines| - 1)
  {
    var n := |lines| - 1;
    var init := lines[..n];
    var last := |s| - 1;
    forall p, k | 0 <= p < |s| && s[p] < k < PieceEnd(init, s, p)
      ensures InsidesUncut(lines, s) ==> NoCutAt(init, s[p], k)
    {
      NoCutAtPrefix(lines, n, s[p], k);
    }
    forall p, k | 0 <= p < |s| && s[p] < k < PieceEnd(lines, s, p)
      ensures InsidesUncut(init, s) && NoCutAt(lines, s[last], n) ==> NoCutAt(lines, s[p], k)
    {
      if k != n {
        NoCutAtPrefix(lines, n, s[p], k);
      }
    }
    if InsidesUncut(lines, s) {
      assert s[last] < n < PieceEnd(lines, s, last);
    }
  }

  lemma HeadsWithin(lines: seq<string>, s: seq<nat>)
    requires |lines| > 0 && StartsOrdered(lines, s) && StartsOrdered(lines[..|lines| - 1], s)
    requires s[|s| - 1] < |lines| - 1
    ensures HeadsCut(lines, s) <==> HeadsCut(lines[..|lines| - 1], s)
  {
    var n := |lines| - 1;
    var init := lines[..n];
    PiecesWithin(lines, s);
    if HeadsCut(lines, s) {
      forall p | 0 <= p < |s| - 1
        ensures !IsBlank(Piece(init, s, p)) && StartsWith(init[s[p + 1]], EVENT_PREFIX)
      {
        assert s[p + 1] < n && init[s[p + 1]] == lines[s[p + 1]];
        assert Piece(init, s, p) == Piece(lines, s, p);
      }
      assert HeadsCut(init, s);
    }
    if HeadsCut(init, s) {
      forall p | 0 <= p < |s| - 1
        ensures !IsBlank(Piece(lines, s, p)) && StartsWith(lines[s[p + 1]], EVENT_PREFIX)
      {
        assert s[p + 1] < n && init[s[p + 1]] == lines[s[p + 1]];
        assert Piece(init, s, p) == Piece(lines, s, p);
      }
      assert HeadsCut(lines, s);
    }
  }

  /** Cuts of an input whose last line extends the last piece are the cuts without it. */
  lemma CutsWithin(lines: seq<string>, s: seq<nat>)
    requires |lines| > 0 && |s| >= 1 && s[|s| - 1] < |lines| - 1
    ensures var init := lines[..|lines| - 1];
      CutsOf(lines, s) <==>
        CutsOf(init, s) && !(StartsWith(lines[|lines| - 1], EVENT_PREFIX) && !IsBlank(Piece(init, s, |s| - 1)))
  {
    OrderedWithin(lines, s);
    if StartsOrdered(lines, s) {
      PiecesWithin(lines, s);
      InsidesWithin(lines, s);
      HeadsWithin(lines, s);
    }
  }

  /**
   * Cut as the import cuts, the closed chunks of the loop are every piece but
   * the last, and the chunk in hand is the last piece.
   */
  lemma {:induction false} ScanCuts(lines: seq<string>, starts: seq<nat>)
    requires CutsOf(lines, starts)
    ensures |Scan(lines).done| == |starts| - 1
    ensures forall p :: 0 <= p < |starts| - 1 ==> Scan(lines).done[p] == Piece(lines, starts, p)
    ensures Scan(lines).chunk == Piece(lines, starts, |starts| - 1)
    decreases |lines|
  {
    var last := |starts| - 1;
    if lines == [] {
      assert last == 0 && lines[0..0] == [];
    } else {
      var n := |lines| - 1;
      var init := lines[..n];
      assert lines[..|lines| - 1] == init;
      if starts[last] == n && last == 0 {
        assert lines[0..|lines|] == [] + [lines[n]];
        ConcatSnoc([], lines[n]);
      } else if starts[last] == n {
        var s := starts[..last];
        assert starts == s + [n];
        CutsClosing(lines, s);
        PiecesClosing(lines, s);
        ScanCuts(init, s);
        ScanClosing(lines, s);
      } else {
        CutsWithin(lines, starts);
        PiecesWithin(lines, starts);
        ScanCuts(init, starts);
        ScanExtending(lines, starts);
      }
    }
  }

  /** The loop's step at a line that opens a piece: the last piece of the shorter input is closed. */
  lemma ScanClosing(lines: seq<string>, s: seq<nat>)
    requires |lines| > 1 && |s| >= 1 && CutsOf(lines[..|lines| - 1], s) && StartsOrdered(lines, s + [|lines| - 1])
    requires StartsWith(lines[|lines| - 1], EVENT_PREFIX) && !IsBlank(Piece(lines[..|lines| - 1], s, |s| - 1))
    requires var t, init := s + [|lines| - 1], lines[..|lines| - 1];
      && (forall p :: 0 <= p < |s| ==> Piece(init, s, p) == Piece(lines, t, p))
      && |Scan(init).done| == |s| - 1
      && (forall p :: 0 <= p < |s| - 1 ==> Scan(init).done[p] == Piece(init, s, p))
      && Scan(init).chunk == Piece(init, s, |s| - 1)
    ensures var t := s + [|lines| - 1];
      && |Scan(lines).done| == |t| - 1
      && (forall p :: 0 <= p < |t| - 1 ==> Scan(lines).done[p] == Piece(lines, t, p))
      && Scan(lines).chunk == Piece(lines, t, |t| - 1)
  {
    var n := |lines| - 1;
    var t := s + [n];
    var st := Scan(lines[..n]);
    assert Scan(lines) == Splitter(st.done + [st.chunk], lines[n]);
    assert t[|s|] == n && PieceEnd(lines, t, |s|) == n + 1;
    assert lines[n..n + 1] == [] + [lines[n]];
    ConcatSnoc([], lines[n]);
  }

  /** The loop's step at a line that extends the last piece: the chunk in hand grows by that line. */
  lemma ScanExtending(lines: seq<string>, s: seq<nat>)
    requires |lines| > 0 && |s| >= 1 && s[|s| - 1] < |lines| - 1
    requires CutsOf(lines[..|lines| - 1], s) && StartsOrdered(lines, s)
    requires !(StartsWith(lines[|lines| - 1], EVENT_PREFIX) && !IsBlank(Piece(lines[..|lines| - 1], s, |s| - 1)))
    requires var init := lines[..|lines| - 1];
      && (forall p :: 0 <= p < |s| - 1 ==> Piece(init, s, p) == Piece(lines, s, p))
      && Piece(lines, s, |s| - 1) == Piece(init, s, |s| - 1) + lines[|lines| - 1]
      && |Scan(init).done| == |s| - 1
      && (forall p :: 0 <= p < |s| - 1 ==> Scan(init).done[p] == Piece(init, s, p))
      && Scan(init).chunk == Piece(init, s, |s| - 1)
    ensures |Scan(lines).done| == |s| - 1
    ensures forall p :: 0 <= p < |s| - 1 ==> Scan(lines).done[p] == Piece(lines, s, p)
    ensures Scan(lines).chunk == Piece(lines, s, |s| - 1)
  {
    var n := |lines| - 1;
    var st := Scan(lines[..n]);
    assert Scan(lines) == Splitter(st.done, st.chunk + lines[n]);
  }

  /** Every input has such cuts, so `ChunksCut` describes the chunks of every input. */
  lemma {:induction false} CutsExist(lines: seq<string>) returns (starts: seq<nat>)
    ensures CutsOf(lines, starts)
    decreases |lines|
  {
    if |lines| <= 1 {
      starts := [0];
    } else {
      var n := |lines| - 1;
      var s0 := CutsExist(lines[..n]);
      if StartsWith(lines[n], EVENT_PREFIX) && !IsBlank(Piece(lines[..n], s0, |s0| - 1)) {
        CutsClosing(lines, s0);
        starts := s0 + [n];
      } else {
        assert s0[|s0| - 1] < n by {
          if |s0| > 1 {
            assert s0[|s0| - 1] < |lines[..n]|;
          }
        }
        CutsWithin(lines, s0);
        starts := s0;
      }
    }
  }

  /**
   * The chunks ingested are exactly the pieces of the input cut at every
   * `[Event ` line that follows non-blank text since the previous cut, in
   * order, with the last piece dropped when it is blank.
   */
  lemma ChunksCut(lines: seq<string>, starts: seq<nat>)
    requires CutsOf(lines, starts)
    ensures |Chunks(lines)| == if IsBlank(Piece(lines, starts, |starts| - 1)) then |starts| - 1 else |starts|
    ensures forall p :: 0 <= p < |Chunks(lines)| ==> Chunks(lines)[p] == Piece(lines, starts, p)
  {
    ScanCuts(lines, starts);
  }

  /** The chunks closed after some lines stay a prefix of the chunks closed after more. */
  lemma {:induction false} ScanGrows(lines: seq<string>, i: nat)
    requires i <= |lines|
    ensures Scan(lines[..i]).done <= Scan(lines).done
    decreases |lines| - i
  {
    if i < |lines| {
      var init := lines[..|lines| - 1];
      assert init[..i] == lines[..i];
      ScanGrows(init, i);
      assert lines[..|lines| - 1] == init;
    } else {
      assert lines[..i] == lines;
    }
  }

  // ---------------------------------------------------------------------
  // The import loop

  /**
   * The loop of `import_pgn_file_with_progress`: read lines until the end of
   * the input, ingest the chunk in hand when an `[Event ` line arrives, then
   * ingest what is left unless it is blank. The result is the chunks of the
   * input ingested in order.
   */
  method ImportLines(reader: LineReader, parse: string -> Option<PgnGame>,
                     insert: (nat, GameRow) -> Result<nat, ImportError>) returns (r: Result<ImportSummary, ImportError>)
    requires reader.Valid() && reader.pos == 0
    modifies reader
    ensures r == IngestAll(Chunks(reader.lines), parse, insert)
    ensures r.Ok? ==> reader.pos == |reader.lines|
  {
    var chunk: string := "";
    var summary := EMPTY_SUMMARY;
    ghost var done: seq<string> := [];
    while true
      invariant reader.Valid()
      invariant Scan(reader.lines[..reader.pos]) == Splitter(done, chunk)
      invariant IngestAll(done, parse, insert) == Ok(summary)
      decreases |reader.lines| - reader.pos
    {
      ghost var before := reader.pos;
      var line := reader.ReadLine();
      if line.None? {
        assert reader.lines[..reader.pos] == reader.lines;
        if Trim(chunk) != [] {
          assert Chunks(reader.lines) == done + [chunk];
          assert (done + [chunk])[..|done|] == done;
          r := IngestGameChunk(summary, chunk, parse, insert);
        } else {
          r := Ok(summary);
        }
        return;
      }
      assert reader.lines[..reader.pos] == reader.lines[..before] + [line.value];
      if StartsWith(line.value, EVENT_PREFIX) && Trim(chunk) != [] {
        var ingested := IngestGameChunk(summary, chunk, parse, insert);
        assert (done + [chunk])[..|done|] == done;
        if ingested.Err? {
          ClosedChunkFails(reader.lines, reader.pos, done + [chunk], parse, insert);
          return ingested;
        }
        summary := ingested.value;
        done := done + [chunk];
        chunk := "";
      }
      chunk := chunk + line.value;
    }
  }

  /** A failing chunk closed after some lines makes the whole import fail with its error. */
  lemma ClosedChunkFails(lines: seq<string>, i: nat, done: seq<string>, parse: string -> Option<PgnGame>,
                         insert: (nat, GameRow) -> Result<nat, ImportError>)
    requires i <= |lines| && Scan(lines[..i]).done == done
    requires IngestAll(done, parse, insert).Err?
    ensures IngestAll(Chunks(lines), parse, insert) == IngestAll(done, parse, insert)
  {
    ScanGrows(lines, i);
    assert done <= Chunks(lines);
    assert Chunks(lines)[..|done|] == done;
    IngestAllStops(Chunks(lines), |done|, parse, insert);
  }
}
