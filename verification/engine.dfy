/**
 * The engine session's protocol layer (src/engine.rs): reading UCI output
 * line by line, parsing `info` lines, keeping the best record per MultiPV
 * rank and turning them into the final analysis.
 */
module Engine {
  import opened Wrappers
  import opened Text
  import opened LineIo

  /** One parsed `info` line. */
  datatype ParsedInfo = ParsedInfo(
    depth: Option<U32>,
    scoreCp: Option<I32>,
    scoreMate: Option<I32>,
    pv: seq<string>,
    multipv: U32)

  datatype EngineError = Io | Spawn(message: string) | Protocol(message: string)

  /** One ranked principal variation of the final analysis. */
  datatype EngineLine = EngineLine(
    multipvRank: U32,
    depth: U32,
    scoreCp: Option<I32>,
    scoreMate: Option<I32>,
    pv: seq<string>,
    sanPv: seq<string>)

  /** The analysis of one position: the primary line's figures plus every ranked line. */
  datatype EngineAnalysis = EngineAnalysis(
    depth: U32,
    scoreCp: Option<I32>,
    scoreMate: Option<I32>,
    bestmove: Option<string>,
    pv: seq<string>,
    lines: seq<EngineLine>)

  const DEFAULT_DEPTH: U32 := 18
  const MAX_MULTIPV: U32 := 10
  /** The iteration bound of the analysis read loop. */
  const MAX_ANALYSIS_LINES: nat := 50000

  const CLOSED_BEFORE_BESTMOVE: string := "engine closed output before sending bestmove"
  const NO_ANALYSIS_INFO: string := "engine returned no analysis info for this position"

  function ClosedWhileWaiting(token: string): string {
    "engine closed output while waiting for '" + token + "'"
  }

  function DidNotReceive(token: string): string {
    "did not receive '" + token + "' from engine"
  }

  // ---------------------------------------------------------------------
  // Waiting for a handshake token

  /**
   * What `wait_for_uci_token` returns when the unread lines start at `pos`
   * and at most `budget` more lines may be read, with the reader position
   * it leaves behind.
   */
  function WaitOutcome(lines: seq<string>, pos: nat, token: string, budget: nat): (r: (Result<(), EngineError>, nat))
    requires pos <= |lines|
    ensures pos <= r.1 <= |lines|
    decreases budget
  {
    if budget == 0 then (Err(Protocol(DidNotReceive(token))), pos)
    else if pos == |lines| then (Err(Protocol(ClosedWhileWaiting(token))), pos)
    else if Trim(lines[pos]) == token then (Ok(()), pos + 1)
    else WaitOutcome(lines, pos + 1, token, budget - 1)
  }

  /** Some line among `lines[pos..]` within the first `budget` is, once trimmed, the token. */
  ghost predicate TokenWithin(lines: seq<string>, pos: nat, token: string, budget: nat) {
    exists k :: pos <= k < |lines| && k < pos + budget && Trim(lines[k]) == token
  }

  lemma TokenWithinStep(lines: seq<string>, pos: nat, token: string, budget: nat)
    requires pos < |lines| && budget > 0 && Trim(lines[pos]) != token
    ensures TokenWithin(lines, pos, token, budget) <==> TokenWithin(lines, pos + 1, token, budget - 1)
  {
    if TokenWithin(lines, pos, token, budget) {
      var k :| pos <= k < |lines| && k < pos + budget && Trim(lines[k]) == token;
      assert k != pos;
    }
  }

  /** Waiting succeeds exactly when the token arrives within the bound, and consumes up to it. */
  lemma {:induction false} WaitSucceedsIff(lines: seq<string>, pos: nat, token: string, budget: nat)
    requires pos <= |lines|
    ensures WaitOutcome(lines, pos, token, budget).0.Ok? <==> TokenWithin(lines, pos, token, budget)
    decreases budget
  {
    var outcome := WaitOutcome(lines, pos, token, budget);
    if budget == 0 || pos == |lines| {
      assert outcome.0.Err?;
      assert !TokenWithin(lines, pos, token, budget);
    } else if Trim(lines[pos]) == token {
      assert outcome.0.Ok?;
      assert TokenWithin(lines, pos, token, budget) by {
        assert pos <= pos < |lines| && pos < pos + budget && Trim(lines[pos]) == token;
      }
    } else {
      assert outcome == WaitOutcome(lines, pos + 1, token, budget - 1);
      TokenWithinStep(lines, pos, token, budget);
      WaitSucceedsIff(lines, pos + 1, token, budget - 1);
    }
  }

  /**
   * A failed wait says "closed" when the stream ends inside the bound and
   * "did not receive" when the bound is used up first.
   */
  lemma {:induction false} WaitFailureKind(lines: seq<string>, pos: nat, token: string, budget: nat)
    requires pos <= |lines|
    requires !TokenWithin(lines, pos, token, budget)
    ensures |lines| < pos + budget ==> WaitOutcome(lines, pos, token, budget).0 == Err(Protocol(ClosedWhileWaiting(token)))
    ensures pos + budget <= |lines| ==> WaitOutcome(lines, pos, token, budget).0 == Err(Protocol(DidNotReceive(token)))
    decreases budget
  {
    if budget > 0 && pos < |lines| {
      assert Trim(lines[pos]) != token;
      TokenWithinStep(lines, pos, token, budget);
      WaitFailureKind(lines, pos + 1, token, budget - 1);
    }
  }

  /** `wait_for_uci_token`: read at most `maxLines` lines until one, trimmed, equals `token`. */
  method WaitForUciToken(reader: LineReader, token: string, maxLines: nat) returns (r: Result<(), EngineError>)
    requires reader.Valid()
    modifies reader
    ensures reader.Valid()
    ensures (r, reader.pos) == WaitOutcome(reader.lines, old(reader.pos), token, maxLines)
  {
    ghost var start := reader.pos;
    for n := 0 to maxLines
      invariant reader.Valid()
      invariant WaitOutcome(reader.lines, start, token, maxLines)
        == WaitOutcome(reader.lines, reader.pos, token, maxLines - n)
    {
      var line := reader.ReadLine();
      if line.None? {
        return Err(Protocol(ClosedWhileWaiting(token)));
      }
      if Trim(line.value) == token {
        return Ok(());
      }
    }
    r := Err(Protocol(DidNotReceive(token)));
  }

  // ---------------------------------------------------------------------
  // Parsing one `info` line

  const EMPTY_INFO: ParsedInfo := ParsedInfo(None, None, None, [], 1)

  /** A record worth keeping: it carries a depth, a score or a principal variation. */
  predicate HasData(info: ParsedInfo) {
    info.depth.Some? || info.scoreCp.Some? || info.scoreMate.Some? || info.pv != []
  }

  /** Index of the token after the keyword at `i` and the arguments it consumes. */
  function NextKeyword(toks: seq<string>, i: nat): (j: nat)
    requires i < |toks|
    ensures j > i
  {
    if toks[i] == "depth" || toks[i] == "multipv" then i + 2
    else if toks[i] == "score" then i + 3
    else i + 1
  }

  /** The effect of the (non-`pv`) keyword at `i` on the record built so far. */
  function Consume(toks: seq<string>, i: nat, acc: ParsedInfo): ParsedInfo
    requires i < |toks|
  {
    if toks[i] == "depth" then
      if i + 1 < |toks| && ParseU32(toks[i + 1]).Some? then acc.(depth := ParseU32(toks[i + 1])) else acc
    else if toks[i] == "multipv" then
      if i + 1 < |toks| && ParseU32(toks[i + 1]).Some? then acc.(multipv := ParseU32(toks[i + 1]).value) else acc
    else if toks[i] == "score" then
      if i + 2 < |toks| then
        if toks[i + 1] == "cp" then acc.(scoreCp := ParseI32(toks[i + 2]))
        else if toks[i + 1] == "mate" then acc.(scoreMate := ParseI32(toks[i + 2]))
        else acc
      else acc
    else acc
  }

  /** The keyword scan of `parse_info_line` from token `i`; `pv` takes the rest of the line and ends it. */
  function ScanFrom(toks: seq<string>, i: nat, acc: ParsedInfo): ParsedInfo
    decreases if i <= |toks| then |toks| - i else 0
  {
    if i >= |toks| then acc
    else if toks[i] == "pv" then
      if i + 1 < |toks| then acc.(pv := toks[i + 1..]) else acc
    else ScanFrom(toks, NextKeyword(toks, i), Consume(toks, i, acc))
  }

  /** `parse_info_line` as a function of the line. */
  function ParseInfo(line: string): Option<ParsedInfo> {
    if !StartsWith(line, "info ") then None
    else
      var info := ScanFrom(SplitWhitespace(line), 0, EMPTY_INFO);
      if HasData(info) then Some(info) else None
  }

  /** `parse_info_line` */
  method ParseInfoLine(line: string) returns (r: Option<ParsedInfo>)
    ensures r == ParseInfo(line)
    ensures !StartsWith(line, "info ") ==> r == None
    ensures r.Some? ==> HasData(r.value)
  {
    if !StartsWith(line, "info ") {
      return None;
    }
    var tokens := SplitWhitespace(line);
    var depth: Option<U32> := None;
    var scoreCp: Option<I32> := None;
    var scoreMate: Option<I32> := None;
    var pv: seq<string> := [];
    var multipv: U32 := 1;

    var index: nat := 0;
    while index < |tokens|
      invariant ScanFrom(tokens, index, ParsedInfo(depth, scoreCp, scoreMate, pv, multipv))
        == ScanFrom(tokens, 0, EMPTY_INFO)
      decreases |tokens| - index
    {
      if tokens[index] == "depth" {
        if index + 1 < |tokens| {
          var value := ParseU32(tokens[index + 1]);
          if value.Some? {
            depth := value;
          }
        }
        index := index + 2;
      } else if tokens[index] == "multipv" {
        if index + 1 < |tokens| {
          var value := ParseU32(tokens[index + 1]);
          if value.Some? {
            multipv := value.value;
          }
        }
        index := index + 2;
      } else if tokens[index] == "score" {
        if index + 2 < |tokens| {
          var kind := tokens[index + 1];
          var value := tokens[index + 2];
          if kind == "cp" {
            scoreCp := ParseI32(value);
          } else if kind == "mate" {
            scoreMate := ParseI32(value);
          }
        }
        index := index + 3;
      } else if tokens[index] == "pv" {
        if index + 1 < |tokens| {
          pv := tokens[index + 1..];
        }
        break;
      } else {
        index := index + 1;
      }
    }

    if depth.None? && scoreCp.None? && scoreMate.None? && pv == [] {
      r := None;
    } else {
      r := Some(ParsedInfo(depth, scoreCp, scoreMate, pv, multipv));
    }
  }

  /** Token `k` is reached as a keyword (not consumed as an argument) when scanning from token `i`. */
  ghost predicate Reaches(toks: seq<string>, i: nat, k: nat)
    decreases if i <= k then k - i else 0
  {
    i == k || (i < k && i < |toks| && toks[i] != "pv" && Reaches(toks, NextKeyword(toks, i), k))
  }

  /**
   * Once the scan reaches a `pv` keyword that has moves after it, the moves are
   * exactly the rest of the line and the other fields are what the tokens
   * before the keyword gave: nothing after `pv` is interpreted.
   */
  lemma {:induction false} ScanStopsAtPv(toks: seq<string>, i: nat, k: nat, acc: ParsedInfo)
    requires Reaches(toks, i, k) && k + 1 < |toks| && toks[k] == "pv"
    ensures ScanFrom(toks, i, acc) == ScanFrom(toks[..k], i, acc).(pv := toks[k + 1..])
    decreases k - i
  {
    if i == k {
    } else {
      var prefix := toks[..k];
      var next := NextKeyword(toks, i);
      assert prefix[i] == toks[i];
      assert Reaches(toks, next, k);
      assert NextKeyword(prefix, i) == next;
      assert Consume(prefix, i, acc) == Consume(toks, i, acc) by {
        if toks[i] == "depth" || toks[i] == "multipv" {
          assert prefix[i + 1] == toks[i + 1];
        } else if toks[i] == "score" {
          assert prefix[i + 1] == toks[i + 1] && prefix[i + 2] == toks[i + 2];
        }
      }
      ScanStopsAtPv(toks, next, k, Consume(toks, i, acc));
    }
  }

  /** Without a `pv` keyword the moves stay as they were; without a `multipv` keyword so does the rank. */
  lemma {:induction false} ScanKeepsAbsentFields(toks: seq<string>, i: nat, acc: ParsedInfo)
    ensures "pv" !in toks ==> ScanFrom(toks, i, acc).pv == acc.pv
    ensures "multipv" !in toks ==> ScanFrom(toks, i, acc).multipv == acc.multipv
    decreases if i <= |toks| then |toks| - i else 0
  {
    if i < |toks| && toks[i] != "pv" {
      ScanKeepsAbsentFields(toks, NextKeyword(toks, i), Consume(toks, i, acc));
    }
  }

  /**
   * The principal variation of an `info` line is the non-empty run of tokens
   * after the first `pv` keyword the scan reaches, and the rank is 1 unless a
   * `multipv` keyword comes before that `pv`.
   */
  lemma ParseInfoPv(line: string, k: nat)
    requires StartsWith(line, "info ")
    requires var toks := SplitWhitespace(line); Reaches(toks, 0, k) && k + 1 < |toks| && toks[k] == "pv"
    ensures var toks := SplitWhitespace(line);
      && ParseInfo(line).Some?
      && ParseInfo(line).value == ScanFrom(toks[..k], 0, EMPTY_INFO).(pv := toks[k + 1..])
      && ("multipv" !in toks[..k] ==> ParseInfo(line).value.multipv == 1)
  {
    var toks := SplitWhitespace(line);
    ScanStopsAtPv(toks, 0, k, EMPTY_INFO);
    var info := ScanFrom(toks, 0, EMPTY_INFO);
    assert info.pv == toks[k + 1..] && info.pv != [];
    assert ParseInfo(line) == Some(info);
    ScanKeepsAbsentFields(toks[..k], 0, EMPTY_INFO);
  }

  /** A reached token lies at or after the start of the scan. */
  lemma ReachesForward(toks: seq<string>, i: nat, k: nat)
    requires Reaches(toks, i, k)
    ensures i <= k
  {
  }

  /** From a keyword other than `pv`, the scan reaches that keyword and whatever the next keyword reaches. */
  lemma ReachesStep(toks: seq<string>, i: nat)
    requires i < |toks| && toks[i] != "pv"
    ensures forall k: nat :: Reaches(toks, i, k) <==> k == i || Reaches(toks, NextKeyword(toks, i), k)
  {
    forall k: nat | Reaches(toks, NextKeyword(toks, i), k)
      ensures Reaches(toks, i, k)
    {
      ReachesForward(toks, NextKeyword(toks, i), k);
    }
  }

  /** Only the scan's end (the token count, or a `pv` keyword) is reached from itself. */
  lemma ReachesAtEnd(toks: seq<string>, i: nat)
    requires i >= |toks| || toks[i] == "pv"
    ensures forall k: nat :: Reaches(toks, i, k) ==> k == i
  {
  }

  /** The token at `j` is `multipv` followed by a parsable number. */
  predicate SetsRankAt(toks: seq<string>, j: nat) {
    j + 1 < |toks| && toks[j] == "multipv" && ParseU32(toks[j + 1]).Some?
  }

  /** The token at `j` is `depth` followed by a parsable number. */
  predicate SetsDepthAt(toks: seq<string>, j: nat) {
    j + 1 < |toks| && toks[j] == "depth" && ParseU32(toks[j + 1]).Some?
  }

  /** The token at `j` is `score cp` followed by a value token (parsable or not). */
  predicate SetsCpAt(toks: seq<string>, j: nat) {
    j + 2 < |toks| && toks[j] == "score" && toks[j + 1] == "cp"
  }

  /** The token at `j` is `score mate` followed by a value token (parsable or not). */
  predicate SetsMateAt(toks: seq<string>, j: nat) {
    j + 2 < |toks| && toks[j] == "score" && toks[j + 1] == "mate"
  }

  /** `j` is the last keyword reached from `i` that sets the rank. */
  ghost predicate LastRankAt(toks: seq<string>, i: nat, j: nat) {
    Reaches(toks, i, j) && SetsRankAt(toks, j) && forall m: nat :: j < m && Reaches(toks, i, m) ==> !SetsRankAt(toks, m)
  }

  /** `j` is the last keyword reached from `i` that sets the depth. */
  ghost predicate LastDepthAt(toks: seq<string>, i: nat, j: nat) {
    Reaches(toks, i, j) && SetsDepthAt(toks, j) && forall m: nat :: j < m && Reaches(toks, i, m) ==> !SetsDepthAt(toks, m)
  }

  /** `j` is the last keyword reached from `i` that sets the centipawn score. */
  ghost predicate LastCpAt(toks: seq<string>, i: nat, j: nat) {
    Reaches(toks, i, j) && SetsCpAt(toks, j) && forall m: nat :: j < m && Reaches(toks, i, m) ==> !SetsCpAt(toks, m)
  }

  /** `j` is the last keyword reached from `i` that sets the mate score. */
  ghost predicate LastMateAt(toks: seq<string>, i: nat, j: nat) {
    Reaches(toks, i, j) && SetsMateAt(toks, j) && forall m: nat :: j < m && Reaches(toks, i, m) ==> !SetsMateAt(toks, m)
  }

  /**
   * The rank is the number after the last `multipv` keyword the scan reaches
   * with a parsable number; a `multipv` with anything else after it changes
   * nothing, and without such a keyword the rank is what it was.
   */
  lemma {:induction false} ScanRank(toks: seq<string>, i: nat, acc: ParsedInfo)
    ensures (forall j: nat :: Reaches(toks, i, j) ==> !SetsRankAt(toks, j)) ==> ScanFrom(toks, i, acc).multipv == acc.multipv
    ensures forall j: nat :: LastRankAt(toks, i, j) ==> ScanFrom(toks, i, acc).multipv == ParseU32(toks[j + 1]).value
    decreases if i <= |toks| then |toks| - i else 0
  {
    if i >= |toks| || toks[i] == "pv" {
      ReachesAtEnd(toks, i);
    } else {
      var next := NextKeyword(toks, i);
      ReachesStep(toks, i);
      ScanRank(toks, next, Consume(toks, i, acc));
      forall j: nat | LastRankAt(toks, i, j) && j != i
        ensures LastRankAt(toks, next, j)
      {
      }
      if SetsRankAt(toks, i) {
        assert Consume(toks, i, acc).multipv == ParseU32(toks[i + 1]).value;
        if LastRankAt(toks, i, i) {
          forall m: nat | Reaches(toks, next, m)
            ensures !SetsRankAt(toks, m)
          {
            ReachesForward(toks, next, m);
          }
        }
      } else {
        assert Consume(toks, i, acc).multipv == acc.multipv;
      }
    }
  }

  /** The same for the depth: the number after the last reached `depth` keyword with a parsable number. */
  lemma {:induction false} ScanDepth(toks: seq<string>, i: nat, acc: ParsedInfo)
    ensures (forall j: nat :: Reaches(toks, i, j) ==> !SetsDepthAt(toks, j)) ==> ScanFrom(toks, i, acc).depth == acc.depth
    ensures forall j: nat :: LastDepthAt(toks, i, j) ==> ScanFrom(toks, i, acc).depth == ParseU32(toks[j + 1])
    decreases if i <= |toks| then |toks| - i else 0
  {
    if i >= |toks| || toks[i] == "pv" {
      ReachesAtEnd(toks, i);
    } else {
      var next := NextKeyword(toks, i);
      ReachesStep(toks, i);
      ScanDepth(toks, next, Consume(toks, i, acc));
      forall j: nat | LastDepthAt(toks, i, j) && j != i
        ensures LastDepthAt(toks, next, j)
      {
      }
      if SetsDepthAt(toks, i) {
        assert Consume(toks, i, acc).depth == ParseU32(toks[i + 1]);
        if LastDepthAt(toks, i, i) {
          forall m: nat | Reaches(toks, next, m)
            ensures !SetsDepthAt(toks, m)
          {
            ReachesForward(toks, next, m);
          }
        }
      } else {
        assert Consume(toks, i, acc).depth == acc.depth;
      }
    }
  }

  /**
   * The centipawn score is the parse of the value after the last reached
   * `score cp`, so a value that does not parse clears it (unlike `depth`);
   * `score mate` leaves it alone, and without `score cp` it is what it was.
   */
  lemma {:induction false} ScanCp(toks: seq<string>, i: nat, acc: ParsedInfo)
    ensures (forall j: nat :: Reaches(toks, i, j) ==> !SetsCpAt(toks, j)) ==> ScanFrom(toks, i, acc).scoreCp == acc.scoreCp
    ensures forall j: nat :: LastCpAt(toks, i, j) ==> ScanFrom(toks, i, acc).scoreCp == ParseI32(toks[j + 2])
    decreases if i <= |toks| then |toks| - i else 0
  {
    if i >= |toks| || toks[i] == "pv" {
      ReachesAtEnd(toks, i);
    } else {
      var next := NextKeyword(toks, i);
      ReachesStep(toks, i);
      ScanCp(toks, next, Consume(toks, i, acc));
      forall j: nat | LastCpAt(toks, i, j) && j != i
        ensures LastCpAt(toks, next, j)
      {
      }
      if SetsCpAt(toks, i) {
        assert Consume(toks, i, acc).scoreCp == ParseI32(toks[i + 2]);
        if LastCpAt(toks, i, i) {
          forall m: nat | Reaches(toks, next, m)
            ensures !SetsCpAt(toks, m)
          {
            ReachesForward(toks, next, m);
          }
        }
      } else {
        assert Consume(toks, i, acc).scoreCp == acc.scoreCp;
      }
    }
  }

  /** The same for the mate score, which `score cp` leaves alone. */
  lemma {:induction false} ScanMate(toks: seq<string>, i: nat, acc: ParsedInfo)
    ensures (forall j: nat :: Reaches(toks, i, j) ==> !SetsMateAt(toks, j)) ==> ScanFrom(toks, i, acc).scoreMate == acc.scoreMate
    ensures forall j: nat :: LastMateAt(toks, i, j) ==> ScanFrom(toks, i, acc).scoreMate == ParseI32(toks[j + 2])
    decreases if i <= |toks| then |toks| - i else 0
  {
    if i >= |toks| || toks[i] == "pv" {
      ReachesAtEnd(toks, i);
    } else {
      var next := NextKeyword(toks, i);
      ReachesStep(toks, i);
      ScanMate(toks, next, Consume(toks, i, acc));
      forall j: nat | LastMateAt(toks, i, j) && j != i
        ensures LastMateAt(toks, next, j)
      {
      }
      if SetsMateAt(toks, i) {
        assert Consume(toks, i, acc).scoreMate == ParseI32(toks[i + 2]);
        if LastMateAt(toks, i, i) {
          forall m: nat | Reaches(toks, next, m)
            ensures !SetsMateAt(toks, m)
          {
            ReachesForward(toks, next, m);
          }
        }
      } else {
        assert Consume(toks, i, acc).scoreMate == acc.scoreMate;
      }
    }
  }

  /**
   * A parsed line's rank is N when the last `multipv` keyword the scan reaches
   * with a parsable number has N, and 1 when there is none; its depth is the
   * number of the last such `depth` keyword, and absent when there is none;
   * each score is the parse of the value after the last reached `score cp`
   * (or `score mate`), and absent when there is none.
   */
  lemma ParseInfoRankAndDepth(line: string)
    requires ParseInfo(line).Some?
    ensures var toks := SplitWhitespace(line); var info := ParseInfo(line).value;
      && ((forall j: nat :: Reaches(toks, 0, j) ==> !SetsRankAt(toks, j)) ==> info.multipv == 1)
      && (forall j: nat :: LastRankAt(toks, 0, j) ==> info.multipv == ParseU32(toks[j + 1]).value)
      && ((forall j: nat :: Reaches(toks, 0, j) ==> !SetsDepthAt(toks, j)) ==> info.depth == None)
      && (forall j: nat :: LastDepthAt(toks, 0, j) ==> info.depth == ParseU32(toks[j + 1]))
      && ((forall j: nat :: Reaches(toks, 0, j) ==> !SetsCpAt(toks, j)) ==> info.scoreCp == None)
      && (forall j: nat :: LastCpAt(toks, 0, j) ==> info.scoreCp == ParseI32(toks[j + 2]))
      && ((forall j: nat :: Reaches(toks, 0, j) ==> !SetsMateAt(toks, j)) ==> info.scoreMate == None)
      && (forall j: nat :: LastMateAt(toks, 0, j) ==> info.scoreMate == ParseI32(toks[j + 2]))
  {
    var toks := SplitWhitespace(line);
    ScanRank(toks, 0, EMPTY_INFO);
    ScanDepth(toks, 0, EMPTY_INFO);
    ScanCp(toks, 0, EMPTY_INFO);
    ScanMate(toks, 0, EMPTY_INFO);
  }

  /** A line without any `pv` keyword has no principal variation, and without `multipv` it has rank 1. */
  lemma ParseInfoWithoutKeywords(line: string)
    requires ParseInfo(line).Some?
    ensures "pv" !in SplitWhitespace(line) ==> ParseInfo(line).value.pv == []
    ensures "multipv" !in SplitWhitespace(line) ==> ParseInfo(line).value.multipv == 1
  {
    ScanKeepsAbsentFields(SplitWhitespace(line), 0, EMPTY_INFO);
  }

  // ---------------------------------------------------------------------
  // The replacement rule and the request normalisation

  function DepthOrZero(info: ParsedInfo): nat {
    info.depth.UnwrapOr(0)
  }

  /** `better_info`: the candidate replaces the current record for its rank. */
  function BetterInfo(candidate: ParsedInfo, current: ParsedInfo): bool {
    var candidateDepth := DepthOrZero(candidate);
    var currentDepth := DepthOrZero(current);
    candidateDepth > currentDepth
      || (candidateDepth == currentDepth && candidate.pv != [] && current.pv == [])
  }

  /** The order `better_info` decides: by depth, then by having a principal variation. */
  function InfoKey(info: ParsedInfo): nat {
    2 * DepthOrZero(info) + (if info.pv != [] then 1 else 0)
  }

  /** `better_info` is the strict order of the key (depth, has pv): irreflexive and transitive. */
  lemma BetterInfoIsKeyOrder(a: ParsedInfo, b: ParsedInfo)
    ensures BetterInfo(a, b) <==> InfoKey(a) > InfoKey(b)
    ensures !BetterInfo(a, a)
  {
  }

  /** `normalized_depth`: 0 asks for the default depth. */
  function NormalizedDepth(depth: U32): (r: U32)
    ensures r >= 1
    ensures depth == 0 ==> r == DEFAULT_DEPTH
    ensures depth != 0 ==> r == depth
  {
    if depth == 0 then DEFAULT_DEPTH else depth
  }

  /** `normalized_multipv`: the width clamped into [1, 10]. */
  function NormalizedMultipv(multipv: U32): (r: U32)
    ensures 1 <= r <= MAX_MULTIPV
    ensures 1 <= multipv <= MAX_MULTIPV ==> r == multipv
    ensures multipv < 1 ==> r == 1
    ensures multipv > MAX_MULTIPV ==> r == MAX_MULTIPV
  {
    if multipv < 1 then 1 else if multipv > MAX_MULTIPV then MAX_MULTIPV else multipv
  }

  lemma NormalizationIdempotent(depth: U32, multipv: U32)
    ensures NormalizedDepth(NormalizedDepth(depth)) == NormalizedDepth(depth)
    ensures NormalizedMultipv(NormalizedMultipv(multipv)) == NormalizedMultipv(multipv)
  {
  }

  // ---------------------------------------------------------------------
  // Converting a principal variation to SAN

  /**
   * The chess rules the conversion consults, which are not part of this model:
   * whether a FEN text describes a legal position, and the SAN of a UCI move
   * played after the given earlier moves from that position (None when the
   * text is not a UCI move or the move is illegal there).
   */
  datatype Rules = Rules(
    fenValid: string -> bool,
    san: (string, seq<string>, string) -> Option<string>)

  /** The SAN of the moves of `pv` from index `i` on, up to the first one that does not convert. */
  function SanRun(rules: Rules, fen: string, pv: seq<string>, i: nat): (r: seq<string>)
    requires i <= |pv|
    ensures |r| <= |pv| - i
    ensures forall j :: 0 <= j < |r| ==> rules.san(fen, pv[..i + j], pv[i + j]) == Some(r[j])
    ensures i + |r| < |pv| ==> rules.san(fen, pv[..i + |r|], pv[i + |r|]).None?
    decreases |pv| - i
  {
    if i == |pv| then []
    else match rules.san(fen, pv[..i], pv[i])
      case None => []
      case Some(s) =>
        var tail := SanRun(rules, fen, pv, i + 1);
        var r := [s] + tail;
        assert forall j :: 0 < j < |r| ==> r[j] == tail[j - 1];
        r
  }

  /** `pv_uci_to_san` as a function: nothing for an unusable FEN, else the run of converted moves. */
  function PvToSan(rules: Rules, fen: string, pv: seq<string>): seq<string> {
    if rules.fenValid(fen) then SanRun(rules, fen, pv, 0) else []
  }

  /**
   * One SAN per converted move, in order, stopping at the first move that
   * does not convert: the result is as long as the longest prefix of `pv`
   * whose moves all convert.
   */
  lemma PvToSanTruncates(rules: Rules, fen: string, pv: seq<string>)
    requires rules.fenValid(fen)
    ensures var r := PvToSan(rules, fen, pv);
      && |r| <= |pv|
      && (forall j :: 0 <= j < |r| ==> rules.san(fen, pv[..j], pv[j]) == Some(r[j]))
      && (|r| < |pv| ==> rules.san(fen, pv[..|r|], pv[|r|]).None?)
  {
    var r := SanRun(rules, fen, pv, 0);
    assert forall j :: 0 <= j < |r| ==> rules.san(fen, pv[..0 + j], pv[0 + j]) == Some(r[j]);
  }

  /** Appending moves to the principal variation only appends to its SAN, up to the first failure. */
  lemma {:induction false} SanRunPrefix(rules: Rules, fen: string, pv: seq<string>, more: seq<string>, i: nat)
    requires i <= |pv|
    requires i + |SanRun(rules, fen, pv, i)| < |pv|
    ensures SanRun(rules, fen, pv + more, i) == SanRun(rules, fen, pv, i)
    decreases |pv| - i
  {
    var ext := pv + more;
    assert ext[..i] == pv[..i] && ext[i] == pv[i];
    match rules.san(fen, pv[..i], pv[i])
    case None =>
    case Some(s) =>
      SanRunPrefix(rules, fen, pv, more, i + 1);
  }

  /** `pv_uci_to_san` */
  method PvUciToSan(rules: Rules, fen: string, pv: seq<string>) returns (sanTokens: seq<string>)
    ensures sanTokens == PvToSan(rules, fen, pv)
    ensures |sanTokens| <= |pv|
  {
    if !rules.fenValid(fen) {
      return [];
    }
    sanTokens := [];
    for i := 0 to |pv|
      invariant SanRun(rules, fen, pv, 0) == sanTokens + SanRun(rules, fen, pv, i)
    {
      var san := rules.san(fen, pv[..i], pv[i]);
      if san.None? {
        break;
      }
      sanTokens := sanTokens + [san.value];
    }
  }

  // ---------------------------------------------------------------------
  // Keeping the best record per MultiPV rank

  /** Keep `info` for its rank when the rank was requested and it beats what is stored (or nothing is). */
  function Absorb(best: map<nat, ParsedInfo>, info: ParsedInfo, requestedMultipv: U32): map<nat, ParsedInfo> {
    if info.multipv == 0 || info.multipv > requestedMultipv then best
    else if info.multipv in best && !BetterInfo(info, best[info.multipv]) then best
    else best[info.multipv := info]
  }

  /** The records met in order, each absorbed into the map. */
  function AbsorbAll(best: map<nat, ParsedInfo>, infos: seq<ParsedInfo>, requestedMultipv: U32): map<nat, ParsedInfo>
    decreases |infos|
  {
    if infos == [] then best else AbsorbAll(Absorb(best, infos[0], requestedMultipv), infos[1..], requestedMultipv)
  }

  /** Every stored rank was requested, and the record stored under a rank carries that rank. */
  predicate RanksWithin(best: map<nat, ParsedInfo>, requestedMultipv: U32) {
    forall rank :: rank in best ==> 1 <= rank <= requestedMultipv && best[rank].multipv == rank
  }

  /**
   * One step of the map: a rank outside [1, requested] is never stored, other
   * ranks are untouched, and the record left under the info's rank is at
   * least as good as both the info and what was stored before.
   */
  lemma AbsorbStep(best: map<nat, ParsedInfo>, info: ParsedInfo, requestedMultipv: U32)
    requires RanksWithin(best, requestedMultipv)
    ensures var out := Absorb(best, info, requestedMultipv);
      && RanksWithin(out, requestedMultipv)
      && (info.multipv == 0 || info.multipv > requestedMultipv ==> out == best)
      && (forall rank :: rank in best ==> rank in out && InfoKey(out[rank]) >= InfoKey(best[rank]))
      && (forall rank :: rank in out && rank != info.multipv ==> rank in best && out[rank] == best[rank])
      && (1 <= info.multipv <= requestedMultipv ==>
            info.multipv in out && InfoKey(out[info.multipv]) >= InfoKey(info)
            && (out[info.multipv] == info || out[info.multipv] == best[info.multipv]))
  {
    BetterInfoIsKeyOrder(info, if info.multipv in best then best[info.multipv] else info);
  }

  /**
   * After the whole sequence, each requested rank that occurs holds a record of
   * maximal key (depth first, then having a principal variation) among the
   * records of that rank, and every stored record either was there before or
   * is one of the records met.
   */
  lemma {:induction false} AbsorbAllKeepsBest(best: map<nat, ParsedInfo>, infos: seq<ParsedInfo>, requestedMultipv: U32)
    requires RanksWithin(best, requestedMultipv)
    ensures var out := AbsorbAll(best, infos, requestedMultipv);
      && RanksWithin(out, requestedMultipv)
      && (forall rank :: rank in best ==> rank in out && InfoKey(out[rank]) >= InfoKey(best[rank]))
      && (forall i :: 0 <= i < |infos| && 1 <= infos[i].multipv <= requestedMultipv ==>
            infos[i].multipv in out && InfoKey(out[infos[i].multipv]) >= InfoKey(infos[i]))
      && (forall rank :: rank in out ==> (rank in best && out[rank] == best[rank]) || out[rank] in infos)
    decreases |infos|
  {
    if infos != [] {
      var next := Absorb(best, infos[0], requestedMultipv);
      AbsorbStep(best, infos[0], requestedMultipv);
      AbsorbAllKeepsBest(next, infos[1..], requestedMultipv);
      assert forall i :: 0 < i < |infos| ==> infos[i] == infos[1..][i - 1];
      assert forall x :: x in infos[1..] ==> x in infos;
    }
  }

  /** Keeping the maximal key keeps the maximal depth, a missing depth counting as 0. */
  lemma KeyBoundsDepth(a: ParsedInfo, b: ParsedInfo)
    requires InfoKey(a) >= InfoKey(b)
    ensures DepthOrZero(a) >= DepthOrZero(b)
  {
  }

  /** A deeper record wins whichever order the two arrive in. */
  lemma DeeperWinsEitherOrder(a: ParsedInfo, b: ParsedInfo, requestedMultipv: U32)
    requires a.multipv == b.multipv && 1 <= a.multipv <= requestedMultipv
    requires DepthOrZero(a) > DepthOrZero(b)
    ensures var ab := AbsorbAll(map[], [a, b], requestedMultipv); a.multipv in ab && ab[a.multipv] == a
    ensures var ba := AbsorbAll(map[], [b, a], requestedMultipv); a.multipv in ba && ba[a.multipv] == a
  {
    var rank := a.multipv;
    assert [a, b][1..] == [b] && [b, a][1..] == [a];
    AbsorbAllPair(a, b, requestedMultipv);
    AbsorbAllPair(b, a, requestedMultipv);
  }

  lemma AbsorbAllPair(a: ParsedInfo, b: ParsedInfo, requestedMultipv: U32)
    ensures AbsorbAll(map[], [a, b], requestedMultipv)
      == Absorb(Absorb(map[], a, requestedMultipv), b, requestedMultipv)
  {
    var first := Absorb(map[], a, requestedMultipv);
    assert [a, b][1..] == [b] && [b][1..] == [];
    assert AbsorbAll(first, [b], requestedMultipv) == AbsorbAll(Absorb(first, b, requestedMultipv), [], requestedMultipv);
  }

  // ---------------------------------------------------------------------
  // Reading the analysis output

  /** A line that, once trimmed, starts with `bestmove`. */
  predicate IsBestmoveLine(line: string) {
    StartsWith(Trim(line), "bestmove")
  }

  /** The move named on a `bestmove` line: its second token, unless that is `(none)`. */
  function BestmoveToken(trimmed: string): (r: Option<string>)
    ensures r.Some? ==> r.value != "(none)" && IsWord(r.value)
  {
    var tokens := SplitWhitespace(trimmed);
    if |tokens| > 1 && tokens[1] != "(none)" then Some(tokens[1]) else None
  }

  /**
   * The move is the token after `bestmove`, whatever follows it, except that
   * `(none)` names no move.
   */
  lemma BestmoveTokenOf(w: string, rest: string)
    requires IsWord(w)
    ensures BestmoveToken("bestmove " + w) == if w == "(none)" then None else Some(w)
    ensures BestmoveToken("bestmove " + w + " " + rest) == if w == "(none)" then None else Some(w)
  {
    BestmoveSecondToken(w);
    BestmoveTokenAfter("bestmove " + w, w, []);
    BestmoveSecondTokenRest(w, rest);
    BestmoveTokenAfter("bestmove " + w + " " + rest, w, SplitWhitespace(rest));
  }

  lemma BestmoveTokenAfter(trimmed: string, w: string, more: seq<string>)
    requires SplitWhitespace(trimmed) == ["bestmove", w] + more
    ensures BestmoveToken(trimmed) == if w == "(none)" then None else Some(w)
  {
    assert SplitWhitespace(trimmed)[1] == w;
  }

  lemma BestmoveKeywordOnly()
    ensures BestmoveToken("bestmove") == None
  {
    BestmoveKeywordAlone();
  }

  lemma BestmoveKeywordIsWord()
    ensures IsWord("bestmove")
  {
  }

  lemma BestmoveKeywordAlone()
    ensures SplitWhitespace("bestmove") == ["bestmove"]
  {
    BestmoveKeywordIsWord();
    SplitWhitespaceWord("bestmove");
  }

  lemma BestmoveSecondToken(w: string)
    requires IsWord(w)
    ensures SplitWhitespace("bestmove " + w) == ["bestmove", w]
  {
    BestmoveKeywordIsWord();
    assert "bestmove " + w == "bestmove" + [' '] + w;
    SecondToken("bestmove", w);
  }

  lemma BestmoveSecondTokenRest(w: string, rest: string)
    requires IsWord(w)
    ensures SplitWhitespace("bestmove " + w + " " + rest) == ["bestmove", w] + SplitWhitespace(rest)
  {
    BestmoveKeywordIsWord();
    assert "bestmove " + w + " " + rest == "bestmove" + [' '] + (w + [' '] + rest);
    SecondTokenRest("bestmove", w, rest);
  }

  lemma SecondToken(head: string, w: string)
    requires IsWord(head) && IsWord(w)
    ensures SplitWhitespace(head + [' '] + w) == [head, w]
  {
    SplitWhitespaceCons(head, ' ', w);
    SplitWhitespaceWord(w);
  }

  lemma SecondTokenRest(head: string, w: string, rest: string)
    requires IsWord(head) && IsWord(w)
    ensures SplitWhitespace(head + [' '] + (w + [' '] + rest)) == [head, w] + SplitWhitespace(rest)
  {
    SplitWhitespaceCons(head, ' ', w + [' '] + rest);
    SplitWhitespaceCons(w, ' ', rest);
  }

  /** How the read loop treats one line. */
  datatype LineKind = InfoLine(info: ParsedInfo) | BestmoveLine(move: Option<string>) | OtherLine

  /** The loop's decision for one line: an `info` record, a `bestmove` line with its move, or neither. */
  function Classify(line: string): (k: LineKind)
    ensures k.InfoLine? <==> ParseInfo(Trim(line)).Some?
    ensures k.InfoLine? ==> k.info == ParseInfo(Trim(line)).value
    ensures k.BestmoveLine? <==> IsBestmoveLine(line)
    ensures k.BestmoveLine? ==> k.move == BestmoveToken(Trim(line))
  {
    var trimmed := Trim(line);
    match ParseInfo(trimmed)
    case Some(info) =>
      assert !StartsWith(trimmed, "bestmove") by {
        assert trimmed[0] == 'i';
      }
      InfoLine(info)
    case None => if StartsWith(trimmed, "bestmove") then BestmoveLine(BestmoveToken(trimmed)) else OtherLine
  }

  /** The decision for every line of the stream. */
  function Kinds(lines: seq<string>): (r: seq<LineKind>)
    ensures |r| == |lines|
    ensures forall i {:trigger Classify(lines[i])} :: 0 <= i < |lines| ==> r[i] == Classify(lines[i])
  {
    if lines == [] then []
    else
      var tail := Kinds(lines[1..]);
      var r := [Classify(lines[0])] + tail;
      assert forall i :: 0 < i < |lines| ==> lines[i] == lines[1..][i - 1] && r[i] == tail[i - 1];
      r
  }

  /** `kinds` holds the decision for each line of `lines`. */
  ghost predicate Classified(kinds: seq<LineKind>, lines: seq<string>) {
    |kinds| == |lines| && forall i {:trigger Classify(lines[i])} :: 0 <= i < |lines| ==> kinds[i] == Classify(lines[i])
  }

  /** Where the read loop stopped: the map, the move of the `bestmove` line, and the reader position. */
  datatype ReadEnd = ReadEnd(best: map<nat, ParsedInfo>, bestmove: Option<string>, pos: nat)

  /**
   * The read loop of `collect_analysis_result`, from reader position `pos`
   * with `budget` lines left to read: `info` records feed the map, a
   * `bestmove` line ends the loop, anything else is skipped; the end of the
   * stream before that is an error, and using up the budget just ends the loop.
   */
  function ReadAnalysis(kinds: seq<LineKind>, pos: nat, budget: nat, best: map<nat, ParsedInfo>, requestedMultipv: U32): (r: Result<ReadEnd, EngineError>)
    requires pos <= |kinds|
    ensures r.Ok? ==> pos <= r.value.pos <= |kinds| && r.value.pos <= pos + budget
    decreases budget
  {
    if budget == 0 then Ok(ReadEnd(best, None, pos))
    else if pos == |kinds| then Err(Protocol(CLOSED_BEFORE_BESTMOVE))
    else match kinds[pos]
      case InfoLine(info) => ReadAnalysis(kinds, pos + 1, budget - 1, Absorb(best, info, requestedMultipv), requestedMultipv)
      case BestmoveLine(move) => Ok(ReadEnd(best, move, pos + 1))
      case OtherLine => ReadAnalysis(kinds, pos + 1, budget - 1, best, requestedMultipv)
  }

  /** The records of the `info` lines, in order. */
  function InfosOf(kinds: seq<LineKind>): seq<ParsedInfo> {
    if kinds == [] then []
    else (if kinds[0].InfoLine? then [kinds[0].info] else []) + InfosOf(kinds[1..])
  }

  /** A successful read's map is the fold of `Absorb` over the `info` records it consumed. */
  lemma {:induction false} ReadAnalysisIsFold(kinds: seq<LineKind>, pos: nat, budget: nat, best: map<nat, ParsedInfo>, requestedMultipv: U32)
    requires pos <= |kinds|
    requires ReadAnalysis(kinds, pos, budget, best, requestedMultipv).Ok?
    ensures var end := ReadAnalysis(kinds, pos, budget, best, requestedMultipv).value;
      end.best == AbsorbAll(best, InfosOf(kinds[pos..end.pos]), requestedMultipv)
    decreases budget
  {
    if budget > 0 {
      var end := ReadAnalysis(kinds, pos, budget, best, requestedMultipv).value;
      var consumed := kinds[pos..end.pos];
      assert consumed[0] == kinds[pos];
      assert consumed[1..] == kinds[pos + 1..end.pos];
      match kinds[pos]
      case InfoLine(info) =>
        ReadAnalysisIsFold(kinds, pos + 1, budget - 1, Absorb(best, info, requestedMultipv), requestedMultipv);
        assert ([info] + InfosOf(consumed[1..]))[1..] == InfosOf(consumed[1..]);
      case BestmoveLine(_) =>
        assert consumed[1..] == [];
      case OtherLine =>
        assert ReadAnalysis(kinds, pos, budget, best, requestedMultipv)
          == ReadAnalysis(kinds, pos + 1, budget - 1, best, requestedMultipv);
        ReadAnalysisIsFold(kinds, pos + 1, budget - 1, best, requestedMultipv);
        assert !consumed[0].InfoLine?;
        assert InfosOf(consumed) == InfosOf(consumed[1..]);
    }
  }

  /** Some line within the budget is a `bestmove` line. */
  ghost predicate BestmoveWithin(kinds: seq<LineKind>, pos: nat, budget: nat) {
    exists k :: pos <= k < |kinds| && k < pos + budget && kinds[k].BestmoveLine?
  }

  /** Line `k` is the first `bestmove` line from `pos` on. */
  ghost predicate FirstBestmove(kinds: seq<LineKind>, pos: nat, k: nat) {
    pos <= k < |kinds| && kinds[k].BestmoveLine? && forall j :: pos <= j < k ==> !kinds[j].BestmoveLine?
  }

  lemma BestmoveWithinStep(kinds: seq<LineKind>, pos: nat, budget: nat)
    requires pos < |kinds| && budget > 0 && !kinds[pos].BestmoveLine?
    ensures BestmoveWithin(kinds, pos, budget) <==> BestmoveWithin(kinds, pos + 1, budget - 1)
  {
    if BestmoveWithin(kinds, pos, budget) {
      var k :| pos <= k < |kinds| && k < pos + budget && kinds[k].BestmoveLine?;
      assert k != pos;
    }
  }

  /**
   * How the read loop ends: the stream ending before a `bestmove` line inside
   * the bound is the only error; otherwise the loop stops at a `bestmove`
   * line (the first one, by `ReadAnalysisStopsAt`), or after `budget` lines
   * with no move of its own. Reaching the bound is not an error.
   */
  lemma {:induction false} ReadAnalysisEnds(kinds: seq<LineKind>, pos: nat, budget: nat, best: map<nat, ParsedInfo>, requestedMultipv: U32)
    requires pos <= |kinds|
    ensures var r := ReadAnalysis(kinds, pos, budget, best, requestedMultipv);
      && (r.Err? <==> |kinds| < pos + budget && !BestmoveWithin(kinds, pos, budget))
      && (r.Err? ==> r.error == Protocol(CLOSED_BEFORE_BESTMOVE))
      && (pos + budget <= |kinds| && !BestmoveWithin(kinds, pos, budget) ==>
            r.Ok? && r.value.bestmove == None && r.value.pos == pos + budget)
      && (r.Ok? && r.value.pos > 0 && kinds[r.value.pos - 1].BestmoveLine? && r.value.pos > pos ==>
            r.value.bestmove == kinds[r.value.pos - 1].move)
    decreases budget
  {
    if budget == 0 {
    } else if pos == |kinds| {
      assert !BestmoveWithin(kinds, pos, budget);
    } else if kinds[pos].BestmoveLine? {
      assert BestmoveWithin(kinds, pos, budget) by {
        assert pos <= pos < |kinds| && pos < pos + budget && kinds[pos].BestmoveLine?;
      }
    } else {
      BestmoveWithinStep(kinds, pos, budget);
      var next := if kinds[pos].InfoLine? then Absorb(best, kinds[pos].info, requestedMultipv) else best;
      assert ReadAnalysis(kinds, pos, budget, best, requestedMultipv)
        == ReadAnalysis(kinds, pos + 1, budget - 1, next, requestedMultipv);
      ReadAnalysisEnds(kinds, pos + 1, budget - 1, next, requestedMultipv);
    }
  }

  /** The loop reads up to the first `bestmove` line within the bound, stops right after it and keeps its move. */
  lemma {:induction false} ReadAnalysisStopsAt(kinds: seq<LineKind>, pos: nat, budget: nat, best: map<nat, ParsedInfo>, requestedMultipv: U32, k: nat)
    requires FirstBestmove(kinds, pos, k) && k < pos + budget
    ensures var r := ReadAnalysis(kinds, pos, budget, best, requestedMultipv);
      r.Ok? && r.value.pos == k + 1 && r.value.bestmove == kinds[k].move
    decreases budget
  {
    if k > pos {
      assert !kinds[pos].BestmoveLine?;
      var next := if kinds[pos].InfoLine? then Absorb(best, kinds[pos].info, requestedMultipv) else best;
      assert ReadAnalysis(kinds, pos, budget, best, requestedMultipv)
        == ReadAnalysis(kinds, pos + 1, budget - 1, next, requestedMultipv);
      assert FirstBestmove(kinds, pos + 1, k);
      ReadAnalysisStopsAt(kinds, pos + 1, budget - 1, next, requestedMultipv, k);
    }
  }

  /** Every rank a successful read stores was requested, and the map is empty exactly when no requested rank was seen. */
  lemma ReadAnalysisStores(kinds: seq<LineKind>, pos: nat, budget: nat, requestedMultipv: U32)
    requires pos <= |kinds|
    requires ReadAnalysis(kinds, pos, budget, map[], requestedMultipv).Ok?
    ensures var end := ReadAnalysis(kinds, pos, budget, map[], requestedMultipv).value;
      var infos := InfosOf(kinds[pos..end.pos]);
      && RanksWithin(end.best, requestedMultipv)
      && (end.best == map[] <==> forall i :: 0 <= i < |infos| ==> !(1 <= infos[i].multipv <= requestedMultipv))
      && (forall i :: 0 <= i < |infos| && 1 <= infos[i].multipv <= requestedMultipv ==>
            infos[i].multipv in end.best && DepthOrZero(end.best[infos[i].multipv]) >= DepthOrZero(infos[i]))
  {
    ReadAnalysisIsFold(kinds, pos, budget, map[], requestedMultipv);
    var end := ReadAnalysis(kinds, pos, budget, map[], requestedMultipv).value;
    AbsorbAllStores(InfosOf(kinds[pos..end.pos]), requestedMultipv);
  }

  /** What folding records into an empty map keeps: requested ranks only, each at least as deep as any record seen for it. */
  lemma AbsorbAllStores(infos: seq<ParsedInfo>, requestedMultipv: U32)
    ensures var out := AbsorbAll(map[], infos, requestedMultipv);
      && RanksWithin(out, requestedMultipv)
      && (out == map[] <==> forall i :: 0 <= i < |infos| ==> !(1 <= infos[i].multipv <= requestedMultipv))
      && (forall i :: 0 <= i < |infos| && 1 <= infos[i].multipv <= requestedMultipv ==>
            infos[i].multipv in out && DepthOrZero(out[infos[i].multipv]) >= DepthOrZero(infos[i]))
  {
    var out := AbsorbAll(map[], infos, requestedMultipv);
    AbsorbAllKeepsBest(map[], infos, requestedMultipv);
    forall i | 0 <= i < |infos| && 1 <= infos[i].multipv <= requestedMultipv
      ensures DepthOrZero(out[infos[i].multipv]) >= DepthOrZero(infos[i])
    {
      KeyBoundsDepth(out[infos[i].multipv], infos[i]);
    }
    if out != map[] {
      var rank :| rank in out;
      var i :| 0 <= i < |infos| && infos[i] == out[rank];
      assert 1 <= infos[i].multipv <= requestedMultipv;
    }
  }

  // ---------------------------------------------------------------------
  // Building the final analysis

  /** The line reported for `rank`: a missing depth becomes the requested depth. */
  function MakeLine(rank: U32, info: ParsedInfo, fen: string, requestedDepth: U32, rules: Rules): EngineLine {
    EngineLine(rank, info.depth.UnwrapOr(requestedDepth), info.scoreCp, info.scoreMate, info.pv, PvToSan(rules, fen, info.pv))
  }

  /** The stored ranks 1..`upTo` in ascending order (the order in which a `BTreeMap` yields them), each made a line. */
  function RankedLines(best: map<nat, ParsedInfo>, upTo: nat, fen: string, requestedDepth: U32, rules: Rules): seq<EngineLine>
    requires upTo < U32_LIMIT
  {
    if upTo == 0 then []
    else
      var front := RankedLines(best, upTo - 1, fen, requestedDepth, rules);
      if upTo in best then front + [MakeLine(upTo, best[upTo], fen, requestedDepth, rules)] else front
  }

  /** Ranks strictly increase along the lines. */
  predicate StrictlyRanked(ls: seq<EngineLine>) {
    forall i, j :: 0 <= i < j < |ls| ==> ls[i].multipvRank < ls[j].multipvRank
  }

  /** Each line reports a stored rank in [1, `upTo`] with that rank's record. */
  predicate FromStore(ls: seq<EngineLine>, best: map<nat, ParsedInfo>, upTo: nat, fen: string, requestedDepth: U32, rules: Rules) {
    forall i :: 0 <= i < |ls| ==>
      && 1 <= ls[i].multipvRank <= upTo && ls[i].multipvRank in best
      && ls[i] == MakeLine(ls[i].multipvRank, best[ls[i].multipvRank], fen, requestedDepth, rules)
  }

  /** Every stored rank in [1, `upTo`] has a line. */
  ghost predicate CoversStore(ls: seq<EngineLine>, best: map<nat, ParsedInfo>, upTo: nat) {
    forall rank :: 1 <= rank <= upTo && rank in best ==> exists i :: 0 <= i < |ls| && ls[i].multipvRank == rank
  }

  /**
   * The ranked lines are strictly increasing in rank, each rank is a stored
   * rank in [1, `upTo`] reported with its stored record, and every stored
   * rank in that range is reported.
   */
  lemma RankedLinesShape(best: map<nat, ParsedInfo>, upTo: nat, fen: string, requestedDepth: U32, rules: Rules)
    requires upTo < U32_LIMIT
    ensures StrictlyRanked(RankedLines(best, upTo, fen, requestedDepth, rules))
    ensures FromStore(RankedLines(best, upTo, fen, requestedDepth, rules), best, upTo, fen, requestedDepth, rules)
    ensures CoversStore(RankedLines(best, upTo, fen, requestedDepth, rules), best, upTo)
  {
    RankedLinesFromStore(best, upTo, fen, requestedDepth, rules);
    RankedLinesStrict(best, upTo, fen, requestedDepth, rules);
    RankedLinesCover(best, upTo, fen, requestedDepth, rules);
  }

  lemma {:induction false} RankedLinesFromStore(best: map<nat, ParsedInfo>, upTo: nat, fen: string, requestedDepth: U32, rules: Rules)
    requires upTo < U32_LIMIT
    ensures FromStore(RankedLines(best, upTo, fen, requestedDepth, rules), best, upTo, fen, requestedDepth, rules)
  {
    if upTo > 0 {
      RankedLinesFromStore(best, upTo - 1, fen, requestedDepth, rules);
      var front := RankedLines(best, upTo - 1, fen, requestedDepth, rules);
      if upTo in best {
        var ls := front + [MakeLine(upTo, best[upTo], fen, requestedDepth, rules)];
        assert forall i :: 0 <= i < |front| ==> ls[i] == front[i];
      }
    }
  }

  lemma {:induction false} RankedLinesStrict(best: map<nat, ParsedInfo>, upTo: nat, fen: string, requestedDepth: U32, rules: Rules)
    requires upTo < U32_LIMIT
    ensures StrictlyRanked(RankedLines(best, upTo, fen, requestedDepth, rules))
  {
    if upTo > 0 {
      RankedLinesStrict(best, upTo - 1, fen, requestedDepth, rules);
      RankedLinesFromStore(best, upTo - 1, fen, requestedDepth, rules);
      var front := RankedLines(best, upTo - 1, fen, requestedDepth, rules);
      if upTo in best {
        var ls := front + [MakeLine(upTo, best[upTo], fen, requestedDepth, rules)];
        assert forall i :: 0 <= i < |front| ==> ls[i] == front[i] && ls[i].multipvRank < upTo;
        assert ls[|front|].multipvRank == upTo;
      }
    }
  }

  lemma {:induction false} RankedLinesCover(best: map<nat, ParsedInfo>, upTo: nat, fen: string, requestedDepth: U32, rules: Rules)
    requires upTo < U32_LIMIT
    ensures CoversStore(RankedLines(best, upTo, fen, requestedDepth, rules), best, upTo)
  {
    if upTo > 0 {
      RankedLinesCover(best, upTo - 1, fen, requestedDepth, rules);
      var front := RankedLines(best, upTo - 1, fen, requestedDepth, rules);
      if upTo in best {
        var ls := front + [MakeLine(upTo, best[upTo], fen, requestedDepth, rules)];
        forall rank | 1 <= rank <= upTo && rank in best
          ensures exists i :: 0 <= i < |ls| && ls[i].multipvRank == rank
        {
          if rank < upTo {
            var i :| 0 <= i < |front| && front[i].multipvRank == rank;
            assert ls[i].multipvRank == rank;
          } else {
            assert ls[|front|].multipvRank == rank;
          }
        }
      }
    }
  }

  /** `iter().find(|line| line.multipv_rank == rank)`, as an index. */
  function FindRank(ls: seq<EngineLine>, rank: nat): (r: Option<nat>)
    ensures r.Some? ==> r.value < |ls| && ls[r.value].multipvRank == rank
    ensures r.Some? ==> forall j :: 0 <= j < r.value ==> ls[j].multipvRank != rank
    ensures r.None? ==> forall j :: 0 <= j < |ls| ==> ls[j].multipvRank != rank
  {
    if ls == [] then None
    else if ls[0].multipvRank == rank then Some(0)
    else match FindRank(ls[1..], rank)
      case None => None
      case Some(i) => Some(i + 1)
  }

  /** The line of rank 1, or else the first line. */
  function Primary(ls: seq<EngineLine>): Option<EngineLine> {
    match FindRank(ls, 1)
    case Some(i) => Some(ls[i])
    case None => if ls == [] then None else Some(ls[0])
  }

  /** The first SAN of the primary line, else the engine's `bestmove` move, else the first raw move. */
  function ChooseBestmove(primary: EngineLine, bestmove: Option<string>): Option<string> {
    if primary.sanPv != [] then Some(primary.sanPv[0])
    else if bestmove.Some? then bestmove
    else if primary.pv != [] then Some(primary.pv[0])
    else None
  }

  /** The tail of `collect_analysis_result` after the read loop. */
  function FinishAnalysis(best: map<nat, ParsedInfo>, bestmove: Option<string>, fen: string, requestedDepth: U32, requestedMultipv: U32, rules: Rules): Result<EngineAnalysis, EngineError> {
    if best == map[] then Err(Protocol(NO_ANALYSIS_INFO))
    else
      var ls := RankedLines(best, requestedMultipv, fen, requestedDepth, rules);
      match Primary(ls)
      case None => Err(Protocol(NO_ANALYSIS_INFO))
      case Some(primary) =>
        Ok(EngineAnalysis(primary.depth, primary.scoreCp, primary.scoreMate,
          ChooseBestmove(primary, bestmove), primary.pv, ls))
  }

  /** `collect_analysis_result` as a function of the unread lines. */
  function CollectAnalysis(lines: seq<string>, pos: nat, fen: string, requestedDepth: U32, requestedMultipv: U32, rules: Rules): Result<EngineAnalysis, EngineError>
    requires pos <= |lines|
  {
    match ReadAnalysis(Kinds(lines), pos, MAX_ANALYSIS_LINES, map[], requestedMultipv)
    case Err(e) => Err(e)
    case Ok(end) => FinishAnalysis(end.best, end.bestmove, fen, requestedDepth, requestedMultipv, rules)
  }

  /** Where `collect_analysis_result` leaves the reader. */
  function CollectStopPos(lines: seq<string>, pos: nat, requestedMultipv: U32): nat
    requires pos <= |lines|
  {
    match ReadAnalysis(Kinds(lines), pos, MAX_ANALYSIS_LINES, map[], requestedMultipv)
    case Err(_) => |lines|
    case Ok(end) => end.pos
  }

  /** With ranks 1 and up in strictly increasing order, the line `find` picks for rank 1 (or falls back to) is the first. */
  lemma PrimaryIsFirst(ls: seq<EngineLine>)
    requires ls != []
    requires forall i, j :: 0 <= i < j < |ls| ==> ls[i].multipvRank < ls[j].multipvRank
    requires forall i :: 0 <= i < |ls| ==> 1 <= ls[i].multipvRank
    ensures Primary(ls) == Some(ls[0])
  {
  }

  /**
   * From a non-empty map of requested ranks the final analysis succeeds: its
   * lines are the ranked lines (at least one), and its headline figures are
   * those of the first line.
   */
  lemma FinishAnalysisShape(best: map<nat, ParsedInfo>, bestmove: Option<string>, fen: string, requestedDepth: U32, requestedMultipv: U32, rules: Rules)
    requires best != map[] && RanksWithin(best, requestedMultipv)
    ensures var ls := RankedLines(best, requestedMultipv, fen, requestedDepth, rules);
      && ls != []
      && FinishAnalysis(best, bestmove, fen, requestedDepth, requestedMultipv, rules)
        == Ok(EngineAnalysis(ls[0].depth, ls[0].scoreCp, ls[0].scoreMate, ChooseBestmove(ls[0], bestmove), ls[0].pv, ls))
  {
    var ls := RankedLines(best, requestedMultipv, fen, requestedDepth, rules);
    RankedLinesShape(best, requestedMultipv, fen, requestedDepth, rules);
    var rank :| rank in best;
    assert 1 <= rank <= requestedMultipv;
    var k :| 0 <= k < |ls| && ls[k].multipvRank == rank;
    PrimaryIsFirst(ls);
  }

  /**
   * The best move: the SAN of the primary line's first move when the rules
   * convert it, else the engine's own `bestmove` move, else the primary
   * line's first raw move; there is one whenever either of the last two exists.
   */
  lemma BestmoveChoice(primary: EngineLine, bestmove: Option<string>, fen: string, rules: Rules)
    requires primary.sanPv == PvToSan(rules, fen, primary.pv)
    ensures var m := ChooseBestmove(primary, bestmove);
      && (rules.fenValid(fen) && primary.pv != [] && rules.san(fen, [], primary.pv[0]).Some? ==>
            m == rules.san(fen, [], primary.pv[0]))
      && (primary.sanPv == [] ==> m == bestmove.Or(if primary.pv != [] then Some(primary.pv[0]) else None))
      && (m.Some? <==> primary.sanPv != [] || bestmove.Some? || primary.pv != [])
  {
    if rules.fenValid(fen) {
      PvToSanTruncates(rules, fen, primary.pv);
      assert primary.pv[..0] == [];
    }
  }

  /**
   * `collect_analysis_result` fails only with a protocol error: "closed
   * before bestmove" when the stream ends inside the bound first, and "no
   * analysis info" exactly when no `info` line of a requested rank was read.
   */
  lemma CollectAnalysisErrors(lines: seq<string>, pos: nat, fen: string, requestedDepth: U32, requestedMultipv: U32, rules: Rules)
    requires pos <= |lines|
    ensures var kinds := Kinds(lines);
      var read := ReadAnalysis(kinds, pos, MAX_ANALYSIS_LINES, map[], requestedMultipv);
      var r := CollectAnalysis(lines, pos, fen, requestedDepth, requestedMultipv, rules);
      && (read.Err? ==> r == Err(Protocol(CLOSED_BEFORE_BESTMOVE)))
      && (read.Ok? ==>
            var infos := InfosOf(kinds[pos..read.value.pos]);
            (r.Err? <==> forall i :: 0 <= i < |infos| ==> !(1 <= infos[i].multipv <= requestedMultipv))
            && (r.Err? ==> r.error == Protocol(NO_ANALYSIS_INFO)))
  {
    var kinds := Kinds(lines);
    ReadAnalysisEnds(kinds, pos, MAX_ANALYSIS_LINES, map[], requestedMultipv);
    var read := ReadAnalysis(kinds, pos, MAX_ANALYSIS_LINES, map[], requestedMultipv);
    if read.Ok? {
      ReadAnalysisStores(kinds, pos, MAX_ANALYSIS_LINES, requestedMultipv);
      if read.value.best != map[] {
        FinishAnalysisShape(read.value.best, read.value.bestmove, fen, requestedDepth, requestedMultipv, rules);
      }
    }
  }

  /** The per-line decisions of the read loop: trim, try `parse_info_line`, then look for `bestmove`. */
  method ClassifyLine(line: string) returns (kind: LineKind)
    ensures kind == Classify(line)
  {
    var trimmed := Trim(line);
    var parsed := ParseInfoLine(trimmed);
    if parsed.Some? {
      return InfoLine(parsed.value);
    }
    kind := OtherLine;
    if StartsWith(trimmed, "bestmove") {
      var tokens := SplitWhitespace(trimmed);
      var move: Option<string> := None;
      if |tokens| > 1 && tokens[1] != "(none)" {
        move := Some(tokens[1]);
      }
      kind := BestmoveLine(move);
    }
  }

  /** `read_line` followed by the per-line decision; None at the end of the stream. */
  method ReadKind(reader: LineReader, ghost kinds: seq<LineKind>) returns (kind: Option<LineKind>)
    requires reader.Valid() && Classified(kinds, reader.lines)
    modifies reader
    ensures reader.Valid()
    ensures old(reader.pos) == |reader.lines| ==> kind == None && reader.pos == old(reader.pos)
    ensures old(reader.pos) < |reader.lines| ==> kind == Some(kinds[old(reader.pos)]) && reader.pos == old(reader.pos) + 1
  {
    ghost var before := reader.pos;
    var line := reader.ReadLine();
    if line.None? {
      return None;
    }
    var k := ClassifyLine(line.value);
    assert kinds[before] == Classify(reader.lines[before]);
    kind := Some(k);
  }

  /** The read loop of `collect_analysis_result`. */
  method ReadUntilBestmove(reader: LineReader, ghost kinds: seq<LineKind>, requestedMultipv: U32)
    returns (r: Result<(map<nat, ParsedInfo>, Option<string>), EngineError>)
    requires reader.Valid() && Classified(kinds, reader.lines)
    modifies reader
    ensures reader.Valid()
    ensures match ReadAnalysis(kinds, old(reader.pos), MAX_ANALYSIS_LINES, map[], requestedMultipv)
      case Err(e) => r == Err(e) && reader.pos == |reader.lines|
      case Ok(end) => r == Ok((end.best, end.bestmove)) && reader.pos == end.pos
  {
    ghost var start := reader.pos;
    var bestByRank: map<nat, ParsedInfo> := map[];
    var bestmove: Option<string> := None;

    for n := 0 to MAX_ANALYSIS_LINES
      invariant reader.Valid()
      invariant bestmove == None
      invariant ReadAnalysis(kinds, start, MAX_ANALYSIS_LINES, map[], requestedMultipv)
        == ReadAnalysis(kinds, reader.pos, MAX_ANALYSIS_LINES - n, bestByRank, requestedMultipv)
    {
      ghost var before := reader.pos;
      ghost var held := bestByRank;
      ghost var budget: nat := MAX_ANALYSIS_LINES - n;
      var next := ReadKind(reader, kinds);
      if next.None? {
        return Err(Protocol(CLOSED_BEFORE_BESTMOVE));
      }
      match next.value
      case InfoLine(info) =>
        if info.multipv != 0 && info.multipv <= requestedMultipv {
          var shouldUpdate := if info.multipv in bestByRank then BetterInfo(info, bestByRank[info.multipv]) else true;
          if shouldUpdate {
            bestByRank := bestByRank[info.multipv := info];
          }
        }
        assert bestByRank == Absorb(held, info, requestedMultipv);
      case BestmoveLine(move) =>
        bestmove := move;
        break;
      case OtherLine =>
    }
    r := Ok((bestByRank, bestmove));
  }

  /** The ranked lines, built in ascending rank order with their SAN. */
  method BuildLines(bestByRank: map<nat, ParsedInfo>, fen: string, requestedDepth: U32, requestedMultipv: U32, rules: Rules)
    returns (lines: seq<EngineLine>)
    ensures lines == RankedLines(bestByRank, requestedMultipv, fen, requestedDepth, rules)
  {
    lines := [];
    for rank := 1 to requestedMultipv + 1
      invariant lines == RankedLines(bestByRank, rank - 1, fen, requestedDepth, rules)
    {
      if rank in bestByRank {
        var info := bestByRank[rank];
        var sanPv := PvUciToSan(rules, fen, info.pv);
        lines := lines + [EngineLine(rank, info.depth.UnwrapOr(requestedDepth), info.scoreCp, info.scoreMate, info.pv, sanPv)];
      }
    }
  }

  /** The part of `collect_analysis_result` after the read loop. */
  method FinishAnalysisResult(bestByRank: map<nat, ParsedInfo>, bestmove: Option<string>, fen: string, requestedDepth: U32, requestedMultipv: U32, rules: Rules)
    returns (r: Result<EngineAnalysis, EngineError>)
    ensures r == FinishAnalysis(bestByRank, bestmove, fen, requestedDepth, requestedMultipv, rules)
  {
    if bestByRank == map[] {
      return Err(Protocol(NO_ANALYSIS_INFO));
    }

    var lines := BuildLines(bestByRank, fen, requestedDepth, requestedMultipv, rules);

    var found := FindRank(lines, 1);
    var primary: EngineLine;
    if found.Some? {
      primary := lines[found.value];
    } else if lines != [] {
      primary := lines[0];
    } else {
      return Err(Protocol(NO_ANALYSIS_INFO));
    }

    var chosen := if primary.sanPv != [] then Some(primary.sanPv[0])
      else if bestmove.Some? then bestmove
      else if primary.pv != [] then Some(primary.pv[0])
      else None;
    r := Ok(EngineAnalysis(primary.depth, primary.scoreCp, primary.scoreMate, chosen, primary.pv, lines));
  }

  /** `collect_analysis_result`, reading from `reader`. */
  method CollectAnalysisResult(reader: LineReader, fen: string, requestedDepth: U32, requestedMultipv: U32, rules: Rules)
    returns (r: Result<EngineAnalysis, EngineError>)
    requires reader.Valid()
    modifies reader
    ensures reader.Valid()
    ensures r == CollectAnalysis(reader.lines, old(reader.pos), fen, requestedDepth, requestedMultipv, rules)
    ensures reader.pos == CollectStopPos(reader.lines, old(reader.pos), requestedMultipv)
  {
    ghost var kinds := Kinds(reader.lines);
    ghost var start := reader.pos;
    var read := ReadUntilBestmove(reader, kinds, requestedMultipv);
    if read.Err? {
      return Err(read.error);
    }
    var (bestByRank, bestmove) := read.value;
    assert CollectAnalysis(reader.lines, start, fen, requestedDepth, requestedMultipv, rules)
      == FinishAnalysis(bestByRank, bestmove, fen, requestedDepth, requestedMultipv, rules);
    r := FinishAnalysisResult(bestByRank, bestmove, fen, requestedDepth, requestedMultipv, rules);
  }

  // ---------------------------------------------------------------------
  // The worked examples of the unit tests

  lemma ExampleNumbers()
    ensures ParseU32("16") == Some(16) && ParseU32("1") == Some(1) && ParseI32("34") == Some(34)
    ensures ParseU32("21") == Some(21) && ParseI32("-3") == Some(-3)
  {
    assert "16"[..1] == "1" && "34"[..1] == "3" && "21"[..1] == "2" && "-3"[1..] == "3";
    assert "1"[..0] == "" && "3"[..0] == "" && "2"[..0] == "";
  }

  /**
   * A centipawn line with a rank and a three-move principal variation: any
   * `info` line whose whitespace-separated tokens are those of the unit test.
   */
  lemma ParseInfoExampleCp(line: string)
    requires StartsWith(line, "info ")
    requires SplitWhitespace(line) == CP_EXAMPLE_WORDS
    ensures ParseInfo(line) == Some(ParsedInfo(Some(16), Some(34), None, ["e2e4", "e7e5", "g1f3"], 1))
  {
    ScanExampleCp(SplitWhitespace(line));
  }

  lemma ScanExampleCp(words: seq<string>)
    requires words == CP_EXAMPLE_WORDS
    ensures ScanFrom(words, 0, EMPTY_INFO) == ParsedInfo(Some(16), Some(34), None, ["e2e4", "e7e5", "g1f3"], 1)
  {
    assert words[..7] == CP_EXAMPLE_HEAD;
    assert words[7..] == CP_EXAMPLE_TAIL;
    ScanExampleCpHead(words);
    ScanExampleCpTail(words);
  }

  /** The tokens of the unit test's centipawn line, in two pieces. */
  const CP_EXAMPLE_HEAD: seq<string> := ["info", "depth", "16", "seldepth", "22", "multipv", "1"]
  const CP_EXAMPLE_TAIL: seq<string> := ["score", "cp", "34", "nodes", "11111", "nps", "200000", "pv", "e2e4", "e7e5", "g1f3"]
  const CP_EXAMPLE_WORDS: seq<string> := CP_EXAMPLE_HEAD + CP_EXAMPLE_TAIL

  lemma ScanExampleCpHead(words: seq<string>)
    requires |words| > 7 && words[..7] == CP_EXAMPLE_HEAD
    ensures ScanFrom(words, 0, EMPTY_INFO) == ScanFrom(words, 7, EMPTY_INFO.(depth := Some(16)))
  {
    var withDepth := EMPTY_INFO.(depth := Some(16));
    assert forall i :: 0 <= i < 7 ==> words[i] == CP_EXAMPLE_HEAD[i];
    assert ParseU32("16") == Some(16) && ParseU32("1") == Some(1) by {
      ExampleNumbers();
    }
    ScanOtherStep(words, 0, EMPTY_INFO);
    ScanDepthStep(words, 1, EMPTY_INFO, 16);
    ScanOtherStep(words, 3, withDepth);
    ScanOtherStep(words, 4, withDepth);
    ScanMultipvStep(words, 5, withDepth, 1);
  }

  lemma ScanExampleCpTail(words: seq<string>)
    requires |words| == 18 && words[7..] == CP_EXAMPLE_TAIL
    ensures ScanFrom(words, 7, EMPTY_INFO.(depth := Some(16)))
      == ParsedInfo(Some(16), Some(34), None, ["e2e4", "e7e5", "g1f3"], 1)
  {
    assert words[7..10] == CP_EXAMPLE_TAIL[..3];
    assert words[10..] == CP_EXAMPLE_TAIL[3..];
    ScanExampleCpScore(words);
    ScanExampleCpRest(words);
  }

  lemma ScanExampleCpScore(words: seq<string>)
    requires |words| == 18 && words[7..10] == ["score", "cp", "34"]
    ensures ScanFrom(words, 7, EMPTY_INFO.(depth := Some(16)))
      == ScanFrom(words, 10, EMPTY_INFO.(depth := Some(16), scoreCp := Some(34)))
  {
    assert words[7] == "score" && words[8] == "cp" && words[9] == "34";
    assert ParseI32("34") == Some(34) by {
      ExampleNumbers();
    }
    ScanScoreStep(words, 7, EMPTY_INFO.(depth := Some(16)));
  }

  lemma ScanExampleCpRest(words: seq<string>)
    requires |words| == 18 && words[10..] == ["nodes", "11111", "nps", "200000", "pv", "e2e4", "e7e5", "g1f3"]
    ensures ScanFrom(words, 10, EMPTY_INFO.(depth := Some(16), scoreCp := Some(34)))
      == ParsedInfo(Some(16), Some(34), None, ["e2e4", "e7e5", "g1f3"], 1)
  {
    var withScore := EMPTY_INFO.(depth := Some(16), scoreCp := Some(34));
    assert forall i :: 10 <= i < 18 ==> words[i] == words[10..][i - 10];
    ScanOtherStep(words, 10, withScore);
    ScanOtherStep(words, 11, withScore);
    ScanOtherStep(words, 12, withScore);
    ScanOtherStep(words, 13, withScore);
    ScanPvStep(words, 14, withScore);
    assert words[15..] == words[10..][5..];
  }

  lemma ScanOtherStep(toks: seq<string>, i: nat, acc: ParsedInfo)
    requires i < |toks| && toks[i] != "depth" && toks[i] != "multipv" && toks[i] != "score" && toks[i] != "pv"
    ensures ScanFrom(toks, i, acc) == ScanFrom(toks, i + 1, acc)
  {
  }

  lemma ScanDepthStep(toks: seq<string>, i: nat, acc: ParsedInfo, depth: U32)
    requires i + 1 < |toks| && toks[i] == "depth" && ParseU32(toks[i + 1]) == Some(depth)
    ensures ScanFrom(toks, i, acc) == ScanFrom(toks, i + 2, acc.(depth := Some(depth)))
  {
  }

  lemma ScanMultipvStep(toks: seq<string>, i: nat, acc: ParsedInfo, multipv: U32)
    requires i + 1 < |toks| && toks[i] == "multipv" && ParseU32(toks[i + 1]) == Some(multipv)
    ensures ScanFrom(toks, i, acc) == ScanFrom(toks, i + 2, acc.(multipv := multipv))
  {
  }

  lemma ScanScoreStep(toks: seq<string>, i: nat, acc: ParsedInfo)
    requires i + 2 < |toks| && toks[i] == "score"
    ensures ScanFrom(toks, i, acc) == ScanFrom(toks, i + 3,
      if toks[i + 1] == "cp" then acc.(scoreCp := ParseI32(toks[i + 2]))
      else if toks[i + 1] == "mate" then acc.(scoreMate := ParseI32(toks[i + 2]))
      else acc)
  {
  }

  lemma ScanPvStep(toks: seq<string>, i: nat, acc: ParsedInfo)
    requires i + 1 < |toks| && toks[i] == "pv"
    ensures ScanFrom(toks, i, acc) == acc.(pv := toks[i + 1..])
  {
  }

  /** The unit test's line splits into the tokens the lemma above expects. */
  lemma ExampleCpTokens()
    ensures SplitWhitespace(Join(["info", "depth", "16", "seldepth", "22", "multipv", "1", "score", "cp", "34",
      "nodes", "11111", "nps", "200000", "pv", "e2e4", "e7e5", "g1f3"], " "))
      == ["info", "depth", "16", "seldepth", "22", "multipv", "1", "score", "cp", "34",
      "nodes", "11111", "nps", "200000", "pv", "e2e4", "e7e5", "g1f3"]
  {
    SplitWhitespaceJoin(["info", "depth", "16", "seldepth", "22", "multipv", "1", "score", "cp", "34",
      "nodes", "11111", "nps", "200000", "pv", "e2e4", "e7e5", "g1f3"]);
  }

  /** A mate score with a one-move principal variation: any `info` line with the unit test's tokens. */
  lemma ParseInfoExampleMate(line: string)
    requires StartsWith(line, "info ")
    requires SplitWhitespace(line) == MATE_EXAMPLE_WORDS
    ensures ParseInfo(line) == Some(ParsedInfo(Some(21), None, Some(-3), ["h7h8q"], 1))
  {
    ScanExampleMate(SplitWhitespace(line));
  }

  /** The unit test's mate line splits into the tokens the lemma above expects. */
  lemma ExampleMateTokens()
    ensures SplitWhitespace(Join(["info", "depth", "21", "score", "mate", "-3", "pv", "h7h8q"], " "))
      == ["info", "depth", "21", "score", "mate", "-3", "pv", "h7h8q"]
  {
    SplitWhitespaceJoin(["info", "depth", "21", "score", "mate", "-3", "pv", "h7h8q"]);
  }

  /** The tokens of the unit test's mate line. */
  const MATE_EXAMPLE_WORDS: seq<string> := ["info", "depth", "21", "score", "mate", "-3", "pv", "h7h8q"]

  lemma ScanExampleMate(words: seq<string>)
    requires words == MATE_EXAMPLE_WORDS
    ensures ScanFrom(words, 0, EMPTY_INFO) == ParsedInfo(Some(21), None, Some(-3), ["h7h8q"], 1)
  {
    var withDepth := EMPTY_INFO.(depth := Some(21));
    var withScore := withDepth.(scoreMate := Some(-3));
    assert ParseU32("21") == Some(21) && ParseI32("-3") == Some(-3) by {
      ExampleNumbers();
    }
    ScanOtherStep(words, 0, EMPTY_INFO);
    ScanDepthStep(words, 1, EMPTY_INFO, 21);
    ScanScoreStep(words, 3, withDepth);
    ScanPvStep(words, 6, withScore);
    assert words[7..] == ["h7h8q"];
  }
}
