/**
 * `ChessboardParser::parseChessboardFile` over the lines the file handler
 * returns: every line that is not empty and does not start with '#' holds up
 * to six whitespace-separated FEN fields followed by an optional expected
 * outcome.  The first line whose FEN the validator rejects ends the parse with
 * an error naming its 1-based number; otherwise every such line becomes one
 * record, in order.
 */
module ChessboardParsing {
  import opened Wrappers
  import opened Parsing
  import opened FenValidation
  import opened FenConversion

  /** `ChessboardData`: the FEN text, its 768-entry encoding, the outcome text and its class. */
  datatype ChessboardData = ChessboardData(fen: string, boardData: seq<real>, expectedOutput: string, outLabel: real)

  /** The `runtime_error` of a rejected line: its 1-based number, the validator's error and the FEN text. */
  datatype ParseError = InvalidFen(line: nat, error: FenError, fen: string)

  /** Up to k extractions `iss >> component`, and the text the stream has not consumed after them. */
  function Extract(s: string, k: nat): (r: (seq<string>, string))
    ensures |r.0| <= k && forall w :: w in r.0 ==> Word(w)
    ensures |r.0| < k ==> r.1 == []
    decreases |s|
  {
    if k == 0 then ([], s)
    else if |s| == 0 then ([], [])
    else if IsSpace(s[0]) then Extract(s[1..], k)
    else
      var n := WordLen(s);
      var rest := Extract(s[n..], k - 1);
      ([s[..n]] + rest.0, rest.1)
  }

  /** The extracted components are the first k whitespace tokens. */
  lemma {:induction false} ExtractTokens(s: string, k: nat)
    ensures var ts := Tokens(s);
      Extract(s, k).0 == if |ts| <= k then ts else ts[..k]
    decreases |s|
  {
    if k > 0 && |s| > 0 {
      if IsSpace(s[0]) {
        ExtractTokens(s[1..], k);
      } else {
        var n := WordLen(s);
        ExtractTokens(s[n..], k - 1);
        var ts := Tokens(s);
        assert ts == [s[..n]] + Tokens(s[n..]);
        assert ts[1..] == Tokens(s[n..]);
      }
    }
  }

  /** A line the loop passes over. */
  predicate Skipped(line: string)
  {
    line == [] || line[0] == '#'
  }

  /** The FEN text of a line: its first six components with one space between them. */
  function LineFen(line: string): string
  {
    Join(Extract(line, 6).0, ' ')
  }

  /** `std::getline(iss >> std::ws, remaining)`: the rest of the line after the components and the blanks that follow. */
  function LineOutcome(line: string): string
  {
    TrimStart(Extract(line, 6).1)
  }

  /** The record of an accepted line; `outLabel` keeps its default 0 when there is no outcome text. */
  function Record(line: string): ChessboardData
  {
    var fen := LineFen(line);
    var expected := LineOutcome(line);
    ChessboardData(fen, Board(Cells(GetFenBoard(fen))), expected, if expected == [] then 0.0 else ConvertBoardLabel(expected))
  }

  /** What the loop does with one line. */
  datatype Outcome = Passed | Rejected(error: FenError, fen: string) | Parsed(data: ChessboardData)

  /** One line: passed over, rejected with the validator's error, or turned into its record. */
  function LineResult(line: string): Outcome
  {
    if Skipped(line) then Passed
    else
      match FenCheck(LineFen(line))
      case Some(e) => Rejected(e, LineFen(line))
      case None => Parsed(Record(line))
  }

  /** A line is skipped exactly when it is empty or a comment, rejected exactly when its FEN fails a check, parsed otherwise. */
  lemma LineResultCases(line: string)
    ensures var o := LineResult(line);
      (o.Passed? <==> Skipped(line)) &&
      (o.Rejected? <==> !Skipped(line) && FenCheck(LineFen(line)).Some?) &&
      (o.Rejected? ==> o.fen == LineFen(line) && FenCheck(o.fen) == Some(o.error)) &&
      (o.Parsed? ==> FenCheck(LineFen(line)) == None && o.data == Record(line))
  {
  }

  /** The outcomes from line i on, gathered until the first rejection. */
  function Collect(outs: seq<Outcome>, i: nat): Result<seq<ChessboardData>, ParseError>
    requires i <= |outs|
    decreases |outs| - i
  {
    if i == |outs| then Ok([])
    else
      match outs[i]
      case Passed => Collect(outs, i + 1)
      case Rejected(e, fen) => Err(InvalidFen(i + 1, e, fen))
      case Parsed(d) =>
        match Collect(outs, i + 1)
        case Ok(ds) => Ok([d] + ds)
        case Err(e) => Err(e)
  }

  /** Records found before line i, put in front of the parse of the remaining lines. */
  function After(done: seq<ChessboardData>, r: Result<seq<ChessboardData>, ParseError>): Result<seq<ChessboardData>, ParseError>
  {
    match r
    case Ok(ds) => Ok(done + ds)
    case Err(e) => Err(e)
  }

  /** The outcome of every line. */
  function Outcomes(lines: seq<string>): (outs: seq<Outcome>)
    ensures |outs| == |lines|
  {
    seq(|lines|, i requires 0 <= i < |lines| => LineResult(lines[i]))
  }

  // ---------------------------------------------------------------------------
  // What an accepted line gives
  // ---------------------------------------------------------------------------

  /** Appending a piece extends the join by a delimiter and the piece. */
  lemma {:induction false} JoinSnoc(ps: seq<string>, p: string, d: char)
    requires |ps| > 0
    ensures Join(ps + [p], d) == Join(ps, d) + [d] + p
    decreases |ps|
  {
    if |ps| == 1 {
      assert (ps + [p])[1..] == [p];
    } else {
      assert (ps + [p])[1..] == ps[1..] + [p];
      JoinSnoc(ps[1..], p, d);
    }
  }

  /** The first space of words joined by spaces ends the first word. */
  lemma FenBoardOfJoin(ws: seq<string>)
    requires |ws| > 0 && forall w :: w in ws ==> Word(w)
    ensures GetFenBoard(Join(ws, ' ')) == ws[0]
  {
    var s := Join(ws, ' ');
    var w := ws[0];
    assert Word(w) by {
      assert w in ws;
    }
    JoinEnds(ws, ' ');
    forall i | 0 <= i < |w|
      ensures s[i] != ' '
    {
      assert s[i] == s[..|w|][i];
    }
    if |ws| > 1 {
      assert s == w + [' '] + Join(ws[1..], ' ');
    }
    IndexOfFirst(s, ' ', |w|);
  }

  /** The FEN of an accepted line is six passing fields, its board the placement's 64 squares with one king each. */
  lemma AcceptedLine(line: string)
    requires FenCheck(LineFen(line)) == None
    ensures var ws := Extract(line, 6).0;
      |ws| == 6 && FieldsOk(ws) && GetFenBoard(LineFen(line)) == ws[0]
    ensures var cells := Cells(GetFenBoard(LineFen(line)));
      |cells| == 64 && Fits(cells) && Occupied(cells, PieceIndex('K')) == 1 && Occupied(cells, PieceIndex('k')) == 1
  {
    var ws := Extract(line, 6).0;
    assert FenCheck([]) == Some(EmptyFen);
    JoinedFenCheck(ws);
    FenBoardOfJoin(ws);
    AcceptedBoard(ws);
  }

  // ---------------------------------------------------------------------------
  // The loop
  // ---------------------------------------------------------------------------

  /** The component loop: at most six extractions, a space before every component but the first. */
  method ReadFen(line: string) returns (fen: string)
    ensures fen == LineFen(line)
  {
    var components := Extract(line, 6).0;
    fen := [];
    var i := 0;
    while i < |components|
      invariant i <= |components| && fen == Join(components[..i], ' ')
    {
      if i > 0 {
        JoinSnoc(components[..i], components[i], ' ');
        assert components[..i + 1] == components[..i] + [components[i]];
        fen := fen + [' '];
      } else {
        assert components[..1] == [components[0]];
      }
      fen := fen + components[i];
      i := i + 1;
    }
    assert components[..i] == components;
  }

  /** The body of the line loop: the skip test, the components, the outcome text, validation, conversion. */
  method ParseLine(line: string) returns (res: Outcome)
    ensures res == LineResult(line)
  {
    if line == [] || line[0] == '#' {
      return Passed;
    }
    var fen := ReadFen(line);
    var expectedOutput := LineOutcome(line);
    var error := ValidateFen(fen);
    if error.Some? {
      return Rejected(error.value, fen);
    }
    AcceptedLine(line);
    var boardData := ConvertBoard(fen);
    var outLabel := 0.0;
    if expectedOutput != [] {
      outLabel := ConvertBoardLabel(expectedOutput);
    }
    return Parsed(ChessboardData(fen, boardData, expectedOutput, outLabel));
  }

  /** `parseChessboardFile` after `readLines`: the loop over the lines with its early exit on a rejected FEN. */
  method ParseChessboardFile(lines: seq<string>) returns (r: Result<seq<ChessboardData>, ParseError>)
    ensures r == Collect(Outcomes(lines), 0)
  {
    ghost var outs := Outcomes(lines);
    var boards: seq<ChessboardData> := [];
    var lineNum := 0;
    CollectFrom(outs);
    while lineNum < |lines|
      invariant lineNum <= |lines| && Collect(outs, 0) == After(boards, Collect(outs, lineNum))
    {
      var res := ParseLine(lines[lineNum]);
      CollectStep(outs, lineNum, boards, res);
      if res.Rejected? {
        return Err(InvalidFen(lineNum + 1, res.error, res.fen));
      }
      if res.Parsed? {
        boards := boards + [res.data];
      }
      lineNum := lineNum + 1;
    }
    CollectEnd(outs, boards);
    r := Ok(boards);
  }

  /** Nothing collected before the first line. */
  lemma CollectFrom(outs: seq<Outcome>)
    ensures Collect(outs, 0) == After([], Collect(outs, 0))
  {
    if Collect(outs, 0).Ok? {
      assert [] + Collect(outs, 0).value == Collect(outs, 0).value;
    }
  }

  /** One line of the loop: a rejected line ends the parse, a parsed one is collected, a passed one is skipped. */
  lemma CollectStep(outs: seq<Outcome>, i: nat, boards: seq<ChessboardData>, res: Outcome)
    requires i < |outs| && res == outs[i]
    requires Collect(outs, 0) == After(boards, Collect(outs, i))
    ensures res.Rejected? ==> Collect(outs, 0) == Err(InvalidFen(i + 1, res.error, res.fen))
    ensures res.Parsed? ==> Collect(outs, 0) == After(boards + [res.data], Collect(outs, i + 1))
    ensures res.Passed? ==> Collect(outs, 0) == After(boards, Collect(outs, i + 1))
  {
    if res.Parsed? && Collect(outs, i + 1).Ok? {
      assert boards + ([res.data] + Collect(outs, i + 1).value) == (boards + [res.data]) + Collect(outs, i + 1).value;
    }
  }

  /** After the last line the collection is what was gathered. */
  lemma CollectEnd(outs: seq<Outcome>, boards: seq<ChessboardData>)
    requires Collect(outs, 0) == After(boards, Collect(outs, |outs|))
    ensures Collect(outs, 0) == Ok(boards)
  {
    assert boards + [] == boards;
  }

  // ---------------------------------------------------------------------------
  // Properties of the parse
  // ---------------------------------------------------------------------------

  /** The records of the outcomes from i on, in order. */
  function Records(outs: seq<Outcome>, i: nat): seq<ChessboardData>
    requires i <= |outs|
    decreases |outs| - i
  {
    if i == |outs| then [] else if outs[i].Parsed? then [outs[i].data] + Records(outs, i + 1) else Records(outs, i + 1)
  }

  /** A parse succeeds exactly when no line is rejected, and then it holds every record in line order. */
  lemma {:induction false} CollectOk(outs: seq<Outcome>, i: nat)
    requires i <= |outs|
    ensures Collect(outs, i).Ok? <==> forall j :: i <= j < |outs| ==> !outs[j].Rejected?
    ensures Collect(outs, i).Ok? ==> Collect(outs, i).value == Records(outs, i)
    decreases |outs| - i
  {
    if i < |outs| {
      CollectOk(outs, i + 1);
    }
  }

  /** A failed parse names the first rejected line, 1-based, with its error and FEN text. */
  lemma {:induction false} CollectErr(outs: seq<Outcome>, i: nat)
    requires i <= |outs| && Collect(outs, i).Err?
    ensures var e := Collect(outs, i).error;
      i < e.line <= |outs| && outs[e.line - 1] == Rejected(e.error, e.fen) &&
      forall j :: i <= j < e.line - 1 ==> !outs[j].Rejected?
    decreases |outs| - i
  {
    if !outs[i].Rejected? {
      CollectErr(outs, i + 1);
    }
  }

  /** A record's encoding covers 64 squares with exactly one king of each colour, and its class is a table value, -1 or 0. */
  lemma RecordBoard(line: string)
    requires FenCheck(LineFen(line)) == None
    ensures var d := Record(line); var cells := Cells(GetFenBoard(d.fen));
      d.boardData == Board(cells) && |cells| == 64 &&
      Occupied(cells, PieceIndex('K')) == 1 && Occupied(cells, PieceIndex('k')) == 1 &&
      -1.0 <= d.outLabel <= 5.0 && (d.expectedOutput == [] ==> d.outLabel == 0.0)
  {
    AcceptedLine(line);
  }
}
