/**
 * `FenValidator::validateFEN`: the subset of Forsyth-Edwards Notation (section
 * 16.1 of the PGN standard) the chess pipeline accepts.  The text is trimmed,
 * split into six whitespace-separated fields, and each field is checked in
 * order; the first failure is the answer.  An error is a variant carrying the
 * values the source's message prints; the wording of the messages is not
 * modelled.
 */
module FenValidation {
  import opened Wrappers
  import opened Parsing

  datatype FenError =
    | EmptyFen
    | FieldCount(found: nat)
    | EmptySquares(spaces: nat)
    | PieceChar(c: char)
    | RankSquares(rank: nat, squares: nat)
    | RankCount(ranks: nat)
    | ActiveColor(color: string)
    | DuplicateCastling(castling: string)
    | CastlingChar(c: char)
    | EnPassant(square: string)
    | NegativeHalfmove(halfmove: string)
    | HalfmoveNumber(halfmove: string)
    | NonPositiveFullmove(fullmove: string)
    | FullmoveNumber(fullmove: string)
    | Kings(white: nat, black: nat)

  const ValidPieces: string := "rnbqkpRNBQKP"

  predicate IsPiece(c: char)
  {
    c in ValidPieces
  }

  // ---------------------------------------------------------------------------
  // Piece placement
  // ---------------------------------------------------------------------------

  /** The scan of one rank from character i with `count` squares so far: digits add their value, letters 1. */
  function ScanFrom(rank: string, i: nat, count: nat): (r: Result<nat, FenError>)
    requires i <= |rank|
    ensures r.Err? ==> r.error.EmptySquares? || r.error.PieceChar?
    decreases |rank| - i
  {
    if i == |rank| then Ok(count)
    else
      var c := rank[i];
      if IsDigit(c) then
        var spaces := DigitValue(c);
        if spaces == 0 || spaces > 8 then Err(EmptySquares(spaces)) else ScanFrom(rank, i + 1, count + spaces)
      else if IsPiece(c) then ScanFrom(rank, i + 1, count + 1)
      else Err(PieceChar(c))
  }

  /** A character a rank may hold: a piece letter or a digit 1 to 8. */
  predicate SquareChar(c: char)
  {
    IsPiece(c) || (IsDigit(c) && 1 <= DigitValue(c) <= 8)
  }

  /** The squares a character covers. */
  function Width(c: char): nat
  {
    if IsDigit(c) then DigitValue(c) else 1
  }

  /** The squares a rank covers, summed over its characters. */
  function Squares(s: string): nat
    decreases |s|
  {
    if |s| == 0 then 0 else Width(s[0]) + Squares(s[1..])
  }

  /** The scan succeeds exactly when every character is a square character, and then it counts Squares. */
  lemma {:induction false} ScanFromAgrees(rank: string, i: nat, count: nat)
    requires i <= |rank|
    ensures ScanFrom(rank, i, count).Ok? <==> forall k :: i <= k < |rank| ==> SquareChar(rank[k])
    ensures ScanFrom(rank, i, count).Ok? ==> ScanFrom(rank, i, count).value == count + Squares(rank[i..])
    decreases |rank| - i
  {
    if i < |rank| {
      var c := rank[i];
      assert !(IsDigit(c) && IsPiece(c));
      assert rank[i..][1..] == rank[i + 1..];
      ScanFromAgrees(rank, i + 1, count + Width(c));
    }
  }

  /** The outcome for rank number n (1-based): a character error, a wrong square count, or n's squares. */
  function RankCheck(rank: string, n: nat): Option<FenError>
  {
    match ScanFrom(rank, 0, 0)
    case Err(e) => Some(e)
    case Ok(squares) => if squares != 8 then Some(RankSquares(n, squares)) else None
  }

  /** The ranks from number done + 1 on, then the rank count. */
  function PlacementFrom(ranks: seq<string>, done: nat): (r: Option<FenError>)
    requires done <= |ranks|
    ensures r.Some? ==> r.value.EmptySquares? || r.value.PieceChar? || r.value.RankSquares? || r.value.RankCount?
    decreases |ranks| - done
  {
    if done == |ranks| then (if done != 8 then Some(RankCount(done)) else None)
    else if RankCheck(ranks[done], done + 1).Some? then RankCheck(ranks[done], done + 1)
    else PlacementFrom(ranks, done + 1)
  }

  /** `validatePiecePlacement`: the ranks are what `std::getline(iss, rank, '/')` yields. */
  function PlacementCheck(position: string): Option<FenError>
  {
    PlacementFrom(SplitOn(position, '/'), 0)
  }

  /** A rank every character of which is a square character and which covers 8 squares. */
  predicate RankOk(rank: string)
  {
    (forall k :: 0 <= k < |rank| ==> SquareChar(rank[k])) && Squares(rank) == 8
  }

  lemma RankCheckOk(rank: string, n: nat)
    ensures RankCheck(rank, n) == None <==> RankOk(rank)
  {
    ScanFromAgrees(rank, 0, 0);
    assert rank[0..] == rank;
  }

  lemma {:induction false} PlacementFromOk(ranks: seq<string>, done: nat)
    requires done <= |ranks|
    ensures PlacementFrom(ranks, done) == None <==> |ranks| == 8 && forall k :: done <= k < |ranks| ==> RankOk(ranks[k])
    decreases |ranks| - done
  {
    if done < |ranks| {
      RankCheckOk(ranks[done], done + 1);
      PlacementFromOk(ranks, done + 1);
    }
  }

  /** A placement passes exactly when it has 8 ranks, each of 8 squares written with valid characters. */
  lemma PlacementOk(position: string)
    ensures PlacementCheck(position) == None <==>
      var ranks := SplitOn(position, '/');
      |ranks| == 8 && forall k :: 0 <= k < 8 ==> RankOk(ranks[k])
  {
    PlacementFromOk(SplitOn(position, '/'), 0);
  }

  /** The loops of `validatePiecePlacement` with `rankCount` and `squareCount`. */
  method ValidatePiecePlacement(position: string) returns (e: Option<FenError>)
    ensures e == PlacementCheck(position)
  {
    var ranks := SplitOn(position, '/');
    var rankCount := 0;
    while rankCount < |ranks|
      invariant rankCount <= |ranks|
      invariant PlacementFrom(ranks, 0) == PlacementFrom(ranks, rankCount)
      decreases |ranks| - rankCount
    {
      var rank := ranks[rankCount];
      rankCount := rankCount + 1;
      var squareCount := 0;
      var i := 0;
      while i < |rank|
        invariant i <= |rank|
        invariant ScanFrom(rank, 0, 0) == ScanFrom(rank, i, squareCount)
      {
        var c := rank[i];
        if IsDigit(c) {
          var spaces := DigitValue(c);
          if spaces <= 0 || spaces > 8 {
            return Some(EmptySquares(spaces));
          }
          squareCount := squareCount + spaces;
        } else if IsPiece(c) {
          squareCount := squareCount + 1;
        } else {
          return Some(PieceChar(c));
        }
        i := i + 1;
      }
      if squareCount != 8 {
        return Some(RankSquares(rankCount, squareCount));
      }
    }
    if rankCount != 8 {
      return Some(RankCount(rankCount));
    }
    return None;
  }

  // ---------------------------------------------------------------------------
  // The other fields
  // ---------------------------------------------------------------------------

  /** `validateActiveColor`. */
  function ColorCheck(color: string): (r: Option<FenError>)
    ensures r == None <==> color == "w" || color == "b"
  {
    if color != "w" && color != "b" then Some(ActiveColor(color)) else None
  }

  /** What sorting followed by `std::unique` detects: some character occurs twice. */
  predicate HasDuplicate(s: string)
  {
    exists i, j :: 0 <= i < j < |s| && s[i] == s[j]
  }

  /** The first position at or after i holding a character outside "KQkq", or |s|. */
  function FirstNonCastling(s: string, i: nat): (k: nat)
    requires i <= |s|
    ensures i <= k <= |s|
    ensures forall x :: i <= x < k ==> s[x] in "KQkq"
    ensures k < |s| ==> s[k] !in "KQkq"
    decreases |s| - i
  {
    if i == |s| || s[i] !in "KQkq" then i else FirstNonCastling(s, i + 1)
  }

  /** `validateCastlingRights`: "-", else no duplicate, else the first character outside KQkq. */
  function CastlingCheck(castling: string): Option<FenError>
  {
    if castling == "-" then None
    else if HasDuplicate(castling) then Some(DuplicateCastling(castling))
    else
      var k := FirstNonCastling(castling, 0);
      if k < |castling| then Some(CastlingChar(castling[k])) else None
  }

  /** Castling passes exactly for "-" and for strings of distinct characters from KQkq. */
  lemma CastlingOk(castling: string)
    ensures CastlingCheck(castling) == None <==>
      castling == "-" || (!HasDuplicate(castling) && forall x :: 0 <= x < |castling| ==> castling[x] in "KQkq")
  {
    var k := FirstNonCastling(castling, 0);
  }

  /** The duplicate test comes first: "KK" followed by a bad character is reported as a duplicate. */
  lemma DuplicateBeforeInvalid()
    ensures CastlingCheck("KKx") == Some(DuplicateCastling("KKx"))
    ensures CastlingCheck("Kx") == Some(CastlingChar('x'))
  {
    assert "KKx"[0] == "KKx"[1];
    assert !HasDuplicate("Kx");
    assert FirstNonCastling("Kx", 0) == 1;
  }

  /** `validateEnPassant`: "-" or a file a to h followed by rank 3 or 6. */
  function EnPassantCheck(square: string): (r: Option<FenError>)
    ensures r == None <==> square == "-" || (|square| == 2 && 'a' <= square[0] <= 'h' && (square[1] == '3' || square[1] == '6'))
  {
    if square == "-" then None
    else if |square| == 2 && 'a' <= square[0] <= 'h' && (square[1] == '3' || square[1] == '6') then None
    else Some(EnPassant(square))
  }

  /** `validateHalfmoveClock`: `std::stoi` must succeed with a value of at least 0. */
  function HalfmoveCheck(halfmove: string): (r: Option<FenError>)
    ensures r == None <==> StoI(halfmove).Some? && StoI(halfmove).value >= 0
  {
    match StoI(halfmove)
    case None => Some(HalfmoveNumber(halfmove))
    case Some(moves) => if moves < 0 then Some(NegativeHalfmove(halfmove)) else None
  }

  /** `validateFullmoveNumber`: `std::stoi` must succeed with a positive value. */
  function FullmoveCheck(fullmove: string): (r: Option<FenError>)
    ensures r == None <==> StoI(fullmove).Some? && StoI(fullmove).value > 0
  {
    match StoI(fullmove)
    case None => Some(FullmoveNumber(fullmove))
    case Some(moves) => if moves <= 0 then Some(NonPositiveFullmove(fullmove)) else None
  }

  /** Clocks are read by their integer prefix: "12abc" is a valid halfmove clock, "x1" is not. */
  lemma ClockPrefix(n: nat, t: string)
    requires 0 < n <= IntMax && (t == [] || !IsDigit(t[0]))
    ensures HalfmoveCheck(Decimal(n) + t) == None && FullmoveCheck(Decimal(n) + t) == None
    ensures HalfmoveCheck(['x'] + Decimal(n)) == Some(HalfmoveNumber(['x'] + Decimal(n)))
  {
    StoIDecimal(n, t);
    var s := ['x'] + Decimal(n);
    assert TrimStart(s) == s;
  }

  /** The number of occurrences of c in s (`std::count`). */
  function Count(s: string, c: char): nat
    decreases |s|
  {
    if |s| == 0 then 0 else (if s[0] == c then 1 else 0) + Count(s[1..], c)
  }

  // ---------------------------------------------------------------------------
  // The whole string
  // ---------------------------------------------------------------------------

  /** The checks on the six fields in order, then the king count. */
  function FieldsCheck(parts: seq<string>): Option<FenError>
    requires |parts| == 6
  {
    if PlacementCheck(parts[0]).Some? then PlacementCheck(parts[0])
    else if ColorCheck(parts[1]).Some? then ColorCheck(parts[1])
    else if CastlingCheck(parts[2]).Some? then CastlingCheck(parts[2])
    else if EnPassantCheck(parts[3]).Some? then EnPassantCheck(parts[3])
    else if HalfmoveCheck(parts[4]).Some? then HalfmoveCheck(parts[4])
    else if FullmoveCheck(parts[5]).Some? then FullmoveCheck(parts[5])
    else
      var white := Count(parts[0], 'K');
      var black := Count(parts[0], 'k');
      if white != 1 || black != 1 then Some(Kings(white, black)) else None
  }

  /** `validateFEN`: None means valid. */
  function FenCheck(fen: string): Option<FenError>
  {
    var t := TrimEnd(TrimStart(fen));
    if t == [] then Some(EmptyFen)
    else
      var parts := Tokens(t);
      if |parts| != 6 then Some(FieldCount(|parts|)) else FieldsCheck(parts)
  }

  /** Every field passes and each side has exactly one king. */
  predicate FieldsOk(parts: seq<string>)
  {
    |parts| == 6 &&
    PlacementCheck(parts[0]) == None && ColorCheck(parts[1]) == None && CastlingCheck(parts[2]) == None &&
    EnPassantCheck(parts[3]) == None && HalfmoveCheck(parts[4]) == None && FullmoveCheck(parts[5]) == None &&
    Count(parts[0], 'K') == 1 && Count(parts[0], 'k') == 1
  }

  /** A string is accepted exactly when its trimmed form has six fields that all pass. */
  lemma FenAccepted(fen: string)
    ensures FenCheck(fen) == None <==> FieldsOk(Tokens(TrimEnd(TrimStart(fen))))
  {
    var t := TrimEnd(TrimStart(fen));
    if t == [] {
      assert Tokens(t) == [];
    }
  }

  /** Only blank text is reported empty. */
  lemma EmptyExactlyBlank(fen: string)
    ensures FenCheck(fen) == Some(EmptyFen) <==> forall i :: 0 <= i < |fen| ==> IsSpace(fen[i])
  {
    var s := TrimStart(fen);
    TrimStartSuffix(fen);
  }

  /** Counting distributes over concatenation. */
  lemma {:induction false} CountConcat(a: string, b: string, c: char)
    ensures Count(a + b, c) == Count(a, c) + Count(b, c)
    decreases |a|
  {
    if |a| > 0 {
      assert (a + b)[0] == a[0];
      assert (a + b)[1..] == a[1..] + b;
      CountConcat(a[1..], b, c);
    } else {
      assert a + b == b;
    }
  }

  /** Eight passing ranks joined with '/' make a passing placement. */
  lemma PlacementOfRanks(ranks: seq<string>)
    requires |ranks| == 8 && forall k :: 0 <= k < 8 ==> RankOk(ranks[k])
    ensures PlacementCheck(Join(ranks, '/')) == None
  {
    forall r | r in ranks
      ensures '/' !in r
    {
      var k :| 0 <= k < 8 && ranks[k] == r;
      assert !SquareChar('/');
    }
    assert ranks[7] != [] by {
      assert RankOk(ranks[7]);
    }
    SplitOfJoin(ranks, '/');
    PlacementOk(Join(ranks, '/'));
  }

  /** Words joined by single spaces need no trimming and split back into the same words. */
  lemma JoinedWords(ws: seq<string>)
    requires |ws| > 0 && forall w :: w in ws ==> Word(w)
    ensures TrimEnd(TrimStart(Join(ws, ' '))) == Join(ws, ' ')
    ensures Tokens(Join(ws, ' ')) == ws
  {
    var s := Join(ws, ' ');
    var last := ws[|ws| - 1];
    TokensOfJoin(ws);
    JoinEnds(ws, ' ');
    assert ws[0] in ws && last in ws;
    assert s[0] == ws[0][0];
    assert TrimStart(s) == s;
    assert s[|s| - 1] == last[|last| - 1];
    assert TrimEnd(s) == s;
  }

  /** Words joined by single spaces are accepted exactly when they are six fields that all pass. */
  lemma JoinedFenCheck(ws: seq<string>)
    requires |ws| > 0 && forall w :: w in ws ==> Word(w)
    ensures FenCheck(Join(ws, ' ')) == None <==> FieldsOk(ws)
  {
    JoinedWords(ws);
    FenAccepted(Join(ws, ' '));
  }

  /** Six passing fields written with single spaces make an accepted FEN string. */
  lemma FenOfFields(ws: seq<string>)
    requires FieldsOk(ws) && forall w :: w in ws ==> Word(w)
    ensures FenCheck(Join(ws, ' ')) == None
  {
    JoinedFenCheck(ws);
  }

  /** The trimming loops, then the field checks in order. */
  method ValidateFen(fen0: string) returns (e: Option<FenError>)
    ensures e == FenCheck(fen0)
  {
    var fen := fen0;
    while |fen| > 0 && IsSpace(fen[0])
      invariant TrimStart(fen) == TrimStart(fen0)
    {
      fen := fen[1..];
    }
    ghost var front := fen;
    while |fen| > 0 && IsSpace(fen[|fen| - 1])
      invariant TrimEnd(fen) == TrimEnd(front)
    {
      fen := fen[..|fen| - 1];
    }
    if |fen| == 0 {
      return Some(EmptyFen);
    }
    var parts := Tokens(fen);
    if |parts| != 6 {
      return Some(FieldCount(|parts|));
    }
    e := ValidatePiecePlacement(parts[0]);
    if e.Some? {
      return;
    }
    e := ColorCheck(parts[1]);
    if e.Some? {
      return;
    }
    e := ValidateCastlingRights(parts[2]);
    if e.Some? {
      return;
    }
    e := EnPassantCheck(parts[3]);
    if e.Some? {
      return;
    }
    e := HalfmoveCheck(parts[4]);
    if e.Some? {
      return;
    }
    e := FullmoveCheck(parts[5]);
    if e.Some? {
      return;
    }
    var white := Count(parts[0], 'K');
    var black := Count(parts[0], 'k');
    if white != 1 || black != 1 {
      return Some(Kings(white, black));
    }
    return None;
  }

  /** `validateCastlingRights`, with its loop over the characters. */
  method ValidateCastlingRights(castling: string) returns (e: Option<FenError>)
    ensures e == CastlingCheck(castling)
  {
    if castling == "-" {
      return None;
    }
    if HasDuplicate(castling) {
      return Some(DuplicateCastling(castling));
    }
    var i := 0;
    while i < |castling|
      invariant i <= |castling| && FirstNonCastling(castling, 0) == FirstNonCastling(castling, i)
    {
      if castling[i] !in "KQkq" {
        return Some(CastlingChar(castling[i]));
      }
      i := i + 1;
    }
    return None;
  }
}
