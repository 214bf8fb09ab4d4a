/**
 * `FenConverter`: the one-hot encoding of a FEN piece placement into 64
 * squares of 12 piece slots each (white K Q R B N P, then black k q r b n p),
 * and the mapping of an expected-outcome label to its class number.
 *
 * The reading of a placement is given independently of the conversion loop:
 * `Cells` expands the ranks into one entry per square, -1 for an empty square
 * and the piece index otherwise; the board is then the one-hot picture of
 * those cells.
 */
module FenConversion {
  import opened Wrappers
  import opened Parsing
  import opened FenValidation

  /** The piece letters in slot order. */
  const PieceLetters: string := "KQRBNPkqrbnp"

  /** `getFenBoard`: the text before the first space, or all of it when there is none. */
  function GetFenBoard(fen: string): (b: string)
    ensures b <= fen
    ensures ' ' !in b
    ensures |b| < |fen| ==> fen[|b|] == ' '
  {
    fen[..IndexOf(fen, ' ')]
  }

  /** `getPieceIndex`: the slot of a piece letter, -1 for any other character. */
  function PieceIndex(c: char): (p: int)
    ensures -1 <= p < 12
    ensures p >= 0 <==> IsPiece(c)
    ensures p >= 0 ==> PieceLetters[p] == c
    ensures 0 <= p < 6 <==> c in "KQRBNP"
  {
    match c
    case 'K' => 0
    case 'Q' => 1
    case 'R' => 2
    case 'B' => 3
    case 'N' => 4
    case 'P' => 5
    case 'k' => 6
    case 'q' => 7
    case 'r' => 8
    case 'b' => 9
    case 'n' => 10
    case 'p' => 11
    case _ => -1
  }

  /** Each slot is the index of its own letter. */
  lemma PieceIndexOfLetter(i: nat)
    requires i < 12
    ensures PieceIndex(PieceLetters[i]) == i
  {
    assert PieceLetters[i] in PieceLetters;
  }

  // ---------------------------------------------------------------------------
  // The squares a placement describes
  // ---------------------------------------------------------------------------

  /** The squares one character stands for: a digit that many empty squares, anything else one square. */
  function Expand(c: char): (r: seq<int>)
    ensures IsDigit(c) ==> |r| == DigitValue(c) && forall k :: 0 <= k < |r| ==> r[k] == -1
    ensures !IsDigit(c) ==> r == [PieceIndex(c)]
  {
    if IsDigit(c) then seq(DigitValue(c), _ => -1) else [PieceIndex(c)]
  }

  /** The squares of a rank from character i on. */
  function RankCells(s: string, i: nat): seq<int>
    requires i <= |s|
    decreases |s| - i
  {
    if i == |s| then [] else Expand(s[i]) + RankCells(s, i + 1)
  }

  /** The squares of the ranks from number r on, in board order. */
  function RowsCells(rows: seq<string>, r: nat): seq<int>
    requires r <= |rows|
    decreases |rows| - r
  {
    if r == |rows| then [] else RankCells(rows[r], 0) + RowsCells(rows, r + 1)
  }

  /** The squares of a piece placement, its ranks being what `std::getline(iss, row, '/')` yields. */
  function Cells(placement: string): seq<int>
  {
    RowsCells(SplitOn(placement, '/'), 0)
  }

  /** Every piece falls on one of the 64 squares, so every write of the conversion is in the board. */
  predicate Fits(cells: seq<int>)
  {
    forall sq :: 0 <= sq < |cells| && cells[sq] >= 0 ==> sq < 64
  }

  /** The one-hot entry for square sq and slot p. */
  function Mark(cells: seq<int>, sq: int, p: int): real
  {
    if 0 <= sq < |cells| && cells[sq] == p then 1.0 else 0.0
  }

  /** The 768 entries of the encoded board: slot p of square sq is 1 exactly when the square holds piece p. */
  function Board(cells: seq<int>): (b: seq<real>)
    ensures |b| == 768
    ensures forall k :: 0 <= k < 768 ==> b[k] == 0.0 || b[k] == 1.0
  {
    seq(768, k => Mark(cells, k / 12, k % 12))
  }

  lemma BoardAt(cells: seq<int>, sq: nat, p: nat)
    requires sq < 64 && p < 12
    ensures Board(cells)[sq * 12 + p] == Mark(cells, sq, p)
  {
    var k := sq * 12 + p;
    assert k / 12 == sq && k % 12 == p;
  }

  /** At most one slot of a square is set: the encoding is one-hot per square. */
  lemma OneHot(cells: seq<int>, sq: nat, p: nat, q: nat)
    requires sq < 64 && p < q < 12
    ensures Board(cells)[sq * 12 + p] == 0.0 || Board(cells)[sq * 12 + q] == 0.0
  {
    BoardAt(cells, sq, p);
    BoardAt(cells, sq, q);
  }

  /** Empty squares at the end change no entry. */
  lemma BoardPad(cells: seq<int>, tail: seq<int>)
    requires forall k :: 0 <= k < |tail| ==> tail[k] == -1
    ensures Board(cells + tail) == Board(cells)
  {
    forall k | 0 <= k < 768
      ensures Board(cells + tail)[k] == Board(cells)[k]
    {
      var sq := k / 12;
      if |cells| <= sq < |cells + tail| {
        assert (cells + tail)[sq] == tail[sq - |cells|];
      }
    }
  }

  /** A piece on the next square sets exactly its own slot. */
  lemma BoardPlace(cells: seq<int>, p: nat)
    requires |cells| < 64 && p < 12
    ensures Board(cells + [p]) == Board(cells)[|cells| * 12 + p := 1.0]
  {
    var n := |cells|;
    forall k | 0 <= k < 768
      ensures Board(cells + [p])[k] == Board(cells)[n * 12 + p := 1.0][k]
    {
      var sq, slot := k / 12, k % 12;
      assert k == sq * 12 + slot;
      if sq == n {
        assert (cells + [p])[sq] == p;
        assert k == n * 12 + p <==> slot == p;
      }
    }
  }

  // ---------------------------------------------------------------------------
  // The conversion loop
  // ---------------------------------------------------------------------------

  /** The character loop over one rank: a digit skips squares, a piece sets its slot of the current square. */
  method PaintRank(a: array<real>, row: string, square0: nat, ghost cells0: seq<int>, ghost rest: seq<int>) returns (square: nat)
    requires a.Length == 768 && a[..] == Board(cells0) && square0 == |cells0|
    requires Fits(cells0 + RankCells(row, 0) + rest)
    modifies a
    ensures a[..] == Board(cells0 + RankCells(row, 0)) && square == |cells0 + RankCells(row, 0)|
  {
    ghost var cells := cells0;
    square := square0;
    var i := 0;
    while i < |row|
      invariant i <= |row|
      invariant cells + RankCells(row, i) == cells0 + RankCells(row, 0)
      invariant square == |cells| && a[..] == Board(cells)
    {
      var c := row[i];
      RankStep(row, i, cells, cells0, rest);
      square := PaintSquare(a, c, square, cells);
      cells := cells + Expand(c);
      i := i + 1;
    }
  }

  /** One character of a rank: the squares it stands for continue the rank, and a piece lands on one of the 64 squares. */
  lemma RankStep(row: string, i: nat, cells: seq<int>, cells0: seq<int>, rest: seq<int>)
    requires i < |row| && cells + RankCells(row, i) == cells0 + RankCells(row, 0)
    requires Fits(cells0 + RankCells(row, 0) + rest)
    ensures cells + Expand(row[i]) + RankCells(row, i + 1) == cells0 + RankCells(row, 0)
    ensures !IsDigit(row[i]) && PieceIndex(row[i]) >= 0 ==> |cells| < 64
  {
    var e := Expand(row[i]);
    var tail := RankCells(row, i + 1);
    assert RankCells(row, i) == e + tail;
    assert cells + e + tail == cells + (e + tail);
    if !IsDigit(row[i]) && PieceIndex(row[i]) >= 0 {
      var full := cells0 + RankCells(row, 0) + rest;
      assert full == cells + (e + tail) + rest;
      assert full[|cells|] == e[0];
    }
  }

  /** The body of the character loop: the board of the squares so far becomes the board with this character's squares. */
  method PaintSquare(a: array<real>, c: char, square: nat, ghost cells: seq<int>) returns (next: nat)
    requires a.Length == 768 && a[..] == Board(cells) && square == |cells|
    requires !IsDigit(c) && PieceIndex(c) >= 0 ==> square < 64
    modifies a
    ensures a[..] == Board(cells + Expand(c)) && next == |cells + Expand(c)|
  {
    if IsDigit(c) {
      BoardPad(cells, Expand(c));
      next := square + DigitValue(c);
    } else {
      var p := PieceIndex(c);
      if p >= 0 {
        BoardPlace(cells, p);
        a[square * 12 + p] := 1.0;
      } else {
        BoardPad(cells, [p]);
      }
      next := square + 1;
    }
  }

  /** `convertBoard`: a zero board, then the ranks one after the other. */
  method ConvertBoard(fen: string) returns (board: seq<real>)
    requires Fits(Cells(GetFenBoard(fen)))
    ensures board == Board(Cells(GetFenBoard(fen)))
  {
    var a := new real[768](_ => 0.0);
    var rows := SplitOn(GetFenBoard(fen), '/');
    ghost var full := RowsCells(rows, 0);
    ghost var cells: seq<int> := [];
    assert a[..] == Board(cells);
    var square := 0;
    var r := 0;
    while r < |rows|
      invariant r <= |rows|
      invariant cells + RowsCells(rows, r) == full
      invariant square == |cells| && a[..] == Board(cells)
    {
      assert full == cells + RankCells(rows[r], 0) + RowsCells(rows, r + 1);
      square := PaintRank(a, rows[r], square, cells, RowsCells(rows, r + 1));
      cells := cells + RankCells(rows[r], 0);
      r := r + 1;
    }
    board := a[..];
  }

  // ---------------------------------------------------------------------------
  // What a validated placement gives
  // ---------------------------------------------------------------------------

  lemma {:induction false} RankCellsLength(s: string, i: nat)
    requires i <= |s|
    ensures |RankCells(s, i)| == Squares(s[i..])
    decreases |s| - i
  {
    if i < |s| {
      assert s[i..][1..] == s[i + 1..];
      RankCellsLength(s, i + 1);
    }
  }

  lemma {:induction false} RowsCellsLength(rows: seq<string>, r: nat)
    requires r <= |rows| && forall k :: r <= k < |rows| ==> RankOk(rows[k])
    ensures |RowsCells(rows, r)| == 8 * (|rows| - r)
    decreases |rows| - r
  {
    if r < |rows| {
      RankCellsLength(rows[r], 0);
      assert rows[r][0..] == rows[r];
      RowsCellsLength(rows, r + 1);
    }
  }

  /** A placement the validator accepts describes exactly the 64 squares, so its conversion is defined. */
  lemma AcceptedPlacementFits(placement: string)
    requires PlacementCheck(placement) == None
    ensures |Cells(placement)| == 64 && Fits(Cells(placement))
  {
    PlacementOk(placement);
    RowsCellsLength(SplitOn(placement, '/'), 0);
  }

  /** How many squares hold piece p. */
  function Occupied(cells: seq<int>, p: int): nat
    decreases |cells|
  {
    if |cells| == 0 then 0 else (if cells[0] == p then 1 else 0) + Occupied(cells[1..], p)
  }

  lemma {:induction false} OccupiedConcat(a: seq<int>, b: seq<int>, p: int)
    ensures Occupied(a + b, p) == Occupied(a, p) + Occupied(b, p)
    decreases |a|
  {
    if |a| > 0 {
      assert (a + b)[0] == a[0];
      assert (a + b)[1..] == a[1..] + b;
      OccupiedConcat(a[1..], b, p);
    } else {
      assert a + b == b;
    }
  }

  lemma {:induction false} RankOccupied(s: string, i: nat, c: char)
    requires i <= |s| && IsPiece(c)
    ensures Occupied(RankCells(s, i), PieceIndex(c)) == Count(s[i..], c)
    decreases |s| - i
  {
    if i < |s| {
      assert s[i..][1..] == s[i + 1..];
      assert s[i..][0] == s[i];
      RankOccupied(s, i + 1, c);
      OccupiedConcat(Expand(s[i]), RankCells(s, i + 1), PieceIndex(c));
      ExpandOccupied(s[i], c);
    }
  }

  /** The squares of one character hold piece c once if the character is c, and otherwise not at all. */
  lemma ExpandOccupied(ch: char, c: char)
    requires IsPiece(c)
    ensures Occupied(Expand(ch), PieceIndex(c)) == if ch == c then 1 else 0
  {
    var e := Expand(ch);
    if IsDigit(ch) {
      EmptyOccupied(e, PieceIndex(c));
    } else {
      assert e[1..] == [];
    }
  }

  lemma {:induction false} EmptyOccupied(e: seq<int>, p: nat)
    requires forall k :: 0 <= k < |e| ==> e[k] == -1
    ensures Occupied(e, p) == 0
    decreases |e|
  {
    if |e| > 0 {
      EmptyOccupied(e[1..], p);
    }
  }

  /** The letter count of ranks r and after. */
  function RowsCount(rows: seq<string>, r: nat, c: char): nat
    requires r <= |rows|
    decreases |rows| - r
  {
    if r == |rows| then 0 else Count(rows[r], c) + RowsCount(rows, r + 1, c)
  }

  lemma {:induction false} RowsOccupied(rows: seq<string>, r: nat, c: char)
    requires r <= |rows| && IsPiece(c)
    ensures Occupied(RowsCells(rows, r), PieceIndex(c)) == RowsCount(rows, r, c)
    decreases |rows| - r
  {
    if r < |rows| {
      RankOccupied(rows[r], 0, c);
      assert rows[r][0..] == rows[r];
      OccupiedConcat(RankCells(rows[r], 0), RowsCells(rows, r + 1), PieceIndex(c));
      RowsOccupied(rows, r + 1, c);
    }
  }

  /** Splitting at a delimiter other than c leaves the count of c unchanged. */
  lemma {:induction false} SplitCount(s: string, d: char, c: char)
    requires c != d
    ensures RowsCount(SplitOn(s, d), 0, c) == Count(s, c)
    decreases |s|
  {
    if s != [] {
      var n := IndexOf(s, d);
      var ps := SplitOn(s, d);
      if n == |s| {
        assert ps == [s];
      } else {
        var rest := s[n + 1..];
        SplitCount(rest, d, c);
        assert ps == [s[..n]] + SplitOn(rest, d);
        ShiftCount(ps, SplitOn(rest, d), c);
        assert s == s[..n] + ([d] + rest);
        CountConcat(s[..n], [d] + rest, c);
        CountConcat([d], rest, c);
        assert ([d] + rest)[1..] == rest;
      }
    }
  }

  lemma {:induction false} ShiftCount(ps: seq<string>, tail: seq<string>, c: char)
    requires |ps| > 0 && ps[1..] == tail
    ensures RowsCount(ps, 0, c) == Count(ps[0], c) + RowsCount(tail, 0, c)
  {
    ShiftCountFrom(ps, tail, 0, c);
  }

  lemma {:induction false} ShiftCountFrom(ps: seq<string>, tail: seq<string>, r: nat, c: char)
    requires r <= |tail| && |ps| == |tail| + 1 && ps[1..] == tail
    ensures RowsCount(ps, r + 1, c) == RowsCount(tail, r, c)
    decreases |tail| - r
  {
    if r < |tail| {
      assert ps[r + 1] == tail[r];
      ShiftCountFrom(ps, tail, r + 1, c);
    }
  }

  /** A piece letter occurs in the placement as often as the piece occupies a square. */
  lemma PieceCount(placement: string, c: char)
    requires IsPiece(c)
    ensures Occupied(Cells(placement), PieceIndex(c)) == Count(placement, c)
  {
    RowsOccupied(SplitOn(placement, '/'), 0, c);
    SplitCount(placement, '/', c);
  }

  /** The placement field of six accepted fields has 64 squares and exactly one king of each colour. */
  lemma AcceptedBoard(parts: seq<string>)
    requires FieldsOk(parts)
    ensures |Cells(parts[0])| == 64 && Fits(Cells(parts[0]))
    ensures Occupied(Cells(parts[0]), PieceIndex('K')) == 1 && Occupied(Cells(parts[0]), PieceIndex('k')) == 1
  {
    AcceptedPlacementFits(parts[0]);
    PieceCount(parts[0], 'K');
    PieceCount(parts[0], 'k');
  }

  // ---------------------------------------------------------------------------
  // Labels
  // ---------------------------------------------------------------------------

  /** `OUT_RESULTS`: the six outcome labels and their class numbers. */
  const OutResults: map<string, real> := map[
    "Checkmate White" := 0.0, "Checkmate Black" := 1.0, "Check White" := 2.0,
    "Check Black" := 3.0, "Stalemate" := 4.0, "Nothing" := 5.0]

  /** The six labels, in class order. */
  const Labels: seq<string> := ["Checkmate White", "Checkmate Black", "Check White", "Check Black", "Stalemate", "Nothing"]

  /** The table's keys are exactly the six labels, label i standing for class i. */
  lemma LabelKeys()
    ensures forall k :: k in OutResults <==> k in Labels
    ensures forall i :: 0 <= i < 6 ==> OutResults[Labels[i]] == i as real
  {
  }

  /** `convertBoardLabel`: -1 for an empty or unknown label; any label mentioning Stalemate or Nothing is that class. */
  function ConvertBoardLabel(name: string): (r: real)
    ensures -1.0 <= r <= 5.0
    ensures r == -1.0 <==> name == [] || (!Contains(name, "Stalemate") && !Contains(name, "Nothing") && name !in OutResults)
  {
    if name == [] then -1.0
    else if Contains(name, "Stalemate") then OutResults["Stalemate"]
    else if Contains(name, "Nothing") then OutResults["Nothing"]
    else if name in OutResults then OutResults[name]
    else -1.0
  }

  /** Which of the two words' first letters each label holds. */
  lemma KeyLetters(k: string)
    requires k in OutResults
    ensures k == "Stalemate" || 'S' !in k
    ensures k == "Nothing" || 'N' !in k
  {
    LabelKeys();
  }

  /** Each of the six labels converts to its own class number. */
  lemma LabelsConvert(k: string)
    requires k in OutResults
    ensures ConvertBoardLabel(k) == OutResults[k]
  {
    KeyLetters(k);
    if k == "Stalemate" {
      StalemateAnyColour([], []);
      assert [] + "Stalemate" + [] == k;
    } else {
      NoContains(k, "Stalemate", 0);
      if k == "Nothing" {
        ContainsInfix([], "Nothing", []);
        assert [] + "Nothing" + [] == k;
      } else {
        NoContains(k, "Nothing", 0);
      }
    }
  }

  /** A label that mentions Stalemate is class 4 whatever else it says. */
  lemma StalemateAnyColour(a: string, b: string)
    ensures ConvertBoardLabel(a + "Stalemate" + b) == 4.0
  {
    ContainsInfix(a, "Stalemate", b);
  }
}
