/**
 * `scripts/test.py`: reads the expected evaluations of a list of positions
 * from a file and the analyzer's answers from standard input, and reports how
 * many answers match.  The lines of the file and of the input are parameters;
 * the coloured table and the summary it prints are left out, and the counts
 * and the accuracy it prints are results.
 */
module TestReport {
  import opened Wrappers
  import opened Parsing

  /** A line that `line.strip()` empties: whitespace only. */
  predicate Blank(line: string)
  {
    forall i :: 0 <= i < |line| ==> IsSpace(line[i])
  }

  /** `line.strip()`. */
  function Strip(line: string): string
  {
    TrimEnd(TrimStart(line))
  }

  /** Strip empties exactly the blank lines. */
  lemma StripBlank(line: string)
    ensures Strip(line) == [] <==> Blank(line)
  {
    TrimStartSuffix(line);
  }

  /** The whitespace-separated tokens of a line are none exactly when the line is blank. */
  lemma {:induction false} TokensBlank(line: string)
    ensures Tokens(line) == [] <==> Blank(line)
    decreases |line|
  {
    if |line| > 0 {
      if IsSpace(line[0]) {
        TokensBlank(line[1..]);
        if Blank(line[1..]) {
          forall i | 0 <= i < |line|
            ensures IsSpace(line[i])
          {
            if i > 0 {
              assert line[1..][i - 1] == line[i];
            }
          }
        }
        if Blank(line) {
          forall i | 0 <= i < |line[1..]|
            ensures IsSpace(line[1..][i])
          {
            assert line[1..][i] == line[i + 1];
          }
        }
      }
    }
  }

  /** What `parse_fen_and_state` gives: the line's evaluation word and whether it spoke of checkmate. */
  datatype Expectation = Expectation(state: string, isCheckmate: bool)

  /** "checkmate" or "Checkmate" occurs in the line. */
  predicate MentionsCheckmate(line: string)
  {
    Contains(line, "checkmate") || Contains(line, "Checkmate")
  }

  /**
   * `parse_fen_and_state`: the last whitespace token of the line and whether
   * the line mentions checkmate; a line without tokens makes `parts[-1]`
   * raise, which is `None` here.
   */
  function ParseFenAndState(line: string): (r: Option<Expectation>)
    ensures r.None? <==> Blank(line)
    ensures r.Some? ==> r.value.state in Tokens(line) && Word(r.value.state)
    ensures r.Some? ==> (r.value.isCheckmate <==> MentionsCheckmate(line))
  {
    TokensBlank(line);
    var parts := Tokens(line);
    if |parts| == 0 then None
    else Some(Expectation(parts[|parts| - 1], MentionsCheckmate(line)))
  }

  /** The evaluation is the last word: a line that ends with a word after a space yields that word. */
  lemma LastWordIsState(words: seq<string>)
    requires |words| > 0 && forall w :: w in words ==> Word(w)
    ensures var r := ParseFenAndState(Join(words, ' '));
      r.Some? && r.value.state == words[|words| - 1]
  {
    TokensOfJoin(words);
  }

  /** `read_test_positions` over the file's lines: blank lines are skipped, every other line parsed. */
  function ReadTestPositions(lines: seq<string>): (r: seq<Expectation>)
    ensures |r| <= |lines|
    decreases |lines|
  {
    if lines == [] then []
    else
      var rest := ReadTestPositions(lines[1..]);
      match ParseFenAndState(lines[0])
      case None => rest
      case Some(e) => [e] + rest
  }

  /** The lines the script keeps, in order. */
  function NonBlank(lines: seq<string>): (r: seq<string>)
    ensures |r| <= |lines|
    ensures forall k :: 0 <= k < |r| ==> !Blank(r[k])
    decreases |lines|
  {
    if lines == [] then []
    else if Blank(lines[0]) then NonBlank(lines[1..])
    else [lines[0]] + NonBlank(lines[1..])
  }

  /** One expectation per non-blank line, parsed from it. */
  lemma {:induction false} PositionsOfLines(lines: seq<string>)
    ensures var r := ReadTestPositions(lines);
      |r| == |NonBlank(lines)| &&
      forall k :: 0 <= k < |r| ==> ParseFenAndState(NonBlank(lines)[k]) == Some(r[k])
    decreases |lines|
  {
    if lines != [] {
      PositionsOfLines(lines[1..]);
      var r := ReadTestPositions(lines);
      var rest := ReadTestPositions(lines[1..]);
      var kept := NonBlank(lines);
      var keep := NonBlank(lines[1..]);
      if !Blank(lines[0]) {
        assert r == [ParseFenAndState(lines[0]).value] + rest;
        assert kept == [lines[0]] + keep;
        forall k | 0 <= k < |r|
          ensures ParseFenAndState(kept[k]) == Some(r[k])
        {
          if k > 0 {
            assert kept[k] == keep[k - 1] && r[k] == rest[k - 1];
          }
        }
      }
    }
  }

  /** `read_ai_output` over the lines of standard input: each line stripped, the empty ones dropped. */
  function ReadAiOutput(lines: seq<string>): (r: seq<string>)
    ensures |r| <= |lines|
    ensures forall k :: 0 <= k < |r| ==> r[k] != []
    decreases |lines|
  {
    if lines == [] then []
    else if Strip(lines[0]) == [] then ReadAiOutput(lines[1..])
    else [Strip(lines[0])] + ReadAiOutput(lines[1..])
  }

  /** The answers are the stripped non-blank lines. */
  lemma {:induction false} AiOutputOfLines(lines: seq<string>)
    ensures var r := ReadAiOutput(lines);
      |r| == |NonBlank(lines)| && forall k :: 0 <= k < |r| ==> r[k] == Strip(NonBlank(lines)[k])
    decreases |lines|
  {
    if lines != [] {
      AiOutputOfLines(lines[1..]);
      StripBlank(lines[0]);
      var r := ReadAiOutput(lines);
      var rest := ReadAiOutput(lines[1..]);
      var kept := NonBlank(lines);
      var keep := NonBlank(lines[1..]);
      if !Blank(lines[0]) {
        assert r == [Strip(lines[0])] + rest;
        assert kept == [lines[0]] + keep;
        forall k | 0 <= k < |r|
          ensures r[k] == Strip(kept[k])
        {
          if k > 0 {
            assert kept[k] == keep[k - 1] && r[k] == rest[k - 1];
          }
        }
      }
    }
  }

  /** `map_expected_state`: a side to move becomes "Check" or "Checkmate" of that side; anything else stays. */
  function MapExpectedState(state: string, isCheckmate: bool): (r: string)
    ensures state == "White" || state == "Black" ==> r == (if isCheckmate then "Checkmate " else "Check ") + state
    ensures state != "White" && state != "Black" ==> r == state
  {
    if state == "White" then (if isCheckmate then "Checkmate White" else "Check White")
    else if state == "Black" then (if isCheckmate then "Checkmate Black" else "Check Black")
    else state
  }

  /** For White and Black the mapped text determines both the side and the flag. */
  lemma MapExpectedInjective(s1: string, c1: bool, s2: string, c2: bool)
    requires s1 == "White" || s1 == "Black"
    requires s2 == "White" || s2 == "Black"
    requires MapExpectedState(s1, c1) == MapExpectedState(s2, c2)
    ensures s1 == s2 && c1 == c2
  {
  }

  /** The answer for position k matches the mapped expectation. */
  predicate Matches(expected: seq<Expectation>, answers: seq<string>, k: nat)
    requires k < |expected| && k < |answers|
  {
    answers[k] == MapExpectedState(expected[k].state, expected[k].isCheckmate)
  }

  /** The shorter of two lengths: `zip` stops at the end of either list. */
  function Min(a: nat, b: nat): nat
  {
    if a <= b then a else b
  }

  /** For each zipped pair, whether it matches. */
  function Hits(expected: seq<Expectation>, answers: seq<string>): (h: seq<bool>)
    ensures |h| == Min(|expected|, |answers|)
  {
    seq(Min(|expected|, |answers|), k requires 0 <= k < Min(|expected|, |answers|) => Matches(expected, answers, k))
  }

  /** The number of true entries among the first n. */
  function Count(hits: seq<bool>, n: nat): nat
    requires n <= |hits|
  {
    if n == 0 then 0 else Count(hits, n - 1) + (if hits[n - 1] then 1 else 0)
  }

  /** At most every entry counts, all of them exactly when each is true, none exactly when each is false. */
  lemma {:induction false} CountBounds(hits: seq<bool>, n: nat)
    requires n <= |hits|
    ensures Count(hits, n) <= n
    ensures Count(hits, n) == n <==> forall k :: 0 <= k < n ==> hits[k]
    ensures Count(hits, n) == 0 <==> forall k :: 0 <= k < n ==> !hits[k]
  {
    if n > 0 {
      CountBounds(hits, n - 1);
    }
  }

  /** The number of zipped pairs whose answer is the mapped expectation. */
  function Correct(expected: seq<Expectation>, answers: seq<string>): nat
  {
    var h := Hits(expected, answers);
    Count(h, |h|)
  }

  /** Every answer is right exactly when the count reaches the number of pairs; none is right exactly when it is 0. */
  lemma CorrectMeans(expected: seq<Expectation>, answers: seq<string>)
    ensures var n := Min(|expected|, |answers|);
      Correct(expected, answers) <= n &&
      (Correct(expected, answers) == n <==> forall k :: 0 <= k < n ==> Matches(expected, answers, k)) &&
      (Correct(expected, answers) == 0 <==> forall k :: 0 <= k < n ==> !Matches(expected, answers, k))
  {
    var h := Hits(expected, answers);
    CountBounds(h, |h|);
    assert forall k :: 0 <= k < |h| ==> h[k] == Matches(expected, answers, k);
  }

  /**
   * The counting of `compare_states`: `total` is the number of expected
   * positions, `correct` the number of zipped pairs whose answer is the mapped
   * expectation.
   */
  method CompareStates(expected: seq<Expectation>, answers: seq<string>) returns (correct: nat, total: nat)
    ensures total == |expected|
    ensures correct == Correct(expected, answers)
    ensures correct <= Min(|expected|, |answers|) <= total
  {
    correct := 0;
    total := |expected|;
    var n := Min(|expected|, |answers|);
    ghost var hits := Hits(expected, answers);
    var i := 0;
    while i < n
      invariant i <= n && correct == Count(hits, i)
    {
      var e := expected[i];
      var expectedText := MapExpectedState(e.state, e.isCheckmate);
      if answers[i] == expectedText {
        correct := correct + 1;
      }
      i := i + 1;
    }
    CountBounds(hits, n);
  }

  /** The accuracy in percent; 0 when there are no positions. */
  function Accuracy(correct: nat, total: nat): (r: real)
    ensures total == 0 ==> r == 0.0
    ensures correct <= total ==> 0.0 <= r <= 100.0
    ensures total > 0 ==> (r == 100.0 <==> correct == total)
  {
    if total > 0 then (correct as real / total as real) * 100.0 else 0.0
  }

  /** How a run of the script ends. */
  datatype Outcome =
    | Usage
    | ReadError
    | CountMismatch(positions: nat, outputs: nat)
    | Report(correct: nat, total: nat, accuracy: real)

  /**
   * `main`: exactly one argument; the positions file (`None` when it cannot be
   * opened, which the handler reports); then the answers; lists of different
   * lengths are refused before anything is compared.
   */
  method RunTest(argc: nat, file: Option<seq<string>>, input: seq<string>) returns (o: Outcome)
    ensures argc != 2 <==> o == Usage
    ensures o == ReadError <==> argc == 2 && file.None?
    ensures o.CountMismatch? <==> argc == 2 && file.Some? && |NonBlank(file.value)| != |NonBlank(input)|
    ensures o.Report? ==> (argc == 2 && file.Some? &&
      var expected := ReadTestPositions(file.value);
      var answers := ReadAiOutput(input);
      |expected| == |answers| == o.total &&
      o.correct == Correct(expected, answers) && o.correct <= o.total &&
      o.accuracy == Accuracy(o.correct, o.total))
  {
    if argc != 2 {
      return Usage;
    }
    if file.None? {
      return ReadError;
    }
    var expected := ReadTestPositions(file.value);
    var answers := ReadAiOutput(input);
    PositionsOfLines(file.value);
    AiOutputOfLines(input);
    if |expected| != |answers| {
      return CountMismatch(|expected|, |answers|);
    }
    var correct, total := CompareStates(expected, answers);
    return Report(correct, total, Accuracy(correct, total));
  }
}
