/**
  * Validation of the request lines: each line must name a start and an end
  * square of the 8 x 8 board, as in "D4 G7", separated by one whitespace
  * character. The pattern is anchored at the start of the line, and its end
  * anchor also accepts a single newline that ends the line.
  */
module InputValidation {
  import opened Board

  /**
    * The characters the whitespace class matches in a text pattern: the ASCII
    * controls tab to carriage return and 0x1C to 0x1F, the space, and the
    * Unicode spaces and line and paragraph separators.
    */
  predicate IsSpace(c: char) {
    || c == ' '
    || ('\t' <= c <= '\r')
    || ('\U{1C}' <= c <= '\U{1F}')
    || c == '\U{85}' || c == '\U{A0}' || c == '\U{1680}'
    || ('\U{2000}' <= c <= '\U{200A}')
    || c == '\U{2028}' || c == '\U{2029}' || c == '\U{202F}' || c == '\U{205F}' || c == '\U{3000}'
  }

  predicate IsFile(c: char) {
    'A' <= c <= 'H'
  }

  predicate IsRank(c: char) {
    '1' <= c <= '8'
  }

  /**
    * One line matches the request pattern: file, rank, one whitespace
    * character, file, rank, and then the end of the line or a newline that
    * ends it.
    */
  predicate MatchesRequest(line: string) {
    && (|line| == 5 || (|line| == 6 && line[5] == '\n'))
    && IsFile(line[0]) && IsRank(line[1])
    && IsSpace(line[2])
    && IsFile(line[3]) && IsRank(line[4])
  }

  /** The input is valid when every line matches; the first line that does not makes it invalid. */
  method InputIsValid(userInput: seq<string>) returns (valid: bool)
    ensures valid <==> forall i :: 0 <= i < |userInput| ==> MatchesRequest(userInput[i])
  {
    var k := 0;
    while k < |userInput|
      invariant 0 <= k <= |userInput|
      invariant forall i :: 0 <= i < k ==> MatchesRequest(userInput[i])
    {
      if !MatchesRequest(userInput[k]) {
        return false;
      }
      k := k + 1;
    }
    return true;
  }

  /** A request line names two squares of the board: its first two and its fourth and fifth characters. */
  lemma RequestNamesSquares(line: string)
    requires MatchesRequest(line)
    ensures Coordinate(line[..2]).Some? && Coordinate(line[3..5]).Some?
    ensures Label(Coordinate(line[..2]).value) == line[..2]
    ensures Label(Coordinate(line[3..5]).value) == line[3..5]
  {
  }

  /**
    * Writing two squares' labels around a whitespace character gives a
    * request line, and reading it back gives the two squares.
    */
  lemma RequestRoundTrip(s: Square, t: Square, c: char)
    requires OnBoard(s, 8) && OnBoard(t, 8) && IsSpace(c)
    ensures MatchesRequest(Label(s) + [c] + Label(t))
    ensures Coordinate((Label(s) + [c] + Label(t))[..2]) == Some(s)
    ensures Coordinate((Label(s) + [c] + Label(t))[3..5]) == Some(t)
  {
    var line := Label(s) + [c] + Label(t);
    LabelRoundTrip(s);
    LabelRoundTrip(t);
    assert line[..2] == Label(s);
    assert line[3..5] == Label(t);
  }

  /** Every request line is two labels around a whitespace character, possibly followed by a newline. */
  lemma RequestIsTwoLabels(line: string)
    requires MatchesRequest(line)
    ensures line[..5] == Label(Coordinate(line[..2]).value) + [line[2]] + Label(Coordinate(line[3..5]).value)
  {
    RequestNamesSquares(line);
  }
}
