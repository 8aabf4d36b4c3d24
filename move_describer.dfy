/**
 * `translateMoveToText`: a coordinate move such as `e2e4` described as
 * `Pawn e2 to e4`, after the piece that stands on the source square.
 * The board lookup (chess.js `game.get`) is a parameter: it maps a square
 * name to the type letter of the piece standing there, or to `None` when
 * the square is empty.
 */
module MoveDescriber {
  import opened Wrappers

  /** The display name of each piece type letter. */
  const PieceNames: map<string, string> :=
    map["p" := "Pawn", "n" := "Knight", "b" := "Bishop", "r" := "Rook", "q" := "Queen", "k" := "King"]

  /** `pieceSymbols[type] || ''`: an unknown type letter has the empty name. */
  function PieceName(pieceType: string): (name: string)
    ensures name != "" <==> pieceType in {"p", "n", "b", "r", "q", "k"}
    ensures pieceType == "p" ==> name == "Pawn"
    ensures pieceType == "n" ==> name == "Knight"
    ensures pieceType == "b" ==> name == "Bishop"
    ensures pieceType == "r" ==> name == "Rook"
    ensures pieceType == "q" ==> name == "Queen"
    ensures pieceType == "k" ==> name == "King"
  {
    if pieceType in PieceNames then PieceNames[pieceType] else ""
  }

  function Clamp(i: nat, len: nat): (r: nat)
    ensures r <= len && (i <= len ==> r == i)
  {
    if i <= len then i else len
  }

  /** `s.substring(start, end)` for `start <= end`: both ends are clamped
      to the length of `s`. */
  function Substring(s: string, start: nat, end: nat): (r: string)
    requires start <= end
    ensures |r| == Clamp(end, |s|) - Clamp(start, |s|)
    ensures forall i :: 0 <= i < |r| ==> r[i] == s[start + i]
  {
    s[Clamp(start, |s|)..Clamp(end, |s|)]
  }

  /** `move.substring(0, 2)`: the first two characters, or all of a shorter move. */
  function FromSquare(move: string): (square: string)
    ensures |move| >= 2 ==> square == move[..2]
    ensures |move| < 2 ==> square == move
  {
    Substring(move, 0, 2)
  }

  /** `move.substring(2, 4)`: the third and fourth characters, as many of
      them as the move has. */
  function ToSquare(move: string): (square: string)
    ensures |move| >= 4 ==> square == move[2..4]
    ensures |move| <= 2 ==> square == ""
    ensures |move| == 3 ==> square == move[2..]
  {
    Substring(move, 2, 4)
  }

  /** `translateMoveToText(move, game)`: an empty source square leaves the
      move as it is; otherwise the piece's name, the source square, `to`
      and the destination square. */
  function Describe(move: string, pieceAt: string -> Option<string>): (text: string)
    ensures pieceAt(FromSquare(move)).None? ==> text == move
    ensures pieceAt(FromSquare(move)).Some? ==> |text| >= |" to "| + 1
    ensures |move| >= 4 && pieceAt(move[..2]).Some? ==>
      text == PieceName(pieceAt(move[..2]).value) + " " + move[..2] + " to " + move[2..4]
    ensures |move| == 3 && pieceAt(move[..2]).Some? ==>
      text == PieceName(pieceAt(move[..2]).value) + " " + move[..2] + " to " + move[2..]
    ensures |move| <= 2 && pieceAt(move).Some? ==>
      text == PieceName(pieceAt(move).value) + " " + move + " to "
  {
    assert |move| <= 2 ==> FromSquare(move) == move[..|move|] == move;
    match pieceAt(FromSquare(move))
    case None => move
    case Some(pieceType) => PieceName(pieceType) + " " + FromSquare(move) + " to " + ToSquare(move)
  }

  /** The squares can be read back off the end of a description: dropping
      the `" to "` between them gives the four characters of the move. */
  lemma DescriptionNamesSquares(move: string, pieceAt: string -> Option<string>)
    requires |move| >= 4 && pieceAt(move[..2]).Some?
    ensures var text := Describe(move, pieceAt);
      |text| >= 8 && text[|text| - 8..|text| - 6] + text[|text| - 2..] == move[..4]
  {
    var text := Describe(move, pieceAt);
    var name := PieceName(pieceAt(move[..2]).value);
    assert text == (name + " ") + (move[..2] + " to " + move[2..4]);
    assert text[|text| - 8..] == move[..2] + " to " + move[2..4];
    assert text[|text| - 8..|text| - 6] == move[..2];
    assert text[|text| - 2..] == move[2..4];
  }

  /** A short move keeps what it has: `e2` alone has an empty destination. */
  lemma DescribeShortMove(pieceAt: string -> Option<string>)
    requires pieceAt("e2") == Some("p")
    ensures Describe("e2", pieceAt) == "Pawn e2 to "
  {
    assert FromSquare("e2") == "e2";
    assert ToSquare("e2") == "";
  }

  /** Describing the opening pawn push from the initial position. */
  lemma DescribeOpeningPawnPush(pieceAt: string -> Option<string>)
    requires pieceAt("e2") == Some("p")
    ensures Describe("e2e4", pieceAt) == "Pawn e2 to e4"
  {
    assert "e2e4"[..2] == "e2" && "e2e4"[2..4] == "e4";
  }
}
