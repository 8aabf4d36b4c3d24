/**
 * The UCI text protocol as the engine service speaks it: the commands it
 * posts to the engine, how it sorts one incoming engine line (the
 * `onmessage` handler's dispatch), and how it reads a score out of an
 * evaluation line (`parseEvaluation`).
 */
module Uci {
  import opened Wrappers
  import opened Strings

  // ---------------------------------------------------------------------
  // Commands

  const Handshake := "uci"
  const ReadyCheck := "isready"
  const NewGame := "ucinewgame"
  const StopSearch := "stop"

  /** The search depth `analyze` uses when its caller leaves it out. */
  const DefaultDepth := 15

  /** `position fen <fen>`: the FEN is carried verbatim after the keyword. */
  function PositionCommand(fen: string): (cmd: string)
    ensures StartsWith(cmd, "position fen ")
    ensures cmd[|"position fen "|..] == fen
  {
    "position fen " + fen
  }

  /** `go depth <depth>`: the depth is neither checked nor clamped; the
      command is the keyword followed by the depth's numeral and nothing
      else. */
  function GoCommand(depth: int): (cmd: string)
    ensures StartsWith(cmd, "go depth ")
    ensures cmd[|"go depth "|..] == Show(depth)
  {
    "go depth " + Show(depth)
  }

  /** Reading the number back after the keyword gives the depth again. */
  lemma GoCommandReadsBack(depth: int)
    ensures MatchAt(GoCommand(depth), "go depth ", 0) == Some(depth)
  {
    MatchShowAlone("go depth ", depth);
  }

  // ---------------------------------------------------------------------
  // Incoming lines

  /** What the service hands to the analysis callback. */
  datatype EngineEvent =
    | BestMove(bestMove: Option<string>, ponder: Option<string>)
    | Evaluation(data: string)

  /** How the `onmessage` handler treats one engine line. */
  datatype Message =
    | UciOk             // handshake answered: mark ready, ask `isready`
    | ReadyOk           // readiness acknowledged: only logged
    | Deliver(event: EngineEvent)  // forwarded to the callback, if one is set
    | Ignored

  /** The handler's checks, in their order: exact `uciok`, exact `readyok`,
      a `bestmove` prefix, then any line containing `score`. A `bestmove`
      line is split on single spaces; the move is piece 1 and the ponder
      move piece 3, each only when the line has that many pieces. */
  function Decode(line: string): (m: Message)
    ensures m == UciOk <==> line == "uciok"
    ensures m == ReadyOk <==> line == "readyok"
    ensures m.Deliver? && m.event.BestMove? <==> StartsWith(line, "bestmove")
    ensures m.Deliver? && m.event.BestMove? ==>
      var parts := Split(line);
      && m.event.bestMove == (if |parts| > 1 then Some(parts[1]) else None)
      && m.event.ponder == (if |parts| > 3 then Some(parts[3]) else None)
    ensures m.Deliver? && m.event.Evaluation? <==>
      line != "uciok" && line != "readyok" && !StartsWith(line, "bestmove") && Contains(line, "score")
    ensures m.Deliver? && m.event.Evaluation? ==> m.event.data == line
  {
    if line == "uciok" then UciOk
    else if line == "readyok" then ReadyOk
    else if StartsWith(line, "bestmove") then
      var parts := Split(line);
      Deliver(BestMove(
        if |parts| > 1 then Some(parts[1]) else None,
        if |parts| > 3 then Some(parts[3]) else None))
    else if Contains(line, "score") then Deliver(Evaluation(line))
    else Ignored
  }

  /** A `bestmove` line built from space-free tokens decodes to its
      second token as the move and its fourth, if any, as the ponder move
      (the third token is not looked at). */
  lemma DecodeBestMove(tokens: seq<string>)
    requires |tokens| >= 1 && StartsWith(tokens[0], "bestmove")
    requires forall i :: 0 <= i < |tokens| ==> ' ' !in tokens[i]
    ensures Decode(Join(tokens)) == Deliver(BestMove(
      if |tokens| > 1 then Some(tokens[1]) else None,
      if |tokens| > 3 then Some(tokens[3]) else None))
  {
    SplitJoin(tokens);
    var line := Join(tokens);
    assert line[..|tokens[0]|] == tokens[0];
    assert line[..8] == tokens[0][..8];
  }

  lemma BestMoveWithPonder(move: string, ponder: string)
    requires ' ' !in move && ' ' !in ponder
    ensures Decode("bestmove " + move + " ponder " + ponder) == Deliver(BestMove(Some(move), Some(ponder)))
  {
    var tokens := ["bestmove", move, "ponder", ponder];
    assert Join(tokens[3..]) == ponder;
    assert Join(tokens[2..]) == "ponder " + ponder;
    assert Join(tokens[1..]) == move + " ponder " + ponder;
    assert Join(tokens) == "bestmove " + move + " ponder " + ponder;
    DecodeBestMove(tokens);
  }

  // ---------------------------------------------------------------------
  // Reading a signed number after a fixed key (the regular expressions
  // `/score cp (-?\d+)/` and `/score mate (-?\d+)/`)

  /** The number matched when the pattern `key(-?\d+)` is tried at index
      `k`: the key, then a digit, or a minus sign followed by a digit; the
      digit run is taken greedily. */
  function MatchAt(s: string, key: string, k: int): (r: Option<int>)
    ensures r.Some? <==> OccursAt(s, key, k) && NumberStartsAt(s, k + |key|)
    ensures r.Some? ==> NumberStartsAt(s[k + |key|..], 0) && r.value == SignedNumber(s[k + |key|..])
  {
    if !OccursAt(s, key, k) then None
    else
      var j := k + |key|;
      if !NumberStartsAt(s, j) then None
      else
        assert s[j..][0] == s[j] && (j + 1 < |s| ==> s[j..][1] == s[j + 1]);
        Some(SignedNumber(s[j..]))
  }

  /** The number `-?\d+` reads at the start of `t`: the value of the digit
      run, negated when a minus sign comes first. */
  function SignedNumber(t: string): (n: int)
    requires NumberStartsAt(t, 0)
    ensures IsDigit(t[0]) ==> n == DigitsValue(DigitRun(t))
    ensures !IsDigit(t[0]) ==> t[0] == '-' && n == -(DigitsValue(DigitRun(t[1..])) as int) && n <= 0
  {
    if IsDigit(t[0]) then DigitsValue(DigitRun(t))
    else
      var magnitude: int := DigitsValue(DigitRun(t[1..]));
      -magnitude
  }

  /** `-?\d+` can start at index `j`: a digit, or `-` and then a digit. */
  predicate NumberStartsAt(s: string, j: int) {
    0 <= j && ((j < |s| && IsDigit(s[j])) || (j + 1 < |s| && s[j] == '-' && IsDigit(s[j + 1])))
  }

  /** The match at the leftmost index `from` or later, as `String.match` finds it. */
  function FirstMatch(s: string, key: string, from: nat): (r: Option<int>)
    ensures r.None? ==> forall k :: from <= k ==> MatchAt(s, key, k).None?
    ensures r.Some? ==> exists k :: from <= k && MatchAt(s, key, k) == r &&
                          forall j :: from <= j < k ==> MatchAt(s, key, j).None?
    decreases |s| + 1 - from
  {
    if from > |s| then None
    else if MatchAt(s, key, from).Some? then MatchAt(s, key, from)
    else FirstMatch(s, key, from + 1)
  }

  /** `s.match(/key(-?\d+)/)`: the number of the leftmost match, if any. */
  function Search(s: string, key: string): (r: Option<int>)
    ensures r.None? <==> forall k :: 0 <= k ==> MatchAt(s, key, k).None?
    ensures r.Some? ==> exists k :: 0 <= k && MatchAt(s, key, k) == r &&
                          forall j :: 0 <= j < k ==> MatchAt(s, key, j).None?
  {
    FirstMatch(s, key, 0)
  }

  /** A match with no match to its left is the one the search returns. */
  lemma SearchFinds(s: string, key: string, k: nat)
    requires MatchAt(s, key, k).Some?
    requires forall j :: 0 <= j < k ==> MatchAt(s, key, j).None?
    ensures Search(s, key) == MatchAt(s, key, k)
  {
  }

  /** A digit run followed by something that does not continue it reads
      back as its value. */
  lemma ReadDigits(digits: string, post: string)
    requires digits != [] && AllDigits(digits)
    requires post == [] || !IsDigit(post[0])
    ensures NumberStartsAt(digits + post, 0) && SignedNumber(digits + post) == DigitsValue(digits)
  {
    DigitRunOf(digits, post);
    assert (digits + post)[0] == digits[0];
  }

  /** After a minus sign, the same digit run reads back negated. */
  lemma ReadNegativeDigits(digits: string, post: string)
    requires digits != [] && AllDigits(digits)
    requires post == [] || !IsDigit(post[0])
    ensures NumberStartsAt("-" + digits + post, 0) && SignedNumber("-" + digits + post) == -(DigitsValue(digits) as int)
  {
    var t := digits + post;
    var u := "-" + digits + post;
    assert u == ['-'] + t;
    assert u[1..] == t && u[0] == '-' && u[1] == t[0] == digits[0];
    DigitRunOf(digits, post);
    assert DigitRun(u[1..]) == digits;
  }

  /** A numeral followed by something that does not continue it reads
      back as its own value. */
  lemma ReadShow(n: int, post: string)
    requires post == [] || !IsDigit(post[0])
    ensures NumberStartsAt(Show(n) + post, 0) && SignedNumber(Show(n) + post) == n
  {
    if n < 0 {
      ReadShowNat(-n);
      ReadNegativeDigits(ShowNat(-n), post);
    } else {
      ReadShowNat(n);
      ReadDigits(ShowNat(n), post);
    }
  }

  /** The number written after the key is the number read back. */
  lemma MatchShow(pre: string, key: string, n: int, post: string)
    requires post == [] || !IsDigit(post[0])
    ensures MatchAt(pre + key + Show(n) + post, key, |pre|) == Some(n)
  {
    var tail := Show(n) + post;
    var s := pre + key + tail;
    var j := |pre| + |key|;
    KeyThenTail(pre, key, tail);
    ReadShow(n, post);
    assert s[j..][0] == s[j] && (j + 1 < |s| ==> s[j..][1] == s[j + 1]);
    assert s == pre + key + Show(n) + post;
  }

  /** The same, for a string that is just the key and the numeral. */
  lemma MatchShowAlone(key: string, n: int)
    ensures MatchAt(key + Show(n), key, 0) == Some(n)
  {
    var s := key + Show(n);
    var j := |key|;
    assert s[0..j] == key && s[j..] == Show(n);
    assert Show(n) + [] == Show(n);
    ReadShow(n, []);
    assert s[j..][0] == s[j] && (j + 1 < |s| ==> s[j..][1] == s[j + 1]);
  }

  lemma KeyThenTail(pre: string, key: string, tail: string)
    ensures OccursAt(pre + key + tail, key, |pre|)
    ensures (pre + key + tail)[|pre| + |key|..] == tail
  {
    var s := pre + key + tail;
    assert s[|pre|..|pre| + |key|] == key;
  }

  predicate FirstCharUnique(key: string) {
    key != [] && forall i :: 0 < i < |key| ==> key[i] != key[0]
  }

  lemma OccurrenceInPrefix(pre: string, rest: string, key: string, j: int)
    requires FirstCharUnique(key)
    requires OccursAt(pre + rest, key, j) && j < |pre|
    requires OccursAt(pre + rest, key, |pre|)
    ensures OccursAt(pre, key, j)
  {
    NoSelfOverlap(pre + rest, key, j, |pre|);
    assert (pre + rest)[j..j + |key|] == pre[j..j + |key|];
  }

  /** When the key does not occur in `pre` but starts right after it, no
      match starts inside `pre`. */
  lemma NoMatchInPrefix(pre: string, rest: string, key: string)
    requires FirstCharUnique(key)
    requires !Contains(pre, key) && StartsWith(rest, key)
    ensures forall j :: 0 <= j < |pre| ==> MatchAt(pre + rest, key, j).None?
  {
    var s := pre + rest;
    assert s[|pre|..|pre| + |key|] == key;
    forall j | 0 <= j < |pre| && OccursAt(s, key, j)
      ensures OccursAt(pre, key, j)
    {
      OccurrenceInPrefix(pre, rest, key, j);
    }
  }

  // ---------------------------------------------------------------------
  // parseEvaluation

  /** A parsed score: pawns for unit `cp`, moves to mate for unit `mate`. */
  datatype Eval = Eval(score: real, unit: string)

  /** What `parseEvaluation` returns when it finds nothing. */
  const NoEvaluation := Eval(0.0, "cp")

  const CpKey := "score cp "
  const MateKey := "score mate "

  /** `parseEvaluation`: a line mentioning `score cp` is read only for a
      centipawn score (divided by 100); only otherwise is a `score mate`
      count looked for; without a match the result is `NoEvaluation`. */
  function ParseEvaluation(data: string): (r: Eval)
    ensures r.unit == "cp" || r.unit == "mate"
    ensures Contains(data, "score cp") ==> r.unit == "cp"
    ensures Contains(data, "score cp") && Search(data, CpKey).Some? ==>
      r == Eval(Search(data, CpKey).value as real / 100.0, "cp")
    ensures Contains(data, "score cp") && Search(data, CpKey).None? ==> r == NoEvaluation
    ensures r.unit == "mate" ==> Contains(data, "score mate") && r.score == r.score.Floor as real
    ensures !Contains(data, "score cp") && Contains(data, "score mate") && Search(data, MateKey).Some? ==>
      r == Eval(Search(data, MateKey).value as real, "mate")
    ensures !Contains(data, "score cp") && Contains(data, "score mate") && Search(data, MateKey).None? ==>
      r == NoEvaluation
    ensures !Contains(data, "score cp") && !Contains(data, "score mate") ==> r == NoEvaluation
  {
    if Contains(data, "score cp") then
      match Search(data, CpKey)
      case Some(n) => Eval(n as real / 100.0, "cp")
      case None => NoEvaluation
    else if Contains(data, "score mate") then
      match Search(data, MateKey)
      case Some(n) => Eval(n as real, "mate")
      case None => NoEvaluation
    else NoEvaluation
  }

  /** A prefix of the key also occurs where the key does. */
  lemma PrefixOccurs(pre: string, key: string, short: string, tail: string)
    requires StartsWith(key, short)
    ensures OccursAt(pre + key + tail, short, |pre|)
  {
    var s := pre + key + tail;
    assert s[|pre|..|pre| + |key|] == key;
    assert s[|pre|..|pre| + |short|] == key[..|short|];
  }

  /** The search finds the number written right after `pre` when the key
      does not occur in `pre`. */
  lemma SearchAfterPrefix(pre: string, key: string, n: int, post: string)
    requires FirstCharUnique(key) && !Contains(pre, key)
    requires post == [] || !IsDigit(post[0])
    ensures Search(pre + key + Show(n) + post, key) == Some(n)
  {
    var rest := key + Show(n) + post;
    var line := pre + rest;
    assert pre + key + Show(n) + post == line;
    assert line[|pre|..|pre| + |key|] == key;
    NoMatchInPrefix(pre, rest, key);
    MatchShow(pre, key, n, post);
    SearchFinds(line, key, |pre|);
  }

  lemma KeysFirstCharUnique()
    ensures FirstCharUnique(CpKey) && FirstCharUnique(MateKey)
    ensures StartsWith(CpKey, "score cp") && StartsWith(MateKey, "score mate")
  {
  }

  /** A line `pre + "score cp " + n + post` reads as `n / 100` pawns when
      the key does not already occur in `pre` and `post` does not continue
      the number. */
  lemma ParseCentipawns(pre: string, n: int, post: string)
    requires !Contains(pre, CpKey)
    requires post == [] || !IsDigit(post[0])
    ensures ParseEvaluation(pre + CpKey + Show(n) + post) == Eval(n as real / 100.0, "cp")
  {
    KeysFirstCharUnique();
    PrefixOccurs(pre, CpKey, "score cp", Show(n) + post);
    assert pre + CpKey + (Show(n) + post) == pre + CpKey + Show(n) + post;
    SearchAfterPrefix(pre, CpKey, n, post);
  }

  /** A line `pre + "score mate " + n + post` with no `score cp` anywhere
      reads as `n` moves to mate, sign kept. */
  lemma ParseMate(pre: string, n: int, post: string)
    requires !Contains(pre + MateKey + Show(n) + post, "score cp")
    requires !Contains(pre, MateKey)
    requires post == [] || !IsDigit(post[0])
    ensures ParseEvaluation(pre + MateKey + Show(n) + post) == Eval(n as real, "mate")
  {
    KeysFirstCharUnique();
    PrefixOccurs(pre, MateKey, "score mate", Show(n) + post);
    assert pre + MateKey + (Show(n) + post) == pre + MateKey + Show(n) + post;
    SearchAfterPrefix(pre, MateKey, n, post);
  }
}
