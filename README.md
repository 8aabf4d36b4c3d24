# Stockfish engine service: a Dafny model

This project models the engine-orchestration core of a chess analysis app.
`StockfishService` drives a Stockfish engine, running in a Web Worker, over
the UCI (Universal Chess Interface) text protocol. Its parts are:

- the handshake: `uci`, then `isready` once `uciok` arrives;
- `analyze`, which sends `ucinewgame`, `position fen <FEN>` and
  `go depth <n>`;
- `stop`;
- the worker's `onmessage` dispatch of engine lines;
- `parseEvaluation` (`score cp N` as N/100 pawns, or `score mate N`);
- `translateMoveToText` (`e2e4` becomes `Pawn e2 to e4`).

The project also models the two display helpers of the move-evaluation
card: the badge colour and the badge text.

Modules:

- `Wrappers`: `Option`, standing in for `undefined` / `null`.
- `Strings`: the JavaScript string builtins the code relies on.
  - `startsWith`, `includes`, and `split(' ')` with its inverse `Join`.
  - Integers of magnitude below 2^53 rendered in template literals, and
    digit runs as `\d+` and `parseInt` read them.
- `Uci`: the command texts and the line classifier `Decode`. This module also
  holds the leftmost-match search that stands for the score regular
  expressions, and `ParseEvaluation`.
- `MoveDescriber`: `translateMoveToText`. The board lookup is a parameter.
- `Session`: the `StockfishService` class.
  - The worker is an append-only `outbox` of posted commands.
  - Incoming engine lines arrive through `Receive`.
  - The callback is a nullable `Sink` object that records every event it is
    given.
  - Scenario methods replay complete sessions.
- `EvaluationDisplay`: `getEvaluationColor` and `getEvaluationText`.

Scores are exact `real`s. The thresholds 3, 1.5 and 0.5 and their negations
are exact binary floating-point values. Floating-point division is
monotone, and no `N/100` lies within rounding distance of a threshold.
So the model's comparisons give the same answers as the program's.

## Behaviour worth noting

- `analyze` does not check readiness. It sends its three commands as soon as
  a worker exists, and it does not validate `depth`.
- `stop` sends `stop` whenever a worker exists, even when no search is
  running.
- `uciok` sets `isReady`. `readyok` is only logged.
- A line that contains `score` is forwarded to the callback as an evaluation
  event even when neither score pattern matches it. `parseEvaluation` then
  returns `{0, 'cp'}`.
- A `bestmove` line is split on each single space, so two spaces in a row
  give an empty piece. The ponder move is taken from the fourth piece
  without checking that the third piece is `ponder`. The callback receives
  the move token as it is, e.g. `e2e4`.
- No request carries an identifier. A late best move from a superseded search
  goes to the newest callback (`Session.SupersededAnalysis`).
- `score cp -0` reads as zero, so a matched negative number is at most zero,
  not strictly below it.

## Model

| member | source | states |
|---|---|---|
| `Session.StockfishService.constructor` | src/services/StockfishService.ts:9-45 | With a worker, exactly `uci` is posted. Without one, nothing is posted. `isReady` is false, no callback is set, and the invariant `Valid` holds. |
| `Session.Sink.constructor` | src/services/StockfishService.ts:7 | A new analysis callback has received no events yet. |
| `Session.StockfishService.SendCommand` | src/services/StockfishService.ts:67-71 | Appends the command to the outbox only when a worker exists. Otherwise nothing changes. |
| `Session.StockfishService.Receive` | src/services/StockfishService.ts:14-38 | `uciok` sets `isReady` and appends exactly `isready`. Every other line, `readyok` included, leaves the ready flag and the outbox unchanged. The callback field is never changed. A set callback receives exactly the events `Decode` yields for the line. `Valid` is preserved. |
| `Session.StockfishService.Analyze` | src/services/StockfishService.ts:47-59 | With a worker, it installs the new callback. It then appends exactly `ucinewgame`, `position fen <fen>` and `go depth <depth or 15>`, in that order. `isReady` is neither read nor changed. Without a worker, nothing changes. |
| `Session.StockfishService.Stop` | src/services/StockfishService.ts:61-65 | Appends exactly `stop` whenever a worker exists, with or without a running search. Nothing else changes. |
| `Session.HandshakeDone` | src/services/StockfishService.ts:14-21 | After `uciok` and then `readyok`, the service is ready. Exactly `uci` and `isready` have been posted, and no callback is set. |
| `Session.StartAnalysis` | src/services/StockfishService.ts:47-58 | After the handshake, `analyze(fen, depth, sink)` installs the empty sink. The outbox is then `uci, isready, ucinewgame, position fen <fen>, go depth <depth>`. |
| `Session.AnalysisRun` | src/services/StockfishService.ts:14-58 | A full session for any FEN, any two centipawn scores and any space-free move: handshake, analysis at depth 10, lines `info depth 10 score cp <a>` and `info depth 12 score cp <b>`, then `bestmove <move>`. The commands are `uci, isready, ucinewgame, position fen <fen>, go depth 10`. The callback gets the two lines verbatim as evaluations, then the best move with no ponder move. |
| `Session.SupersededAnalysis` | src/services/StockfishService.ts:22-31 | After a second `analyze`, a late `bestmove` goes to the second callback. The first callback receives nothing. |
| `Session.AnalyzeBeforeHandshake` | src/services/StockfishService.ts:47-64 | `analyze` before `uciok` still posts its commands. An omitted depth becomes `go depth 15`. `stop` with no search running still posts `stop`. |
| `Session.AnalyzeWithoutWorker` | src/services/StockfishService.ts:47-65 | Without a worker, `analyze` and `stop` post nothing and install no callback. |
| `Session.CentipawnLine` | src/services/StockfishService.ts:33-36 | A line `pre + "score cp " + n`, where `pre` starts with `i` and has no `s`, is forwarded verbatim as an evaluation event, and it parses to n/100 pawns. |
| `Session.InfoLineDecodes` | src/services/StockfishService.ts:33-36 | For every depth and every centipawn score, `info depth <d> score cp <n>` is forwarded verbatim as an evaluation event, and it parses to n/100 pawns. |
| `Session.AnalysisRunScores` | src/services/StockfishService.ts:80-86 | The lines `info depth 10 score cp 25` and `info depth 12 score cp 40` parse to 0.25 and 0.4 pawns. |
| `Session.DepthCommands` | src/services/StockfishService.ts:47-58 | Depth 10 is sent as `go depth 10`, and the default depth 15 as `go depth 15`. |
| `Session.InfoScoreLine` | src/services/StockfishService.ts:33-36 | An `info` line that contains `score` is dispatched as an evaluation event. |
| `Session.BestMoveLine` | src/services/StockfishService.ts:22-31 | `bestmove <m>` decodes to best move `m` with no ponder move. |
| `Uci.Decode` | src/services/StockfishService.ts:15-37 | The dispatch order, each case as an if-and-only-if. Exact `uciok`, then exact `readyok`, then a `bestmove` prefix, then a line that contains `score`. A best move comes from split piece 1 and a ponder move from piece 3, each only if present. An evaluation carries the line verbatim. |
| `Uci.DecodeBestMove` | src/services/StockfishService.ts:22-31 | For any space-free tokens that join into a `bestmove` line, decoding gives back token 1 as the move. It gives token 3 as the ponder move when there are more than three tokens, and null otherwise. |
| `Uci.BestMoveWithPonder` | src/services/StockfishService.ts:24-30 | `bestmove m ponder p` decodes to move `m` with ponder move `p`. |
| `Uci.PositionCommand` | src/services/StockfishService.ts:57 | The command starts with `position fen `, and the FEN can be read back verbatim after it. |
| `Uci.GoCommand` | src/services/StockfishService.ts:58 | The command is `go depth ` followed by exactly the depth's numeral, with nothing after it. There is no range check. |
| `Uci.GoCommandReadsBack` | src/services/StockfishService.ts:58 | Reading the signed number after `go depth ` gives back the depth. |
| `Uci.MatchAt` | src/services/StockfishService.ts:81 | Matching `key(-?\d+)` at index k succeeds exactly when the key occurs at k and is followed by a digit, or by `-` and a digit. So `score cp x` and `score cp -x` fail there. The value is the one `SignedNumber` reads after the key. |
| `Uci.SignedNumber` | src/services/StockfishService.ts:81-82 | After a leading digit, the value is that of the greedy digit run. After `-`, it is the digit run's value negated, which is at most zero (`-0` is zero). |
| `Uci.FirstMatch` | src/services/StockfishService.ts:81 | The result is the match at the leftmost matching index, with no match before it. It is "no match" only when no index matches. |
| `Uci.Search` | src/services/StockfishService.ts:81 | `String.match` with the pattern: no result exactly when no index matches. Otherwise the result is the match at some index with no match to its left. |
| `Uci.SearchFinds` | src/services/StockfishService.ts:81 | A match with no match to its left is the one the search returns. |
| `Uci.MatchShow` | src/services/StockfishService.ts:81-83 | Writing a signed integer after the key, followed by anything that is not a digit, and matching there reads the same integer back. |
| `Uci.ReadShow` | src/services/StockfishService.ts:81-82 | `-?\d+` can start at a rendered integer followed by a non-digit, and reads that integer back. |
| `Uci.NoMatchInPrefix` | src/services/StockfishService.ts:81 | For a key whose first character does not recur in it, as in both score keys: if the key does not occur in a prefix but starts right after it, no match starts inside that prefix. |
| `Uci.ParseEvaluation` | src/services/StockfishService.ts:73-100 | The unit is always `cp` or `mate`. A line containing `score cp` gets the leftmost centipawn match divided by 100, or `{0, cp}` if there is no match; the mate pattern is never consulted. Any other line containing `score mate` gets the leftmost mate match with unit `mate`, or `{0, cp}` if there is none. A mate score is always an integer. A line with neither gets `{0, cp}`. |
| `Uci.ParseCentipawns` | src/services/StockfishService.ts:80-86 | A line `pre + "score cp " + n + post` parses to n/100 with unit `cp`. This holds when the key is not in `pre` and `post` does not continue the digits. |
| `Uci.ParseMate` | src/services/StockfishService.ts:87-93 | A line `pre + "score mate " + n + post` with no `score cp` anywhere parses to n, sign kept, with unit `mate`. This holds when the key does not occur in `pre` and `post` does not continue the digits. |
| `Strings.Split` | src/services/StockfishService.ts:24 | `split(' ')` returns at least one piece. No piece contains a space, and joining the pieces with single spaces gives back the line. |
| `Strings.StartsWith` | src/services/StockfishService.ts:22 | `startsWith` holds exactly when the prefix is no longer than the line and agrees with it character by character. |
| `Strings.Contains` | src/services/StockfishService.ts:33 | `includes` implies that the needle is no longer than the line. The empty needle and any prefix are always included. |
| `Strings.SplitJoin` | src/services/StockfishService.ts:24 | Splitting undoes joining for space-free pieces. |
| `Strings.ShowNat` | src/services/StockfishService.ts:58 | The numeral is a non-empty string of decimal digits. It starts with `0` only for zero, which is the one-character `0`. It has one character exactly for numbers below ten. |
| `Strings.Show` | src/services/StockfishService.ts:58 | `${n}`: non-empty, starting with `-` exactly for negative numbers. The rest is digits with no leading zero unless it is `0` itself. |
| `Strings.ReadShowNat` | src/services/StockfishService.ts:58 | Reading the rendered numeral back gives the number. |
| `Strings.DigitRun` | src/services/StockfishService.ts:81 | `\d+` takes the longest all-digit prefix. It is followed by the end of the string or by a non-digit. |
| `Strings.DigitRunOf` | src/services/StockfishService.ts:81 | The digit run of `digits + rest` is exactly `digits` when `rest` does not start with a digit. |
| `MoveDescriber.PieceName` | src/services/StockfishService.ts:111-120 | The name is non-empty exactly for the letters p, n, b, r, q and k. These map to Pawn, Knight, Bishop, Rook, Queen and King. Any other type gives the empty name. |
| `MoveDescriber.Substring` | src/services/StockfishService.ts:104-105 | `substring` clamps both ends to the length and copies the characters from the start index onward. |
| `MoveDescriber.FromSquare` | src/services/StockfishService.ts:104 | `move.substring(0, 2)` is the first two characters, or the whole move when it is shorter. |
| `MoveDescriber.ToSquare` | src/services/StockfishService.ts:105 | `move.substring(2, 4)` is characters 2-3 of a move of four or more, character 2 alone of a three-character move, and empty for a move of two or fewer. |
| `MoveDescriber.Describe` | src/services/StockfishService.ts:102-125 | An empty source square returns the move unchanged. With a piece on the source square, the text is `<Name> <from> to <to>`, where the squares are clamped substrings. A move of four or more characters gives `<chars 0-1> to <chars 2-3>`. A three-character move gives `<chars 0-1> to <char 2>`. A move of two or fewer characters gives `<move> to ` with an empty destination. Any occupied source square gives a text of at least five characters. |
| `MoveDescriber.DescriptionNamesSquares` | src/services/StockfishService.ts:121 | The squares can be read back off the end of the description. |
| `MoveDescriber.DescribeShortMove` | src/services/StockfishService.ts:104-105 | A two-character move keeps an empty destination: `Pawn e2 to `. |
| `MoveDescriber.DescribeOpeningPawnPush` | src/services/StockfishService.ts:102-121 | `e2e4` with a pawn on e2 is described as `Pawn e2 to e4`. |
| `EvaluationDisplay.EvaluationColor` | src/components/MoveEvaluation.tsx:35-51 | `bg-red-500` exactly when the unit is `mate`, whatever the value. A non-numeric value with another unit gives `bg-gray-400`. A numeric value gets the colour of its band: the number of thresholds it strictly exceeds. |
| `EvaluationDisplay.Band` | src/components/MoveEvaluation.tsx:41-47 | The band index is at most the number of thresholds. |
| `EvaluationDisplay.BandMonotone` | src/components/MoveEvaluation.tsx:41-47 | A lower score never has a higher band. |
| `EvaluationDisplay.BandOfThresholds` | src/components/MoveEvaluation.tsx:41-47 | The counted band agrees with the ordered first-match threshold chain. |
| `EvaluationDisplay.ColorMonotone` | src/components/MoveEvaluation.tsx:41-47 | For non-mate units, the colour of a lower score is never in a better band. |
| `EvaluationDisplay.ColorAtBoundaries` | src/components/MoveEvaluation.tsx:41-47 | Each boundary value falls into the lower band: 3 is green-400, 1.5 green-300, 0.5 gray-400, -0.5 orange-300, -1.5 orange-400, -3 red-400. |
| `EvaluationDisplay.EvaluationText` | src/components/MoveEvaluation.tsx:24-33 | The mate text exactly when the unit is `mate`, with a non-negative count equal to ±the value. Otherwise the value itself, with a `+` exactly when it is strictly positive. |
| `EvaluationDisplay.MateTextDropsSign` | src/components/MoveEvaluation.tsx:25-26 | A mate for either side shows the same text. |
| `EvaluationDisplay.MateLineDisplay` | src/components/MoveEvaluation.tsx:24-38 | A parsed `score mate n` line shows `Mate in abs(n)` on a red badge. |
| `EvaluationDisplay.CentipawnLineDisplay` | src/components/MoveEvaluation.tsx:28-47 | A parsed `score cp 300` line gives `Pawns(true, 3.0)`: a plus sign and the value 3. It is green-400, because exactly 3 is not above 3. |

## Left out

- Worker creation and transport (`new Worker`, `postMessage`, `typeof window`, the constructor's try/catch). The constructor's `workerCreated` flag says whether a worker exists. Posted commands are the `outbox`. Incoming lines are `Receive` calls.
- Session.StockfishService.Receive: requires a worker, since `onmessage` is only installed on one.
- `console.log` / `console.error`, and the `try`/`catch` fallbacks of `parseEvaluation` and `translateMoveToText`. The modelled string operations do not throw.
- The singleton export. The model uses ordinary instances.
- chess.js `game.get` is the `pieceAt` parameter: a square maps to a piece type letter or to `None`. An invalid square that makes it throw is covered by `None`, because both return the move.
- MoveDescriber.PieceName: does not model inherited properties of the lookup object (a type such as `toString`). chess.js only produces p, n, b, r, q and k.
- Session.StockfishService.Analyze: takes an integer depth or `None` (argument omitted). The template would render a fractional or non-finite depth as `2.5` or `NaN`, and a depth of magnitude 10^21 or more in exponent form (`1e+21`). Those depths are not modelled, and neither is an integer beyond 2^53, which a JavaScript number cannot hold exactly.
- Strings.Show: renders every integer as a plain numeral. The JavaScript rendering agrees only for integers of magnitude below 2^53.
- Uci.ParseEvaluation: reads digit runs exactly. `parseInt` loses precision on numbers beyond 2^53.
- EvaluationDisplay.EvaluationText: takes a numeric evaluation. `Number(...)` coercion of a string prop is not modelled. The result is structured (`MateIn`, `Pawns`) rather than rendered, because `toFixed(2)` and number-to-text conversion are floating-point formatting.
- Strings are sequences of Unicode characters. JavaScript's `substring`, `split` and `includes` count UTF-16 code units instead, which differs only for characters outside the Basic Multilingual Plane. Engine lines and moves are ASCII.
- The React components, the board, the camera, theming and the app configuration are not part of this model.
