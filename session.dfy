/**
 * The engine service object: it owns the engine worker, remembers whether
 * the handshake was answered, holds the current analysis callback, and
 * turns `analyze` / `stop` calls and incoming engine lines into commands
 * and callback events.
 *
 * The worker is modelled by the commands posted to it (`outbox`, append
 * only) and the lines it sends back (`Receive`). The callback is a `Sink`
 * object that records what it is given.
 */
module Session {
  import opened Wrappers
  import opened Strings
  import opened Uci

  /** An analysis callback: it keeps every event handed to it, in order. */
  class Sink {
    var received: seq<EngineEvent>

    constructor ()
      ensures received == []
    {
      received := [];
    }
  }

  /** The events one engine line hands to the callback, if one is set. */
  function Delivered(m: Message): seq<EngineEvent> {
    if m.Deliver? then [m.event] else []
  }

  class StockfishService {
    /** Whether the engine worker was created; only the constructor sets it. */
    const hasWorker: bool
    var isReady: bool
    var callback: Sink?
    /** Every command posted to the worker, oldest first. */
    var outbox: seq<string>

    /** Without a worker nothing is ever sent, set or installed; with one,
        the handshake is the first command; readiness is only claimed
        after `isready` has been sent. */
    ghost predicate Valid()
      reads this
    {
      && (!hasWorker ==> outbox == [] && !isReady && callback == null)
      && (hasWorker ==> |outbox| >= 1 && outbox[0] == Handshake)
      && (isReady ==> ReadyCheck in outbox)
    }

    /** `workerCreated` says whether a window exists and the worker could
        be started; only then is the handshake `uci` posted. */
    constructor (workerCreated: bool)
      ensures Valid()
      ensures hasWorker == workerCreated && !isReady && callback == null
      ensures outbox == if workerCreated then [Handshake] else []
    {
      hasWorker := workerCreated;
      isReady := false;
      callback := null;
      outbox := [];
      new;
      if workerCreated {
        SendCommand(Handshake);
      }
    }

    /** `sendCommand`: posts the command only when there is a worker. */
    method SendCommand(cmd: string)
      modifies this`outbox
      ensures outbox == old(outbox) + (if hasWorker then [cmd] else [])
    {
      if hasWorker {
        outbox := outbox + [cmd];
      }
    }

    /** The worker's `onmessage` handler for one engine line. */
    method Receive(line: string)
      requires Valid() && hasWorker
      modifies this, callback
      ensures Valid()
      ensures isReady == (old(isReady) || line == "uciok")
      ensures outbox == old(outbox) + (if line == "uciok" then [ReadyCheck] else [])
      ensures callback == old(callback)
      ensures callback != null ==> callback.received == old(callback.received) + Delivered(Decode(line))
    {
      match Decode(line)
      case UciOk =>
        isReady := true;
        SendCommand(ReadyCheck);
      case ReadyOk =>
      case Deliver(event) =>
        if callback != null {
          callback.received := callback.received + [event];
        }
      case Ignored =>
    }

    /** `analyze(fen, depth, callback)`: with a worker, installs the
        callback and starts a search, ready or not and whatever the depth;
        `depth` is `None` when the caller leaves it out. */
    method Analyze(fen: string, depth: Option<int>, sink: Sink)
      requires Valid()
      modifies this
      ensures Valid()
      ensures isReady == old(isReady)
      ensures callback == (if hasWorker then sink else old(callback))
      ensures outbox == old(outbox) +
        (if hasWorker then [NewGame, PositionCommand(fen), GoCommand(depth.GetOr(DefaultDepth))] else [])
    {
      if !hasWorker {
        return;
      }
      callback := sink;
      SendCommand(NewGame);
      SendCommand(PositionCommand(fen));
      SendCommand(GoCommand(depth.GetOr(DefaultDepth)));
    }

    /** `stop()`: posts `stop` whenever there is a worker, search or no search. */
    method Stop()
      requires Valid()
      modifies this`outbox
      ensures Valid()
      ensures outbox == old(outbox) + (if hasWorker then [StopSearch] else [])
    {
      if hasWorker {
        SendCommand(StopSearch);
      }
    }
  }

  /** An engine line `pre + "score cp " + n` whose prefix starts with `i` and
      has no `s` is an evaluation event worth `n / 100` pawns. */
  lemma CentipawnLine(line: string, pre: string, n: int)
    requires line == pre + CpKey + Show(n)
    requires pre != [] && pre[0] == 'i' && 's' !in pre
    ensures Decode(line) == Deliver(Evaluation(line))
    ensures ParseEvaluation(line) == Eval(n as real / 100.0, "cp")
  {
    assert line[|pre|..|pre| + 5] == "score";
    InfoScoreLine(line, |pre|);
    assert !Contains(pre, CpKey) by {
      forall k | 0 <= k <= |pre| - |CpKey| ensures !OccursAt(pre, CpKey, k) {
        assert pre[k..k + |CpKey|][0] == pre[k] != 's' == CpKey[0];
      }
    }
    ParseCentipawns(pre, n, []);
    assert pre + CpKey + Show(n) + [] == line;
  }

  /** An `info` line with `score` in it is forwarded as an evaluation. */
  lemma InfoScoreLine(line: string, k: int)
    requires line != [] && line[0] == 'i' && OccursAt(line, "score", k)
    ensures Decode(line) == Deliver(Evaluation(line))
  {
    assert line != "uciok" && line != "readyok";
    assert |line| >= 8 ==> line[..8][0] == 'i';
  }

  /** The engine's progress line `info depth <depth> score cp <centipawns>`. */
  function InfoLine(depth: nat, centipawns: int): string {
    "info depth " + Show(depth) + " " + CpKey + Show(centipawns)
  }

  /** Every such line is an evaluation event worth `centipawns / 100` pawns. */
  lemma InfoLineDecodes(depth: nat, centipawns: int)
    ensures Decode(InfoLine(depth, centipawns)) == Deliver(Evaluation(InfoLine(depth, centipawns)))
    ensures ParseEvaluation(InfoLine(depth, centipawns)) == Eval(centipawns as real / 100.0, "cp")
  {
    var pre := "info depth " + Show(depth) + " ";
    assert 's' !in pre by {
      assert forall i :: 0 <= i < |Show(depth)| ==> pre[11 + i] == Show(depth)[i];
    }
    CentipawnLine(InfoLine(depth, centipawns), pre, centipawns);
  }

  /** `bestmove <move>` with no ponder part. */
  lemma BestMoveLine(move: string)
    requires ' ' !in move
    ensures Decode("bestmove " + move) == Deliver(BestMove(Some(move), None))
  {
    var tokens := ["bestmove", move];
    assert Join(tokens[1..]) == move;
    assert Join(tokens) == "bestmove " + move;
    DecodeBestMove(tokens);
  }

  /** The commands `analyze` posts at depths 10 and 15. */
  lemma DepthCommands()
    ensures GoCommand(10) == "go depth 10" && GoCommand(15) == "go depth 15"
  {
    assert ShowNat(1) == "1";
  }

  /** A new service after the engine answered `uciok` and then `readyok`. */
  method HandshakeDone() returns (service: StockfishService)
    ensures fresh(service)
    ensures service.Valid() && service.hasWorker && service.isReady && service.callback == null
    ensures service.outbox == [Handshake, ReadyCheck]
  {
    service := new StockfishService(true);
    service.Receive("uciok");
    service.Receive("readyok");
  }

  /** A service whose handshake was answered, analysing `fen` at depth
      `depth` with a fresh, empty callback. */
  method StartAnalysis(fen: string, depth: nat) returns (service: StockfishService, sink: Sink)
    ensures fresh(service) && fresh(sink)
    ensures service.Valid() && service.hasWorker && service.isReady
    ensures service.callback == sink && sink.received == []
    ensures service.outbox == [Handshake, ReadyCheck, NewGame, PositionCommand(fen), GoCommand(depth)]
  {
    service := HandshakeDone();
    sink := new Sink();
    service.Analyze(fen, Some(depth), sink);
  }

  /** Handshake, an analysis of `fen` at depth 10, two evaluation lines and
      the best move: the commands sent and the events the callback sees. */
  method AnalysisRun(fen: string, cp1: int, cp2: int, move: string) returns (commands: seq<string>, events: seq<EngineEvent>)
    requires ' ' !in move
    ensures commands == ["uci", "isready", "ucinewgame", "position fen " + fen, "go depth 10"]
    ensures events == [Evaluation(InfoLine(10, cp1)), Evaluation(InfoLine(12, cp2)), BestMove(Some(move), None)]
  {
    var service, sink := StartAnalysis(fen, 10);
    DepthCommands();
    ghost var sent := service.outbox;
    var info1, info2, best := InfoLine(10, cp1), InfoLine(12, cp2), "bestmove " + move;
    assert Decode(info1) == Deliver(Evaluation(info1)) by { InfoLineDecodes(10, cp1); }
    service.Receive(info1);
    assert Decode(info2) == Deliver(Evaluation(info2)) by { InfoLineDecodes(12, cp2); }
    service.Receive(info2);
    assert Decode(best) == Deliver(BestMove(Some(move), None)) by { BestMoveLine(move); }
    service.Receive(best);
    commands, events := service.outbox, sink.received;
  }

  /** The scores of the two evaluation lines above, for 25 and 40 centipawns. */
  lemma AnalysisRunScores()
    ensures ParseEvaluation(InfoLine(10, 25)) == Eval(0.25, "cp")
    ensures ParseEvaluation(InfoLine(12, 40)) == Eval(0.4, "cp")
  {
    InfoLineDecodes(10, 25);
    InfoLineDecodes(12, 40);
  }

  /** A second `analyze` before the first search ends: the first search's
      late best move goes to the second callback. */
  method SupersededAnalysis(fen: string, move: string) returns (first: seq<EngineEvent>, second: seq<EngineEvent>)
    requires ' ' !in move
    ensures first == []
    ensures second == [BestMove(Some(move), None)]
  {
    BestMoveLine(move);
    var service := new StockfishService(true);
    service.Receive("uciok");
    var sink1 := new Sink();
    var sink2 := new Sink();
    service.Analyze(fen, Some(20), sink1);
    service.Analyze(fen, Some(5), sink2);
    assert service.callback == sink2 && sink1.received == [] && sink2.received == [];
    service.Receive("bestmove " + move);
    first, second := sink1.received, sink2.received;
  }

  /** No readiness gating, the default depth, and `stop` with no search running. */
  method AnalyzeBeforeHandshake(fen: string) returns (commands: seq<string>)
    ensures commands == ["uci", "ucinewgame", "position fen " + fen, "go depth 15", "stop", "stop"]
  {
    DepthCommands();
    var service := new StockfishService(true);
    var sink := new Sink();
    service.Analyze(fen, None, sink);
    assert service.outbox == [Handshake, NewGame, PositionCommand(fen), GoCommand(15)];
    service.Stop();
    service.Stop();
    commands := service.outbox;
  }

  /** Without a worker, `analyze` and `stop` send nothing and install no callback. */
  method AnalyzeWithoutWorker(fen: string, depth: Option<int>) returns (commands: seq<string>, callbackSet: bool)
    ensures commands == [] && !callbackSet
  {
    var service := new StockfishService(false);
    var sink := new Sink();
    service.Analyze(fen, depth, sink);
    service.Stop();
    commands, callbackSet := service.outbox, service.callback != null;
  }
}
