/** The server's two processing handlers over the shared processing log. */
module Backend {
  import opened Types
  import opened Quality
  import opened History
  import opened Pipeline

  const VideoNote := "Video processing is mocked in this demo. In production, FFmpeg would handle video processing."

  /** The checkpoints the mocked video path sends, in the order its timers fire. */
  const VideoCheckpoints: seq<SocketEvent> :=
    [Progress(0, "Starting video processing..."), Progress(25, "Analyzing video stream..."),
     Progress(50, "Upscaling video frames..."), Progress(75, "Encoding final video..."),
     Progress(100, "Video processing complete!")]

  class Server {
    /** The module-level `processingHistory`. */
    const history: ProcessingHistory

    constructor ()
      ensures fresh(history) && history.entries == []
    {
      history := new ProcessingHistory();
    }

    /** `POST /api/process-image`: returns the calls and socket events of the
        run, in order, and the answer; records the run when it completes. */
    method ProcessImage(req: Request, lib: Library, stamps: Stamps) returns (trace: seq<Action>, response: Response)
      modifies history
      ensures trace == ImageRun(req, lib, stamps).trace
      ensures response == ImageRun(req, lib, stamps).response
      ensures ImageRun(req, lib, stamps).recorded.Some? ==>
        history.entries == Prepended(old(history.entries), ImageRun(req, lib, stamps).recorded.value)
      ensures ImageRun(req, lib, stamps).recorded.None? ==> history.entries == old(history.entries)
    {
      if !Truthy(req.filename) {
        return [], Response(400, Failed(FilenameRequired));
      }
      var filename := req.filename.value;
      var socket := req.socketId;
      var outputFilename := OutputName(stamps.millis, filename);
      var inputPath, outputPath := InputPath(filename), OutputPath(outputFilename);
      var tempPath := TempPath(outputFilename);

      trace := Say(socket, Progress(0, StartStage));
      if !req.options.Present? {
        var message := OptionsMissingMessage(req.options);
        trace := trace + Say(socket, ProcessError(message));
        return trace, Response(500, Failed(message));
      }
      var options := req.options.value;
      var nominal := NominalBox(options.quality);
      trace := trace + Say(socket, Progress(20, SharpStage));

      ghost var calls := ImageCalls(filename, options, lib, stamps.millis);
      ImageCallsLayout(filename, options, lib, stamps.millis);
      FilterPositions(calls, options);
      var threw: bool;
      trace, threw := SharpPhase(socket, calls, lib, nominal, inputPath, tempPath, trace);
      if threw {
        FailedRun(req, lib, stamps, lib.failAt.value);
        return trace, Response(500, Failed(lib.message));
      }
      trace := trace + Say(socket, Progress(60, JimpStage));
      trace, threw := JimpPhase(socket, calls, lib, options, tempPath, trace);
      if threw {
        FailedRun(req, lib, stamps, lib.failAt.value);
        return trace, Response(500, Failed(lib.message));
      }
      trace, threw := WritePhase(socket, calls, lib, outputPath, tempPath, 3 + FilterCount(options), trace);
      if threw {
        FailedRun(req, lib, stamps, lib.failAt.value);
        return trace, Response(500, Failed(lib.message));
      }
      CompletedRun(req, lib, stamps);
      trace := trace + Say(socket, Progress(100, CompleteStage));
      var entry := HistoryEntry(stamps.uuid, filename, outputFilename, stamps.isoTime, req.options, Image);
      history.RecordImage(entry);
      response := Response(200, Processed(outputFilename, DownloadUrl(outputFilename)));
    }

    /** `POST /api/process-video`, the mocked path. Without a socket id it
        neither answers nor records; with one it sends its five checkpoints,
        records the run as a video without trimming the log, and answers. */
    method ProcessVideo(req: Request, stamps: Stamps) returns (trace: seq<Action>, response: Option<Response>)
      modifies history
      ensures !Truthy(req.filename) ==>
        trace == [] && response == Some(Response(400, Failed(FilenameRequired)))
        && history.entries == old(history.entries)
      ensures Truthy(req.filename) && !Truthy(req.socketId) ==>
        trace == [] && response.None? && history.entries == old(history.entries)
      ensures Truthy(req.filename) && Truthy(req.socketId) ==>
        var output := "processed-" + req.filename.value;
        && Events(trace) == VideoCheckpoints
        && (forall a :: a in trace ==> a.Emit? && a.socket == req.socketId.value)
        && history.entries == [HistoryEntry(stamps.uuid, req.filename.value, output, stamps.isoTime, req.options, Video)]
                              + old(history.entries)
        && response == Some(Response(200, ProcessedWithNote(output, DownloadUrl(output), VideoNote)))
    {
      trace := [];
      if !Truthy(req.filename) {
        return [], Some(Response(400, Failed(FilenameRequired)));
      }
      var filename := req.filename.value;
      response := None;
      if Truthy(req.socketId) {
        var socket := req.socketId.value;
        trace := [Emit(socket, VideoCheckpoints[0]), Emit(socket, VideoCheckpoints[1]),
                  Emit(socket, VideoCheckpoints[2]), Emit(socket, VideoCheckpoints[3]),
                  Emit(socket, VideoCheckpoints[4])];
        EventsOfEmits(trace, socket, VideoCheckpoints);
        var output := "processed-" + filename;
        history.RecordVideo(HistoryEntry(stamps.uuid, filename, output, stamps.isoTime, req.options, Video));
        response := Some(Response(200, ProcessedWithNote(output, DownloadUrl(output), VideoNote)));
      }
    }
  }

  /** Lines 170-193 of the handler: read the metadata, fit the nominal box
      to the source, resize into the temporary file. */
  method SharpPhase(socket: Option<string>, ghost calls: seq<Op>, lib: Library, nominal: Box,
                    inputPath: string, tempPath: string, trace: seq<Action>)
    returns (after: seq<Action>, threw: bool)
    requires nominal.width > 0 && nominal.height > 0
    requires |calls| >= 2 && calls[0] == ReadMetadata(inputPath)
    requires calls[1] == SharpResize(FitToSource(nominal, lib.sourceWidth, lib.sourceHeight), tempPath)
    requires trace == Pre(socket, 0)
    ensures Reaches(socket, calls, lib, 2, after, threw)
  {
    after, threw := TryCall(socket, calls, lib, 0, ReadMetadata(inputPath), trace);
    if threw {
      return;
    }
    var target := FitToSource(nominal, lib.sourceWidth, lib.sourceHeight);
    after, threw := TryCall(socket, calls, lib, 1, SharpResize(target, tempPath), after);
  }

  /** Lines 200-216 of the handler: read the temporary file and apply the
      requested filters. */
  method JimpPhase(socket: Option<string>, ghost calls: seq<Op>, lib: Library, options: ProcessingOptions,
                   tempPath: string, trace: seq<Action>)
    returns (after: seq<Action>, threw: bool)
    requires 3 + FilterCount(options) <= |calls| && calls[2] == JimpRead(tempPath)
    requires options.brightness != 0 ==> calls[3] == Brightness(Percent(options.brightness))
    requires options.contrast != 0 ==> calls[3 + Flag(options.brightness != 0)] == Contrast(Percent(options.contrast))
    requires options.sharpen ==> calls[3 + Flag(options.brightness != 0) + Flag(options.contrast != 0)] == Sharpen
    requires Survives(lib, 2) && trace == Progressed(socket, calls, 2) + Pre(socket, 2)
    ensures Reaches(socket, calls, lib, 3 + FilterCount(options), after, threw)
  {
    after, threw := TryCall(socket, calls, lib, 2, JimpRead(tempPath), trace);
    if threw {
      return;
    }
    assert Survives(lib, 3) && after == Progressed(socket, calls, 3);
    after, threw := FilterPhase(socket, calls, lib, options, after);
  }

  /** Lines 218-221 of the handler: write the output, then delete the
      temporary file. */
  method WritePhase(socket: Option<string>, ghost calls: seq<Op>, lib: Library, outputPath: string, tempPath: string,
                    n: nat, trace: seq<Action>)
    returns (after: seq<Action>, threw: bool)
    requires 3 <= n && n + 2 == |calls| && calls[n] == JimpWrite(outputPath) && calls[n + 1] == Unlink(tempPath)
    requires Survives(lib, n) && trace == Progressed(socket, calls, n)
    ensures Reaches(socket, calls, lib, |calls|, after, threw)
  {
    assert Pre(socket, n) == [] && Pre(socket, n + 1) == [];
    after, threw := TryCall(socket, calls, lib, n, JimpWrite(outputPath), trace + Pre(socket, n));
    if threw {
      return;
    }
    after, threw := TryCall(socket, calls, lib, n + 1, Unlink(tempPath), after + Pre(socket, n + 1));
  }

  /** Lines 202-216 of the handler: brightness, then contrast, then the
      sharpening convolution, each only when requested. */
  method FilterPhase(socket: Option<string>, ghost calls: seq<Op>, lib: Library, options: ProcessingOptions,
                     trace: seq<Action>)
    returns (after: seq<Action>, threw: bool)
    requires 3 + FilterCount(options) <= |calls|
    requires options.brightness != 0 ==> calls[3] == Brightness(Percent(options.brightness))
    requires options.contrast != 0 ==> calls[3 + Flag(options.brightness != 0)] == Contrast(Percent(options.contrast))
    requires options.sharpen ==>
      calls[3 + Flag(options.brightness != 0) + Flag(options.contrast != 0)] == Sharpen
    requires Survives(lib, 3) && trace == Progressed(socket, calls, 3)
    ensures Reaches(socket, calls, lib, 3 + FilterCount(options), after, threw)
  {
    var n: nat;
    after, threw, n := OptionalCall(socket, calls, lib, 3, options.brightness != 0,
                                    Brightness(Percent(options.brightness)), trace);
    if threw {
      return;
    }
    after, threw := LaterFilters(socket, calls, lib, options, n, after);
  }

  /** Lines 207-216 of the handler: contrast, then the sharpening
      convolution, from position `n` of the plan on. */
  method LaterFilters(socket: Option<string>, ghost calls: seq<Op>, lib: Library, options: ProcessingOptions,
                      n: nat, trace: seq<Action>)
    returns (after: seq<Action>, threw: bool)
    requires 3 <= n && n + Flag(options.contrast != 0) + Flag(options.sharpen) <= |calls|
    requires options.contrast != 0 ==> calls[n] == Contrast(Percent(options.contrast))
    requires options.sharpen ==> calls[n + Flag(options.contrast != 0)] == Sharpen
    requires Survives(lib, n) && trace == Progressed(socket, calls, n)
    ensures Reaches(socket, calls, lib, n + Flag(options.contrast != 0) + Flag(options.sharpen), after, threw)
  {
    var m: nat;
    after, threw, m := OptionalCall(socket, calls, lib, n, options.contrast != 0,
                                    Contrast(Percent(options.contrast)), trace);
    if threw {
      return;
    }
    after, threw, m := OptionalCall(socket, calls, lib, m, options.sharpen, Sharpen, after);
  }

  /** One of the handler's `if (options.…)` filter blocks: the call is made
      only when `wanted`, and then it returns or throws like any other. */
  method OptionalCall(socket: Option<string>, ghost calls: seq<Op>, lib: Library, n: nat, wanted: bool, op: Op,
                      trace: seq<Action>)
    returns (after: seq<Action>, threw: bool, next: nat)
    requires 3 <= n <= |calls| && Survives(lib, n) && trace == Progressed(socket, calls, n)
    requires wanted ==> n < |calls| && calls[n] == op
    ensures next == if wanted then n + 1 else n
    ensures threw <==> wanted && Throws(lib, n)
    ensures threw ==> after == Progressed(socket, calls, n) + Pre(socket, n) + Say(socket, ProcessError(lib.message))
    ensures !threw ==> next <= |calls| && Survives(lib, next) && after == Progressed(socket, calls, next)
  {
    if !wanted {
      return trace, false, n;
    }
    assert Pre(socket, n) == [];
    after, threw := TryCall(socket, calls, lib, n, op, trace + Pre(socket, n));
    next := n + 1;
  }

  /** One awaited call inside the image handler's `try`: it either returns
      and the run goes on, or throws into the `catch`, which sends the error
      event. */
  method TryCall(socket: Option<string>, ghost calls: seq<Op>, lib: Library, n: nat, op: Op, trace: seq<Action>)
    returns (after: seq<Action>, threw: bool)
    requires n < |calls| && calls[n] == op
    requires trace == Progressed(socket, calls, n) + Pre(socket, n)
    ensures threw == Throws(lib, n)
    ensures threw ==> after == trace + Say(socket, ProcessError(lib.message))
    ensures !threw ==> after == Progressed(socket, calls, n + 1)
  {
    if Throws(lib, n) {
      return trace + Say(socket, ProcessError(lib.message)), true;
    }
    ProgressedStep(socket, calls, n);
    return trace + [Call(op)], false;
  }

  /** A trace made only of events sent to one socket carries exactly those events. */
  lemma {:induction false} EventsOfEmits(t: seq<Action>, socket: string, es: seq<SocketEvent>)
    requires |t| == |es|
    requires forall j :: 0 <= j < |t| ==> t[j] == Emit(socket, es[j])
    ensures Events(t) == es
    decreases |t|
  {
    if t != [] {
      EventsOfEmits(t[1..], socket, es[1..]);
    }
  }
}
