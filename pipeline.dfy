/** The image-processing handler as an abstract trace. Calls into the image
    libraries and the file system are opaque steps; what the model fixes is
    which steps run, in what order, which socket events are sent around them,
    what the handler answers and what it records. */
module Pipeline {
  import opened Types
  import opened Quality

  datatype SocketEvent =
    | Progress(percent: int, stage: string)
    | ProcessError(message: string)

  const StartStage := "Starting image processing..."
  const SharpStage := "Processing with Sharp..."
  const JimpStage := "Applying filters with Jimp..."
  const CompleteStage := "Processing complete!"

  /** The checkpoints of a successful image run, in order. */
  const Checkpoints: seq<SocketEvent> :=
    [Progress(0, StartStage), Progress(20, SharpStage), Progress(60, JimpStage), Progress(100, CompleteStage)]

  const FilenameRequired := "Filename is required"

  /** What reading `options.quality` throws when `options` is left out of
      the body or sent as `null`. */
  function OptionsMissingMessage(options: Field<ProcessingOptions>): string {
    "Cannot read properties of " + (if options.Null? then "null" else "undefined") + " (reading 'quality')"
  }

  /** The opaque library and file-system calls of an image run. */
  datatype Op =
    | ReadMetadata(input: string)               // sharp(input).metadata()
    | SharpResize(target: Box, temp: string)    // lanczos3 "fill" resize, sharpen, JPEG 95, toFile(temp)
    | JimpRead(temp: string)
    | Brightness(amount: real)
    | Contrast(amount: real)
    | Sharpen                                   // convolute with [[0,-1,0],[-1,5,-1],[0,-1,0]]
    | JimpWrite(output: string)
    | Unlink(temp: string)

  /** A call that returned normally, or an event sent to a socket. */
  datatype Action = Call(op: Op) | Emit(socket: string, event: SocketEvent)

  type Pos = x: int | x > 0 witness 1

  /** The fields the handlers read: `filename` and `options` from the body,
      and the `x-socket-id` header. */
  datatype Request = Request(filename: Option<string>, options: Field<ProcessingOptions>, socketId: Option<string>)

  /** What the libraries do on one run and the model does not compute: the
      source dimensions the metadata call reports and, if one throws, the
      index (from 0) of the first call that throws and its message. */
  datatype Library = Library(sourceWidth: Pos, sourceHeight: Pos, failAt: Option<nat>, message: string)

  /** The fresh values of one run: a uuid, `Date.now()` and an ISO timestamp. */
  datatype Stamps = Stamps(uuid: string, millis: string, isoTime: string)

  datatype Body =
    | Processed(processedFile: string, downloadUrl: string)
    | ProcessedWithNote(processedFile: string, downloadUrl: string, note: string)
    | Failed(error: string)

  datatype Response = Response(status: int, body: Body)

  /** Everything an image run does: its trace, its answer, and the entry it
      adds to the history, if any. */
  datatype Run = Run(trace: seq<Action>, response: Response, recorded: Option<HistoryEntry>)

  function OutputName(millis: string, filename: string): string { "processed-" + millis + "-" + filename }
  function InputPath(filename: string): string { "uploads/" + filename }
  function OutputPath(output: string): string { "processed/" + output }
  function TempPath(output: string): string { "processed/temp-" + output }
  function DownloadUrl(output: string): string { "/api/download/" + output }

  /** Position of a filter in the filter stage's fixed order. */
  function FilterRank(op: Op): int {
    match op
    case Brightness(_) => 0
    case Contrast(_) => 1
    case Sharpen => 2
    case _ => 3
  }

  /** The amount a filter receives for a percentage option: `value / 100`. */
  function Percent(v: int): real {
    v as real / 100.0
  }

  /** The filter steps of the Jimp stage, one per requested filter. */
  function FilterSteps(o: ProcessingOptions): seq<Op> {
    (if o.brightness != 0 then [Brightness(Percent(o.brightness))] else [])
    + (if o.contrast != 0 then [Contrast(Percent(o.contrast))] else [])
    + (if o.sharpen then [Sharpen] else [])
  }

  /** The filter steps are exactly the requested ones: brightness by b/100
      when b is non-zero, contrast by c/100 when c is non-zero, the sharpening
      convolution when `sharpen` is set; and they come in that order. */
  lemma FilterStepsMeaning(o: ProcessingOptions)
    ensures forall op :: op in FilterSteps(o) <==>
      || (o.brightness != 0 && op == Brightness(Percent(o.brightness)))
      || (o.contrast != 0 && op == Contrast(Percent(o.contrast)))
      || (o.sharpen && op == Sharpen)
    ensures forall i, j :: 0 <= i < j < |FilterSteps(o)| ==> FilterRank(FilterSteps(o)[i]) < FilterRank(FilterSteps(o)[j])
  {
  }

  function Flag(b: bool): nat {
    if b then 1 else 0
  }

  /** How many filters the options request. */
  function FilterCount(o: ProcessingOptions): nat {
    Flag(o.brightness != 0) + Flag(o.contrast != 0) + Flag(o.sharpen)
  }

  /** Where each requested filter sits in a plan whose filters start at
      position 3. */
  lemma FilterPositions(calls: seq<Op>, o: ProcessingOptions)
    requires 3 + |FilterSteps(o)| <= |calls| && calls[3..3 + |FilterSteps(o)|] == FilterSteps(o)
    ensures |FilterSteps(o)| == FilterCount(o)
    ensures o.brightness != 0 ==> calls[3] == Brightness(Percent(o.brightness))
    ensures o.contrast != 0 ==> calls[3 + Flag(o.brightness != 0)] == Contrast(Percent(o.contrast))
    ensures o.sharpen ==> calls[3 + Flag(o.brightness != 0) + Flag(o.contrast != 0)] == Sharpen
  {
    var f := FilterSteps(o);
    var nb, nc := Flag(o.brightness != 0), Flag(o.contrast != 0);
    assert o.brightness != 0 ==> calls[3] == f[0];
    assert o.contrast != 0 ==> calls[3 + nb] == f[nb];
    assert o.sharpen ==> calls[3 + nb + nc] == f[nb + nc];
  }

  /** Every library and file-system call of a complete image run, in order. */
  function ImageCalls(filename: string, o: ProcessingOptions, lib: Library, millis: string): (calls: seq<Op>)
    ensures |calls| == 5 + |FilterSteps(o)|
  {
    var output := OutputName(millis, filename);
    [ReadMetadata(InputPath(filename)),
     SharpResize(Resolve(o.quality, lib.sourceWidth, lib.sourceHeight), TempPath(output)),
     JimpRead(TempPath(output))]
    + FilterSteps(o)
    + [JimpWrite(OutputPath(output)), Unlink(TempPath(output))]
  }

  /** `io.to(socketId).emit(...)`, guarded by the socket id being truthy. */
  function Say(socket: Option<string>, e: SocketEvent): seq<Action> {
    if Truthy(socket) then [Emit(socket.value, e)] else []
  }

  /** The events sent just before call `i` is made: progress 0 and 20 before
      the metadata call, progress 60 once the resized image is on disk, before
      the filter stage reads it. */
  function Pre(socket: Option<string>, i: nat): seq<Action> {
    if i == 0 then Say(socket, Progress(0, StartStage)) + Say(socket, Progress(20, SharpStage))
    else if i == 2 then Say(socket, Progress(60, JimpStage))
    else []
  }

  /** The actions recording calls that returned, in order. */
  function Calls(ops: seq<Op>): seq<Action>
    decreases |ops|
  {
    if ops == [] then [] else Calls(ops[..|ops| - 1]) + [Call(ops[|ops| - 1])]
  }

  /** The trace of an image run (with options) once its first `k` calls have
      returned: progress 0 and 20, the metadata and resize calls, progress 60,
      then the Jimp calls. */
  function Progressed(socket: Option<string>, calls: seq<Op>, k: nat): seq<Action>
    requires k <= |calls|
  {
    if k == 0 then []
    else if k <= 2 then Pre(socket, 0) + Calls(calls[..k])
    else Pre(socket, 0) + Calls(calls[..2]) + Pre(socket, 2) + Calls(calls[2..k])
  }

  /** Each call that returns extends the trace by the events sent just before
      it and by the call itself. */
  lemma ProgressedStep(socket: Option<string>, calls: seq<Op>, k: nat)
    requires k < |calls|
    ensures Progressed(socket, calls, k + 1) == Progressed(socket, calls, k) + Pre(socket, k) + [Call(calls[k])]
  {
    if k == 0 {
      FirstStep(socket, calls);
    } else if k == 1 {
      SecondStep(socket, calls);
    } else if k == 2 {
      ReadStep(socket, calls);
    } else {
      LateStep(socket, calls, k);
    }
  }

  /** The metadata call. */
  lemma FirstStep(socket: Option<string>, calls: seq<Op>)
    requires 1 <= |calls|
    ensures Progressed(socket, calls, 1) == Progressed(socket, calls, 0) + Pre(socket, 0) + [Call(calls[0])]
  {
    CallsOne(calls[..1]);
  }

  /** The resize call. */
  lemma SecondStep(socket: Option<string>, calls: seq<Op>)
    requires 2 <= |calls|
    ensures Progressed(socket, calls, 2) == Progressed(socket, calls, 1) + Pre(socket, 1) + [Call(calls[1])]
  {
    CallsOne(calls[..1]);
    CallsTwo(calls[..2]);
    assert [Call(calls[0])] + [Call(calls[1])] == [Call(calls[0]), Call(calls[1])];
    AppendAssoc(Pre(socket, 0), [Call(calls[0])], [Call(calls[1])]);
  }

  lemma CallsOne(ops: seq<Op>)
    requires |ops| == 1
    ensures Calls(ops) == [Call(ops[0])]
  {
    assert ops[..0] == [];
  }

  lemma CallsTwo(ops: seq<Op>)
    requires |ops| == 2
    ensures Calls(ops) == [Call(ops[0]), Call(ops[1])]
  {
    CallsOne(ops[..1]);
    assert ops[..1][0] == ops[0];
  }

  /** The read of the resized image, just after progress 60. */
  lemma ReadStep(socket: Option<string>, calls: seq<Op>)
    requires 3 <= |calls|
    ensures Progressed(socket, calls, 3) == Progressed(socket, calls, 2) + Pre(socket, 2) + [Call(calls[2])]
  {
    CallsSnoc(calls, 2, 2);
    assert calls[2..2] == [];
  }

  /** The filter, write and unlink calls. */
  lemma LateStep(socket: Option<string>, calls: seq<Op>, k: nat)
    requires 3 <= k < |calls|
    ensures Progressed(socket, calls, k + 1) == Progressed(socket, calls, k) + Pre(socket, k) + [Call(calls[k])]
  {
    var done := Pre(socket, 0) + Calls(calls[..2]) + Pre(socket, 2);
    CallsSnoc(calls, 2, k);
    assert Progressed(socket, calls, k + 1) == done + Calls(calls[2..k + 1]);
    assert Progressed(socket, calls, k) + Pre(socket, k) == done + Calls(calls[2..k]);
    AppendAssoc(done, Calls(calls[2..k]), [Call(calls[k])]);
  }

  /** Extending a stretch of the plan by one call extends its actions by that call. */
  lemma CallsSnoc(ops: seq<Op>, i: nat, k: nat)
    requires i <= k < |ops|
    ensures Calls(ops[i..k + 1]) == Calls(ops[i..k]) + [Call(ops[k])]
  {
    var s := ops[i..k + 1];
    assert s[..|s| - 1] == ops[i..k] && s[|s| - 1] == ops[k];
  }


  predicate Throws(lib: Library, n: nat) {
    lib.failAt == Some(n)
  }

  /** No call among the first `n` throws. */
  predicate Survives(lib: Library, n: nat) {
    lib.failAt.None? || lib.failAt.value >= n
  }

  /** How a stretch of the run that started with no call thrown ends once
      calls up to `to` have been attempted: either one of them threw and the
      error event follows the events sent before it, or all returned. */
  ghost predicate Reaches(socket: Option<string>, calls: seq<Op>, lib: Library, to: nat, after: seq<Action>, threw: bool)
    requires to <= |calls|
  {
    && (threw <==> lib.failAt.Some? && lib.failAt.value < to)
    && (threw ==>
          after == Progressed(socket, calls, lib.failAt.value) + Pre(socket, lib.failAt.value)
                   + Say(socket, ProcessError(lib.message)))
    && (!threw ==> after == Progressed(socket, calls, to))
  }

  /** The image handler, from its request to everything it does. */
  function ImageRun(req: Request, lib: Library, stamps: Stamps): Run {
    if !Truthy(req.filename) then
      Run([], Response(400, Failed(FilenameRequired)), None)
    else if !req.options.Present? then
      var message := OptionsMissingMessage(req.options);
      Run(Say(req.socketId, Progress(0, StartStage)) + Say(req.socketId, ProcessError(message)),
          Response(500, Failed(message)), None)
    else
      var filename := req.filename.value;
      var output := OutputName(stamps.millis, filename);
      var calls := ImageCalls(filename, req.options.value, lib, stamps.millis);
      if Survives(lib, |calls|) then
        Run(Progressed(req.socketId, calls, |calls|) + Say(req.socketId, Progress(100, CompleteStage)),
            Response(200, Processed(output, DownloadUrl(output))),
            Some(HistoryEntry(stamps.uuid, filename, output, stamps.isoTime, req.options, Image)))
      else
        var k := lib.failAt.value;
        Run(Progressed(req.socketId, calls, k) + Pre(req.socketId, k) + Say(req.socketId, ProcessError(lib.message)),
            Response(500, Failed(lib.message)), None)
  }

  /** Where each call sits in the plan of a complete run. */
  lemma ImageCallsLayout(filename: string, o: ProcessingOptions, lib: Library, millis: string)
    ensures var calls := ImageCalls(filename, o, lib, millis);
      var output := OutputName(millis, filename);
      var filters := FilterSteps(o);
      && calls[0] == ReadMetadata(InputPath(filename))
      && calls[1] == SharpResize(Resolve(o.quality, lib.sourceWidth, lib.sourceHeight), TempPath(output))
      && calls[2] == JimpRead(TempPath(output))
      && calls[3..3 + |filters|] == filters
      && calls[3 + |filters|] == JimpWrite(OutputPath(output))
      && calls[4 + |filters|] == Unlink(TempPath(output))
  {
  }

  /** A run with options whose `k`-th call throws. */
  lemma FailedRun(req: Request, lib: Library, stamps: Stamps, k: nat)
    requires Truthy(req.filename) && req.options.Present? && Throws(lib, k)
    requires k < |ImageCalls(req.filename.value, req.options.value, lib, stamps.millis)|
    ensures var calls := ImageCalls(req.filename.value, req.options.value, lib, stamps.millis);
      ImageRun(req, lib, stamps)
        == Run(Progressed(req.socketId, calls, k) + Pre(req.socketId, k) + Say(req.socketId, ProcessError(lib.message)),
               Response(500, Failed(lib.message)), None)
  {
  }

  /** A run with options none of whose calls throws. */
  lemma CompletedRun(req: Request, lib: Library, stamps: Stamps)
    requires Truthy(req.filename) && req.options.Present?
    requires Survives(lib, |ImageCalls(req.filename.value, req.options.value, lib, stamps.millis)|)
    ensures var calls := ImageCalls(req.filename.value, req.options.value, lib, stamps.millis);
      var output := OutputName(stamps.millis, req.filename.value);
      ImageRun(req, lib, stamps)
        == Run(Progressed(req.socketId, calls, |calls|) + Say(req.socketId, Progress(100, CompleteStage)),
               Response(200, Processed(output, DownloadUrl(output))),
               Some(HistoryEntry(stamps.uuid, req.filename.value, output, stamps.isoTime, req.options, Image)))
  {
  }

  /** The socket events of a trace, in order. */
  function Events(t: seq<Action>): seq<SocketEvent>
    decreases |t|
  {
    if t == [] then [] else EventOf(t[0]) + Events(t[1..])
  }

  function EventOf(a: Action): seq<SocketEvent> {
    if a.Emit? then [a.event] else []
  }

  lemma {:induction false} EventsAppend(a: seq<Action>, b: seq<Action>)
    ensures Events(a + b) == Events(a) + Events(b)
    decreases |a|
  {
    if a == [] {
      assert a + b == b;
    } else {
      var x, rest := a[0], a[1..];
      assert a == [x] + rest;
      assert a + b == [x] + (rest + b);
      EventsCons(x, rest);
      EventsCons(x, rest + b);
      EventsAppend(rest, b);
    }
  }

  lemma EventsCons(x: Action, t: seq<Action>)
    ensures Events([x] + t) == EventOf(x) + Events(t)
  {
    assert ([x] + t)[0] == x && ([x] + t)[1..] == t;
  }

  lemma EventsOfSay(socket: Option<string>, e: SocketEvent)
    ensures Events(Say(socket, e)) == if Truthy(socket) then [e] else []
  {
    if Truthy(socket) {
      assert Say(socket, e)[1..] == [];
    }
  }

  lemma EventsOfCall(op: Op)
    ensures Events([Call(op)]) == []
  {
    assert [Call(op)][1..] == [];
  }

  /** How many checkpoints have been sent before call `i` is made. */
  function Reached(i: nat): nat {
    if i == 0 then 0 else if i <= 2 then 2 else 3
  }

  lemma EventsOfPre(socket: Option<string>, i: nat)
    requires Truthy(socket)
    ensures Events(Pre(socket, i)) == Checkpoints[Reached(i)..Reached(i + 1)]
  {
    EventsOfSay(socket, Progress(0, StartStage));
    EventsOfSay(socket, Progress(20, SharpStage));
    EventsOfSay(socket, Progress(60, JimpStage));
    if i == 0 {
      EventsAppend(Say(socket, Progress(0, StartStage)), Say(socket, Progress(20, SharpStage)));
    }
  }

  lemma {:induction false} EventsOfCalls(ops: seq<Op>)
    ensures Events(Calls(ops)) == []
    decreases |ops|
  {
    if ops != [] {
      var init, last := ops[..|ops| - 1], ops[|ops| - 1];
      EventsOfCalls(init);
      EventsAppend(Calls(init), [Call(last)]);
      EventsOfCall(last);
    }
  }

  /** The calls of a run carry no event: its events are those sent before
      the metadata call and, once past the resize, before the Jimp stage. */
  lemma EventsOfStages(socket: Option<string>, calls: seq<Op>, k: nat)
    requires k <= |calls|
    ensures Events(Progressed(socket, calls, k))
      == (if k == 0 then [] else Events(Pre(socket, 0))) + (if k <= 2 then [] else Events(Pre(socket, 2)))
  {
    if 0 < k <= 2 {
      EventsAppend(Pre(socket, 0), Calls(calls[..k]));
      EventsOfCalls(calls[..k]);
    } else if k > 2 {
      var first := Pre(socket, 0) + Calls(calls[..2]);
      EventsAppend(Pre(socket, 0), Calls(calls[..2]));
      EventsOfCalls(calls[..2]);
      EventsAppend(first, Pre(socket, 2));
      EventsAppend(first + Pre(socket, 2), Calls(calls[2..k]));
      EventsOfCalls(calls[2..k]);
    }
  }

  /** With a socket, the events of a run whose first `k` calls returned are the
      first checkpoints, up to the ones sent before call `k`. */
  lemma EventsOfProgressed(socket: Option<string>, calls: seq<Op>, k: nat)
    requires k <= |calls| && Truthy(socket)
    ensures Events(Progressed(socket, calls, k)) == Checkpoints[..Reached(k)]
  {
    EventsOfStages(socket, calls, k);
    EventsOfPre(socket, 0);
    EventsOfPre(socket, 2);
    assert Checkpoints[..2] + Checkpoints[2..3] == Checkpoints[..3];
  }

  /** Without a socket, a run sends no event at all. */
  lemma NoSocketNoEvents(socket: Option<string>, calls: seq<Op>, k: nat)
    requires k <= |calls| && !Truthy(socket)
    ensures Events(Progressed(socket, calls, k)) == []
  {
    EventsOfStages(socket, calls, k);
    assert Pre(socket, 0) == [] && Pre(socket, 2) == [];
  }

  /** The progress contract. Without a socket id no event is sent. With one, a
      run that completes sends exactly progress 0, 20, 60 and 100 in that
      order; a run that fails sends the checkpoints it reached (0 alone when the
      options are absent or null, 0 and 20 when metadata or resize fails, 0, 20 and 60
      after that) and then one error event, and never 100. */
  lemma ImageEventContract(req: Request, lib: Library, stamps: Stamps)
    requires Truthy(req.filename)
    ensures var run := ImageRun(req, lib, stamps);
      !Truthy(req.socketId) ==> Events(run.trace) == []
    ensures var run := ImageRun(req, lib, stamps);
      Truthy(req.socketId) && run.response.status == 200 ==> Events(run.trace) == Checkpoints
    ensures var run := ImageRun(req, lib, stamps);
      Truthy(req.socketId) && !req.options.Present? ==>
        Events(run.trace) == Checkpoints[..1] + [ProcessError(OptionsMissingMessage(req.options))]
    ensures var run := ImageRun(req, lib, stamps);
      Truthy(req.socketId) && req.options.Present? && run.response.status != 200 ==>
        Events(run.trace) == Checkpoints[..if lib.failAt.value >= 2 then 3 else 2] + [ProcessError(lib.message)]
  {
    var s := req.socketId;
    if !req.options.Present? {
      var message := OptionsMissingMessage(req.options);
      EventsOfSay(s, Progress(0, StartStage));
      EventsOfSay(s, ProcessError(message));
      EventsAppend(Say(s, Progress(0, StartStage)), Say(s, ProcessError(message)));
    } else {
      var calls := ImageCalls(req.filename.value, req.options.value, lib, stamps.millis);
      if Survives(lib, |calls|) {
        EventsOfCompletedRun(s, calls);
      } else {
        EventsOfFailedRun(s, calls, lib.failAt.value, lib.message);
      }
    }
  }

  /** The events of a run all of whose calls returned. */
  lemma EventsOfCompletedRun(s: Option<string>, calls: seq<Op>)
    requires |calls| >= 3
    ensures Events(Progressed(s, calls, |calls|) + Say(s, Progress(100, CompleteStage)))
      == if Truthy(s) then Checkpoints else []
  {
    EventsAppend(Progressed(s, calls, |calls|), Say(s, Progress(100, CompleteStage)));
    EventsOfSay(s, Progress(100, CompleteStage));
    if Truthy(s) {
      EventsOfProgressed(s, calls, |calls|);
    } else {
      NoSocketNoEvents(s, calls, |calls|);
    }
  }

  /** The events of a run whose call `k` threw. */
  lemma EventsOfFailedRun(s: Option<string>, calls: seq<Op>, k: nat, message: string)
    requires k < |calls|
    ensures Events(Progressed(s, calls, k) + Pre(s, k) + Say(s, ProcessError(message)))
      == if Truthy(s) then Checkpoints[..Reached(k + 1)] + [ProcessError(message)] else []
  {
    EventsAppend(Progressed(s, calls, k), Pre(s, k));
    EventsAppend(Progressed(s, calls, k) + Pre(s, k), Say(s, ProcessError(message)));
    EventsOfSay(s, ProcessError(message));
    if Truthy(s) {
      EventsOfProgressed(s, calls, k);
      EventsOfPre(s, k);
      assert Checkpoints[..Reached(k)] + Checkpoints[Reached(k)..Reached(k + 1)] == Checkpoints[..Reached(k + 1)];
    } else {
      NoSocketNoEvents(s, calls, k);
      assert Pre(s, k) == [];
    }
  }

  /** A request without a filename is answered 400 before anything else
      happens: no event, no call, no history entry. */
  lemma MissingFilenameDoesNothing(req: Request, lib: Library, stamps: Stamps)
    requires !Truthy(req.filename)
    ensures ImageRun(req, lib, stamps) == Run([], Response(400, Failed(FilenameRequired)), None)
  {
  }

  /** The history gains an entry exactly when the handler answers 200, and the
      entry describes this run as an image run with its options. */
  lemma RecordedIffSucceeded(req: Request, lib: Library, stamps: Stamps)
    ensures var run := ImageRun(req, lib, stamps);
      run.recorded.Some? <==> run.response.status == 200
    ensures var run := ImageRun(req, lib, stamps);
      run.recorded.Some? ==>
        && run.recorded.value.kind == Image
        && req.filename.Some? && run.recorded.value.originalFile == req.filename.value
        && run.recorded.value.options == req.options
        && run.recorded.value.processedFile == run.response.body.processedFile
  {
  }

  /** Progress 100 is the last thing a successful run does, right after the
      output is written and the temporary file is deleted. */
  lemma CompletionFollowsWriteAndCleanup(req: Request, lib: Library, stamps: Stamps)
    requires ImageRun(req, lib, stamps).response.status == 200
    ensures Truthy(req.filename) && req.options.Present?
    ensures var output := OutputName(stamps.millis, req.filename.value);
      exists pre :: ImageRun(req, lib, stamps).trace
        == pre + [Call(JimpWrite(OutputPath(output))), Call(Unlink(TempPath(output)))]
               + Say(req.socketId, Progress(100, CompleteStage))
  {
    var calls := ImageCalls(req.filename.value, req.options.value, lib, stamps.millis);
    CompletedRun(req, lib, stamps);
    ImageCallsLayout(req.filename.value, req.options.value, lib, stamps.millis);
    TwoSteps(req.socketId, calls, |calls| - 2);
  }

  /** Two Jimp calls in a row follow each other with no event in between. */
  lemma TwoSteps(socket: Option<string>, calls: seq<Op>, k: nat)
    requires 3 <= k && k + 2 <= |calls|
    ensures Progressed(socket, calls, k + 2) == Progressed(socket, calls, k) + [Call(calls[k]), Call(calls[k + 1])]
  {
    var done := Pre(socket, 0) + Calls(calls[..2]) + Pre(socket, 2);
    CallsSnoc(calls, 2, k);
    CallsSnoc(calls, 2, k + 1);
    AppendAssoc(Calls(calls[2..k]), [Call(calls[k])], [Call(calls[k + 1])]);
    AppendAssoc(done, Calls(calls[2..k]), [Call(calls[k]), Call(calls[k + 1])]);
    assert [Call(calls[k])] + [Call(calls[k + 1])] == [Call(calls[k]), Call(calls[k + 1])];
  }

  /** A failure after the resized image was written to the temporary file
      leaves that file in place: the run never reaches its unlink call. */
  lemma TempLeftOnLateFailure(req: Request, lib: Library, stamps: Stamps)
    requires Truthy(req.filename) && req.options.Present?
    requires lib.failAt.Some? && 2 <= lib.failAt.value < |ImageCalls(req.filename.value, req.options.value, lib, stamps.millis)|
    ensures var temp := TempPath(OutputName(stamps.millis, req.filename.value));
      var trace := ImageRun(req, lib, stamps).trace;
      (exists box :: Call(SharpResize(box, temp)) in trace) && Call(Unlink(temp)) !in trace
  {
    var filename, o := req.filename.value, req.options.value;
    var temp := TempPath(OutputName(stamps.millis, filename));
    var calls := ImageCalls(filename, o, lib, stamps.millis);
    var k, s := lib.failAt.value, req.socketId;
    FailedRun(req, lib, stamps, k);
    ImageCallsLayout(filename, o, lib, stamps.millis);
    UnlinkOnlyLast(filename, o, lib, stamps.millis);
    assert calls[..k] == calls[..|calls| - 1][..k];
    assert calls[1] in calls[..k];
    CallsOfProgressed(s, calls, k, calls[1]);
    CallsOfProgressed(s, calls, k, Unlink(temp));
    EmitsOnly(s, k);
  }

  /** The temporary file is deleted by the last call of the plan and by no other. */
  lemma UnlinkOnlyLast(filename: string, o: ProcessingOptions, lib: Library, millis: string)
    ensures var calls := ImageCalls(filename, o, lib, millis);
      Unlink(TempPath(OutputName(millis, filename))) !in calls[..|calls| - 1]
  {
    var calls := ImageCalls(filename, o, lib, millis);
    var f := FilterSteps(o);
    ImageCallsLayout(filename, o, lib, millis);
    FilterStepsMeaning(o);
    forall i | 0 <= i < |calls| - 1 ensures calls[i] != Unlink(TempPath(OutputName(millis, filename))) {
      if 3 <= i < 3 + |f| {
        assert calls[i] == calls[3..3 + |f|][i - 3];
      }
    }
  }

  lemma EmitsOnly(socket: Option<string>, i: nat)
    ensures forall a :: a in Pre(socket, i) ==> a.Emit?
  {
  }

  lemma {:induction false} CallInCalls(ops: seq<Op>, op: Op)
    ensures Call(op) in Calls(ops) <==> op in ops
    decreases |ops|
  {
    if ops != [] {
      var init, last := ops[..|ops| - 1], ops[|ops| - 1];
      CallInCalls(init, op);
      assert ops == init + [last];
    }
  }

  /** A call appears in the trace of the first `k` calls exactly when it is
      one of them. */
  lemma CallsOfProgressed(socket: Option<string>, calls: seq<Op>, k: nat, op: Op)
    requires k <= |calls|
    ensures Call(op) in Progressed(socket, calls, k) <==> op in calls[..k]
  {
    EmitsOnly(socket, 0);
    EmitsOnly(socket, 2);
    if 0 < k <= 2 {
      CallInCalls(calls[..k], op);
    } else if k > 2 {
      CallInCalls(calls[..2], op);
      CallInCalls(calls[2..k], op);
      assert calls[..k] == calls[..2] + calls[2..k];
    }
  }

  /** With brightness 0, contrast 0 and no sharpening the filter stage only
      reads and rewrites the resized image. */
  lemma NoFilterRequested(filename: string, o: ProcessingOptions, lib: Library, millis: string)
    requires o.brightness == 0 && o.contrast == 0 && !o.sharpen
    ensures var output := OutputName(millis, filename);
      ImageCalls(filename, o, lib, millis) ==
        [ReadMetadata(InputPath(filename)),
         SharpResize(Resolve(o.quality, lib.sourceWidth, lib.sourceHeight), TempPath(output)),
         JimpRead(TempPath(output)), JimpWrite(OutputPath(output)), Unlink(TempPath(output))]
  {
    assert FilterSteps(o) == [];
  }
}
