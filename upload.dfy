/** `readMultipartFiles`: the multipart parser's callbacks, read as a trace of
    events, fill the `files` list, the per-part promises and each part's
    chunk list; the call settles once `finish` has fired and every part
    promise registered by then has settled, or as soon as the parser fails. */
module Upload {
  import opened Common
  import RequestChecks

  /** One parsed upload: `{ filename, mime, buffer }`. */
  datatype UploadedFile = UploadedFile(filename: string, mime: string, buffer: seq<uint8>)

  /** The callbacks the parser makes, in the order they run.  Stream `k` is the
      file stream handed over by the `k`-th `FileStarted` event. */
  datatype Event =
    | FileStarted(field: string, filename: Option<string>, mimeType: Option<string>)
    | Data(stream: nat, chunk: seq<uint8>)
    | Limit(stream: nat)
    | StreamError(stream: nat, detail: string)
    | End(stream: nat)
    | ParserError(detail: string)
    | Finish

  /** A part promise: pending, resolved, or rejected with a thrown value; the
      first settlement wins. */
  datatype PartState = Pending | Resolved | Rejected(error: Thrown)

  /** A file stream: drained and ignored (field other than `files`), or
      accepted with its name, type, chunks so far and promise. */
  datatype Stream =
    | Drained
    | Accepted(filename: string, mime: string, chunks: seq<seq<uint8>>, state: PartState)

  /** The promise `readMultipartFiles` returns. */
  datatype Settlement = Unsettled | Fulfilled(files: seq<UploadedFile>) | Failed(error: Thrown)

  /** Everything the callbacks share: the streams (whose accepted entries are
      `filePromises` with their `chunks`), `files`, the number of streams
      `finish` found (the list `Promise.all` awaits) and the returned promise. */
  datatype Reader = Reader(streams: seq<Stream>, files: seq<UploadedFile>, awaited: Option<nat>, outcome: Settlement)

  const Initial := Reader([], [], None, Unsettled)

  const UploadField := "files"
  const DefaultFilename := "upload.pdf"
  const DefaultMime := "application/pdf"

  /** `Buffer.concat(chunks)` */
  function Concat(chunks: seq<seq<uint8>>): seq<uint8> {
    if chunks == [] then [] else Concat(chunks[..|chunks| - 1]) + chunks[|chunks| - 1]
  }

  /** A promise keeps its first settlement. */
  function SettleOnce(st: PartState, to: PartState): PartState {
    if st.Pending? then to else st
  }

  function TooLarge(filename: string): Thrown {
    Raise(413, "File too large: " + filename)
  }

  function StreamFailure(detail: string): Thrown {
    Raise(400, "File stream error: " + detail)
  }

  function ParserFailure(detail: string): Thrown {
    Raise(400, "Busboy error: " + detail)
  }

  /** The index of the first rejected part promise among the first `n` streams,
      or `n` when there is none. */
  function FirstRejected(streams: seq<Stream>, n: nat): (j: nat)
    requires n <= |streams|
    ensures j <= n
    ensures j < n ==> streams[j].Accepted? && streams[j].state.Rejected?
    ensures forall i :: 0 <= i < j ==> !(streams[i].Accepted? && streams[i].state.Rejected?)
    decreases n
  {
    if n == 0 then 0
    else
      var j := FirstRejected(streams, n - 1);
      if j < n - 1 then j
      else if streams[n - 1].Accepted? && streams[n - 1].state.Rejected? then n - 1
      else n
  }

  predicate AllResolved(streams: seq<Stream>, n: nat)
    requires n <= |streams|
  {
    forall j :: 0 <= j < n ==> streams[j].Accepted? ==> streams[j].state.Resolved?
  }

  /** `await Promise.all(filePromises)` then `resolve(files)` / `reject(e)`,
      seen after a callback: once `finish` has fired, the first rejected
      promise (in list order) rejects the call, and when all have resolved the
      call resolves with the files collected so far.  A settled call stays
      settled. */
  function AwaitAll(streams: seq<Stream>, files: seq<UploadedFile>, awaited: Option<nat>, outcome: Settlement): Settlement {
    if outcome.Unsettled? && awaited.Some? && awaited.value <= |streams| then
      var n := awaited.value;
      var j := FirstRejected(streams, n);
      if j < n then Failed(streams[j].state.error)
      else if AllResolved(streams, n) then Fulfilled(files)
      else Unsettled
    else outcome
  }

  /** What one callback does to the shared state. */
  function Handle(r: Reader, e: Event): Reader {
    match e
      case FileStarted(field, filename, mimeType) =>
        if field != UploadField then r.(streams := r.streams + [Drained])
        else r.(streams := r.streams + [Accepted(OrDefault(filename, DefaultFilename), OrDefault(mimeType, DefaultMime), [], Pending)])
      case Data(k, d) =>
        if k < |r.streams| && r.streams[k].Accepted? then
          r.(streams := r.streams[k := r.streams[k].(chunks := r.streams[k].chunks + [d])])
        else r
      case Limit(k) =>
        if k < |r.streams| && r.streams[k].Accepted? then
          var s := r.streams[k];
          r.(streams := r.streams[k := s.(state := SettleOnce(s.state, Rejected(TooLarge(s.filename))))])
        else r
      case StreamError(k, detail) =>
        if k < |r.streams| && r.streams[k].Accepted? then
          var s := r.streams[k];
          r.(streams := r.streams[k := s.(state := SettleOnce(s.state, Rejected(StreamFailure(detail))))])
        else r
      case End(k) =>
        if k < |r.streams| && r.streams[k].Accepted? then
          var s := r.streams[k];
          r.(files := r.files + [UploadedFile(s.filename, s.mime, Concat(s.chunks))],
             streams := r.streams[k := s.(state := SettleOnce(s.state, Resolved))])
        else r
      case ParserError(detail) =>
        if r.outcome.Unsettled? then r.(outcome := Failed(ParserFailure(detail))) else r
      case Finish =>
        if r.awaited.None? then r.(awaited := Some(|r.streams|)) else r
  }

  /** One callback, then the settlement check. */
  function Step(r: Reader, e: Event): Reader {
    var h := Handle(r, e);
    h.(outcome := AwaitAll(h.streams, h.files, h.awaited, h.outcome))
  }

  /** The shared state after a whole trace of callbacks. */
  function Replay(events: seq<Event>): Reader {
    if events == [] then Initial else Step(Replay(events[..|events| - 1]), events[|events| - 1])
  }

  /** How the parser library itself started: `Busboy({ headers, limits })`
      either returns a parser or throws. */
  datatype ParserStart = Started | ConstructorThrew(error: Thrown)

  /** The promise `readMultipartFiles` returns, given the request headers, the
      body, how the parser started and the callbacks it then made. */
  function ReadOutcome(contentType: Option<string>, rawBody: Option<seq<uint8>>, start: ParserStart, events: seq<Event>): Settlement {
    match RequestChecks.AssertMultipart(contentType, rawBody.Some?)
    case Fail(e) => Failed(e)
    case Pass =>
      match start
      case ConstructorThrew(e) => Failed(e)
      case Started => Replay(events).outcome
  }

  /** `readMultipartFiles`: checks the request, then runs the callbacks in
      order against the shared lists. */
  method ReadMultipartFiles(contentType: Option<string>, rawBody: Option<seq<uint8>>, start: ParserStart, events: seq<Event>)
    returns (outcome: Settlement)
    ensures outcome == ReadOutcome(contentType, rawBody, start, events)
  {
    var check := RequestChecks.AssertMultipart(contentType, rawBody.Some?);
    if check.Fail? {
      return Failed(check.error);
    }
    if start.ConstructorThrew? {
      return Failed(start.error);
    }
    var streams: seq<Stream> := [];
    var files: seq<UploadedFile> := [];
    var awaited: Option<nat> := None;
    outcome := Unsettled;
    var i := 0;
    while i < |events|
      invariant 0 <= i <= |events|
      invariant Reader(streams, files, awaited, outcome) == Replay(events[..i])
    {
      assert events[..i + 1][..i] == events[..i];
      streams, files, awaited, outcome := OnEvent(streams, files, awaited, outcome, events[i]);
      outcome := AwaitAll(streams, files, awaited, outcome);
      i := i + 1;
    }
    assert events[..|events|] == events;
  }

  /** The callback the parser makes for one event, on the shared lists. */
  method OnEvent(streams: seq<Stream>, files: seq<UploadedFile>, awaited: Option<nat>, outcome: Settlement, e: Event)
    returns (streams': seq<Stream>, files': seq<UploadedFile>, awaited': Option<nat>, outcome': Settlement)
    ensures Reader(streams', files', awaited', outcome') == Handle(Reader(streams, files, awaited, outcome), e)
  {
    streams', files', awaited', outcome' := streams, files, awaited, outcome;
    match e {
      case FileStarted(field, filename, mimeType) =>
        if field != UploadField {
          streams' := streams + [Drained];
        } else {
          var name := OrDefault(filename, DefaultFilename);
          var mime := OrDefault(mimeType, DefaultMime);
          streams' := streams + [Accepted(name, mime, [], Pending)];
        }
      case Data(k, d) =>
        if k < |streams| && streams[k].Accepted? {
          streams' := streams[k := streams[k].(chunks := streams[k].chunks + [d])];
        }
      case Limit(k) =>
        if k < |streams| && streams[k].Accepted? && streams[k].state.Pending? {
          streams' := streams[k := streams[k].(state := Rejected(TooLarge(streams[k].filename)))];
        }
      case StreamError(k, detail) =>
        if k < |streams| && streams[k].Accepted? && streams[k].state.Pending? {
          streams' := streams[k := streams[k].(state := Rejected(StreamFailure(detail)))];
        }
      case End(k) =>
        if k < |streams| && streams[k].Accepted? {
          files' := files + [UploadedFile(streams[k].filename, streams[k].mime, Concat(streams[k].chunks))];
          if streams[k].state.Pending? {
            streams' := streams[k := streams[k].(state := Resolved)];
          }
        }
      case ParserError(detail) =>
        if outcome.Unsettled? {
          outcome' := Failed(ParserFailure(detail));
        }
      case Finish =>
        if awaited.None? {
          awaited' := Some(|streams|);
        }
    }
  }
}
