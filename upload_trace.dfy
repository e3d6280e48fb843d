/** What the upload state machine computes, stated per stream over the event
    trace rather than as shared state, and the promises about how the call
    settles. */
module UploadTrace {
  import opened Common
  import opened Upload

  function Init(events: seq<Event>): seq<Event>
    requires events != []
  {
    events[..|events| - 1]
  }

  function Last(events: seq<Event>): Event
    requires events != []
  {
    events[|events| - 1]
  }

  /** The `FileStarted` events of a trace: stream `k` is opened by the `k`-th. */
  function Openings(events: seq<Event>): (o: seq<Event>)
    ensures forall i :: 0 <= i < |o| ==> o[i].FileStarted?
    ensures |o| <= |events|
  {
    if events == [] then []
    else Openings(Init(events)) + (if Last(events).FileStarted? then [Last(events)] else [])
  }

  /** The filename an opening announces, or the default. */
  function NameOf(o: Event): string
    requires o.FileStarted?
  {
    OrDefault(o.filename, DefaultFilename)
  }

  function MimeOf(o: Event): string
    requires o.FileStarted?
  {
    OrDefault(o.mimeType, DefaultMime)
  }

  /** Stream `k` carries the upload field. */
  predicate IsUpload(events: seq<Event>, k: nat) {
    k < |Openings(events)| && Openings(events)[k].field == UploadField
  }

  /** The chunks stream `k` delivered after it was opened, in arrival order. */
  function ChunksOf(events: seq<Event>, k: nat): seq<seq<uint8>> {
    if events == [] then []
    else
      var e := Last(events);
      ChunksOf(Init(events), k)
        + (if e.Data? && e.stream == k && k < |Openings(Init(events))| then [e.chunk] else [])
  }

  /** How the promise of stream `k` first settled: by its first `limit`,
      `error` or `end` after it was opened. */
  function Fate(events: seq<Event>, k: nat): PartState {
    if events == [] then Pending
    else
      var es, e := Init(events), Last(events);
      var f := Fate(es, k);
      if !f.Pending? || k >= |Openings(es)| then f
      else
        match e
        case Limit(j) => if j == k then Rejected(TooLarge(NameOf(Openings(es)[k]))) else Pending
        case StreamError(j, d) => if j == k then Rejected(StreamFailure(d)) else Pending
        case End(j) => if j == k then Resolved else Pending
        case _ => Pending
  }

  /** One entry per `end` of an upload-field stream, in the order the ends
      come, each holding the stream's name, type and chunks up to its end. */
  function Expected(events: seq<Event>): seq<UploadedFile> {
    if events == [] then []
    else
      var es, e := Init(events), Last(events);
      Expected(es)
        + (if e.End? && IsUpload(es, e.stream)
           then [UploadedFile(NameOf(Openings(es)[e.stream]), MimeOf(Openings(es)[e.stream]), Concat(ChunksOf(es, e.stream)))]
           else [])
  }

  /** The number of streams opened before the first `finish`: the list
      `Promise.all` is given. */
  function Snapshot(events: seq<Event>): (s: Option<nat>)
    ensures s.Some? ==> s.value <= |Openings(events)|
  {
    if events == [] then None
    else
      var s := Snapshot(Init(events));
      if s.None? && Last(events).Finish? then Some(|Openings(Init(events))|) else s
  }

  /** What the shared state should hold for stream `k`. */
  function StreamOf(events: seq<Event>, k: nat): Stream
    requires k < |Openings(events)|
  {
    var o := Openings(events)[k];
    if o.field != UploadField then Drained
    else Accepted(NameOf(o), MimeOf(o), ChunksOf(events, k), Fate(events, k))
  }

  /** The streams, files and awaited list of a state agree with the
      per-stream reading of a trace. */
  predicate Agrees(r: Reader, events: seq<Event>) {
    && |r.streams| == |Openings(events)|
    && (forall k :: 0 <= k < |r.streams| ==> r.streams[k] == StreamOf(events, k))
    && r.files == Expected(events)
    && r.awaited == Snapshot(events)
  }

  lemma OpeningsExtend(events: seq<Event>, k: nat)
    requires events != [] && k < |Openings(Init(events))|
    ensures k < |Openings(events)| && Openings(events)[k] == Openings(Init(events))[k]
  {
  }

  lemma Split(es: seq<Event>, e: Event)
    ensures Init(es + [e]) == es && Last(es + [e]) == e
  {
  }

  /** A stream not yet opened has no chunks and a pending promise. */
  lemma {:induction false} Unopened(events: seq<Event>, k: nat)
    requires k >= |Openings(events)|
    ensures ChunksOf(events, k) == [] && Fate(events, k) == Pending
    decreases |events|
  {
    if events != [] {
      Unopened(Init(events), k);
    }
  }

  lemma HandleFileStarted(r: Reader, es: seq<Event>, e: Event)
    requires e.FileStarted? && Agrees(r, es)
    ensures Agrees(Handle(r, e), es + [e])
  {
    var ev := es + [e];
    Split(es, e);
    var h := Handle(r, e);
    var n := |Openings(es)|;
    assert Openings(ev) == Openings(es) + [e];
    forall k | 0 <= k < n
      ensures h.streams[k] == StreamOf(ev, k)
    {
      assert Openings(ev)[k] == Openings(es)[k];
      assert ChunksOf(ev, k) == ChunksOf(es, k) && Fate(ev, k) == Fate(es, k);
    }
    Unopened(es, n);
    assert ChunksOf(ev, n) == [] && Fate(ev, n) == Pending;
    assert h.streams[n] == StreamOf(ev, n);
    assert Expected(ev) == Expected(es) && Snapshot(ev) == Snapshot(es);
  }

  lemma HandleData(r: Reader, es: seq<Event>, e: Event)
    requires e.Data? && Agrees(r, es)
    ensures Agrees(Handle(r, e), es + [e])
  {
    var ev := es + [e];
    Split(es, e);
    var h := Handle(r, e);
    assert Openings(ev) == Openings(es);
    forall k | 0 <= k < |h.streams|
      ensures h.streams[k] == StreamOf(ev, k)
    {
      assert Fate(ev, k) == Fate(es, k);
    }
  }

  lemma HandleLimit(r: Reader, es: seq<Event>, e: Event)
    requires e.Limit? && Agrees(r, es)
    ensures Agrees(Handle(r, e), es + [e])
  {
    var ev := es + [e];
    Split(es, e);
    var h := Handle(r, e);
    assert Openings(ev) == Openings(es);
    forall k | 0 <= k < |h.streams|
      ensures h.streams[k] == StreamOf(ev, k)
    {
      assert ChunksOf(ev, k) == ChunksOf(es, k);
    }
  }

  lemma HandleStreamError(r: Reader, es: seq<Event>, e: Event)
    requires e.StreamError? && Agrees(r, es)
    ensures Agrees(Handle(r, e), es + [e])
  {
    var ev := es + [e];
    Split(es, e);
    var h := Handle(r, e);
    assert Openings(ev) == Openings(es);
    forall k | 0 <= k < |h.streams|
      ensures h.streams[k] == StreamOf(ev, k)
    {
      assert ChunksOf(ev, k) == ChunksOf(es, k);
    }
  }

  lemma HandleEnd(r: Reader, es: seq<Event>, e: Event)
    requires e.End? && Agrees(r, es)
    ensures Agrees(Handle(r, e), es + [e])
  {
    var ev := es + [e];
    Split(es, e);
    var h := Handle(r, e);
    assert Openings(ev) == Openings(es);
    forall k | 0 <= k < |h.streams|
      ensures h.streams[k] == StreamOf(ev, k)
    {
      assert ChunksOf(ev, k) == ChunksOf(es, k);
    }
  }

  lemma HandleOther(r: Reader, es: seq<Event>, e: Event)
    requires (e.ParserError? || e.Finish?) && Agrees(r, es)
    ensures Agrees(Handle(r, e), es + [e])
  {
    var ev := es + [e];
    Split(es, e);
    var h := Handle(r, e);
    assert Openings(ev) == Openings(es);
    forall k | 0 <= k < |h.streams|
      ensures h.streams[k] == StreamOf(ev, k)
    {
      assert ChunksOf(ev, k) == ChunksOf(es, k);
      assert Fate(ev, k) == Fate(es, k);
    }
  }

  lemma HandleAgrees(r: Reader, es: seq<Event>, e: Event)
    requires Agrees(r, es)
    ensures Agrees(Handle(r, e), es + [e])
  {
    match e {
      case FileStarted(_, _, _) => HandleFileStarted(r, es, e);
      case Data(_, _) => HandleData(r, es, e);
      case Limit(_) => HandleLimit(r, es, e);
      case StreamError(_, _) => HandleStreamError(r, es, e);
      case End(_) => HandleEnd(r, es, e);
      case ParserError(_) => HandleOther(r, es, e);
      case Finish => HandleOther(r, es, e);
    }
  }

  /** Only upload-field streams produce entries; a missing or empty filename or
      type gets its default; an entry's buffer is its stream's chunks joined
      in arrival order; entries come in the order the streams end; `finish`
      fixes the awaited list at the streams opened before it. */
  lemma {:induction false} ReplayAgrees(events: seq<Event>)
    ensures Agrees(Replay(events), events)
    decreases |events|
  {
    if events != [] {
      var es, e := Init(events), Last(events);
      ReplayAgrees(es);
      assert events == es + [e];
      HandleAgrees(Replay(es), es, e);
    }
  }

  /** One more event: the state after the callback agrees with the longer
      trace, and the settlement check only decides the outcome. */
  lemma Unfold(es: seq<Event>, e: Event)
    ensures var h := Handle(Replay(es), e);
      && Agrees(Replay(es), es)
      && Agrees(h, es + [e])
      && Replay(es + [e]) == h.(outcome := AwaitAll(h.streams, h.files, h.awaited, h.outcome))
  {
    Split(es, e);
    ReplayAgrees(es);
    HandleAgrees(Replay(es), es, e);
  }

  lemma ReplaySnoc(es: seq<Event>, e: Event)
    ensures Replay(es + [e]) == Step(Replay(es), e)
  {
    Split(es, e);
  }

  lemma StepKeepsSettled(r: Reader, e: Event)
    requires !r.outcome.Unsettled?
    ensures Step(r, e).outcome == r.outcome
  {
  }

  /** Once the call has settled, no later callback changes how. */
  lemma {:induction false} SettledIsFinal(events: seq<Event>, more: seq<Event>)
    requires !Replay(events).outcome.Unsettled?
    ensures Replay(events + more).outcome == Replay(events).outcome
    decreases |more|
  {
    if more != [] {
      var all := events + more;
      var es := events + Init(more);
      assert all == es + [Last(more)];
      SettledIsFinal(events, Init(more));
      Split(es, Last(more));
      StepKeepsSettled(Replay(es), Last(more));
    } else {
      assert events + more == events;
    }
  }

  /** Facts about a prefix that later events cannot undo. */
  lemma {:induction false} PrefixFacts(events: seq<Event>, i: nat, k: nat)
    requires i <= |events|
    ensures |Openings(events[..i])| <= |Openings(events)|
    ensures k < |Openings(events[..i])| ==> Openings(events)[k] == Openings(events[..i])[k]
    ensures !Fate(events[..i], k).Pending? ==> Fate(events, k) == Fate(events[..i], k)
    ensures Snapshot(events[..i]).Some? ==> Snapshot(events) == Snapshot(events[..i])
    decreases |events| - i
  {
    if i < |events| {
      PrefixFacts(events, i + 1, k);
      var p := events[..i + 1];
      assert Init(p) == events[..i];
    } else {
      assert events[..i] == events;
    }
  }

  /** `Promise.all` resolves only when every awaited part has resolved, and
      then with the files collected so far. */
  lemma AwaitAllFulfilled(streams: seq<Stream>, files: seq<UploadedFile>, awaited: Option<nat>, outcome: Settlement, fs: seq<UploadedFile>)
    requires !outcome.Fulfilled? && AwaitAll(streams, files, awaited, outcome) == Fulfilled(fs)
    ensures awaited.Some? && awaited.value <= |streams| && AllResolved(streams, awaited.value) && fs == files
  {
  }

  /** The step at which the call resolves: every awaited upload-field part has
      resolved and the value is the list collected so far. */
  lemma FulfilledNow(es: seq<Event>, e: Event, fs: seq<UploadedFile>)
    requires Replay(es).outcome.Unsettled? && Replay(es + [e]).outcome == Fulfilled(fs)
    ensures Snapshot(es + [e]).Some?
    ensures forall k :: 0 <= k < Snapshot(es + [e]).value && IsUpload(es + [e], k) ==> Fate(es + [e], k) == Resolved
    ensures fs == Expected(es + [e])
  {
    var events := es + [e];
    Unfold(es, e);
    var h := Handle(Replay(es), e);
    assert !h.outcome.Fulfilled?;
    AwaitAllFulfilled(h.streams, h.files, h.awaited, h.outcome, fs);
    var n := h.awaited.value;
    forall k | 0 <= k < n && IsUpload(events, k)
      ensures Fate(events, k) == Resolved
    {
      assert h.streams[k] == StreamOf(events, k);
    }
  }

  /** The length of the prefix of a trace whose last callback resolved the call. */
  function ResolvedAt(events: seq<Event>, fs: seq<UploadedFile>): (i: nat)
    requires Replay(events).outcome == Fulfilled(fs)
    ensures 0 < i <= |events|
    ensures Replay(events[..i - 1]).outcome.Unsettled? && Replay(events[..i]).outcome == Fulfilled(fs)
    decreases |events|
  {
    assert events != [];
    var es, e := Init(events), Last(events);
    assert events == es + [e] && events[..|events|] == events && events[..|events| - 1] == es;
    if Replay(es).outcome.Unsettled? then |events|
    else
      SettledIsFinal(es, [e]);
      var i := ResolvedAt(es, fs);
      assert events[..i] == es[..i] && events[..i - 1] == es[..i - 1];
      i
  }

  /** The call resolves only after `finish`, only once every upload-field part
      opened before `finish` has ended without a limit or error, and then with
      the entries collected up to the callback that resolved it, when every
      awaited upload-field part had already resolved. */
  lemma {:induction false} FulfilledMeansAllEnded(events: seq<Event>, fs: seq<UploadedFile>)
    requires Replay(events).outcome == Fulfilled(fs)
    ensures Snapshot(events).Some?
    ensures forall k :: 0 <= k < Snapshot(events).value && IsUpload(events, k) ==> Fate(events, k) == Resolved
    ensures var p := events[..ResolvedAt(events, fs)];
      && Snapshot(p) == Snapshot(events)
      && (forall k :: 0 <= k < Snapshot(p).value && IsUpload(p, k) ==> Fate(p, k) == Resolved)
      && fs == Expected(p)
    decreases |events|
  {
    var es, e := Init(events), Last(events);
    assert events == es + [e];
    if Replay(es).outcome.Unsettled? {
      FulfilledNow(es, e, fs);
      assert events[..|events|] == events;
    } else {
      SettledIsFinal(es, [e]);
      FulfilledMeansAllEnded(es, fs);
      ResolvedStaysResolved(es, e);
      var i := ResolvedAt(es, fs);
      assert ResolvedAt(events, fs) == i;
      assert events[..i] == es[..i];
    }
  }

  /** Settled parts and the awaited list carry over to one more event. */
  lemma ResolvedStaysResolved(es: seq<Event>, e: Event)
    requires Snapshot(es).Some?
    requires forall k :: 0 <= k < Snapshot(es).value && IsUpload(es, k) ==> Fate(es, k) == Resolved
    ensures Snapshot(es + [e]) == Snapshot(es)
    ensures forall k :: 0 <= k < Snapshot(es + [e]).value && IsUpload(es + [e], k) ==> Fate(es + [e], k) == Resolved
  {
    var events := es + [e];
    assert es == events[..|es|];
    PrefixFacts(events, |es|, 0);
    forall k | 0 <= k < Snapshot(events).value && IsUpload(events, k)
      ensures Fate(events, k) == Resolved
    {
      PrefixFacts(events, |es|, k);
    }
  }

  /** A part promise settles only on a callback after its stream opened. */
  lemma OpenedBeforeSettled(events: seq<Event>, k: nat)
    requires events != [] && !Fate(events, k).Pending?
    ensures k < |Openings(Init(events))|
  {
    if k >= |Openings(Init(events))| {
      Unopened(Init(events), k);
    }
  }

  /** The length of the prefix of a trace whose last callback, an `end` of
      stream `k`, resolved that part's promise. */
  function ResolvingEnd(events: seq<Event>, k: nat): (t: nat)
    requires Fate(events, k) == Resolved
    ensures 0 < t <= |events| && events[t - 1] == End(k)
    ensures k < |Openings(events[..t - 1])| && Fate(events[..t - 1], k) == Pending
    decreases |events|
  {
    var es := Init(events);
    OpenedBeforeSettled(events, k);
    if Fate(es, k) == Resolved then
      var t := ResolvingEnd(es, k);
      assert events[..t - 1] == es[..t - 1];
      t
    else
      assert events[..|events| - 1] == es;
      |events|
  }

  /** The position in `Expected` of the entry an upload-field part added at
      the `end` that resolved it, holding the part's name and type. */
  function EntryOf(events: seq<Event>, k: nat): (j: nat)
    requires IsUpload(events, k) && Fate(events, k) == Resolved
    ensures j < |Expected(events)|
    ensures Expected(events)[j].filename == NameOf(Openings(events)[k])
    ensures Expected(events)[j].mime == MimeOf(Openings(events)[k])
    decreases |events|
  {
    var es := Init(events);
    OpenedBeforeSettled(events, k);
    OpeningsExtend(events, k);
    if Fate(es, k) == Resolved then EntryOf(es, k) else |Expected(es)|
  }

  /** The entry `EntryOf` finds is the one appended by the `end` that
      resolved the part: it follows the entries of the callbacks before that
      `end`, and its buffer is the chunks the part delivered before it. */
  lemma {:induction false} EntryOfAtEnd(events: seq<Event>, k: nat)
    requires IsUpload(events, k) && Fate(events, k) == Resolved
    ensures var before := events[..ResolvingEnd(events, k) - 1];
      && EntryOf(events, k) == |Expected(before)|
      && Expected(events)[EntryOf(events, k)]
         == UploadedFile(NameOf(Openings(events)[k]), MimeOf(Openings(events)[k]), Concat(ChunksOf(before, k)))
    decreases |events|
  {
    var es := Init(events);
    OpenedBeforeSettled(events, k);
    OpeningsExtend(events, k);
    if Fate(es, k) == Resolved {
      EntryOfAtEnd(es, k);
      EntryOfLater(events, k);
    } else {
      EntryOfNow(events, k);
    }
  }

  /** The `end` that resolved the part is the last callback. */
  lemma EntryOfNow(events: seq<Event>, k: nat)
    requires IsUpload(events, k) && Fate(events, k) == Resolved
    requires k < |Openings(Init(events))| && Fate(Init(events), k) != Resolved
    ensures ResolvingEnd(events, k) == |events|
    ensures EntryOf(events, k) == |Expected(Init(events))|
    ensures Expected(events)[EntryOf(events, k)]
            == UploadedFile(NameOf(Openings(events)[k]), MimeOf(Openings(events)[k]), Concat(ChunksOf(Init(events), k)))
  {
    var es := Init(events);
    OpeningsExtend(events, k);
    assert Last(events) == End(k);
    assert IsUpload(es, k);
  }

  /** The part resolved earlier: its entry and its `end` carry over. */
  lemma EntryOfLater(events: seq<Event>, k: nat)
    requires IsUpload(events, k) && Fate(events, k) == Resolved
    requires k < |Openings(Init(events))| && Fate(Init(events), k) == Resolved
    requires IsUpload(Init(events), k)
    requires var es := Init(events);
      var before := es[..ResolvingEnd(es, k) - 1];
      && EntryOf(es, k) == |Expected(before)|
      && Expected(es)[EntryOf(es, k)]
         == UploadedFile(NameOf(Openings(es)[k]), MimeOf(Openings(es)[k]), Concat(ChunksOf(before, k)))
    ensures var before := events[..ResolvingEnd(events, k) - 1];
      && EntryOf(events, k) == |Expected(before)|
      && Expected(events)[EntryOf(events, k)]
         == UploadedFile(NameOf(Openings(events)[k]), MimeOf(Openings(events)[k]), Concat(ChunksOf(before, k)))
  {
    var es := Init(events);
    OpeningsExtend(events, k);
    var t := ResolvingEnd(es, k);
    assert ResolvingEnd(events, k) == t;
    assert events[..t - 1] == es[..t - 1];
    assert EntryOf(events, k) == EntryOf(es, k);
  }

  /** Different parts resolved by different `end`s: no two share an entry. */
  lemma {:induction false} EntryOfInjective(events: seq<Event>, k1: nat, k2: nat)
    requires IsUpload(events, k1) && Fate(events, k1) == Resolved
    requires IsUpload(events, k2) && Fate(events, k2) == Resolved
    requires k1 != k2
    ensures EntryOf(events, k1) != EntryOf(events, k2)
    decreases |events|
  {
    var es := Init(events);
    OpenedBeforeSettled(events, k1);
    OpenedBeforeSettled(events, k2);
    OpeningsExtend(events, k1);
    OpeningsExtend(events, k2);
    if Fate(es, k1) == Resolved && Fate(es, k2) == Resolved {
      EntryOfInjective(es, k1, k2);
    }
  }

  /** A resolved call holds an entry for every upload-field part awaited:
      the one appended at the `end` that resolved the part, with its name,
      its type and the chunks that came before that `end` (and, by
      `EntryOfInjective`, a different one for each part). */
  lemma FulfilledHoldsEveryPart(events: seq<Event>, fs: seq<UploadedFile>, k: nat)
    requires Replay(events).outcome == Fulfilled(fs)
    requires Snapshot(events).Some? && k < Snapshot(events).value && IsUpload(events, k)
    ensures var p := events[..ResolvedAt(events, fs)];
      && IsUpload(p, k) && Fate(p, k) == Resolved
      && var t := ResolvingEnd(p, k);
      && t <= |p| && events[t - 1] == End(k)
      && EntryOf(p, k) < |fs|
      && fs[EntryOf(p, k)]
         == UploadedFile(NameOf(Openings(events)[k]), MimeOf(Openings(events)[k]), Concat(ChunksOf(events[..t - 1], k)))
  {
    AwaitedPartAtResolution(events, fs, k);
    PartEntryInPrefix(events, ResolvedAt(events, fs), k);
  }

  /** The entry of a resolved upload-field part within a prefix of the trace. */
  lemma PartEntryInPrefix(events: seq<Event>, i: nat, k: nat)
    requires i <= |events| && k < |Openings(events)|
    requires IsUpload(events[..i], k) && Fate(events[..i], k) == Resolved
    requires Openings(events[..i])[k] == Openings(events)[k]
    ensures var p := events[..i];
      var t := ResolvingEnd(p, k);
      && t <= i && events[t - 1] == End(k)
      && EntryOf(p, k) < |Expected(p)|
      && Expected(p)[EntryOf(p, k)]
         == UploadedFile(NameOf(Openings(events)[k]), MimeOf(Openings(events)[k]), Concat(ChunksOf(events[..t - 1], k)))
  {
    var p := events[..i];
    var t := ResolvingEnd(p, k);
    EntryOfAtEnd(p, k);
    assert p[..t - 1] == events[..t - 1] && p[t - 1] == events[t - 1];
  }

  /** At the callback that resolved the call, an awaited upload-field part
      was already resolved, and the files were the expected entries. */
  lemma AwaitedPartAtResolution(events: seq<Event>, fs: seq<UploadedFile>, k: nat)
    requires Replay(events).outcome == Fulfilled(fs)
    requires Snapshot(events).Some? && k < Snapshot(events).value && IsUpload(events, k)
    ensures var p := events[..ResolvedAt(events, fs)];
      && IsUpload(p, k) && Fate(p, k) == Resolved && fs == Expected(p)
      && Openings(p)[k] == Openings(events)[k]
  {
    FulfilledMeansAllEnded(events, fs);
    var i := ResolvedAt(events, fs);
    var p := events[..i];
    PrefixFacts(events, i, k);
    assert IsUpload(p, k);
  }

  /** Once `finish` has fired, a part that hit the size limit or failed makes
      the call reject: it is never resolved, and it does not stay pending. */
  lemma RejectedPartFails(events: seq<Event>, k: nat)
    requires Snapshot(events).Some? && k < Snapshot(events).value
    requires IsUpload(events, k) && Fate(events, k).Rejected?
    ensures Replay(events).outcome.Failed?
  {
    var es, e := Init(events), Last(events);
    assert events == es + [e];
    Unfold(es, e);
    var h := Handle(Replay(es), e);
    if Replay(events).outcome.Fulfilled? {
      FulfilledMeansAllEnded(events, Replay(events).outcome.files);
      assert false;
    } else if Replay(events).outcome.Unsettled? {
      if !Replay(es).outcome.Unsettled? {
        SettledIsFinal(es, [e]);
        assert false;
      }
      assert h.streams[k] == StreamOf(events, k);
      var j := FirstRejected(h.streams, h.awaited.value);
      assert j <= k;
    }
  }

  /** How a part promise can be rejected: with 413 and its own filename, or
      with 400. */
  lemma {:induction false} FateRejection(events: seq<Event>, k: nat)
    requires k < |Openings(events)| && Fate(events, k).Rejected?
    ensures Fate(events, k).error.status == Some(400)
      || Fate(events, k).error == TooLarge(NameOf(Openings(events)[k]))
    decreases |events|
  {
    var es := Init(events);
    if k < |Openings(es)| {
      OpeningsExtend(events, k);
      if Fate(es, k).Rejected? {
        FateRejection(es, k);
      }
    } else {
      Unopened(es, k);
      assert false;
    }
  }

  /** A rejection the callbacks can produce: status 400 (parser or stream
      error) or 413 `File too large: ` with the name of an upload-field part. */
  predicate CallbackRejection(events: seq<Event>, err: Thrown) {
    err.status == Some(400)
    || exists k: nat :: k < |Openings(events)| && IsUpload(events, k) && err == TooLarge(NameOf(Openings(events)[k]))
  }

  /** The call only ever rejects with status 400 (parser or stream error) or
      413 (`File too large: ` and the name of an upload-field part). */
  lemma {:induction false} FailureStatus(events: seq<Event>, err: Thrown)
    requires Replay(events).outcome == Failed(err)
    ensures CallbackRejection(events, err)
    decreases |events|
  {
    var es, e := Init(events), Last(events);
    assert events == es + [e];
    if !Replay(es).outcome.Unsettled? {
      SettledIsFinal(es, [e]);
      FailureStatus(es, err);
      RejectionCarriesOver(es, e, err);
    } else {
      FailedNow(es, e, err);
    }
  }

  /** A rejection reason stays one when the trace grows. */
  lemma RejectionCarriesOver(es: seq<Event>, e: Event, err: Thrown)
    requires CallbackRejection(es, err)
    ensures CallbackRejection(es + [e], err)
  {
    if err.status != Some(400) {
      var k: nat :| k < |Openings(es)| && IsUpload(es, k) && err == TooLarge(NameOf(Openings(es)[k]));
      Split(es, e);
      OpeningsExtend(es + [e], k);
      assert IsUpload(es + [e], k);
    }
  }

  /** `Promise.all` rejects only with the reason of the first rejected
      awaited part. */
  lemma AwaitAllFailed(streams: seq<Stream>, files: seq<UploadedFile>, awaited: Option<nat>, outcome: Settlement, err: Thrown)
    requires !outcome.Failed? && AwaitAll(streams, files, awaited, outcome) == Failed(err)
    ensures awaited.Some? && awaited.value <= |streams|
    ensures FirstRejected(streams, awaited.value) < awaited.value
    ensures err == streams[FirstRejected(streams, awaited.value)].state.error
  {
  }

  /** The step at which the call rejects. */
  lemma FailedNow(es: seq<Event>, e: Event, err: Thrown)
    requires Replay(es).outcome.Unsettled? && Replay(es + [e]).outcome == Failed(err)
    ensures CallbackRejection(es + [e], err)
  {
    var events := es + [e];
    Unfold(es, e);
    var h := Handle(Replay(es), e);
    if !h.outcome.Failed? {
      AwaitAllFailed(h.streams, h.files, h.awaited, h.outcome, err);
      var j := FirstRejected(h.streams, h.awaited.value);
      assert h.streams[j] == StreamOf(events, j);
      FateRejection(events, j);
    }
  }

  lemma StepParserError(r: Reader, detail: string)
    requires r.outcome.Unsettled?
    ensures Step(r, ParserError(detail)).outcome == Failed(ParserFailure(detail))
  {
  }

  /** A parser error before the call has settled rejects it with 400. */
  lemma ParserErrorFails(before: seq<Event>, detail: string, after: seq<Event>)
    requires Replay(before).outcome.Unsettled?
    ensures Replay(before + [ParserError(detail)] + after).outcome == Failed(ParserFailure(detail))
  {
    var p := before + [ParserError(detail)];
    ReplaySnoc(before, ParserError(detail));
    StepParserError(Replay(before), detail);
    SettledIsFinal(p, after);
  }

  /** Before `finish` and without a parser error the call stays unsettled. */
  lemma {:induction false} QuietUntilFinish(events: seq<Event>)
    requires forall i :: 0 <= i < |events| ==> !events[i].Finish? && !events[i].ParserError?
    ensures Replay(events).outcome == Unsettled && Replay(events).awaited == None
    decreases |events|
  {
    if events != [] {
      QuietUntilFinish(Init(events));
    }
  }

  /** `finish` with nothing failed and every part resolved resolves the call. */
  lemma StepFinish(r: Reader)
    requires r.outcome.Unsettled? && r.awaited.None?
    requires forall k :: 0 <= k < |r.streams| ==> r.streams[k].Accepted? ==> r.streams[k].state.Resolved?
    ensures Step(r, Finish).outcome == Fulfilled(r.files)
  {
    assert FirstRejected(r.streams, |r.streams|) == |r.streams|;
  }

  /** A trace in which every upload-field part ends cleanly and the parser
      then finishes resolves with one entry per ended part, in end order. */
  lemma CleanTraceFulfills(body: seq<Event>)
    requires forall i :: 0 <= i < |body| ==> !body[i].Finish? && !body[i].ParserError?
    requires forall k :: IsUpload(body, k) ==> Fate(body, k) == Resolved
    ensures Replay(body + [Finish]).outcome == Fulfilled(Expected(body))
  {
    QuietUntilFinish(body);
    ReplayAgrees(body);
    var r := Replay(body);
    forall k | 0 <= k < |r.streams| && r.streams[k].Accepted?
      ensures r.streams[k].state.Resolved?
    {
      assert r.streams[k] == StreamOf(body, k);
    }
    ReplaySnoc(body, Finish);
    StepFinish(r);
  }
}
