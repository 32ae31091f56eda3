/** The entry writer: every object becomes a header followed by its payload,
    in order, and the archive is closed once all entries are written. */
module ArchiveWriter {
  import opened Wrappers
  import opened Content

  /** What reaches the archive: a header, a payload, or the closing trailer. */
  datatype Event = HeaderWritten(header: Header) | PayloadWritten(data: seq<byte>) | Closed

  /** Why writing the archive failed, naming the object concerned. */
  datatype TarError =
    | HeaderFailed(name: string, cause: string)
    | ContentFailed(name: string, cause: string)
    | CloseFailed(cause: string)

  /** The process context a header reads: the clock reading taken for the i-th
      header, and the process's user and group ids. */
  datatype Process = Process(clock: nat -> Time, uid: int, gid: int)

  /** The underlying writer, as an oracle: whether it accepts the next event
      given everything accepted before. */
  type Sink = (seq<Event>, Event) -> Outcome<string>

  /** A `tar.Writer` over a fallible sink; `events` is what the sink accepted. */
  class TarWriter {
    const sink: Sink
    var events: seq<Event>

    constructor (sink: Sink)
      ensures this.sink == sink && events == []
    {
      this.sink := sink;
      events := [];
    }

    method WriteHeader(h: Header) returns (err: Outcome<string>)
      modifies this
      ensures err == sink(old(events), HeaderWritten(h))
      ensures events == if err.Pass? then old(events) + [HeaderWritten(h)] else old(events)
    {
      err := sink(events, HeaderWritten(h));
      if err.Pass? {
        events := events + [HeaderWritten(h)];
      }
    }

    method Write(data: seq<byte>) returns (err: Outcome<string>)
      modifies this
      ensures err == sink(old(events), PayloadWritten(data))
      ensures events == if err.Pass? then old(events) + [PayloadWritten(data)] else old(events)
    {
      err := sink(events, PayloadWritten(data));
      if err.Pass? {
        events := events + [PayloadWritten(data)];
      }
    }

    method Close() returns (err: Outcome<string>)
      modifies this
      ensures err == sink(old(events), Closed)
      ensures events == if err.Pass? then old(events) + [Closed] else old(events)
    {
      err := sink(events, Closed);
      if err.Pass? {
        events := events + [Closed];
      }
    }
  }

  /** The header of the i-th object, taken with the i-th clock reading. */
  function HeaderOf(objects: seq<S3Content>, proc: Process, i: nat): Header
    requires i < |objects|
  {
    TarHeader(objects[i], proc.clock(i), proc.uid, proc.gid)
  }

  /** The entries of objects i up to (excluding) j: header, then payload, for
      each; every object contributes exactly those two events. */
  function Entries(objects: seq<S3Content>, proc: Process, i: nat, j: nat): (evs: seq<Event>)
    requires i <= j <= |objects|
    ensures |evs| == 2 * (j - i)
    decreases j - i
  {
    if i == j then []
    else
      [HeaderWritten(HeaderOf(objects, proc, i)), PayloadWritten(objects[i].data)]
      + Entries(objects, proc, i + 1, j)
  }

  /** The events accepted and the outcome of one run of the entry writer. */
  datatype TarRun = TarRun(events: seq<Event>, outcome: Outcome<TarError>)

  /** The entry writer from object i on, `hist` having been accepted so far. */
  function WriteFrom(sink: Sink, hist: seq<Event>, objects: seq<S3Content>, proc: Process, i: nat): TarRun
    requires i <= |objects|
    decreases |objects| - i
  {
    if i == |objects| then
      match sink(hist, Closed)
      case Fail(e) => TarRun(hist, Fail(CloseFailed(e)))
      case Pass => TarRun(hist + [Closed], Pass)
    else
      var o := objects[i];
      var h := HeaderWritten(HeaderOf(objects, proc, i));
      match sink(hist, h)
      case Fail(e) => TarRun(hist, Fail(HeaderFailed(o.name, e)))
      case Pass =>
        match sink(hist + [h], PayloadWritten(o.data))
        case Fail(e) => TarRun(hist + [h], Fail(ContentFailed(o.name, e)))
        case Pass => WriteFrom(sink, hist + [h, PayloadWritten(o.data)], objects, proc, i + 1)
  }

  /** The sink accepts each of `evs` in turn after `hist`. */
  ghost predicate Accepts(sink: Sink, hist: seq<Event>, evs: seq<Event>)
    decreases |evs|
  {
    evs == [] || (sink(hist, evs[0]).Pass? && Accepts(sink, hist + [evs[0]], evs[1..]))
  }

  /** One iteration of `tarify`'s loop: object i's header, then its payload.
      On success the run continues with object i + 1; on failure it stops
      with the error naming the object. */
  method WriteEntry(tarw: TarWriter, objects: seq<S3Content>, proc: Process, i: nat)
    returns (err: Outcome<TarError>)
    requires i < |objects|
    modifies tarw
    ensures err.Pass? ==>
      tarw.events == old(tarw.events) + [HeaderWritten(HeaderOf(objects, proc, i)), PayloadWritten(objects[i].data)]
    ensures err.Pass? ==>
      WriteFrom(tarw.sink, old(tarw.events), objects, proc, i) == WriteFrom(tarw.sink, tarw.events, objects, proc, i + 1)
    ensures err.Fail? && err.error.HeaderFailed? ==> tarw.events == old(tarw.events)
    ensures err.Fail? && err.error.ContentFailed? ==>
      tarw.events == old(tarw.events) + [HeaderWritten(HeaderOf(objects, proc, i))]
    ensures err.Fail? ==> !err.error.CloseFailed? && err.error.name == objects[i].name
    ensures err.Fail? ==> WriteFrom(tarw.sink, old(tarw.events), objects, proc, i) == TarRun(tarw.events, err)
  {
    var obj := objects[i];
    var e := tarw.WriteHeader(TarHeader(obj, proc.clock(i), proc.uid, proc.gid));
    if e.Fail? {
      return Fail(HeaderFailed(obj.name, e.error));
    }
    e := tarw.Write(obj.data);
    if e.Fail? {
      return Fail(ContentFailed(obj.name, e.error));
    }
    assert tarw.events == old(tarw.events) + [HeaderWritten(HeaderOf(objects, proc, i)), PayloadWritten(obj.data)];
    return Pass;
  }

  /** `tarify`: write every object's header and payload in order, stopping at
      the first failure, then close the archive. `archive` is what reached the
      underlying writer. */
  method Tarify(sink: Sink, objects: seq<S3Content>, proc: Process)
    returns (err: Outcome<TarError>, archive: seq<Event>)
    ensures TarRun(archive, err) == WriteFrom(sink, [], objects, proc, 0)
  {
    var tarw := new TarWriter(sink);
    for i := 0 to |objects|
      invariant tarw.sink == sink
      invariant WriteFrom(sink, [], objects, proc, 0) == WriteFrom(sink, tarw.events, objects, proc, i)
    {
      var e := WriteEntry(tarw, objects, proc, i);
      if e.Fail? {
        return e, tarw.events;
      }
    }
    var e := tarw.Close();
    if e.Fail? {
      return Fail(CloseFailed(e.error)), tarw.events;
    }
    return Pass, tarw.events;
  }

  /** The writer succeeds exactly when the sink accepts, in order, every
      object's header and payload and then the close; the archive then holds
      exactly those entries followed by the trailer. */
  lemma {:induction false} WriteSucceeds(sink: Sink, hist: seq<Event>, objects: seq<S3Content>, proc: Process, i: nat)
    requires i <= |objects|
    ensures WriteFrom(sink, hist, objects, proc, i).outcome.Pass? <==>
      Accepts(sink, hist, Entries(objects, proc, i, |objects|) + [Closed])
    ensures WriteFrom(sink, hist, objects, proc, i).outcome.Pass? ==>
      WriteFrom(sink, hist, objects, proc, i).events == hist + Entries(objects, proc, i, |objects|) + [Closed]
    decreases |objects| - i
  {
    var rest := Entries(objects, proc, i, |objects|) + [Closed];
    if i == |objects| {
      assert rest == [Closed];
      assert rest[1..] == [];
    } else {
      var h := HeaderWritten(HeaderOf(objects, proc, i));
      var p := PayloadWritten(objects[i].data);
      var tail := Entries(objects, proc, i + 1, |objects|) + [Closed];
      assert rest == [h, p] + tail;
      AcceptsTwoMore(sink, hist, h, p, tail);
      WriteSucceeds(sink, hist + [h, p], objects, proc, i + 1);
      assert hist + [h, p] + tail == hist + ([h, p] + tail);
    }
  }

  /** A run only ever adds to what was already accepted: a successful run
      ends with the trailer, a failed one never writes it. */
  lemma {:induction false} WriteExtends(sink: Sink, hist: seq<Event>, objects: seq<S3Content>, proc: Process, i: nat)
    requires i <= |objects|
    ensures hist <= WriteFrom(sink, hist, objects, proc, i).events
    ensures WriteFrom(sink, hist, objects, proc, i).outcome.Pass? ==>
      var evs := WriteFrom(sink, hist, objects, proc, i).events;
      |evs| > |hist| && evs[|evs| - 1] == Closed
    ensures WriteFrom(sink, hist, objects, proc, i).outcome.Fail? ==>
      var evs := WriteFrom(sink, hist, objects, proc, i).events;
      forall k :: |hist| <= k < |evs| ==> evs[k] != Closed
    decreases |objects| - i
  {
    if i < |objects| {
      var h := HeaderWritten(HeaderOf(objects, proc, i));
      var p := PayloadWritten(objects[i].data);
      if sink(hist, h).Pass? && sink(hist + [h], p).Pass? {
        WriteExtends(sink, hist + [h, p], objects, proc, i + 1);
      }
    }
  }

  /** The write after `done` was refused: object j's header, object j's
      payload, or (j == |objects|) the close; `run` reports that refusal. */
  ghost predicate RefusedNext(sink: Sink, done: seq<Event>, objects: seq<S3Content>, proc: Process,
                              j: nat, run: TarRun)
    requires j <= |objects|
  {
    if j == |objects| then
      sink(done, Closed).Fail? && run == TarRun(done, Fail(CloseFailed(sink(done, Closed).error)))
    else
      var h := HeaderWritten(HeaderOf(objects, proc, j));
      var p := PayloadWritten(objects[j].data);
      || (sink(done, h).Fail? && run == TarRun(done, Fail(HeaderFailed(objects[j].name, sink(done, h).error))))
      || (sink(done, h).Pass? && sink(done + [h], p).Fail? &&
          run == TarRun(done + [h], Fail(ContentFailed(objects[j].name, sink(done + [h], p).error))))
  }

  /** Where a failed run stopped: the entries of objects i up to j were all
      accepted, and the next write was refused. */
  ghost predicate StoppedAt(sink: Sink, hist: seq<Event>, objects: seq<S3Content>, proc: Process,
                            i: nat, j: nat, run: TarRun)
    requires i <= j <= |objects|
  {
    && Accepts(sink, hist, Entries(objects, proc, i, j))
    && RefusedNext(sink, hist + Entries(objects, proc, i, j), objects, proc, j, run)
  }

  /** A run that stopped at j after object i's entry was accepted stopped at j
      counting from object i as well. */
  lemma StoppedAtEarlier(sink: Sink, hist: seq<Event>, objects: seq<S3Content>, proc: Process,
                         i: nat, j: nat, run: TarRun)
    requires i < j <= |objects|
    requires sink(hist, HeaderWritten(HeaderOf(objects, proc, i))).Pass?
    requires sink(hist + [HeaderWritten(HeaderOf(objects, proc, i))], PayloadWritten(objects[i].data)).Pass?
    requires StoppedAt(sink, hist + [HeaderWritten(HeaderOf(objects, proc, i)), PayloadWritten(objects[i].data)],
                       objects, proc, i + 1, j, run)
    ensures StoppedAt(sink, hist, objects, proc, i, j, run)
  {
    var h := HeaderWritten(HeaderOf(objects, proc, i));
    var p := PayloadWritten(objects[i].data);
    var later := Entries(objects, proc, i + 1, j);
    assert Entries(objects, proc, i, j) == [h, p] + later;
    AcceptsTwoMore(sink, hist, h, p, later);
    assert hist + ([h, p] + later) == hist + [h, p] + later;
  }

  /** Two writes and then a sequence are accepted exactly when each of the
      two is, in turn, and then the sequence is. */
  lemma AcceptsTwoMore(sink: Sink, hist: seq<Event>, a: Event, b: Event, later: seq<Event>)
    ensures Accepts(sink, hist, [a, b] + later) <==>
      sink(hist, a).Pass? && sink(hist + [a], b).Pass? && Accepts(sink, hist + [a, b], later)
  {
    var evs := [a, b] + later;
    assert evs[1..] == [b] + later;
    assert evs[1..][1..] == later;
    assert hist + [a] + [b] == hist + [a, b];
  }

  /** A failed run stops at the first refused write: the entries of the
      objects before it are in the archive, the archive is never closed, and
      the error names the object whose header or payload was refused. */
  lemma {:induction false} WriteFails(sink: Sink, hist: seq<Event>, objects: seq<S3Content>, proc: Process, i: nat)
    requires i <= |objects|
    ensures WriteFrom(sink, hist, objects, proc, i).outcome.Fail? ==>
      exists j :: i <= j <= |objects| && StoppedAt(sink, hist, objects, proc, i, j, WriteFrom(sink, hist, objects, proc, i))
    decreases |objects| - i
  {
    var run := WriteFrom(sink, hist, objects, proc, i);
    if run.outcome.Fail? {
      if i < |objects| &&
         sink(hist, HeaderWritten(HeaderOf(objects, proc, i))).Pass? &&
         sink(hist + [HeaderWritten(HeaderOf(objects, proc, i))], PayloadWritten(objects[i].data)).Pass?
      {
        var hist' := hist + [HeaderWritten(HeaderOf(objects, proc, i)), PayloadWritten(objects[i].data)];
        WriteFails(sink, hist', objects, proc, i + 1);
        var j :| i + 1 <= j <= |objects| && StoppedAt(sink, hist', objects, proc, i + 1, j, run);
        StoppedAtEarlier(sink, hist, objects, proc, i, j, run);
      } else {
        assert Entries(objects, proc, i, i) == [] && hist + [] == hist;
        assert StoppedAt(sink, hist, objects, proc, i, i, run);
      }
    }
  }

  /** Reading an archive back: header and payload pairs whose recorded size
      matches the payload, each giving back the name, timestamp and payload. */
  function Decode(events: seq<Event>): Option<seq<S3Content>>
    decreases |events|
  {
    if events == [] then Some([])
    else if |events| >= 2 && events[0].HeaderWritten? && events[1].PayloadWritten?
            && events[0].header.typeflag == TypeReg && events[0].header.size == |events[1].data| then
      var h := events[0].header;
      match Decode(events[2..])
      case None => None
      case Some(rest) => Some([S3Content(h.name, h.modTime, events[1].data)] + rest)
    else None
  }

  /** Round trip: the entries written for the objects read back as exactly
      those objects, in order, with their names, timestamps and payloads. */
  lemma {:induction false} EntriesRoundTrip(objects: seq<S3Content>, proc: Process, i: nat, j: nat)
    requires i <= j <= |objects|
    ensures Decode(Entries(objects, proc, i, j)) == Some(objects[i..j])
    decreases j - i
  {
    if i == j {
      assert objects[i..j] == [];
    } else {
      EntriesRoundTrip(objects, proc, i + 1, j);
      var evs := Entries(objects, proc, i, j);
      assert evs[2..] == Entries(objects, proc, i + 1, j);
      assert objects[i..j] == [objects[i]] + objects[i + 1..j];
      assert objects[i] == S3Content(objects[i].name, objects[i].lastMod, objects[i].data);
    }
  }

  /** A successful `tarify` archive holds one entry per object, in order, then
      the trailer, and reads back as the objects. */
  lemma TarifyRoundTrip(sink: Sink, objects: seq<S3Content>, proc: Process)
    ensures WriteFrom(sink, [], objects, proc, 0).outcome.Pass? ==>
      var events := WriteFrom(sink, [], objects, proc, 0).events;
      && |events| == 2 * |objects| + 1
      && events[|events| - 1] == Closed
      && Decode(events[..|events| - 1]) == Some(objects)
  {
    WriteSucceeds(sink, [], objects, proc, 0);
    EntriesRoundTrip(objects, proc, 0, |objects|);
    var events := WriteFrom(sink, [], objects, proc, 0).events;
    if WriteFrom(sink, [], objects, proc, 0).outcome.Pass? {
      assert events[..|events| - 1] == Entries(objects, proc, 0, |objects|);
      assert objects[0..|objects|] == objects;
    }
  }
}
