/**
 * Traces of photo arrivals and timer ticks run against the album cache, and
 * the debounce guarantees: photos of one album that arrive within the quiet
 * period of each other are flushed together, once, in arrival order; albums
 * separated by a flush are processed separately.
 */
module Debounce {
  import opened Wrappers
  import opened Messages
  import opened Album

  /** What the event loop delivers: a photo message at a time, or the clock reaching a time. */
  datatype Event = Arrival(at: int, msg: PhotoMessage) | Clock(at: int)

  /** What one event produces: a single photo processed at once, and the albums flushed. */
  datatype Output = Output(immediate: Option<Job>, flushed: map<AlbumId, Job>)

  /** The cache after one event, and what the event produced. */
  datatype Stepped = Stepped(cache: Cache, out: Output)

  /** The cache after a trace, and the outputs, one per event. */
  datatype Ran = Ran(cache: Cache, outs: seq<Output>)

  /** Every photo message carries at least one size (a platform guarantee). */
  predicate WellFormed(evs: seq<Event>) {
    forall k :: 0 <= k < |evs| && evs[k].Arrival? ==> |evs[k].msg.sizes| > 0
  }

  /**
   * One event: a photo message goes to the photo handler and flushes nothing;
   * the clock flushes exactly the albums whose timer has expired and processes
   * no single photo.
   */
  function Step(c: Cache, e: Event): (r: Stepped)
    requires e.Arrival? ==> |e.msg.sizes| > 0
    ensures e.Arrival? ==> r.cache == HandlePhoto(c, e.msg, e.at).cache && r.out.immediate == HandlePhoto(c, e.msg, e.at).job
    ensures e.Arrival? ==> r.out.flushed == map[] && (r.out.immediate.Some? <==> AlbumOf(e.msg).None?)
    ensures e.Clock? ==> r.cache == Tick(c, e.at).cache && r.out.flushed == Tick(c, e.at).jobs
    ensures e.Clock? ==> r.out.immediate.None?
    ensures e.Clock? ==> forall id :: id in r.out.flushed <==> Due(c, id, e.at) && |c[id].photos| > 0
  {
    match e
    case Arrival(at, m) =>
      var h := HandlePhoto(c, m, at);
      Stepped(h.cache, Output(h.job, map[]))
    case Clock(at) =>
      var t := Tick(c, at);
      Stepped(t.cache, Output(None, t.jobs))
  }

  lemma WellFormedTail(evs: seq<Event>)
    requires |evs| > 0 && WellFormed(evs)
    ensures WellFormed(evs[1..]) && (evs[0].Arrival? ==> |evs[0].msg.sizes| > 0)
  {
  }

  /**
   * Each output is of the kind its event can produce: a photo message flushes
   * no album, and the clock processes no single photo.
   */
  predicate OutputsFit(evs: seq<Event>, outs: seq<Output>) {
    && |outs| == |evs|
    && (forall k :: 0 <= k < |evs| && evs[k].Arrival? ==> outs[k].flushed == map[])
    && (forall k :: 0 <= k < |evs| && evs[k].Clock? ==> outs[k].immediate.None?)
  }

  /** The cache and the outputs, one per event, after running a trace. */
  function Run(c: Cache, evs: seq<Event>): (r: Ran)
    requires WellFormed(evs)
    ensures |r.outs| == |evs|
    decreases |evs|
  {
    if |evs| == 0 then Ran(c, [])
    else
      WellFormedTail(evs);
      var step := Step(c, evs[0]);
      var rest := Run(step.cache, evs[1..]);
      Ran(rest.cache, [step.out] + rest.outs)
  }

  /** Every output of a run is of the kind its own event can produce. */
  lemma {:induction false} RunOutputsFit(c: Cache, evs: seq<Event>)
    requires WellFormed(evs)
    ensures OutputsFit(evs, Run(c, evs).outs)
    decreases |evs|
  {
    if |evs| > 0 {
      WellFormedTail(evs);
      var step := Step(c, evs[0]);
      var rest := Run(step.cache, evs[1..]).outs;
      RunOutputsFit(step.cache, evs[1..]);
      var outs := Run(c, evs).outs;
      assert outs == [step.out] + rest;
      forall k | 1 <= k < |evs|
        ensures outs[k] == rest[k - 1] && evs[k] == evs[1..][k - 1]
      {
      }
    }
  }

  /** The job flushed for album `id` by one event, if any. */
  function FlushedIn(o: Output, id: AlbumId): seq<Job> {
    if id in o.flushed then [o.flushed[id]] else []
  }

  /** The jobs flushed for album `id` in a run's outputs, in order. */
  function FlushesOf(outs: seq<Output>, id: AlbumId): seq<Job> {
    if |outs| == 0 then [] else FlushedIn(outs[0], id) + FlushesOf(outs[1..], id)
  }

  /** The event is a photo of album `id`. */
  predicate ArrivesFor(e: Event, id: AlbumId) {
    e.Arrival? && AlbumOf(e.msg) == Some(id)
  }

  /** The timer deadline of album `id` after event `e`, given deadline `d` before it. */
  function NextDeadline(e: Event, id: AlbumId, d: int): int {
    if ArrivesFor(e, id) then e.at + AlbumProcessingDelay else d
  }

  /** The deadline of album `id` after the trace, starting from `d`. */
  function LastDeadline(evs: seq<Event>, id: AlbumId, d: int): int
    decreases |evs|
  {
    if |evs| == 0 then d else LastDeadline(evs[1..], id, NextDeadline(evs[0], id, d))
  }

  /** The message the flush of album `id` answers after the trace: its latest arrival's. */
  function LastReply(evs: seq<Event>, id: AlbumId, r: MessageRef): MessageRef
    decreases |evs|
  {
    if |evs| == 0 then r
    else LastReply(evs[1..], id, if ArrivesFor(evs[0], id) then evs[0].msg.messageId else r)
  }

  /** The photos the trace delivers for album `id`, in arrival order. */
  function ArrivalPhotos(evs: seq<Event>, id: AlbumId): seq<Photo>
    requires WellFormed(evs)
    decreases |evs|
  {
    if |evs| == 0 then []
    else
      WellFormedTail(evs);
      (if ArrivesFor(evs[0], id) then [HighestQuality(evs[0].msg)] else []) + ArrivalPhotos(evs[1..], id)
  }

  /**
   * Every event of the trace happens before album `id`'s timer, whose deadline
   * starts at `d` and is pushed back by each arrival for `id`: no photo of the
   * album is ever 1500 ms or more behind the previous one.
   */
  predicate Quiet(evs: seq<Event>, id: AlbumId, d: int)
    decreases |evs|
  {
    |evs| == 0 || (evs[0].at < d && Quiet(evs[1..], id, NextDeadline(evs[0], id, d)))
  }

  lemma WellFormedAppend(a: seq<Event>, b: seq<Event>)
    requires WellFormed(a) && WellFormed(b)
    ensures WellFormed(a + b)
  {
    forall k | 0 <= k < |a + b| && (a + b)[k].Arrival?
      ensures |(a + b)[k].msg.sizes| > 0
    {
      if k < |a| {
        assert (a + b)[k] == a[k];
      } else {
        assert (a + b)[k] == b[k - |a|];
      }
    }
  }

  lemma SplitFirst(a: seq<Event>, b: seq<Event>)
    requires |a| > 0
    ensures (a + b)[0] == a[0] && (a + b)[1..] == a[1..] + b
  {
  }

  lemma ConcatAssoc<T>(x: seq<T>, y: seq<T>, z: seq<T>)
    ensures x + (y + z) == (x + y) + z
  {
  }

  /** Running `a + b` leaves the cache that running `b` leaves after `a`. */
  lemma {:induction false} RunAppendCache(c: Cache, a: seq<Event>, b: seq<Event>)
    requires WellFormed(a) && WellFormed(b) && WellFormed(a + b)
    ensures Run(c, a + b).cache == Run(Run(c, a).cache, b).cache
    decreases |a|
  {
    if |a| == 0 {
      assert a + b == b;
    } else {
      WellFormedTail(a);
      WellFormedTail(a + b);
      SplitFirst(a, b);
      RunAppendCache(Step(c, a[0]).cache, a[1..], b);
    }
  }

  /** The outputs of running `a + b` are those of `a` followed by those of `b`. */
  lemma {:induction false} RunAppendOutputs(c: Cache, a: seq<Event>, b: seq<Event>)
    requires WellFormed(a) && WellFormed(b) && WellFormed(a + b)
    ensures Run(c, a + b).outs == Run(c, a).outs + Run(Run(c, a).cache, b).outs
    decreases |a|
  {
    if |a| == 0 {
      assert a + b == b;
      assert Run(c, a).outs == [];
    } else {
      WellFormedTail(a);
      WellFormedTail(a + b);
      SplitFirst(a, b);
      var step := Step(c, a[0]);
      RunAppendOutputs(step.cache, a[1..], b);
      var ra := Run(step.cache, a[1..]);
      var rb := Run(ra.cache, b).outs;
      assert Run(c, a + b).outs == [step.out] + (ra.outs + rb);
      assert Run(c, a).outs == [step.out] + ra.outs;
      ConcatAssoc([step.out], ra.outs, rb);
    }
  }

  /** Running `a + b` is running `a`, then `b` from where `a` left the cache. */
  lemma RunAppend(c: Cache, a: seq<Event>, b: seq<Event>)
    requires WellFormed(a) && WellFormed(b)
    ensures WellFormed(a + b)
    ensures Run(c, a + b) == Ran(Run(Run(c, a).cache, b).cache, Run(c, a).outs + Run(Run(c, a).cache, b).outs)
  {
    WellFormedAppend(a, b);
    RunAppendCache(c, a, b);
    RunAppendOutputs(c, a, b);
  }

  lemma {:induction false} FlushesOfAppend(o1: seq<Output>, o2: seq<Output>, id: AlbumId)
    ensures FlushesOf(o1 + o2, id) == FlushesOf(o1, id) + FlushesOf(o2, id)
    decreases |o1|
  {
    if |o1| == 0 {
      assert o1 + o2 == o2;
    } else {
      var o := o1 + o2;
      var tail1, tail := o1[1..], o[1..];
      assert o[0] == o1[0] && tail == tail1 + o2;
      var head := FlushedIn(o1[0], id);
      FlushesOfAppend(tail1, o2, id);
      calc {
        FlushesOf(o, id);
        head + FlushesOf(tail, id);
        head + (FlushesOf(tail1, id) + FlushesOf(o2, id));
        (head + FlushesOf(tail1, id)) + FlushesOf(o2, id);
        FlushesOf(o1, id) + FlushesOf(o2, id);
      }
    }
  }

  /**
   * One event before album `id`'s deadline: the album is not flushed, and its
   * buffer changes only by an arrival for it, which appends the photo, keeps
   * the caption and restarts the timer.
   */
  lemma StepBeforeDeadline(c: Cache, e: Event, id: AlbumId)
    requires e.Arrival? ==> |e.msg.sizes| > 0
    requires id in c && e.at < c[id].deadline
    ensures id in Step(c, e).cache && id !in Step(c, e).out.flushed
    ensures ArrivesFor(e, id) ==>
              Step(c, e).cache[id] == Buffer(c[id].photos + [HighestQuality(e.msg)], c[id].caption,
                                         e.at + AlbumProcessingDelay, e.msg.messageId)
    ensures !ArrivesFor(e, id) ==> Step(c, e).cache[id] == c[id]
  {
  }

  /**
   * One quiet step, in the terms of the trace functions: what the first event
   * adds to album `id`'s buffer is exactly what the trace functions account
   * for it, and the rest of the trace is quiet for the new deadline.
   */
  lemma QuietStep(c: Cache, evs: seq<Event>, id: AlbumId)
    requires |evs| > 0 && WellFormed(evs) && id in c && Quiet(evs, id, c[id].deadline)
    ensures WellFormed(evs[1..])
    ensures var c1 := Step(c, evs[0]).cache;
            && id in c1
            && c1[id].caption == c[id].caption
            && c[id].photos + ArrivalPhotos(evs, id) == c1[id].photos + ArrivalPhotos(evs[1..], id)
            && LastDeadline(evs, id, c[id].deadline) == LastDeadline(evs[1..], id, c1[id].deadline)
            && LastReply(evs, id, c[id].replyTo) == LastReply(evs[1..], id, c1[id].replyTo)
            && Quiet(evs[1..], id, c1[id].deadline)
  {
    WellFormedTail(evs);
    var e := evs[0];
    var c1 := Step(c, e).cache;
    StepBeforeDeadline(c, e, id);
    var d := c[id].deadline;
    var r := c[id].replyTo;
    assert c1[id].deadline == NextDeadline(e, id, d);
    assert c1[id].replyTo == if ArrivesFor(e, id) then e.msg.messageId else r;
    assert LastDeadline(evs, id, d) == LastDeadline(evs[1..], id, NextDeadline(e, id, d));
    assert LastReply(evs, id, r) == LastReply(evs[1..], id, if ArrivesFor(e, id) then e.msg.messageId else r);
    assert Quiet(evs[1..], id, NextDeadline(e, id, d));
    if ArrivesFor(e, id) {
      assert ArrivalPhotos(evs, id) == [HighestQuality(e.msg)] + ArrivalPhotos(evs[1..], id);
    } else {
      assert ArrivalPhotos(evs, id) == ArrivalPhotos(evs[1..], id);
    }
  }

  /**
   * While the album stays quiet, its buffer only grows: the photos of the
   * trace are appended in order, the caption never changes, and the deadline
   * and the answered message follow the latest arrival.
   */
  lemma {:induction false} QuietBufferGrows(c: Cache, evs: seq<Event>, id: AlbumId)
    requires WellFormed(evs) && id in c && Quiet(evs, id, c[id].deadline)
    ensures id in Run(c, evs).cache
    ensures Run(c, evs).cache[id]
         == Buffer(c[id].photos + ArrivalPhotos(evs, id), c[id].caption,
                   LastDeadline(evs, id, c[id].deadline), LastReply(evs, id, c[id].replyTo))
    decreases |evs|
  {
    if |evs| > 0 {
      QuietStep(c, evs, id);
      var c1 := Step(c, evs[0]).cache;
      QuietBufferGrows(c1, evs[1..], id);
      assert Run(c, evs).cache == Run(c1, evs[1..]).cache;
    }
  }

  /** While the album stays quiet, no event flushes it. */
  lemma {:induction false} QuietNoFlush(c: Cache, evs: seq<Event>, id: AlbumId)
    requires WellFormed(evs) && id in c && Quiet(evs, id, c[id].deadline)
    ensures FlushesOf(Run(c, evs).outs, id) == []
    decreases |evs|
  {
    if |evs| > 0 {
      WellFormedTail(evs);
      var e := evs[0];
      var step := Step(c, e);
      StepBeforeDeadline(c, e, id);
      QuietNoFlush(step.cache, evs[1..], id);
      var rest := Run(step.cache, evs[1..]).outs;
      assert Run(c, evs).outs == [step.out] + rest;
      var outs := [step.out] + rest;
      assert outs[0] == step.out && outs[1..] == rest;
    }
  }

  /**
   * One burst: the first photo of an album the cache does not hold, then any
   * events (other albums' photos, single photos, early ticks, more photos of the
   * album) each within 1500 ms of the album's latest photo, then the clock
   * reaching the album's final deadline.
   */
  predicate Burst(c: Cache, id: AlbumId, evs: seq<Event>) {
    && |evs| >= 2
    && WellFormed(evs)
    && id !in c
    && ArrivesFor(evs[0], id)
    && evs[|evs| - 1].Clock?
    && Quiet(evs[1..|evs| - 1], id, evs[0].at + AlbumProcessingDelay)
    && LastDeadline(evs[1..|evs| - 1], id, evs[0].at + AlbumProcessingDelay) <= evs[|evs| - 1].at
  }

  /** The one job a burst flushes: every photo of the album, in arrival order, under the first caption. */
  function BurstJob(evs: seq<Event>, id: AlbumId): Job
    requires |evs| >= 2 && WellFormed(evs) && evs[0].Arrival?
  {
    var first := evs[0].msg;
    var middle := evs[1..|evs| - 1];
    assert WellFormed(middle) by {
      forall k | 0 <= k < |middle| && middle[k].Arrival?
        ensures |middle[k].msg.sizes| > 0
      {
        assert middle[k] == evs[k + 1];
      }
    }
    Job([HighestQuality(first)] + ArrivalPhotos(middle, id), OrDefault(first.caption), true,
        LastReply(middle, id, first.messageId))
  }

  /**
   * Debounce: a burst is flushed exactly once, with all its photos in arrival
   * order, and afterwards the album has no buffer.
   */
  lemma {:induction false} BurstFlushesOnce(c: Cache, id: AlbumId, evs: seq<Event>)
    requires Burst(c, id, evs)
    ensures FlushesOf(Run(c, evs).outs, id) == [BurstJob(evs, id)]
    ensures id !in Run(c, evs).cache
  {
    var first := [evs[0]];
    var middle := evs[1..|evs| - 1];
    var last := [evs[|evs| - 1]];
    assert evs == first + middle + last;
    assert WellFormed(first) && WellFormed(last);
    assert WellFormed(middle) by {
      forall k | 0 <= k < |middle| && middle[k].Arrival?
        ensures |middle[k].msg.sizes| > 0
      {
        assert middle[k] == evs[k + 1];
      }
    }
    RunAppend(c, first, middle);
    RunAppend(c, first + middle, last);

    var c1 := Run(c, first).cache;
    var m := evs[0].msg;
    var d0 := evs[0].at + AlbumProcessingDelay;
    assert Run(c, first).outs == [Output(None, map[])] by {
      assert first[1..] == [];
      var step := Step(c, evs[0]);
      assert step.out == Output(None, map[]);
      assert Run(step.cache, []) == Ran(step.cache, []);
    }
    assert c1[id] == Buffer([HighestQuality(m)], OrDefault(m.caption), d0, m.messageId);

    QuietBufferGrows(c1, middle, id);
    QuietNoFlush(c1, middle, id);
    var c2 := Run(c1, middle).cache;
    assert c2[id] == Buffer([HighestQuality(m)] + ArrivalPhotos(middle, id), OrDefault(m.caption),
                            LastDeadline(middle, id, d0), LastReply(middle, id, m.messageId));

    var t := evs[|evs| - 1].at;
    var c3 := Tick(c2, t).cache;
    var flushed := Tick(c2, t).jobs;
    assert Run(c2, last).outs == [Output(None, flushed)] by {
      assert last[1..] == [];
      assert Step(c2, evs[|evs| - 1]) == Stepped(c3, Output(None, flushed));
      assert Run(c3, []) == Ran(c3, []);
    }
    assert flushed[id] == BurstJob(evs, id);

    var o1 := Run(c, first).outs;
    var o2 := Run(c1, middle).outs;
    var o3 := Run(c2, last).outs;
    assert Run(c, evs).outs == o1 + o2 + o3;
    FlushesOfAppend(o1 + o2, o3, id);
    FlushesOfAppend(o1, o2, id);
    assert FlushesOf(o1, id) == [] by {
      assert o1[1..] == [];
    }
    assert FlushesOf(o3, id) == [flushed[id]] by {
      assert o3[1..] == [];
    }
  }

  /**
   * Two bursts of the same album, the second starting after the first was
   * flushed, give two separate jobs, each with its own photos and caption.
   */
  lemma SeparatedBurstsFlushSeparately(c: Cache, id: AlbumId, a: seq<Event>, b: seq<Event>)
    requires Burst(c, id, a)
    requires Burst(Run(c, a).cache, id, b)
    ensures WellFormed(a + b)
    ensures FlushesOf(Run(c, a + b).outs, id) == [BurstJob(a, id), BurstJob(b, id)]
  {
    RunAppend(c, a, b);
    BurstFlushesOnce(c, id, a);
    BurstFlushesOnce(Run(c, a).cache, id, b);
    FlushesOfAppend(Run(c, a).outs, Run(Run(c, a).cache, b).outs, id);
  }

  /** Running a trace from a valid cache leaves a valid cache: no buffer is ever empty. */
  lemma {:induction false} RunKeepsValid(c: Cache, evs: seq<Event>)
    requires WellFormed(evs) && Valid(c)
    ensures Valid(Run(c, evs).cache)
    decreases |evs|
  {
    if |evs| > 0 {
      WellFormedTail(evs);
      RunKeepsValid(Step(c, evs[0]).cache, evs[1..]);
    }
  }
}
