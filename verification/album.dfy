/**
 * The album debounce cache: a map from album id to the buffer of photos that
 * arrived for it. Every arrival appends one photo and pushes the buffer's
 * flush deadline to `ALBUM_PROCESSING_DELAY` after it; a flush takes the buffer
 * out of the cache and hands its photos to the batch processor once.
 *
 * Timers are an abstract clock: the pending timer of a buffer is its deadline,
 * cancelling and rescheduling it is overwriting the deadline, and the timer
 * firing is a `Tick` at a time at or after the deadline.
 */
module Album {
  import opened Wrappers
  import opened Messages

  /** Quiet period (milliseconds) after an album's latest photo before it is flushed. */
  const AlbumProcessingDelay: int := 1500

  /**
   * One in-flight album: its photos in arrival order, the caption fixed when the
   * buffer was created, the deadline of its pending timer, and the message the
   * pending timer will answer (the latest arrival's).
   */
  datatype Buffer = Buffer(photos: seq<Photo>, caption: string, deadline: int, replyTo: MessageRef)

  /** The cache: at most one buffer per album id, by construction of a map. */
  type Cache = map<AlbumId, Buffer>

  /** A call of the batch processor: the photos, the caption, album or single, and the message answered. */
  datatype Job = Job(photos: seq<Photo>, caption: string, isAlbum: bool, replyTo: MessageRef)

  /** The cache after a handler or a timer callback, and the job it hands to the batch processor, if any. */
  datatype Handled = Handled(cache: Cache, job: Option<Job>)

  /** The cache after the clock advanced, and the jobs of the albums it flushed, by album id. */
  datatype Flushed = Flushed(cache: Cache, jobs: map<AlbumId, Job>)

  /** Every buffer in the cache holds at least one photo. */
  predicate Valid(c: Cache) {
    forall id :: id in c ==> |c[id].photos| > 0
  }

  /**
   * A photo for album `id` arrives at time `now`: create the buffer if there is
   * none (empty list, caption `caption`), append the photo, and restart the timer.
   */
  function Arrive(c: Cache, id: AlbumId, photo: Photo, caption: string, now: int, replyTo: MessageRef)
    : (r: Cache)
    ensures r.Keys == c.Keys + {id}
    ensures id in c ==> r[id].photos == c[id].photos + [photo] && r[id].caption == c[id].caption
    ensures id !in c ==> r[id].photos == [photo] && r[id].caption == caption
    ensures r[id].deadline == now + AlbumProcessingDelay && r[id].replyTo == replyTo
    ensures forall k :: k in c && k != id ==> r[k] == c[k]
    ensures Valid(c) ==> Valid(r)
  {
    var b := if id in c then c[id] else Buffer([], caption, now, replyTo);
    c[id := Buffer(b.photos + [photo], b.caption, now + AlbumProcessingDelay, replyTo)]
  }

  /** The job a buffer is flushed into: its photos and caption, as an album. */
  function FlushJob(b: Buffer): Job {
    Job(b.photos, b.caption, true, b.replyTo)
  }

  /**
   * The timer callback for `id`: remove the entry in every case; produce a job
   * only when a buffer with at least one photo was there.
   */
  function Flush(c: Cache, id: AlbumId): (r: Handled)
    ensures r.cache.Keys == c.Keys - {id}
    ensures forall k :: k in r.cache ==> r.cache[k] == c[k]
    ensures r.job.Some? <==> id in c && |c[id].photos| > 0
    ensures r.job.Some? ==> r.job.value == Job(c[id].photos, c[id].caption, true, c[id].replyTo)
    ensures Valid(c) ==> Valid(r.cache)
  {
    var job := if id in c && |c[id].photos| > 0 then Some(FlushJob(c[id])) else None;
    Handled(c - {id}, job)
  }

  /** The timer of `id` has expired by `now`. */
  predicate Due(c: Cache, id: AlbumId, now: int) {
    id in c && c[id].deadline <= now
  }

  /**
   * The clock reaches `now`: every buffer whose deadline has passed is flushed;
   * the others stay as they are. The jobs are keyed by album id.
   */
  function Tick(c: Cache, now: int): (r: Flushed)
    ensures forall id :: id in r.cache <==> id in c && !Due(c, id, now)
    ensures forall id :: id in r.cache ==> r.cache[id] == c[id]
    ensures forall id :: id in r.jobs <==> Due(c, id, now) && |c[id].photos| > 0
    ensures forall id :: id in r.jobs ==> id in c && r.jobs[id] == Job(c[id].photos, c[id].caption, true, c[id].replyTo)
    ensures Valid(c) ==> Valid(r.cache)
  {
    var kept := map id | id in c && !Due(c, id, now) :: c[id];
    var jobs := map id | id in c && Due(c, id, now) && |c[id].photos| > 0 :: FlushJob(c[id]);
    Flushed(kept, jobs)
  }

  /**
   * The photo handler (authorization left out): a message of an album is
   * buffered; any other photo message is processed at once as a single photo.
   * Either way the photo is the highest-quality size and the caption falls back
   * to the default.
   */
  function HandlePhoto(c: Cache, m: PhotoMessage, now: int): (r: Handled)
    requires |m.sizes| > 0
    ensures AlbumOf(m).Some? ==>
              r.job.None?
              && r.cache == Arrive(c, AlbumOf(m).value, HighestQuality(m), OrDefault(m.caption), now, m.messageId)
    ensures AlbumOf(m).None? ==>
              r.cache == c && r.job == Some(Job([HighestQuality(m)], OrDefault(m.caption), false, m.messageId))
  {
    var photo := HighestQuality(m);
    var caption := OrDefault(m.caption);
    match AlbumOf(m)
    case Some(id) => Handled(Arrive(c, id, photo, caption, now, m.messageId), None)
    case None => Handled(c, Some(Job([photo], caption, false, m.messageId)))
  }
}

/** Single-step facts about the album cache. */
module AlbumProperties {
  import opened Wrappers
  import opened Messages
  import opened Album

  /**
   * A tick flushes a due album exactly as that album's own timer callback
   * would, and leaves albums that are not due alone.
   */
  lemma TickAgreesWithFlush(c: Cache, now: int, id: AlbumId)
    ensures Due(c, id, now) ==> (id in Tick(c, now).jobs <==> Flush(c, id).job.Some?)
    ensures Due(c, id, now) && Flush(c, id).job.Some? ==> Tick(c, now).jobs[id] == Flush(c, id).job.value
    ensures Due(c, id, now) ==> id !in Tick(c, now).cache && id !in Flush(c, id).cache
    ensures !Due(c, id, now) ==> id !in Tick(c, now).jobs
    ensures !Due(c, id, now) && id in c ==> Tick(c, now).cache[id] == c[id]
  {
  }

  /** An album flushed by one tick is not flushed again by a later tick without a new arrival. */
  lemma NoSecondFlush(c: Cache, now: int, later: int)
    ensures Tick(c, now).jobs.Keys !! Tick(Tick(c, now).cache, later).jobs.Keys
  {
  }

  /** A buffer that is not yet due survives a tick unchanged, so no photo is lost or flushed early. */
  lemma NotDueSurvivesTick(c: Cache, now: int, id: AlbumId)
    requires id in c && now < c[id].deadline
    ensures id in Tick(c, now).cache && Tick(c, now).cache[id] == c[id]
    ensures id !in Tick(c, now).jobs
  {
  }

  /** The first arrival after a flush starts a fresh buffer holding only the new photo and its caption. */
  lemma ArrivalAfterFlushStartsFresh(c: Cache, id: AlbumId, photo: Photo, caption: string, now: int,
                                     replyTo: MessageRef)
    ensures var c' := Arrive(Flush(c, id).cache, id, photo, caption, now, replyTo);
            c'[id] == Buffer([photo], caption, now + AlbumProcessingDelay, replyTo)
  {
  }

  /** In a valid cache every due album produces a job, and no job is empty. */
  lemma ValidTickFlushesEveryDueAlbum(c: Cache, now: int)
    requires Valid(c)
    ensures forall id :: Due(c, id, now) ==> id in Tick(c, now).jobs
    ensures forall id :: id in Tick(c, now).jobs ==> |Tick(c, now).jobs[id].photos| > 0
  {
  }
}
