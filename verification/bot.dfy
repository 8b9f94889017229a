/** End-to-end facts: the photo handler or an album flush feeding the batch processor. */
module Bot {
  import opened Wrappers
  import opened Messages
  import opened Album
  import opened Batch

  /**
   * The batch processor run on a job, given each photo's link lookup and the
   * gateway's answer: the empty-input reply comes exactly for a job without
   * photos, what is sent is the job's faithful batch, a rejected upload or a
   * batch with no resolved link gets the generic failure reply, and the
   * full-success reply speaks of an album exactly when the job is one.
   */
  function RunJob(job: Job, links: seq<Option<Url>>, gateway: GatewayAnswer): (r: Outcome)
    requires |links| == |job.photos|
    ensures r.reply == NoPhotosDetected <==> |job.photos| == 0
    ensures r.sent.Some? <==> CountResolved(links) > 0
    ensures r.sent.Some? && gateway.Accepted? ==>
              r.reply == Decide(SuccessCount(gateway.publicIds), |r.sent.value|, job.isAlbum)
    ensures |job.photos| > 0 && (r.sent.None? || gateway.Rejected?) ==> r.reply == SaveFailed
    ensures r.sent.Some? ==> FaithfulUpTo(job.photos, links, job.caption, job.isAlbum, |job.photos|, r.sent.value)
    ensures r.reply.SavedAll? ==> r.reply.isAlbum == job.isAlbum
  {
    Process(job.photos, links, job.caption, job.isAlbum, gateway)
  }

  /**
   * A single photo without album and without caption is uploaded alone under
   * the default caption, and one saved id gives the full-success reply for a photo.
   */
  lemma SinglePhotoWithoutCaption(c: Cache, m: PhotoMessage, now: int, url: Url, publicId: string)
    requires |m.sizes| > 0 && m.caption == "" && m.mediaGroupId.None?
    ensures HandlePhoto(c, m, now).cache == c
    ensures HandlePhoto(c, m, now).job.Some?
    ensures RunJob(HandlePhoto(c, m, now).job.value, [Some(url)], Accepted(Some([publicId])))
         == Outcome(Some([UploadRecord(url, 0, "A cutie!", m.sizes[|m.sizes| - 1])]), SavedAll(false))
  {
    var job := HandlePhoto(c, m, now).job.value;
    var links := [Some(url)];
    var out := RunJob(job, links, Accepted(Some([publicId])));
    assert CountResolved(links) == 1;
    var uploads := out.sent.value;
    assert |uploads| == 1;
    assert Resolved(links, 0);
    assert uploads[0].index == 0;
    assert DescribesPhoto(job.photos, links, job.caption, false, uploads[0]);
    assert job.caption == DefaultCaption && OrDefault(job.caption) == DefaultCaption;
    assert uploads[0] == UploadRecord(url, 0, "A cutie!", m.sizes[|m.sizes| - 1]);
    assert uploads == [uploads[0]];
  }

  /**
   * Every job an album flush produces is processed as an album of at least one
   * photo: the empty-input reply never happens, and each uploaded record is
   * captioned with the album caption and its position among all the album's photos.
   */
  lemma FlushedAlbumProcessedAsAlbum(c: Cache, now: int, id: AlbumId, links: seq<Option<Url>>,
                                     gateway: GatewayAnswer)
    requires id in Tick(c, now).jobs
    requires |links| == |Tick(c, now).jobs[id].photos|
    ensures Tick(c, now).jobs[id].isAlbum
    ensures RunJob(Tick(c, now).jobs[id], links, gateway).reply != NoPhotosDetected
    ensures var job := Tick(c, now).jobs[id];
            var out := RunJob(job, links, gateway);
            out.sent.Some? ==>
              forall j :: 0 <= j < |out.sent.value| ==>
                out.sent.value[j].caption == AlbumCaption(job.caption, out.sent.value[j].index + 1, |job.photos|)
  {
  }

  /** A batch whose every link lookup failed is never uploaded and gets the one generic failure reply. */
  lemma AllLookupsFailed(job: Job, links: seq<Option<Url>>, gateway: GatewayAnswer)
    requires |links| == |job.photos| > 0
    requires forall i :: 0 <= i < |links| ==> links[i].None?
    ensures RunJob(job, links, gateway) == Outcome(None, SaveFailed)
  {
  }
}
