/**
 * The pure parts of the photo batch processor: the empty-input check, dropping
 * photos whose download link could not be resolved, building one upload record
 * per surviving photo, and choosing the single reply from the upload counts.
 * Link resolution and the upload are external; their answers are parameters.
 */
module Batch {
  import opened Wrappers
  import opened Messages
  import Decimal

  /** A resolved download link for a photo. */
  type Url = string

  /**
   * One upload-ready photo. The file name is `photo_<clock>_<index>.jpg`; the
   * clock part is opaque, so only `index` (the photo's position in the original
   * list, before dropping) is kept.
   */
  datatype UploadRecord = UploadRecord(photoUrl: Url, index: nat, caption: string, original: Photo)

  /** What batch preparation ends in. */
  datatype Prepared =
    | NoPhotos                            // empty input: nothing to do
    | AllFailed                           // every link lookup failed
    | Ready(uploads: seq<UploadRecord>)   // the batch handed to the upload gateway

  /** The backend's answer to the one bulk upload call. */
  datatype GatewayAnswer =
    | Rejected                                  // network error or non-2xx status: the call throws
    | Accepted(publicIds: Option<seq<string>>)  // the response body, with or without `public_ids`

  /** The one reply sent per batch. */
  datatype Reply =
    | NoPhotosDetected                              // "No photos detected. Please try again."
    | SavedAll(isAlbum: bool)                       // "Successfully saved album!" / "... photo!"
    | SavedSome(success: Option<nat>, total: nat)   // "Saved <success>/<total> photos"; None prints as undefined
    | SaveFailed                                    // "Failed to save your photos. ..."

  /** The observable result of processing one batch: what was uploaded, if anything, and the reply. */
  datatype Outcome = Outcome(sent: Option<seq<UploadRecord>>, reply: Reply)

  /** Caption of the album photo at 1-based `position` out of `total`: `"<base> (position/total)"`. */
  function AlbumCaption(base: string, position: nat, total: nat): string {
    base + " (" + Decimal.NatToString(position) + "/" + Decimal.NatToString(total) + ")"
  }

  /** Caption of the photo at 0-based `index` of a batch of `total` photos. */
  function ItemCaption(base: string, isAlbum: bool, index: nat, total: nat): (r: string)
    ensures r != ""
    ensures isAlbum ==> r == AlbumCaption(base, index + 1, total)
    ensures !isAlbum ==> (base != "" ==> r == base) && (base == "" ==> r == DefaultCaption)
  {
    if isAlbum then AlbumCaption(base, index + 1, total) else OrDefault(base)
  }

  /** The upload record built for the photo at `index`, whose link resolved. */
  function RecordAt(photos: seq<Photo>, links: seq<Option<Url>>, base: string, isAlbum: bool, index: nat)
    : (r: UploadRecord)
    requires |links| == |photos| && index < |links| && links[index].Some?
    ensures r.index == index && DescribesPhoto(photos, links, base, isAlbum, r)
  {
    UploadRecord(links[index].value, index, ItemCaption(base, isAlbum, index, |photos|), photos[index])
  }

  /** Number of photos among the first `k` whose link resolved. */
  function ResolvedAmong(links: seq<Option<Url>>, k: nat): (n: nat)
    requires k <= |links|
    ensures n <= k
  {
    if k == 0 then 0 else ResolvedAmong(links, k - 1) + (if links[k - 1].Some? then 1 else 0)
  }

  /** Number of photos whose link resolved. */
  function CountResolved(links: seq<Option<Url>>): (n: nat)
    ensures n <= |links|
  {
    ResolvedAmong(links, |links|)
  }

  /** No link among the first `k` resolved exactly when every one of those lookups failed. */
  lemma {:induction false} NoneResolved(links: seq<Option<Url>>, k: nat)
    requires k <= |links|
    ensures ResolvedAmong(links, k) == 0 <==> forall i :: 0 <= i < k ==> links[i].None?
  {
    if k > 0 {
      NoneResolved(links, k - 1);
    }
  }

  /**
   * `u` is the record of a photo whose link resolved: that link, that photo and
   * the caption for its position.
   */
  predicate DescribesPhoto(photos: seq<Photo>, links: seq<Option<Url>>, base: string, isAlbum: bool, u: UploadRecord)
    requires |links| == |photos|
  {
    && u.index < |photos|
    && links[u.index] == Some(u.photoUrl)
    && u.original == photos[u.index]
    && u.caption == ItemCaption(base, isAlbum, u.index, |photos|)
  }

  /** The lookup of the photo at `i` produced a link. */
  predicate Resolved(links: seq<Option<Url>>, i: int) {
    0 <= i < |links| && links[i].Some?
  }

  /**
   * `uploads` is exactly the photos among the first `k` whose link resolved, in
   * their original order, each described correctly.
   */
  predicate FaithfulUpTo(photos: seq<Photo>, links: seq<Option<Url>>, base: string, isAlbum: bool, k: nat,
                         uploads: seq<UploadRecord>)
    requires |links| == |photos| && k <= |links|
  {
    && (forall j :: 0 <= j < |uploads| ==>
          uploads[j].index < k && DescribesPhoto(photos, links, base, isAlbum, uploads[j]))
    && (forall j, l :: 0 <= j < l < |uploads| ==> uploads[j].index < uploads[l].index)
    && (forall i :: 0 <= i < k && Resolved(links, i) ==> exists j :: 0 <= j < |uploads| && uploads[j].index == i)
  }

  /** Extending the prefix by a photo whose link failed keeps the same uploads faithful. */
  lemma FaithfulSkip(photos: seq<Photo>, links: seq<Option<Url>>, base: string, isAlbum: bool, k: nat,
                     uploads: seq<UploadRecord>)
    requires |links| == |photos| && 0 < k <= |links| && links[k - 1].None?
    requires FaithfulUpTo(photos, links, base, isAlbum, k - 1, uploads)
    ensures FaithfulUpTo(photos, links, base, isAlbum, k, uploads)
  {
  }

  /** Extending the prefix by a photo whose link resolved appends its record. */
  lemma FaithfulAppend(photos: seq<Photo>, links: seq<Option<Url>>, base: string, isAlbum: bool, k: nat,
                       uploads: seq<UploadRecord>)
    requires |links| == |photos| && 0 < k <= |links| && links[k - 1].Some?
    requires FaithfulUpTo(photos, links, base, isAlbum, k - 1, uploads)
    ensures FaithfulUpTo(photos, links, base, isAlbum, k, uploads + [RecordAt(photos, links, base, isAlbum, k - 1)])
  {
    var u := RecordAt(photos, links, base, isAlbum, k - 1);
    var r := uploads + [u];
    assert r[|uploads|] == u;
    forall i | 0 <= i < k && Resolved(links, i)
      ensures exists j :: 0 <= j < |r| && r[j].index == i
    {
      if i == k - 1 {
        assert r[|uploads|].index == i;
      } else {
        var j :| 0 <= j < |uploads| && uploads[j].index == i;
        assert r[j] == uploads[j];
      }
    }
  }

  /** The map-then-filter over the first `k` link lookups. */
  function Collect(photos: seq<Photo>, links: seq<Option<Url>>, base: string, isAlbum: bool, k: nat)
    : (uploads: seq<UploadRecord>)
    requires |links| == |photos| && k <= |links|
    ensures |uploads| == ResolvedAmong(links, k)
    decreases k
  {
    if k == 0 then []
    else
      var prev := Collect(photos, links, base, isAlbum, k - 1);
      if links[k - 1].Some? then prev + [RecordAt(photos, links, base, isAlbum, k - 1)] else prev
  }

  /** The records collected from the first `k` lookups are faithful to them. */
  lemma {:induction false} CollectFaithful(photos: seq<Photo>, links: seq<Option<Url>>, base: string,
                                           isAlbum: bool, k: nat)
    requires |links| == |photos| && k <= |links|
    ensures FaithfulUpTo(photos, links, base, isAlbum, k, Collect(photos, links, base, isAlbum, k))
    decreases k
  {
    if k > 0 {
      var prev := Collect(photos, links, base, isAlbum, k - 1);
      CollectFaithful(photos, links, base, isAlbum, k - 1);
      if links[k - 1].Some? {
        FaithfulAppend(photos, links, base, isAlbum, k, prev);
      } else {
        FaithfulSkip(photos, links, base, isAlbum, k, prev);
      }
    }
  }

  /**
   * Batch preparation: an empty list is refused, photos whose link lookup
   * failed are dropped, and a batch in which every lookup failed is refused.
   */
  function Prepare(photos: seq<Photo>, links: seq<Option<Url>>, base: string, isAlbum: bool): (r: Prepared)
    requires |links| == |photos|
    ensures r.NoPhotos? <==> |photos| == 0
    ensures r.AllFailed? <==> |photos| > 0 && forall i :: 0 <= i < |links| ==> links[i].None?
    ensures r.Ready? ==> 0 < |r.uploads| == CountResolved(links) <= |photos|
    ensures r.Ready? ==> FaithfulUpTo(photos, links, base, isAlbum, |photos|, r.uploads)
  {
    if |photos| == 0 then NoPhotos
    else
      var uploads := Collect(photos, links, base, isAlbum, |photos|);
      CollectFaithful(photos, links, base, isAlbum, |photos|);
      NoneResolved(links, |links|);
      if |uploads| == 0 then AllFailed else Ready(uploads)
  }

  /** `savedEntries.length`: the id count, or `undefined` (None) when the body has no `public_ids`. */
  function SuccessCount(publicIds: Option<seq<string>>): (n: Option<nat>)
    ensures n.Some? <==> publicIds.Some?
    ensures n.Some? ==> n.value == |publicIds.value|
  {
    match publicIds
    case Some(ids) => Some(|ids|)
    case None => None
  }

  /** The reply after an upload: full success only when the two counts are equal. */
  function Decide(success: Option<nat>, total: nat, isAlbum: bool): (r: Reply)
    ensures r.SavedAll? || r.SavedSome?
    ensures r.SavedAll? <==> success == Some(total)
    ensures r.SavedAll? ==> r.isAlbum == isAlbum
    ensures r.SavedSome? ==> r.success == success && r.total == total
  {
    if success == Some(total) then SavedAll(isAlbum) else SavedSome(success, total)
  }

  /**
   * One run of the batch processor, given each photo's link lookup and the
   * gateway's answer. Exactly one reply is produced; the gateway is called (with
   * the whole batch) only when at least one link resolved.
   */
  function Process(photos: seq<Photo>, links: seq<Option<Url>>, base: string, isAlbum: bool,
                   gateway: GatewayAnswer): (r: Outcome)
    requires |links| == |photos|
    ensures |photos| == 0 ==> r == Outcome(None, NoPhotosDetected)
    ensures r.sent.Some? <==> CountResolved(links) > 0
    ensures |photos| > 0 && r.sent.None? ==> r.reply == SaveFailed
    ensures r.sent.Some? ==> |r.sent.value| == CountResolved(links)
    ensures r.sent.Some? ==> FaithfulUpTo(photos, links, base, isAlbum, |photos|, r.sent.value)
    ensures r.sent.Some? && gateway.Rejected? ==> r.reply == SaveFailed
    ensures r.reply.SavedAll? <==>
              r.sent.Some? && gateway.Accepted? && gateway.publicIds.Some?
              && |gateway.publicIds.value| == |r.sent.value|
    ensures r.reply.SavedAll? ==> r.reply.isAlbum == isAlbum
    ensures r.reply.SavedSome? ==>
              r.sent.Some? && gateway.Accepted?
              && r.reply == SavedSome(SuccessCount(gateway.publicIds), |r.sent.value|)
    ensures r.sent.Some? && gateway.Accepted? ==>
              r.reply == Decide(SuccessCount(gateway.publicIds), |r.sent.value|, isAlbum)
  {
    match Prepare(photos, links, base, isAlbum)
    case NoPhotos => Outcome(None, NoPhotosDetected)
    case AllFailed => Outcome(None, SaveFailed)
    case Ready(uploads) =>
      match gateway
      case Rejected => Outcome(Some(uploads), SaveFailed)
      case Accepted(ids) => Outcome(Some(uploads), Decide(SuccessCount(ids), |uploads|, isAlbum))
  }
}

module BatchProperties {
  import opened Wrappers
  import opened Messages
  import opened Batch
  import Decimal

  /** A record describing a resolved photo is the record built for its index. */
  lemma DescribedIsRecordAt(photos: seq<Photo>, links: seq<Option<Url>>, base: string, isAlbum: bool,
                            u: UploadRecord)
    requires |links| == |photos| && DescribesPhoto(photos, links, base, isAlbum, u)
    ensures links[u.index].Some? && u == RecordAt(photos, links, base, isAlbum, u.index)
  {
  }

  /** When the `k`-th lookup failed, a list faithful to `k` lookups is faithful to `k - 1`. */
  lemma FaithfulNarrowSkip(photos: seq<Photo>, links: seq<Option<Url>>, base: string, isAlbum: bool,
                           k: nat, uploads: seq<UploadRecord>)
    requires |links| == |photos| && 0 < k <= |links| && links[k - 1].None?
    requires FaithfulUpTo(photos, links, base, isAlbum, k, uploads)
    ensures FaithfulUpTo(photos, links, base, isAlbum, k - 1, uploads)
  {
  }

  /** Without its last record, whose index is `k - 1`, a list faithful to `k` lookups is faithful to `k - 1`. */
  lemma FaithfulDropLast(photos: seq<Photo>, links: seq<Option<Url>>, base: string, isAlbum: bool,
                         k: nat, uploads: seq<UploadRecord>)
    requires |links| == |photos| && 0 < k <= |links|
    requires FaithfulUpTo(photos, links, base, isAlbum, k, uploads)
    requires |uploads| > 0 && uploads[|uploads| - 1].index == k - 1
    ensures FaithfulUpTo(photos, links, base, isAlbum, k - 1, uploads[..|uploads| - 1])
  {
    var last := |uploads| - 1;
    var prefix := uploads[..last];
    forall i | 0 <= i < |prefix|
      ensures prefix[i].index < k - 1 && DescribesPhoto(photos, links, base, isAlbum, prefix[i])
    {
      assert prefix[i] == uploads[i];
      assert uploads[i].index < uploads[last].index;
    }
    forall j, l | 0 <= j < l < |prefix|
      ensures prefix[j].index < prefix[l].index
    {
      assert prefix[j] == uploads[j] && prefix[l] == uploads[l];
    }
    forall i | 0 <= i < k - 1 && Resolved(links, i)
      ensures exists m :: 0 <= m < |prefix| && prefix[m].index == i
    {
      var m :| 0 <= m < |uploads| && uploads[m].index == i;
      assert prefix[m] == uploads[m];
    }
  }

  /**
   * When the `k`-th lookup resolved, a list faithful to `k` lookups ends with
   * that photo's record, preceded by a list faithful to `k - 1`.
   */
  lemma FaithfulNarrowLast(photos: seq<Photo>, links: seq<Option<Url>>, base: string, isAlbum: bool,
                           k: nat, uploads: seq<UploadRecord>)
    requires |links| == |photos| && 0 < k <= |links| && links[k - 1].Some?
    requires FaithfulUpTo(photos, links, base, isAlbum, k, uploads)
    ensures |uploads| > 0
    ensures uploads[|uploads| - 1] == RecordAt(photos, links, base, isAlbum, k - 1)
    ensures FaithfulUpTo(photos, links, base, isAlbum, k - 1, uploads[..|uploads| - 1])
  {
    assert Resolved(links, k - 1);
    var j :| 0 <= j < |uploads| && uploads[j].index == k - 1;
    var last := |uploads| - 1;
    assert uploads[last].index == k - 1 by {
      assert forall m :: 0 <= m < last ==> uploads[m].index < uploads[last].index;
    }
    FaithfulDropLast(photos, links, base, isAlbum, k, uploads);
    DescribedIsRecordAt(photos, links, base, isAlbum, uploads[last]);
  }

  /**
   * The faithfulness description pins the batch down completely: any list of
   * records that is faithful to the first `k` lookups is the one preparation builds.
   */
  lemma {:induction false} FaithfulIsCollect(photos: seq<Photo>, links: seq<Option<Url>>, base: string,
                                             isAlbum: bool, k: nat, uploads: seq<UploadRecord>)
    requires |links| == |photos| && k <= |links|
    requires FaithfulUpTo(photos, links, base, isAlbum, k, uploads)
    ensures uploads == Collect(photos, links, base, isAlbum, k)
    decreases k
  {
    if k > 0 {
      if links[k - 1].None? {
        assert uploads == Collect(photos, links, base, isAlbum, k - 1) by {
          FaithfulNarrowSkip(photos, links, base, isAlbum, k, uploads);
          FaithfulIsCollect(photos, links, base, isAlbum, k - 1, uploads);
        }
      } else {
        assert Resolved(links, k - 1);
        var prefix := uploads[..|uploads| - 1];
        var u := RecordAt(photos, links, base, isAlbum, k - 1);
        assert prefix == Collect(photos, links, base, isAlbum, k - 1)
               && uploads[|uploads| - 1] == u by {
          FaithfulNarrowLast(photos, links, base, isAlbum, k, uploads);
          FaithfulIsCollect(photos, links, base, isAlbum, k - 1, prefix);
        }
        assert uploads == prefix + [u];
      }
    }
  }

  /**
   * An album caption is the base caption and `" ("`, then the position and the
   * total in decimal separated by a slash, then `")"`: both numbers can be read
   * back from it, and neither is written with a leading zero.
   */
  lemma AlbumCaptionShowsCounts(base: string, position: nat, total: nat)
    ensures var r := AlbumCaption(base, position, total);
            && |base| + 6 <= |r| && r[..|base| + 2] == base + " (" && r[|r| - 1] == ')'
            && exists j :: |base| + 2 < j < |r| - 1 && r[j] == '/'
                 && Decimal.AllDigits(r[|base| + 2..j]) && Decimal.DigitsValue(r[|base| + 2..j]) == position
                 && (r[|base| + 2] == '0' ==> position == 0)
                 && Decimal.AllDigits(r[j + 1..|r| - 1]) && Decimal.DigitsValue(r[j + 1..|r| - 1]) == total
                 && (r[j + 1] == '0' ==> total == 0)
  {
    var head := base + " (";
    var a := Decimal.NatToString(position);
    var t := Decimal.NatToString(total);
    var r := AlbumCaption(base, position, total);
    assert r == head + a + "/" + t + ")";
    var j := |head| + |a|;
    assert r[..|head|] == head && r[|head|..j] == a && r[j] == '/' && r[j + 1..|r| - 1] == t;
    Decimal.DigitsValueOfNatToString(position);
    Decimal.DigitsValueOfNatToString(total);
  }

  /** Different album positions give different captions. */
  lemma AlbumCaptionInjective(base: string, p: nat, q: nat, total: nat)
    requires AlbumCaption(base, p, total) == AlbumCaption(base, q, total)
    ensures p == q
  {
    var head := base + " (";
    var a := Decimal.NatToString(p);
    var b := Decimal.NatToString(q);
    var tail := "/" + Decimal.NatToString(total) + ")";
    assert AlbumCaption(base, p, total) == head + a + tail;
    assert AlbumCaption(base, q, total) == head + b + tail;
    assert |a| == |b|;
    assert a == (head + a + tail)[|head|..|head| + |a|];
    assert b == (head + b + tail)[|head|..|head| + |b|];
    Decimal.NatToStringInjective(p, q);
  }

  /** In an album batch, every uploaded photo gets its own caption. */
  lemma AlbumUploadCaptionsDistinct(photos: seq<Photo>, links: seq<Option<Url>>, base: string,
                                    uploads: seq<UploadRecord>)
    requires |links| == |photos|
    requires FaithfulUpTo(photos, links, base, true, |photos|, uploads)
    ensures forall j, l :: 0 <= j < l < |uploads| ==> uploads[j].caption != uploads[l].caption
  {
    forall j, l | 0 <= j < l < |uploads|
      ensures uploads[j].caption != uploads[l].caption
    {
      assert DescribesPhoto(photos, links, base, true, uploads[j]);
      assert DescribesPhoto(photos, links, base, true, uploads[l]);
      if uploads[j].caption == uploads[l].caption {
        AlbumCaptionInjective(base, uploads[j].index + 1, uploads[l].index + 1, |photos|);
      }
    }
  }

  /**
   * When some but not all lookups fail, only the survivors are sent, yet the
   * reply compares the saved count with the number SENT, not with the number of
   * photos received: a backend that saves every sent record yields the
   * full-success reply although photos were dropped.
   */
  lemma DroppedPhotosStillFullSuccess(photos: seq<Photo>, links: seq<Option<Url>>, base: string,
                                      isAlbum: bool, ids: seq<string>)
    requires |links| == |photos|
    requires 0 < CountResolved(links) < |photos|
    requires |ids| == CountResolved(links)
    ensures Process(photos, links, base, isAlbum, Accepted(Some(ids))).sent.Some?
    ensures |Process(photos, links, base, isAlbum, Accepted(Some(ids))).sent.value| == |ids| < |photos|
    ensures Process(photos, links, base, isAlbum, Accepted(Some(ids))).reply == SavedAll(isAlbum)
  {
  }

  /** A backend body without `public_ids` yields the partial reply with an undefined count. */
  lemma MissingIdsGivePartialReply(photos: seq<Photo>, links: seq<Option<Url>>, base: string, isAlbum: bool)
    requires |links| == |photos| && CountResolved(links) > 0
    ensures Process(photos, links, base, isAlbum, Accepted(None)).reply == SavedSome(None, CountResolved(links))
  {
  }
}
