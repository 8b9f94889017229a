/** The inbound messaging-platform data the core consumes. */
module Messages {
  import opened Wrappers

  /** Album (media group) identifier supplied by the platform. */
  type AlbumId = string

  /** Identifier of an inbound message; replies are threaded to it. */
  type MessageRef = nat

  /** One stored photo size; only its file id is used, to resolve a download link. */
  datatype Photo = Photo(fileId: string)

  /**
   * An inbound photo message. `sizes` lists the same picture at increasing
   * resolutions; an absent caption is the empty string (JavaScript treats both
   * as false), and an absent album id is `None`.
   */
  datatype PhotoMessage = PhotoMessage(
    messageId: MessageRef,
    sizes: seq<Photo>,
    caption: string,
    mediaGroupId: Option<AlbumId>)

  const DefaultCaption: string := "A cutie!"

  /** `caption || 'A cutie!'`: the empty (or missing) caption falls back to the default. */
  function OrDefault(caption: string): (r: string)
    ensures r != ""
    ensures caption != "" ==> r == caption
    ensures caption == "" ==> r == DefaultCaption
  {
    if caption == "" then DefaultCaption else caption
  }

  /** Applying the fallback a second time changes nothing. */
  lemma OrDefaultIdempotent(caption: string)
    ensures OrDefault(OrDefault(caption)) == OrDefault(caption)
  {
  }

  /** `photo.slice(-1)[0]`: the last, highest-resolution size. */
  function HighestQuality(m: PhotoMessage): (p: Photo)
    requires |m.sizes| > 0
    ensures p in m.sizes
    ensures p == m.sizes[|m.sizes| - 1]
  {
    m.sizes[|m.sizes| - 1]
  }

  /** The album a message belongs to; an empty id is falsy and means "no album". */
  function AlbumOf(m: PhotoMessage): (a: Option<AlbumId>)
    ensures a.Some? <==> m.mediaGroupId.Some? && m.mediaGroupId.value != ""
    ensures a.Some? ==> a.value == m.mediaGroupId.value
  {
    match m.mediaGroupId
    case Some(id) => if id == "" then None else Some(id)
    case None => None
  }
}
