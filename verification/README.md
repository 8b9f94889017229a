# Album batching of a photo-collecting chat bot, in Dafny

The bot accepts photo messages from one chat and uploads them to a backend.
Photos that belong to one album (a Telegram media group) arrive as separate
messages; the bot buffers them per album id and uploads the album as one batch
once no new photo has arrived for `ALBUM_PROCESSING_DELAY` (1500 ms). This
project models that core and proves its properties:

- **the album debounce cache** (`mediaGroupCache`, the album branch of the photo
  handler, `processAlbumBulkOptimized`) as a pure state machine over an
  immutable `map<AlbumId, Buffer>`: `Arrive` appends a photo and restarts the
  timer, `Flush` takes a buffer out once, and `Tick(now)` flushes every buffer
  whose deadline has passed (module `Album`, traces in module `Debounce`);
- **the batch preparation of `processPhotosBulk`** as pure functions over the
  photo list and one `Option<Url>` per photo, standing for the file-link
  lookup: the empty-input check, dropping failed lookups, building upload
  records with `"<caption> (i/n)"` album captions or the default single-photo
  caption, and choosing the one reply from the upload counts (module `Batch`).

Time is an abstract integer clock in milliseconds. A buffer's pending timer is
its `deadline`; clearing and re-arming the timer is overwriting the deadline
with `now + 1500`; the timer firing is a `Tick` at a time at or after the
deadline. Each handler step is atomic, as in the single-threaded event loop.
The upload gateway is a parameter (`GatewayAnswer`): rejected, or accepted with
or without a `public_ids` list.

Modules: `Wrappers` (Option), `Decimal` (number rendering inside captions),
`Messages` (photo messages, default caption), `Batch` and `BatchProperties`,
`Album` and `AlbumProperties`, `Debounce` (event traces), `Bot` (handler or
flush feeding the batch processor).

Where the code's behaviour is easy to misread, the model follows the code,
with one exception (the flush, the last item below):

- The album caption is fixed by the FIRST photo of the album (its caption, or
  `'A cutie!'` when it has none), not by the first photo that carries a caption
  (index.js:167-178).
- The reply compares the number of saved ids with the number of records SENT,
  not with the number of photos received: when some links fail and the backend
  saves every sent record, the reply is the full-success one
  (`BatchProperties.DroppedPhotosStillFullSuccess`, index.js:88-94).
- A backend answer without `public_ids` makes `savedEntries` the number `1`,
  whose `length` is `undefined`; the reply is then the partial one with an
  undefined count (`SuccessCount` returns `None`,
  `BatchProperties.MissingIdsGivePartialReply`).
- The flush of an album answers the message of its LATEST photo, because the
  surviving timer is the one armed by the latest arrival (index.js:182-185).
- Exception: the flush is modelled as one atomic take-and-clear of the
  album's entry. The code keeps the entry in the cache until the upload has
  finished and deletes it only afterwards (index.js:116-123). A photo of the
  album that arrives during the upload is then either lost or causes a second
  upload of the whole album, as explained under `Album.Flush` in "Left out".

## Model

| member | source | states |
|---|---|---|
| Messages.OrDefault | index.js:167 | the caption falls back to `'A cutie!'` exactly when it is empty or missing, and is never empty afterwards |
| Messages.OrDefaultIdempotent | index.js:73 | applying the fallback a second time in the single-photo path changes nothing |
| Messages.HighestQuality | index.js:166 | the photo taken from a message is its last size, the highest resolution, and so one of its sizes |
| Messages.AlbumOf | index.js:169-170 | a message belongs to an album exactly when it carries a non-empty media group id, and then to that id |
| Decimal.NatToString | index.js:72 | a number inside a caption renders as a non-empty run of digits without a leading zero |
| Decimal.DigitsValueOfNatToString | index.js:72 | reading the rendered digits back gives the number |
| Batch.NoneResolved | index.js:79 | no link resolved exactly when every lookup failed |
| Batch.Collect | index.js:64-77 | the records built from the first k lookups are as many as the resolved links among them |
| Batch.CollectFaithful | index.js:64-77 | the records are exactly the photos whose link resolved, in their original order, each with its own link, photo and caption |
| BatchProperties.FaithfulIsCollect | index.js:64-77 | any record list with those properties is the one built, so the description determines the batch |
| Batch.Prepare | index.js:46-81 | empty input is refused, a batch whose every lookup failed is refused, and otherwise the non-empty batch of surviving photos is produced |
| Batch.ItemCaption | index.js:71-73 | every caption is non-empty; the photo at 0-based index i of an album of n photos gets the album caption for position i + 1 of n; a single photo keeps a non-empty caption and gets `'A cutie!'` otherwise |
| Batch.RecordAt | index.js:65-75 | the record built for a photo whose link resolved carries that link, the photo's own index, the photo itself and its caption, so it matches the description of an upload record for that photo |
| BatchProperties.AlbumCaptionShowsCounts | index.js:72 | an album caption is the base caption and `" ("`, then the position and the total in decimal separated by `/`, then `")"`; both numbers can be read back from it, and neither is written with a leading zero |
| BatchProperties.AlbumCaptionInjective | index.js:71-72 | album captions `"<caption> (i/n)"` for different positions differ |
| BatchProperties.AlbumUploadCaptionsDistinct | index.js:71-72 | every record of an album batch carries its own caption |
| Batch.SuccessCount | index.js:85-88 | the saved count is the number of returned ids, and undefined when the answer has no id list |
| Batch.Decide | index.js:92-94 | the reply is full success (for an album or a photo) exactly when the saved count equals the sent count, and the partial reply with both counts otherwise |
| Batch.Process | index.js:45-106 | one reply per batch; the gateway gets the whole surviving batch only when some link resolved; empty input, all lookups failed and a rejected upload give their replies; an accepted upload gets the reply its counts decide, full success when the saved count equals the sent count and otherwise the partial reply with both counts |
| BatchProperties.DroppedPhotosStillFullSuccess | index.js:88-94 | photos dropped for failed lookups do not stop the full-success reply when every sent record is saved |
| BatchProperties.MissingIdsGivePartialReply | index.js:85-94 | an answer without an id list yields the partial reply with an undefined saved count |
| Album.Arrive | index.js:172-185 | an arrival adds only its own album's entry, appends one photo at the end, keeps an existing caption or sets the new one, restarts the deadline at now + 1500, and changes no other album |
| Album.Flush | index.js:109-123 | the album's entry is removed in every case and nothing else changes; a job is produced exactly when a non-empty buffer was there, with its photos, caption and album flag |
| Album.Tick | index.js:182-185 | the clock flushes exactly the albums whose deadline has passed, each into a job of its own buffer, and keeps every other album unchanged |
| Album.HandlePhoto | index.js:163-190 | an album photo is buffered and nothing is processed; any other photo is processed at once alone, as a single photo, with the fallback caption |
| AlbumProperties.TickAgreesWithFlush | index.js:182-184 | the clock flushes a due album exactly as its own timer callback would, and leaves albums that are not due alone |
| AlbumProperties.NoSecondFlush | index.js:121-123 | an album flushed by one tick is not flushed again by a later tick without a new arrival |
| AlbumProperties.NotDueSurvivesTick | index.js:181-185 | a buffer whose timer has not expired survives the clock unchanged and is not flushed |
| AlbumProperties.ArrivalAfterFlushStartsFresh | index.js:172-180 | a photo arriving after its album was flushed starts a fresh buffer with only that photo and its caption |
| AlbumProperties.ValidTickFlushesEveryDueAlbum | index.js:110-117 | in a cache whose buffers are non-empty, every due album produces a non-empty job |
| Debounce.Step | index.js:163-190 | a photo message goes to the photo handler, leaving the cache and the single-photo job the handler gives; it flushes no album, and processes a single photo exactly when it belongs to no album; the clock leaves the cache and the jobs of a tick, processes no single photo, and flushes exactly the albums whose timer has expired and whose buffer holds photos |
| Debounce.Run | index.js:163-190 | running a trace of events produces exactly one output per event |
| Debounce.RunOutputsFit | index.js:163-190 | in every run, each photo message flushes no album and each clock event processes no single photo |
| Debounce.RunAppend | index.js:163-190 | running two traces one after the other is running their concatenation: the final cache and the outputs agree |
| Debounce.StepBeforeDeadline | index.js:180-185 | an event before an album's deadline never flushes it; only a photo of that album changes its buffer, by appending and restarting the timer |
| Debounce.QuietBufferGrows | index.js:172-185 | while each event comes less than 1500 ms after the album's latest photo, the buffer collects all its photos in arrival order under an unchanged caption, with the deadline and answered message of the latest photo |
| Debounce.QuietNoFlush | index.js:181-185 | while each event comes less than 1500 ms after the album's latest photo, the album is never flushed |
| Debounce.BurstFlushesOnce | index.js:163-190 | photos of an album each within 1500 ms of the previous are flushed exactly once, together, in arrival order, with the first photo's caption, and the entry is gone afterwards |
| Debounce.SeparatedBurstsFlushSeparately | index.js:121-123 | two bursts of one album, separated by a clock event at or after the first burst's deadline, give two separate jobs with their own photos and captions |
| Debounce.RunKeepsValid | index.js:172-180 | no trace ever leaves an empty buffer in the cache |
| Bot.RunJob | index.js:117 | processing a job gives the empty-input reply exactly when the job has no photos; it uploads exactly when some link resolved, and then sends the job's faithful batch; an accepted upload gets the reply its counts decide; a rejected upload or a batch with no resolved link gets the failure reply; a full-success reply speaks of an album exactly when the job is one |
| Bot.SinglePhotoWithoutCaption | index.js:163-190 | a single photo without caption is uploaded alone as `'A cutie!'` and one saved id gives the full-success reply for a photo |
| Bot.FlushedAlbumProcessedAsAlbum | index.js:116-117 | a flushed album is processed as an album, never gets the empty-input reply, and every record is captioned with the album caption and its position |
| Bot.AllLookupsFailed | index.js:79-81 | a batch whose every lookup failed is never uploaded and gets the one generic failure reply |

## Left out

- Bot wiring, the web server, webhook or polling setup, the health endpoint and signal handlers (index.js:1-17, 204-233): process bootstrap and I/O.
- The authorization check (index.js:36-42): a single equality on the chat id; the handler is modelled from the point where it passed.
- Text and command handlers, the HTML greeting and `safeReply` with its plain-text fallback (index.js:22-33, 126-159, 192-200): presentation; replies are the `Reply` datatype, not their wording.
- The catch in `processAlbumBulkOptimized` (index.js:118-120): `processPhotosBulk` catches its own failures, so only a failing reply delivery reaches it, and reply delivery is not modelled.
- Batch.Process: the reply to an accepted upload is sent inside the `try` (index.js:96-99), with the user's `first_name` put into the HTML unescaped (index.js:97). If sending it fails (a name containing `<` or `&` can cause that), the `catch` sends the generic failure reply as well (index.js:101-103), although the upload succeeded; the model gives only the reply the counts decide.
- The upload and metadata HTTP client in services/kittyService.js: its answer is the `GatewayAnswer` parameter.
- Link resolution: its outcome per photo is the `Option<Url>` parameter; the lookups run in parallel in index.js:54-61, which does not change the result.
- The clock part of the file name `photo_<Date.now()>_<index>.jpg`: only the index is kept in `UploadRecord`.
- Real timers: a timer firing is a `Tick` that the environment delivers at or after the deadline; the model does not force ticks to happen.
- Debounce.Step: a photo message does not first fire timers that are already overdue. Two photos of one album 2000 ms apart with no clock event between them are therefore buffered together. The separation results (`Debounce.SeparatedBurstsFlushSeparately`) require a clock event at or after the deadline.
- Album.Flush: removes the album's entry when its timer fires, before the upload. index.js deletes it only in the `finally` after `await processPhotosBulk` (index.js:116-123). That upload can take up to 15 s (the client timeout, services/kittyService.js:11).
  - A photo of the album that arrives during the upload finds the entry (index.js:172). It is pushed onto the very array being uploaded (index.js:180), after the lookups already ran (index.js:54-61). If it arrives while the links are being fetched, it also raises the total `n` in the `(i/n)` captions (index.js:72). Its arrival re-arms the timer (index.js:182-184).
  - If the upload finishes less than 1500 ms after that photo arrived, the `finally` deletes the entry first. The re-armed timer then finds nothing (index.js:110-113), so the photo is lost without a reply.
  - If the upload is still running 1500 ms after that photo arrived, the timer finds the entry still present and non-empty (index.js:110-111). It calls `processPhotosBulk` again on the same array (index.js:117), so every earlier photo of the album is uploaded a second time and a second reply is sent. The later of the two `finally` blocks (index.js:122) can delete a fresh buffer started after the first delete, and that buffer's photos are then lost.
  - In the code, therefore, one buffer can be flushed twice or a photo can be dropped. In the model, such a photo starts a fresh buffer and is flushed on its own. `AlbumProperties.ArrivalAfterFlushStartsFresh`, `Debounce.BurstFlushesOnce` (exactly once) and `Debounce.SeparatedBurstsFlushSeparately` rely on this atomic flush.
- Interleaving at `await` points: each handler step and each flush is atomic, so neither outcome of `Album.Flush` above is modelled.
- A photo message with no sizes: the platform always sends at least one, so `HandlePhoto` requires it.
