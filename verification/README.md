# Machine logbook: a verified model

The system keeps photo logbooks and a message timeline for machines. A Go server
stores rows in PostgreSQL and photo files in an object store; a browser client
uploads, rotates, lists, and follows live events over a socket. This project models
the parts of it in which several processes meet, and proves what they promise.

- **Stored objects** (`Database`, `Repository`, `LogbookService`, `Uploads`, `Lifecycle*`).
  A key is reserved, its object is put, and one transaction trades the reservation for
  a photo row. Removals and rotations move keys back into the queue, and workers claim,
  delete and complete them. `Lifecycle` interleaves all of this; every SQL transaction
  and every store call is one atomic step, a transaction may fail, a request may die at
  any point with a put under way, and a worker may keep a claimed list for ever.
- **Rotation** (`Turns`, `Pixels`, `Markers`, `Sequences`, `Formats`, `RotationQueue`, `RotationWorld`,
  `ImageRotation`, `RotationEndToEnd`). The browser queue that turns clicks into net
  angles, the pixel loop, the marker update, and the compare-and-swap on the server.
- **Byte scanners** (`Bytes`, `Jpeg`, `Containers`). The EXIF orientation of a JPEG file
  and the chunks of a PNG or WebP file.
- **Timeline** (`Pagination`, `Timeline`, `Hub`, `Conversation*`, `Sends`). Keyset pages, the
  hub with bounded channels, the client that joins history to live events, and its map
  of pending sends.
- **Access** (`Sessions`, `LoginLimiter`). Logins racing with resets, and the limiter of
  login attempts.

Operations that change state are methods proved against specification functions; the
theorems are about those functions, over whole runs. What a specification function decides
is in turn stated on the fields themselves, without its name: when a transaction succeeds,
which answer it gives otherwise, and what every row, file, channel or promise is afterwards
(`Database` from "row by row" on, and lemmas such as `Sends.RepliesSettle`,
`Sessions.AfterReset` or `RotationQueue.RunTells`).

## Assumptions

- UUIDs and session tokens are fresh: no step chooses a key, photo id, message id or token
  that was chosen before. `Lifecycle.RequestEnabled`, `Conversation.Enabled` and
  `Sessions.Next` say so, and `Uploads.KeysTellApart` shows that fresh UUIDs make fresh keys.
- A transaction and a store call are atomic. A call may fail before its effect or after it.
- Clocks are parameters. They do not run backwards where a theorem says so.
- Image decoders and encoders, hashes, password hashing and full-text matching are
  parameters. `ImageRotation.Coherent` assumes of the decoder of every format that it keeps
  the size in the header, and `ImageRotation.PngLossless` that a PNG file keeps every
  colour and the size. Encoders may fail and may write files above the byte limit, which
  the code then refuses; nothing is assumed of the pixels of a JPEG file.
- The browser runs the timer of a request before its clock passes the deadline
  (`Sends.Enabled`); a request whose timer is late settles when the timer runs.
- Colours are those of the output buffer, so a 16-bit PNG counts as what the first
  conversion makes of it.
- Marker coordinates are real numbers.

## Where the code falls short of a simple claim

Each of these has its exact condition and a run in which it happens.

- Events are published after the commit and outside it. Whatever their order, the last word
  that the client has about a message decides (`ConversationSafety.LastWord`): of any number
  of waiting events the client ends with the state of the table if and only if the last one
  published says what the last commit says (`PublicationOrder`), and `StaleRun` is a run that
  ends with an old text. `NoGap` and `Converges` therefore ask that the events of one message
  are published in the order of their commits.
- A commit whose answer is lost is reported as a failure and never announced.
  `ConversationSafety.Unannounced` says for creations, edits and removals when a client is
  wrong after it, and `ForgottenRun` is a run that ends so; `NoGap` asks that this does not
  happen.
- A rotation whose answer is lost is applied again on retry exactly when the rotated file
  has the same hash as the original and can be rotated again (`RotationWorld.LostAnswer`);
  in `LostAnswerTurnsTwice` one click turns a marker twice.
- An object is lost track of exactly through a put that lands after its row was claimed
  and completed, or a completion after the object came back (`LifecycleLeaks.RunLeaks`);
  `LeakingRuns` are runs with either.
- The limiter lets up to 19 attempts of one address through in a half-open minute, since
  the attempt that opens a window is one of its ten (`LoginLimiter.RateLimited`), and
  `NineteenPass` reaches the bound.

## Model

| member | source | states |
|---|---|---|
| LifecycleSafety.NamedObjectsAreStored | internal/repository/repository.go:144-169 | over every interleaving of uploads, rotations, removals, workers with stale claims, crashes and failed transactions, the object of every photo row is in the store, and no key that a worker holds is named by a row |
| LifecycleSafety.StepKeeps | internal/service/logbooks.go:348-373 | each transaction and each store call keeps the key invariant: reserved, attached and queued keys apart, claims permanent, files under reserved keys as chosen |
| LifecycleSafety.RunKeeps | internal/service/logbooks.go:252-272 | the key invariant holds after every run |
| LifecycleSafety.PromotedIsStored | internal/repository/repository.go:150-157 | a reservation that can still be promoted was never claimed, so once all puts are done the object it stands for is in the store |
| Lifecycle.CommitAttaches | internal/repository/repository.go:144-169 | whichever of the three transactions commits, it promotes exactly the reservations of the request and attaches exactly its photos to its parent |
| Lifecycle.SwapReplaces | internal/repository/photo_rotation.go:44-65 | a committed rotation exchanges the new key for the old one, in the row and in the queue |
| Lifecycle.RemovalDetaches | internal/repository/repository.go:347-365 | whichever removal commits, exactly the keys of the removed photos are queued |
| Lifecycle.ContentsFiles | internal/service/logbooks.go:358-371 | the files of a batch, key by key |
| LifecycleLeaks.KeysMoveForward | internal/repository/repository.go:347-394 | a key moves only forward through fresh, reserved, attached, queued, claimed and gone, and each step takes an allowed edge |
| LifecycleLeaks.StepForward | internal/repository/repository.go:391-394 | one step moves every key along an allowed edge or leaves it |
| LifecycleLeaks.RemovalNeverConflicts | internal/repository/repository.go:347-365 | removing a logbook succeeds if and only if it exists: queueing its keys cannot meet an existing row |
| LifecycleLeaks.MessageRemovalNeverConflicts | internal/repository/messages.go:150-177 | removing a message succeeds if and only if it exists on that machine, the machine is active and the user is its author: queueing its keys cannot meet an existing row |
| LifecycleLeaks.RotationNeverConflicts | internal/repository/photo_rotation.go:28-69 | a rotation whose file is stored commits if and only if the angle is legal, the parent is there, the photo is under it, the user is its uploader or an admin, hash and key are as read, and the reservation is neither claimed nor expired |
| LifecycleLeaks.StepLeaks | internal/service/logbooks.go:360-372 | from a state in which every stored object is attached or queued, a step loses track of one if and only if it is a put after the row was completed, or the completion of a row whose object came back |
| LifecycleLeaks.RunLeaks | internal/service/logbooks.go:353-372 | a run never loses track of an object if and only if it takes no such step |
| LifecycleLeaks.TimelyPutsNeverLeak | internal/service/logbooks.go:353-355 | when each put lands before its reservation is claimed, no object is ever lost track of |
| LifecycleLeaks.LeakingRuns | internal/service/logbooks.go:348-373 | both leaks happen: a run from the empty tables in which a put lands behind the completion of its row, and one in which the completion comes behind the put |
| LifecycleRotation.RotationsAreLinear | internal/repository/photo_rotation.go:34-43 | of all rotations that read the same stored object, at most one commits |
| LifecycleRotation.RunDescribed | internal/service/photo_rotation.go:61-72 | after any run, the content type, size and hash of every photo row are those of the stored file |
| LifecycleRotation.RunTraces | internal/repository/photo_rotation.go:44-65 | after any run, whatever the formats of the photos, each marker is where the angles committed since its placement took it |
| LifecycleImages.RunShown | internal/service/photo_rotation.go:61-80 | after any run, whatever the other photos hold, a photo whose first file is in a lossless format is still in it, and its stored image is the first one with the committed angles applied in order |
| LifecycleRotation.MarkersStayOnThePhoto | migrations/00007_photo_markers.sql:5-6 | no run of rotations moves a marker of an existing photo out of the unit square, so the constraint is never violated |
| LifecyclePages.RunPages | internal/repository/repository.go:158-169 | after any interleaving the page numbers of every logbook and message are exactly 1..n |
| LifecyclePages.PagesAreExact | internal/repository/repository.go:158-162 | distinct numbers between 1 and the count are exactly 1..n |
| LifecyclePages.RunLimited | internal/repository/repository.go:119-127 | no logbook ever holds more photos than the limit given to creations and appends |
| LifecyclePlaces.PhotosKeepTheirPlaces | internal/repository/photo_rotation.go:44-52 | over any run, rotations included, a photo that is still there has the parent and the page it had, and the id of one that is gone is never taken again |
| LifecycleReservations.RunClaimsDue | internal/repository/repository.go:370-371 | over any run, the time of every claimed row has come: a reservation that has not expired is never claimed |
| LifecycleReservations.ReservationsStand | internal/service/logbooks.go:353-355 | over any run, from the step in which a request begins and for as long as its reservations have not expired, each of them stands: unclaimed, with the time that was asked for |
| LifecycleReservations.UnexpiredCommits | internal/repository/repository.go:77-109 | so a request that has stored its files before its reservations expire commits its logbook if and only if the references are active and the id and the slot are free, whoever cleaned up meanwhile |
| LifecycleCommits.CreateCommits | internal/repository/repository.go:77-109 | a stored batch commits as a new logbook if and only if its references are active, the slot is free and every reservation stands |
| LifecycleCommits.AppendCommits | internal/repository/repository.go:111-142 | a stored batch is appended if and only if the logbook exists and has room and every reservation stands |
| LifecycleCommits.MessageCommits | internal/repository/messages.go:22-69 | a stored batch commits with its message if and only if the machine is active, the id is new and every reservation stands |
| LifecycleMessages.RunSays | internal/repository/messages.go:213-215 | in every interleaving every message has text that is not blank or at least one photo |
| Database.PromoteIff | internal/repository/repository.go:151-157 | the row count accepts exactly the batches of different, unclaimed, unexpired reservations |
| Database.PromoteRows | internal/repository/repository.go:151-157 | a promotion succeeds if and only if the keys differ and the row of each is neither claimed nor expired; otherwise the upload has expired |
| Database.ReservationRows | internal/repository/repository.go:68-75 | a reservation succeeds if and only if the keys differ and are new to the queue; each gets an unclaimed row with the expiry, and the others stay |
| Database.InsertOneIff | internal/repository/repository.go:158-169 | a row is inserted if and only if its id is new and no row of the same table has its key, or its page under the same parent |
| Database.InsertRowsIff | internal/repository/repository.go:158-169 | a batch is inserted if and only if ids and keys differ and there is room for each row on its page |
| Database.CreateIff | internal/repository/repository.go:77-109 | a logbook is created if and only if machine and shift are active, id and slot are free, every reservation is neither claimed nor expired, and there is room for the rows |
| Database.CreateAnswers | internal/repository/repository.go:77-109 | otherwise it answers, in this order, an invalid reference, a conflict, an expired upload or a conflict of rows |
| Database.AppendIff | internal/repository/repository.go:111-142 | photos are appended if and only if the logbook is there, the count stays within the limit, the reservations stand, and there is room for the rows |
| Database.AppendAnswers | internal/repository/repository.go:111-142 | otherwise it answers not found, too many photos, an expired upload or a conflict, in this order |
| Database.CreateMessageIff | internal/repository/messages.go:22-69 | a message is created if and only if the machine is active, the id is new, the reservations stand, and there is room for the rows |
| Database.CreateMessageAnswers | internal/repository/messages.go:22-69 | otherwise it answers an invalid reference, a conflict, an expired upload or a conflict of rows, in this order |
| Database.InsertedRow | internal/repository/repository.go:158-169 | the row of an inserted photo has every field as prepared, its parent and the next page, and its reservation is gone |
| Database.InsertPhotosAttaches | internal/repository/repository.go:144-169 | a successful insert removes exactly the reservations of the batch and adds exactly its rows on the next pages |
| Database.RotationReplaces | internal/repository/photo_rotation.go:44-65 | a committed rotation gives one row the content type, size, hash and key of the new file, moves its markers, and exchanges the new key for the old one in the queue |
| Database.RotationCommits | internal/repository/photo_rotation.go:9-65 | a rotation commits if and only if the angle is 90, -90 or 180, the parent is there, the photo under it, the user an admin or its uploader, hash and key are as read, the reservation is neither claimed nor expired, the old key is not queued, and no other row has the new one |
| Database.RotationAnswers | internal/repository/photo_rotation.go:9-70 | otherwise the first check that fails decides the answer, in the order of the code |
| Database.RotatedPhoto | internal/repository/photo_rotation.go:44-65 | field by field: content type, size, hash and key are those of the new file, parent, page and uploader are unchanged; the old key is queued at once and the reservation is gone |
| Database.DetachDetaches | internal/repository/repository.go:357-364 | a removal queues exactly the keys of the removed photos and keeps every other row |
| Database.RemovalAnswers | internal/repository/messages.go:150-177 | the answers of both removals: not found, then forbidden for anyone but the author of a message, then a conflict if a key is queued already; otherwise exactly the logbook or message is gone |
| Database.DetachedKey | internal/repository/repository.go:357-364 | the key of each removed photo is queued, unclaimed and due at once |
| Database.EditSucceeds | internal/repository/messages.go:186-215 | an edit succeeds if and only if the message is on that active machine, the user is its author, and the text is not blank or a photo remains |
| Database.EditAnswers | internal/repository/messages.go:186-215 | otherwise it answers not found, forbidden for anyone but the author, or invalid, in this order |
| Database.SpaceIff | internal/repository/messages.go:213-213 | white space is what Unicode says: 25 characters |
| Database.ClaimedRow | internal/repository/repository.go:374-386 | claiming sets the mark of the chosen rows and changes nothing else |
| Database.CompletedRow | internal/repository/repository.go:391-394 | completing removes the row of the key if it is claimed, and no other row |
| Strings.StringLessIff | internal/repository/repository.go:370-373 | the order of keys: a proper prefix comes first, otherwise the smaller character at the first difference |
| Database.EditTouches | internal/repository/messages.go:216-221 | an edit stores the new text and, if it differs, the time of the edit; machine, author, every other message and every other table stay as they are |
| Repositories.Repository.ReserveUploads | internal/repository/repository.go:68-75 | all keys are reserved, or none and the tables are unchanged |
| Repositories.Repository.InsertPhotos | internal/repository/repository.go:144-169 | the loop over the rows computes the promotion followed by the inserts, or reports the first failure |
| Repositories.Repository.Create | internal/repository/repository.go:77-109 | the transaction commits its specified state or rolls back to the state before it |
| Repositories.Repository.AppendPhotos | internal/repository/repository.go:111-142 | the transaction commits its specified state or rolls back to the state before it |
| Repositories.Repository.CreateMessage | internal/repository/messages.go:22-69 | the transaction commits its specified state or rolls back; reservations are promoted only when there are photos |
| Repositories.Repository.EditMessage | internal/repository/messages.go:179-226 | the transaction commits its specified state or changes nothing; `EditSucceeds`, `EditAnswers` and `EditTouches` say when and what |
| Repositories.Repository.DeleteMessage | internal/repository/messages.go:150-177 | only the author removes a message; its keys are queued in the same transaction |
| Repositories.Repository.Delete | internal/repository/repository.go:347-365 | a logbook goes with its photo rows, and their keys are queued, or nothing changes |
| Repositories.Repository.CheckRotation | internal/repository/photo_rotation.go:9-43 | the refusal of a rotation, check by check in the order of the code; `RotationAnswers` writes the checks out |
| Repositories.Repository.ReplaceRotatedPhoto | internal/repository/photo_rotation.go:9-70 | the compare-and-swap commits its specified state or rolls back to the state before it; `RotationCommits` and `RotatedPhoto` say when and what |
| Repositories.Repository.PendingDeletions | internal/repository/repository.go:367-389 | every key it claims has a row whose time has come and that nobody has locked; if it claims fewer than the limit, it claims all of those, and otherwise the soonest; it marks exactly them |
| Repositories.Repository.Soonest | internal/repository/repository.go:370-373 | the due row that comes before all others by time and then by key |
| Repositories.Repository.TakeSoonest | internal/repository/repository.go:370-373 | the loop takes different rows up to the limit, none of them later than a row it leaves |
| Repositories.Repository.CompleteDeletion | internal/repository/repository.go:391-394 | removes the row of a key if it is claimed, and nothing else |
| Repositories.AddRows | internal/repository/repository.go:69-70 | one multi-row insert adds every row, or none when a key is there already or twice in the batch |
| LogbookService.Logbooks.StorePhotos | internal/service/logbooks.go:348-373 | all keys are reserved for a day before the first put; the puts go in order up to the first failure, and success means that all of them worked |
| LogbookService.Logbooks.Create | internal/service/logbooks.go:93-124 | succeeds if and only if references, date and count are valid, every upload is acceptable, every put works, the commit comes within a day, and the tables have room; a failure leaves no row, and every object it stored lies under a reservation; a success has for every upload a row on its page that describes its bytes, and the object |
| LogbookService.Logbooks.CheckCreation | internal/service/logbooks.go:94-108 | the checks of a creation that look at no file, all of them and their order |
| LogbookService.Logbooks.RotatePhoto | internal/service/photo_rotation.go:20-91 | succeeds if and only if the photo can be read, its file can be rotated, the put works, the keys are free and it takes less than a day; a failed rotation changes no row and no other object; a successful one swaps in the turned file of the bytes it checked against the row |
| LogbookService.Logbooks.ReadOriginal | internal/service/photo_rotation.go:28-66 | hands on a photo if and only if the angle is legal, the photo is under its parent, the user may rotate it, its hash is the expected one, and size and hash agree with the file; otherwise answers the first reason against it |
| LogbookService.Logbooks.Cleanup | internal/service/logbooks.go:252-272 | claims at most 100 rows, all of them due and unlocked; an object goes only through a delete of a claimed key, its row only if the delete works, and every other row and object stays as it is |
| LogbookService.Logbooks.RemoveAll | internal/service/logbooks.go:258-270 | the loop over the claimed keys: each object is deleted and only then its row, up to a cancellation |
| LogbookService.CleanupDrains | internal/service/logbooks.go:252-272 | no row goes before its object, and when every call works the whole batch goes, so the due rows shrink by its size |
| LogbookService.PutAllStores | internal/service/logbooks.go:358-371 | puts under distinct keys store each file under its key and touch nothing else |
| LogbookService.ReservedRows | internal/service/logbooks.go:353-355 | the keys of a batch are reserved, unclaimed, for 86400 seconds from now |
| LogbookService.ReservedCreates | internal/service/logbooks.go:348-373 | once its keys are reserved, a creation commits if and only if that takes less than a day and references, slot and rows are free |
| LogbookService.SwapCommits | internal/service/photo_rotation.go:70-80 | a rotation reserves its key if and only if that is new to the queue, and then commits if and only if that takes less than a day, the photo is as read, for a user who may, and no row has the new key |
| LogbookService.CleanupRows | internal/service/logbooks.go:258-270 | what a cleanup leaves, row by row and object by object |
| Uploads.ValidatePhoto | internal/service/logbooks.go:304-346 | accepts exactly the uploads of the declared size, within the limits, that decode |
| Uploads.RotatableIsAcceptable | internal/service/photo_rotation.go:93-121 | rotation takes on exactly the acceptable uploads with a sound orientation and an allowed container |
| Uploads.PreparePhotos | internal/service/logbooks.go:284-302 | succeeds if and only if it is not cancelled and every upload can be read and is acceptable, and then describes every file under its own UUID |
| Uploads.CheckUpload | internal/service/logbooks.go:304-322 | what reading and checking one upload gives, in the order of the checks |
| Uploads.PreparedFields | internal/service/logbooks.go:284-300 | what is written down of an upload: its content type, size, hash and uploader, and a key of folder, parent, UUID and extension |
| Uploads.KeysTellApart | internal/service/logbooks.go:295-295 | a storage key determines its parent and its UUID |
| Uploads.PreparedKeysDiffer | internal/service/logbooks.go:284-302 | the keys of a batch with different UUIDs are different |
| Pixels.RotatePixels | internal/service/photo_rotation.go:118-157 | for all sizes, 8 orientations and 3 angles the nested loop stays in bounds and its buffer is the upright image turned clockwise by the angle |
| Pixels.WritePixel | internal/service/photo_rotation.go:119-156 | the body of the nested loop writes one cell in bounds and spoils none that was written |
| Pixels.DestinationBijection | internal/service/photo_rotation.go:120-155 | source pixels and output cells correspond one to one |
| Pixels.UprightIsUpright | internal/service/photo_rotation.go:121-143 | every stored pixel is shown where section 8 of TIFF Revision 6.0 puts it |
| Pixels.CornersShown | internal/service/photo_rotation.go:129-146 | the corners in which each of the eight orientations shows the two ends of the first stored row |
| Pixels.OrientedIsDisplay | internal/service/photo_rotation.go:121-143 | the orientation switch computes the position that the sides of row 0 and column 0 define |
| Pixels.RotatedIsTurn | internal/service/photo_rotation.go:144-154 | the angle switch computes one, two or three clockwise quarter turns |
| Pixels.Target | internal/service/photo_rotation.go:120-154 | the two switches together compute the destination of a pixel |
| Pixels.TurnBySum | internal/service/photo_rotation.go:144-154 | turning by a and then by b is turning by a + b |
| Pixels.FullTurn | internal/service/photo_rotation.go:144-154 | four quarter turns change nothing |
| Pixels.CornerTurns | internal/service/photo_rotation.go:147-156 | the top left corner goes to the top right by 90 degrees, to the bottom left by -90 and to the bottom right by 180 |
| Markers.UpdateIsTurn | internal/repository/photo_rotation.go:55-55 | the three cases of the SQL update are the clockwise turns of a point |
| Markers.TurnPointBySum | internal/repository/photo_rotation.go:55-55 | marker turns add up as angles do |
| Markers.TurnKeepsUnitSquare | internal/repository/photo_rotation.go:55-55 | a marker stays in the unit square, and one outside it is never moved in |
| Markers.MarkerFollowsPixel | internal/repository/photo_rotation.go:55-55 | a marker at the centre of an upright pixel lands on the centre of the destination of that pixel, for every size and angle |
| Markers.MarkerFollowsDestination | internal/service/photo_rotation.go:118-157 | the same through the orientation of the stored file |
| Sequences.OneByOneIsSum | frontend/src/lib/photoRotation.js:43-52 | a sequence of turns is one turn by the sum, on pixels and on markers |
| ImageRotation.PixelBound | internal/service/photo_rotation.go:101-103 | the comparison with the quotient bounds width times height |
| ImageRotation.TooLarge | internal/service/logbooks.go:338-340 | refuses exactly the sizes that are not positive or have too many pixels |
| ImageRotation.Inspect | internal/service/photo_rotation.go:93-117 | the checks before decoding accept exactly what the limits, the orientation and the container allow |
| ImageRotation.RotateFile | internal/service/photo_rotation.go:93-173 | succeeds exactly on rotatable photos whose turned image fits, and then writes the encoding of the displayed photo turned clockwise; otherwise reports which of the two kinds of failure it was |
| ImageRotation.RotatedFile | internal/service/photo_rotation.go:93-173 | written out: the limits, the scanned orientation of a JPEG, the turn, the encoder and the content type of what a rotation writes |
| ImageRotation.RotatedShowsTheTurn | internal/service/photo_rotation.go:158-172 | a rotated file that is not JPEG shows the turned photo and can be rotated again |
| ImageRotation.RotationsCompose | internal/service/photo_rotation.go:93-173 | two rotations of a file that is not JPEG write the very bytes that one rotation by their sum writes |
| ImageRotation.RotationsAdd | internal/service/photo_rotation.go:93-173 | after two rotations the file shows the first photo turned by the sum |
| RotationEndToEnd.PipelineIsLossless | internal/service/photo_rotation.go:93-173 | for every library whose PNG encoder is lossless, the PNG and WebP files that rotation takes on are a lossless format: what it writes stays in the format and shows the photo turned, and what it refuses changes nothing |
| RotationEndToEnd.PipelineIsRotation | internal/service/photo_rotation.go:93-173 | the pipeline of the theorems writes a file exactly when the rotation of the server succeeds with it, JPEG included |
| RotationEndToEnd.ClicksReachThePixels | frontend/src/lib/photoRotation.js:43-60 | when the queue is at rest without an error, the markers of any photo are where every click in turn would have moved them, and the stored bytes of a PNG or WebP photo decode to the photo with every click applied in turn |
| Turns.NormalizeIsResidue | frontend/src/lib/photoRotation.js:1-1 | the double remainder is the residue modulo 360, for negative angles too |
| RotationQueue.RunConserves | frontend/src/lib/photoRotation.js:14-60 | over any run, the clicks are congruent to what is committed, in flight and queued, the preview to everything since the last onSaved, and nothing is stranded: at rest without an error the queue is empty |
| RotationQueue.RunChained | frontend/src/lib/photoRotation.js:21-42 | saves never overlap, each starts from the photo that the last one returned, and each sends 90, -90 or 180 |
| RotationQueue.Drains | frontend/src/lib/photoRotation.js:40-41 | if saves succeed, a queue that is not at rest needs only a bounded number of events to come to rest with everything committed |
| RotationQueue.RetrySendsTheRest | frontend/src/lib/photoRotation.js:32-37 | after a failure, retry sends exactly what is outstanding |
| RotationQueue.StepKeeps | frontend/src/lib/photoRotation.js:14-60 | each operation keeps the conservation invariant |
| RotationQueue.RunTells | frontend/src/lib/photoRotation.js:11-18 | over any run, until the queue is disposed, what the view was told last is the preview, the activity and the error of the queue as it is; each call of onChange and onSaved tells of its moment, onSaved only when nothing is left to do, and none of onChange comes after disposal |
| RotationQueue.StartsIff | frontend/src/lib/photoRotation.js:19-41 | a save starts exactly on a flush, on a disposal without an error, and on a successful answer behind which clicks wait without a timer, if something is queued and nothing is in flight; it sends all that is queued from the photo returned last |
| RotationQueue.StepFails | frontend/src/lib/photoRotation.js:27-50 | the error is set exactly by a failed save, and cleared by the next click or start; a click sets the timer exactly when something is queued |
| RotationQueue.PhotoRotation.Rotate | frontend/src/lib/photoRotation.js:44-52 | a click queues its angle, restarts the timer, and finishes when nothing is left to do |
| RotationQueue.PhotoRotation.SendQueued | frontend/src/lib/photoRotation.js:21-29 | a flush starts at most one save and empties the queue into it |
| RotationQueue.PhotoRotation.SaveReturned | frontend/src/lib/photoRotation.js:30-41 | a successful save replaces the photo and goes on with what was queued meanwhile |
| RotationQueue.PhotoRotation.SaveFailed | frontend/src/lib/photoRotation.js:32-41 | a failed save puts its angle back and stops the timer |
| RotationQueue.PhotoRotation.DisposeQueue | frontend/src/lib/photoRotation.js:54-59 | disposing silences the callbacks and sends what is queued unless an error is held |
| RotationWorld.CoalescingPreservesMeaning | frontend/src/lib/photoRotation.js:21-52 | at every moment of a run without a lost answer, a stored photo in a lossless format, turned by what is outstanding, equals the first photo with every click applied in turn |
| RotationWorld.CoalescingPreservesMarkers | frontend/src/lib/photoRotation.js:21-52 | the same of the markers, for photos in any format |
| RotationWorld.AtRestNothingIsMissing | frontend/src/lib/photoRotation.js:14-20 | a queue at rest without an error has left the markers that one click at a time would have left, and in a lossless format the photo |
| RotationWorld.LostAnswer | internal/service/photo_rotation.go:48-50 | after a lost answer, for any format, the repeated request turns the photo a second time if and only if something is outstanding, the rotated file has the hash of the original, and it can be rotated again |
| RotationWorld.LostAnswerTurnsTwice | internal/service/photo_rotation.go:48-50 | it happens: one click, a lost answer and a retry leave a marker turned twice, with a queue at rest and no error |
| RotationWorld.RunKeeps | internal/repository/photo_rotation.go:41-43 | over any run without a lost answer, for photos in any format, the hash that the client holds is the current one and the markers have been moved by what is committed |
| RotationWorld.RunShows | internal/service/photo_rotation.go:61-80 | over such a run a photo in a lossless format shows the first one turned by what is committed |
| JpegScan.JpegOrientation | internal/service/photo_rotation.go:175-247 | terminates, reads within bounds, computes the scan of the bytes behind the start marker, and returns 1 to 8 on success |
| JpegScan.FileOrientation | internal/service/photo_rotation.go:175-247 | on every serialized header (section B.1.1 of ITU-T T.81) the scan returns the first orientation entry of the first Exif segment that has one, and 1 if none has |
| JpegScan.ScanReadsSegments | internal/service/photo_rotation.go:177-205 | fill bytes, standalone markers and end markers are read as section B.1.1 of ITU-T T.81 defines them |
| JpegScan.ScanIff | internal/service/photo_rotation.go:175-247 | the scan succeeds with a value if and only if the bytes are a serialized header, up to the segment that decides, whose segments tell that value; everything else is refused |
| JpegScan.SegmentsOf | internal/service/photo_rotation.go:175-206 | bytes on which the scan succeeds are the serialization of some list of segments |
| JpegScan.TiffRead | internal/service/photo_rotation.go:206-243 | a directory in either byte order, at any offset, is read as section 2 of TIFF Revision 6.0 defines it |
| JpegScan.TiffIff | internal/service/photo_rotation.go:207-245 | a TIFF structure is read with a value, or none, if and only if it is a header and a whole directory whose first orientation entry says so |
| JpegScan.FirstTells | internal/service/photo_rotation.go:203-244 | the first metadata with an orientation entry decides |
| JpegScan.SilentEntries | internal/service/photo_rotation.go:229-243 | a directory is passed over if and only if it has no orientation entry |
| JpegScan.ScanInRange | internal/service/photo_rotation.go:239-242 | a successful scan returns 1 to 8, on any bytes |
| JpegScan.TiffOrientation | internal/service/photo_rotation.go:206-243 | the part of the loop that reads one TIFF structure |
| JpegScan.ScanSegment | internal/service/photo_rotation.go:186-205 | the part of the loop behind a marker |
| JpegScan.SkipFill | internal/service/photo_rotation.go:182-184 | skips exactly the fill bytes |
| Containers.CheckRotationContainer | internal/service/photo_rotation.go:256-298 | accepts exactly the files whose body is a sequence of whole allowed chunks (section 3.2 of RFC 2083, sections 2.3 and 2.7 of RFC 9649); JPEG always |
| Containers.CheckPng | internal/service/photo_rotation.go:258-274 | the loop over PNG chunks, with reads in bounds and a decreasing measure |
| Containers.CheckWebp | internal/service/photo_rotation.go:275-296 | the loop over WebP chunks, with odd sizes padded |
| Containers.WebpChunkEnd | internal/service/photo_rotation.go:280-295 | the body of the loop: the next position, or a refusal, exactly as the chunk deserves |
| Containers.PngChunksOf | internal/service/photo_rotation.go:258-274 | accepted bytes are the serialization of some list of allowed chunks |
| Containers.PngAcceptsChunks | internal/service/photo_rotation.go:258-274 | a serialized list of whole chunks of any kinds is accepted if and only if every chunk is allowed |
| Containers.WebpChunksOf | internal/service/photo_rotation.go:275-296 | accepted bytes are the serialization of some list of allowed chunks |
| Containers.WebpAcceptsChunks | internal/service/photo_rotation.go:275-296 | a serialized list of whole chunks of any kinds and flags is accepted if and only if every chunk is allowed |
| Containers.FileAccepted | internal/service/photo_rotation.go:256-298 | on whole files: a PNG is accepted if and only if no chunk is acTL or eXIf, a WebP if and only if none is ANIM, ANMF or EXIF and no VP8X chunk has the bit 0x02 or 0x08 set |
| Bytes.ByteOrder | internal/service/photo_rotation.go:211-220 | which byte weighs more in either order |
| Pagination.StaticWalk | internal/service/messages.go:147-172 | following the cursors over an unchanged table ends, and the pages are a partition of the filtered list in its order |
| Pagination.WalkReturns | internal/repository/messages.go:85-86 | an item that is present and matching in every table that the walk reads is returned, whatever is inserted, edited or deleted between the pages |
| Pagination.WalkDescends | internal/repository/messages.go:87-87 | the walk moves strictly down the order of time and id |
| Pagination.ReturnedOnce | internal/repository/messages.go:85-87 | no place is returned twice |
| Pagination.WalkIsReal | internal/repository/messages.go:81-87 | nothing is returned that some table did not hold and match |
| Pagination.PageSplits | internal/service/messages.go:154-168 | the item beyond the limit shows whether there is a next page, and the cursor of the last item leads to exactly the rest |
| Pagination.PageIs | internal/repository/messages.go:81-87 | a page holds exactly the rows that are earlier than its cursor and not earlier than the next one, by time and then by id, latest first; a page with a next cursor is full and the cursor is its last row |
| Pagination.ListedOnce | internal/repository/messages.go:87-87 | the order of the query determines the listing |
| Timeline.Fetch | internal/repository/messages.go:81-87 | the first n rows in the order of the query |
| Timeline.ListMessages | internal/service/messages.go:126-173 | row by row: exactly the messages of the machine that the query finds between the two cursors, oldest first, at most the limit or 20; with more to come a full page and a cursor at its oldest message; each invalid request and each cursor of another machine or query is refused |
| Timeline.ListBooks | internal/service/logbooks.go:165-204 | row by row: exactly the logbooks of the machine, the shift and the dates of the filter between the two cursors, newest first, at most the limit or 20; refuses exactly the invalid filters and limits |
| Timeline.Present | internal/service/messages.go:159-172 | cuts the extra item off, binds the cursor to machine and query, and turns the page around |
| Timeline.AttachPhotos | internal/repository/messages.go:107-135 | each message receives exactly the photo rows that name it, in their order |
| Timeline.PhotosInOrder | internal/repository/messages.go:113-115 | those are all its rows, in the order of their pages |
| Timeline.MergeMessages | frontend/src/lib/messages.js:24-28 | merging computes the fold of map insertions over both lists |
| Timeline.MergedHolds | frontend/src/lib/messages.js:24-28 | the merge keeps, for each id, the last message with it, and no id twice |
| Timeline.TimelineRebuilt | frontend/src/pages/Conversation.jsx:290-304 | merging page after page shows the walk in ascending order, whatever happens to the table between the pages |
| Timeline.LoadedIsWalk | frontend/src/pages/Conversation.jsx:296-299 | each older page goes in front of what is shown |
| Hub.RunKeeps | internal/service/message_events.go:13-45 | over any run, what an open channel has delivered and buffered is exactly what was published on its machine since it was made, a prefix of it once closed, and the buffer never exceeds 64 |
| Hub.ClosedForGood | internal/service/message_events.go:21-28 | a closed channel stays closed and gains nothing |
| Hub.ClosedWhenFull | internal/service/message_events.go:38-43 | publishing closes an open channel if and only if it listens to the machine and holds 64 events, delivers to every other listener, and leaves the channels of other machines alone |
| Hub.MessageHub.PublishMessage | internal/service/message_events.go:31-45 | the loop over the subscribers offers the event to each of the machine and drops the full ones; nothing is sent to a closed channel and none is closed twice |
| Hub.MessageHub.SubscribeMessages | internal/service/message_events.go:13-20 | a new open channel of the machine |
| Hub.MessageHub.ReceiveMessage | internal/httpapi/message_socket.go:99-112 | a reader takes the oldest waiting event of its channel and touches no other |
| Hub.MessageHub.UnsubscribeMessages | internal/service/message_events.go:21-28 | closes the channel unless it is closed already, keeps what is in it, and touches no other |
| ConversationSafety.NoGap | internal/httpapi/message_socket.go:73-77 | on a live subscription every message of the table is shown as it is, or something about it is still to come, or it lies below the loaded pages, or the first page is still to come; nothing else is shown |
| ConversationSafety.Converges | frontend/src/pages/Conversation.jsx:79-103 | when everything has arrived and all pages are loaded, the client shows the table |
| ConversationSafety.FirstLoad | frontend/src/pages/Conversation.jsx:250-268 | a table that fits one page is shown completely after the first connection |
| ConversationSafety.StepKeeps | frontend/src/pages/Conversation.jsx:79-103 | every commit, publication, frame, page, reload and reconnect keeps what is known of every message: whatever the order of publication, the client follows the last word it has, and what nothing was said of is current |
| ConversationSafety.LastWord | internal/httpapi/message_socket.go:73-77 | at every moment of every run, in any order of publication and with any commits unannounced: a client with a word about a message agrees with the table if and only if that word does; without one it agrees, if the subscription is live and nothing about the message is to come or went unannounced |
| ConversationSafety.PublicationOrder | internal/service/message_events.go:31-33 | any number of waiting events of one message, published and read in any order: the client ends with the state of the table if and only if the last one published says what the last commit says |
| ConversationSafety.StaleRun | internal/service/message_events.go:31-33 | it happens: from any start with a message in the table, a run publishes two edits in the wrong order and ends with the older text shown, nothing to come and the page loaded |
| ConversationSafety.Unannounced | internal/service/messages.go:59-64 | a creation, edit or removal whose answer is lost is not announced; a client that agreed with the table disagrees after it if and only if it put a message into the loaded range, changed the text of one that is shown, or removed one that is shown |
| ConversationSafety.ForgottenRun | internal/service/messages.go:59-64 | it happens: a client that shows a whole table of one page goes on without a message whose creation was not announced, with nothing to come |
| Conversation.PageInterval | internal/service/messages.go:142-168 | a page holds exactly the messages between its cursor and the next one |
| Conversation.PageSize | internal/service/messages.go:142-168 | a page has at most 20 messages, and 20 if there are more |
| Conversation.View.OnFrame | frontend/src/pages/Conversation.jsx:79-103 | the event handler, ref by ref |
| Conversation.View.OnFirstPage | frontend/src/pages/Conversation.jsx:257-263 | shows exactly the ids of the page and of the live events that are not known to be deleted, each as last edited, or else as the event or the page has it |
| Conversation.View.OnOlderPage | frontend/src/pages/Conversation.jsx:296-300 | shows exactly the ids of the page and of what is shown that are not known to be deleted, each as last edited, or else as shown or as the page has it |
| Conversation.View.Restart | frontend/src/pages/Conversation.jsx:250-256 | the history effect aborts what is under way and asks again |
| Sends.SendsSettle | frontend/src/lib/api.js:139-197 | over any run each send settles at most once, and has settled when its 30 seconds are over; its frame goes out at most once; it resolves only if the server stored exactly one message for it |
| Sends.RepliesSettle | frontend/src/lib/api.js:152-168 | over any run: an acknowledgement that arrives while its request is pending leaves exactly [Resolved] behind, a failure exactly [Refused]; what is not pending is not touched |
| Sends.RestIsUncertain | frontend/src/lib/api.js:170-195 | over any run: an expiry and a close leave exactly [Uncertain] for what was pending |
| Sends.CallAnswers | frontend/src/lib/api.js:179-195 | over any run: a call on a ready, open socket that does not throw is pending for 30 seconds and its frame is on the wire; one that throws is left as [Uncertain]; a call gets [NotReady] if and only if the socket is not ready or not open |
| Sends.OpensUnready | frontend/src/lib/api.js:141-151 | only a closed socket that is not stopped is opened again, as a new and empty connection that is not ready; stopping closes it for good |
| Sends.CommandAnswers | internal/httpapi/message_socket.go:124-152 | the reply of each command: an acknowledgement if the message is kept and known to be, a failure if it is not, or is kept unknowingly, and none if the connection drops; no other request is touched |
| Sends.CloseSettlesAll | frontend/src/lib/api.js:170-177 | after the close event every send so far has settled and the map is empty |
| Sends.StepKeeps | internal/httpapi/message_socket.go:124-152 | every client and server step keeps the accounting of every request |
| Sends.ServeCommands | internal/httpapi/message_socket.go:124-152 | each command that is carried out gets exactly one reply, in order; an acknowledgement only with a stored message |
| Sends.MessageSocket.SendMessage | frontend/src/lib/api.js:186-195 | one call of send: refused when not ready, otherwise pending with its deadline, or settled when the socket throws |
| Sends.MessageSocket.OnMessage | frontend/src/lib/api.js:152-168 | a reply settles its request if it is still pending; `RepliesSettle` says how |
| Sends.MessageSocket.OnTimer | frontend/src/lib/api.js:190-190 | an expired request is rejected and the socket closed |
| Sends.MessageSocket.OnClose | frontend/src/lib/api.js:170-177 | the loop rejects every pending request once and empties the map |
| Sessions.OnlyTheCurrentPassword | internal/service/auth.go:50-79 | after any interleaving of login steps, resets, disables, logouts and purges, whoever authenticates is active and gave a password that matches the current hash |
| Sessions.RunBacks | internal/repository/auth.go:75-102 | every stored session is backed by an active user and the current password hash |
| Sessions.Revoked | internal/repository/auth.go:58-73 | after a reset, a disable or a logout no token drawn before opens the account again |
| Sessions.AfterReset | internal/repository/auth.go:50-73 | over any run: after a reset and until the next one of the same user, the row has the new hash, and a token has a session of the user only if it was issued after the reset for a password that matches the new hash, whenever its login began |
| Sessions.UpdatesStore | internal/repository/auth.go:50-73 | a reset stores the new hash and keeps the active flag, a disable clears the flag and keeps the hash; every other user stays, and of the sessions exactly those of the user go |
| Sessions.CreationStores | internal/repository/auth.go:22-32 | a new user is active with the given hash, unless the name is taken; nothing else changes |
| Sessions.FoundIff | internal/repository/auth.go:104-116 | a token authenticates as a user if and only if its session is of that user and has not expired, and the user is active |
| Sessions.EndedIff | internal/repository/auth.go:118-126 | a logout removes exactly one session, a purge exactly the expired ones |
| Sessions.GoneForGood | internal/repository/auth.go:118-126 | a token without a session never gets one again |
| Sessions.PurgingIsInvisible | internal/repository/auth.go:123-126 | every token authenticates as it would without any purge |
| Sessions.AuthRepository.UpdateUserRow | internal/repository/auth.go:58-73 | the user row and the removal of the sessions in one transaction |
| Sessions.AuthRepository.SetUserPassword | internal/repository/auth.go:50-52 | after a reset the row has the new hash and the same active flag, every other user is unchanged, and the sessions of the user are gone; it fails only for an unknown user |
| Sessions.AuthRepository.Disable | internal/repository/auth.go:54-56 | a disabled user is not active, keeps the hash and has no sessions; every other user is unchanged |
| Sessions.AuthRepository.InsertSession | internal/repository/auth.go:75-102 | issues only for an active user whose hash is the verified one |
| Sessions.AuthRepository.Login | internal/service/auth.go:50-79 | without interference, a token exactly for an active user with the right password |
| LoginLimiter.Limiter.Allow | internal/httpapi/middleware.go:219-246 | decides as specified and leaves the specified map |
| LoginLimiter.Limiter.Evict | internal/httpapi/middleware.go:229-233 | the loop removes exactly the windows that are over |
| LoginLimiter.RateLimited | internal/httpapi/middleware.go:219-246 | for times that do not decrease, the map never exceeds 4096 entries, the counter of a window is the number of attempts let through in it, at most 10, and a half-open minute lets at most 19 attempts of one address through |
| LoginLimiter.WindowQuota | internal/httpapi/middleware.go:237-244 | in every window that was ever opened for an address, at most 10 of its attempts get through, to the end of the run |
| LoginLimiter.NineteenPass | internal/httpapi/middleware.go:237-244 | the bound is reached: 19 attempts of one address pass within two milliseconds |
| LoginLimiter.RefusedIff | internal/httpapi/middleware.go:226-244 | an attempt is let through if and only if fewer than 10 attempts of its address got through in the latest window of the address, or that is 60 seconds old, and the address is in the map, or the map has room, or one of its windows is 60 seconds old |
| LoginLimiter.AgreeNext | internal/httpapi/middleware.go:228-240 | evicting windows that are over changes no decision about their own addresses |
| LoginLimiter.Bounded | internal/httpapi/middleware.go:228-236 | an attempt never grows the map beyond 4096 entries |

## Left out

- HTTP routing, multipart and JSON decoding, cookies, origins, logging, the object store's
  protocol, and the mapping of errors to status codes: plumbing around the modelled calls.
- SQL itself: a query is the set, map or order that it denotes; row locks appear only as
  the atomicity of a transaction and as the locked rows that a claim skips.
- Lossy JPEG encoding: no claim is made that two JPEG rotations equal one.
- Rounding of marker coordinates: in floating point the update is not an exact group action.
- The conversion of colours to the output buffer's model.
- Photo ids are one map for both photo tables, so an id used in the other table counts as a
  conflict; ids are fresh, so the case does not arise.
- Users are identified by their names, which are unique and never change; normalizing a
  name, the shape of tokens and the rules for passwords are not modelled.
- Splitting a remote address into host and port: the limiter is given the host.
- Trimming of the search text before its length is measured: the query is taken as trimmed.
- The encoding of cursors: a cursor is the record that it encodes.
- The search view of the conversation, the client's own edits and deletions, the sent draft
  and the scroll position: `Conversation` follows the handlers for the unfiltered timeline.
- The client's string comparison of timestamps: times are integers, and no claim is made
  that comparing their texts gives the same order.
- ConversationSafety.Converges: says nothing about when everything has arrived; networks may stall.
- LogbookService.CleanupDrains: covers batches whose calls all work, because a hundred keys
  that always fail would fill every batch.
- LogbookService.Logbooks.Create: is given the date as a value, or None when its text is not
  a date; parsing dates is not modelled.
- Timeline.ListMessages: a cursor with the zero time or a malformed id cannot be written down
  as a place, so that refusal is not modelled.
- Timeline.ListBooks: dates are values, so refusing malformed dates and cursors is not modelled.
- Sends.SendsSettle: takes timers to be punctual, as the assumptions say.
- Appending and creating messages with photos at the service level, which repeat the creation
  of a logbook over other transactions.
- Push notifications, archives of old logbooks, shift navigation, themes, the camera and the
  service worker.
