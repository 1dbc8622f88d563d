# Proofs about the VNC console, property strings, login and endpoint lookup

This project models the parts of the repository whose correctness is hardest to
see by reading, and proves properties of the model.

**The VNC client** (`src/console/vnc.ts`, `rfb.ts`, `des.ts`, `framebuffer.ts`).

- `Rfb` holds the incremental parsers; each answers with a value and its
  length, with the byte count to wait for, or with the error. `ServerMessages`
  writes what a server sends in RFC 6143's field order and proves what each
  unit is read as.
- `Connections` is one connection as a value: acting on one protocol unit at a
  time. `Streams` feeds it bytes in chunks, and proves when the chunks cannot
  matter, and `OverLimits` an instance where they do. `Sessions` is the session
  object itself, with its chunk list, its lazy `need` hint and its frame painted
  in place; its methods are proved to do what `Connections`, `Streams` and
  `Operations` say.
- `Histories`, `Announcements`, `Keyboards`, `Notices`, `Handshakes` and `Runs`
  say what every run keeps: the screen against the rectangles read, requests
  against updates, the events against the units read, keys down at the guest
  against keys remembered, the handshake.
- `Screens` is the screen as a map of pixels with the meaning RFC 6143 gives
  each rectangle; `Framebuffers` is the flat buffer painted a row at a time.
- `ClientMessages` writes the client's messages into buffers and reads them
  back; `SentBytes` writes out the bytes a server finds for what the session and
  its user do. `Des` and `VncCipher` are the password cipher, `SBoxes`,
  `DesAnswers` and `VncAnswers` what pins its tables; `Clients` joins it to a
  session. `Geometry`, `Scaling` and `Measures` read, crop, scale and compare
  snapshots.

**Property strings** (`src/core/props.ts`, `values.ts`): `Props` parses and
writes; `PropOrder` says exactly when the order of parts matters, `PropParts`
and `PropPairs` when each sub-key is written once, and `PropRoundTrip` and
`PropText` exactly which bags come back; `Values` and `Sizes` are the scalars.

**Login** (`src/core/auth.ts`): `Auth` is the single-flight protocol as steps
between awaits, in any interleaving; `Logins` says what a login may make of the
replies it hears.

**Endpoint lookup** (`src/core/schema.ts`): `Endpoints`. **Terminal input**
(`src/console/pty.ts`): `Pty`.

`Options`, `Bytes`, `Strings`, `Numerals`, `Keys` and `DesTables` hold what these share.

Sockets, timers and event delivery are modelled as an open flag, steps of a run
and append-only logs. `sent` and `events` are the logs of one connection and
start afresh when a socket is attached. Times and replies are parameters.

In four places the code does other than its comments say or a reader might
expect, and the model follows the code.

- The limit on an unfinished message defaults to a Raw rectangle covering the
  largest screen plus its header (`src/console/vnc.ts:57`), not to 64 MiB
  (`src/console/vnc.ts:182`). `Streams.RectanglesFitDefault` states what that
  buys: under it no rectangle is refused for its length.
- The limit is checked only while a message is incomplete
  (`src/console/vnc.ts:565`), so a longer message that arrives whole is read.
  `Streams.ChunkIndependence` states exactly when this can be seen, and
  `OverLimits.LongTextDependsOnChunks` shows it for any limit: a clipboard text
  that is announced, or ends the session, by where the stream was cut. The byte
  count the error names can depend on the cut too, as
  `OverLimits.CountDependsOnChunks` shows; with a limit of at least the longest
  header, 24 bytes, it cannot (`Streams.LongLimitIsSteady`).
- A forced login refresh can come back with a login that posted the very ticket
  it was called to discard, which its comment rules out
  (`src/core/auth.ts:267-274`). `Auth.RefreshCarriesTicketIff` says exactly
  when: another caller has begun renewing with that ticket by the time the
  refresh stops waiting, and is still in flight. `Auth.RefreshPostsIff` says the
  same of any ticket, and `Auth.SharedRefreshCarriesOldTicket` is such a run.
- The order of the parts of a property string can matter, and a sub-key can be
  written twice. Both depend on the format alone.
  `PropOrder.OrderDoesNotMatterIff` gives the condition under which order never
  matters, and `PropPairs.AlwaysOnceIff` the one under which no bag has a sub-key
  written twice: no two sub-keys share a partner, and each is reached before its
  partner unless they are partners of each other. A format whose alias,
  key-alias and default-key targets are plain sub-keys, and whose key aliases
  stand for the default key, meets both.

## Model

| member | source | states |
|---|---|---|
| `Rfb.ReasonExtends` | src/console/rfb.ts:263-268 | a reason string's hint exceeds what is held, holds until met, never passes the end; a settled string ignores later bytes |
| `Rfb.VersionExtends` | src/console/rfb.ts:141-148 | the same hint soundness and stability for ProtocolVersion |
| `Rfb.SecurityTypesExtends` | src/console/rfb.ts:154-164 | the same for the security types, including a refusal with its reason |
| `Rfb.SecurityResultExtends` | src/console/rfb.ts:167-175 | the same for SecurityResult, including a rejection with its reason |
| `Rfb.ServerInitExtends` | src/console/rfb.ts:178-190 | the same for ServerInit |
| `Rfb.ServerMessageExtends` | src/console/rfb.ts:196-223 | the same for every server message header, known or not |
| `Rfb.RectangleExtends` | src/console/rfb.ts:230-260 | the same for a rectangle against the screen as it stands |
| `Rfb.ParseRectangle` | src/console/rfb.ts:230-283 | a rectangle handed on fits the screen it will be painted on, and Raw data is exactly its pixels |
| `ServerMessages.UnitRead` | src/console/rfb.ts:141-283 | every unit a server can send, written in the field order of RFC 6143 and with anything after it, is read as exactly that unit and its length, or as the error its fields call for: version, security types and refusal, challenge, result and rejection, ServerInit, update header, colour map, bell, cut text, Raw, CopyRect, DesktopSize, and rectangles of other encodings |
| `ServerMessages.UnitLength` | src/console/rfb.ts:141-283 | a unit that is read takes exactly its own bytes |
| `ServerMessages.VersionIff` | src/console/rfb.ts:141-148 | a version string is accepted exactly when the low seven bits of its bytes spell `RFB ddd.ddd` and a newline |
| `ServerMessages.UnknownRead` | src/console/rfb.ts:196-223 | a message of any other type is refused at its first byte |
| `Bytes.BigEndian` | src/console/rfb.ts:141-283 | two, four and four signed bytes by the weight of each |
| `Connections.UnitExtends` | src/console/vnc.ts:577-656 | hint soundness for whichever unit the state reads next |
| `Connections.UnitExact` | src/console/vnc.ts:565-574 | a unit is settled by its own bytes and by no shorter prefix |
| `Connections.ActKeeps` | src/console/vnc.ts:577-696 | every unit acted on keeps the connection invariant: a valid screen of at most MAX_SCREEN_PIXELS in session, state 'rectangles' exactly when rectangles are pending, nothing held or pending after an end |
| `Connections.RectangleKeeps` | src/console/vnc.ts:643-654 | painting, resizing and counting off one rectangle keep the invariant, also when a resize precedes others |
| `Streams.ReadKeeps` | src/console/vnc.ts:531-551 | reading any bytes ends, keeps the invariant and only extends the history of units |
| `Streams.ReadQuiet` | src/console/vnc.ts:531-551 | after a read no complete unit is left and the one begun may be waited for |
| `Streams.HeldBounded` | src/console/vnc.ts:561-574 | a live session holds fewer bytes than the limit, or fewer than a challenge |
| `Streams.ReadInTwo` | src/console/vnc.ts:531-551 | bytes cut in two read as if whole, when every unit is within the limit |
| `Streams.ChunksDoNotMatter` | src/console/vnc.ts:531-574 | any way of cutting a stream within the limit gives the same messages, events, screen, state or failure |
| `Streams.ChunksMatter` | src/console/vnc.ts:565-574 | past the limit some way of cutting the stream shows a different outcome |
| `Streams.ChunkIndependence` | src/console/vnc.ts:531-656 | every chunking of a stream gives the outcome of one delivery, the byte count of an over-limit error included, if and only if every unit it completes or is rejected by is within the limit and the one left unfinished is not refused for two different counts |
| `Streams.LongLimitIsSteady` | src/console/vnc.ts:565-574 | with a limit of at least 24 bytes, the longest header, an unfinished unit is only ever refused for one count |
| `Streams.RectanglesFitDefault` | src/console/vnc.ts:57 | under the default limit every rectangle completed or rejected is within the limit and none is refused while it is unfinished |
| `OverLimits.LongTextDependsOnChunks` | src/console/vnc.ts:565-574 | whatever the limit, a clipboard text too long for it is announced when the stream arrives whole and ends the connection, naming the message's length, when cut anywhere inside the text |
| `OverLimits.CountDependsOnChunks` | src/console/vnc.ts:565-574 | under a limit of less than six bytes the same stream is refused for twelve bytes or for six, by where it was cut |
| `Histories.ActStep` | src/console/vnc.ts:577-696 | each unit keeps the accounts of requests, updates, paint counter and pending rectangles |
| `Histories.ReadStep` | src/console/vnc.ts:531-656 | however many units a read takes, the accounts balance after it |
| `Histories.FinishStep` | src/console/vnc.ts:643-654 | the last rectangle of an update asks for the next frame, and the counter announced is larger than any before |
| `Announcements.ReadTells` | src/console/vnc.ts:531-656 | a live connection has announced exactly what its units owe, in order: the session at ServerInit, each new size, each update of at least one rectangle once it is read, under the number of rectangles painted, each bell, each cut text |
| `Announcements.RectangleTells` | src/console/vnc.ts:643-654 | a rectangle announces its size if it is one, and the update if it is the last, and nothing else |
| `Announcements.ReadEnds` | src/console/vnc.ts:531-551 | a read that ends the connection leaves that log, the close, and the error for whoever waits or listens |
| `Keyboards.HearTap` | src/console/vnc.ts:375-379 | a tap of a combination leaves its own keys up and every other key as it was |
| `Keyboards.CloseLeavesNoKeyDown` | src/console/vnc.ts:345-349 | closing with the socket open leaves no key down at the guest |
| `Keyboards.ReadRemembers` | src/console/vnc.ts:531-656 | nothing sent while reading is a key event, so every key down stays one that close releases |
| `Keyboards.HoldRemembers` | src/console/vnc.ts:358-363 | holding a key remembers it once the guest has been told |
| `Keyboards.LetGoRemembers` | src/console/vnc.ts:365-369 | letting go forgets a key only once the guest has been told |
| `Keyboards.PressRemembers` | src/console/vnc.ts:375-379 | a combination leaves the keys down within those remembered |
| `Keyboards.TypeRemembers` | src/console/vnc.ts:387-404 | so does a typed character, shifted or not |
| `Keys.CharToKeysym` | src/console/rfb.ts:354-365 | a keysym always fits the four bytes of a key event |
| `Keys.DistinctCharacters` | src/console/rfb.ts:354-365 | two characters typed by themselves are never the same key |
| `Keys.CharacterKeys` | src/console/rfb.ts:354-365 | ASCII and Latin-1 characters are their own keysyms, the rest of the BMP Unicode plus 2^24, controls none |
| `Keys.CursorKeysInARow` | src/console/rfb.ts:288-342 | the keysyms of the editing and cursor keys, in blocks numbered as X11 does |
| `Keys.FunctionKeysInARow` | src/console/rfb.ts:288-342 | the function keys are twelve keysyms in a row |
| `Keys.ModifierKeysInARow` | src/console/rfb.ts:288-342 | the shift, control and caps lock keysyms are in a row |
| `Keys.AltKeysInARow` | src/console/rfb.ts:288-342 | so are those of alt and super |
| `Keys.ShiftedIff` | src/console/rfb.ts:345-347 | the shifted characters are the capitals and upper symbols of ASCII |
| `Notices.FailTold` | src/console/vnc.ts:705-713 | a failure announces the end once and settles the handshake's promise exactly once |
| `Notices.TeardownTold` | src/console/vnc.ts:720-739 | so does a teardown, also with the handshake still in flight |
| `Notices.RunTold` | src/console/vnc.ts:312-349 | over any run from an unused session, a connection that was attached and has ended has settled its promise exactly once and emitted `close` exactly once; a live one has not emitted it, and has settled unless its handshake is in flight |
| `Handshakes.ReadTranscript` | src/console/vnc.ts:577-620 | a live connection has answered each handshake unit in turn and is in session only after all of them |
| `Handshakes.TypesTranscript` | src/console/vnc.ts:658-672 | VNC authentication is chosen exactly when it is offered and there is a password, else no security if that is offered |
| `Handshakes.HandshakeInOrder` | src/console/vnc.ts:577-672 | the same for any stream in any chunks |
| `Handshakes.RunInOrder` | src/console/vnc.ts:312-672 | the same after any run, whatever the user sent in between: among the messages sent are, in order, the answers the transcript asks for |
| `Runs.StepSound` | src/console/vnc.ts:312-551 | each step of a run, by the server, the socket or the user, keeps the whole invariant |
| `Runs.RunSafe` | src/console/vnc.ts:311-696 | over every run: the buffer bound, the screen equal to the rectangles painted in order, requests equal to one plus completed updates plus repaints asked for, the events exactly those the units owe, with increasing counters, and no key left down by close |
| `Runs.StepEnds` | src/console/vnc.ts:705-739 | whatever ends a connection in a run, its log is what its units owe, the close, then the error that ended it to whoever waits for the session or, once in session, listens |
| `Framebuffers.CopySource` | src/console/vnc.ts:153-161 | in the row order CopyRect picks, the row about to be copied still holds the old frame |
| `Framebuffers.PaintingStep` | src/console/vnc.ts:137-140 | writing one row advances the painted screen by that row and changes no other pixel |
| `Framebuffers.PaintingDone` | src/console/vnc.ts:135-163 | once every row is written the buffer shows exactly what the protocol paints |
| `Framebuffers.PixelAt` | src/console/framebuffer.ts:78 | the flat offset of a pixel is inside the buffer and holds that pixel |
| `Framebuffers.Framebuffer.constructor` | src/console/vnc.ts:102-106 | a new frame is blank, of width times height times four bytes, with counter 0 |
| `Framebuffers.Framebuffer.ApplyRaw` | src/console/vnc.ts:135-142 | the frame is the old one with the rectangle painted (RFC 6143 section 7.7.1), every access in bounds, the counter one higher |
| `Framebuffers.Framebuffer.ApplyCopyRect` | src/console/vnc.ts:145-163 | the frame is a simultaneous copy from the old one however the areas overlap (section 7.7.2) |
| `Framebuffers.Framebuffer.Resize` | src/console/vnc.ts:166-171 | a blank frame of the new size (section 7.8.2) |
| `Framebuffers.Framebuffer.TakeSnapshot` | src/console/vnc.ts:126-133 | an owned copy that shows the frame, with its counter |
| `Screens.PaintAt` | src/console/vnc.ts:135-171 | a painted screen holds at each point the pixel computed from the old screen |
| `Sessions.StepReads` | src/console/vnc.ts:531-547 | one step of the receive loop is one unfolding of the stream's reading |
| `Sessions.HintLasts` | src/console/vnc.ts:245-247 | the lazy hint outlasts every arrival that does not meet it |
| `Sessions.VncSession.Step` | src/console/vnc.ts:577-656 | one unit read by its state's parser and acted on, or nothing consumed, or the throw |
| `Sessions.VncSession.ChooseSecurity` | src/console/vnc.ts:658-672 | the object chooses as the connection model does |
| `Sessions.VncSession.Apply` | src/console/vnc.ts:674-689 | the object's frame is painted in place as the screen model says, or the size is refused |
| `Sessions.VncSession.CountOff` | src/console/vnc.ts:648-652 | the last rectangle returns to 'message', asks for the next frame and announces the update |
| `Sessions.VncSession.Receive` | src/console/vnc.ts:531-551 | a chunk leaves exactly the link that reading everything held and arrived leaves; `buffered` is the bytes held |
| `Sessions.VncSession.Fail` | src/console/vnc.ts:705-713 | the object fails as the model does and holds no bytes |
| `Sessions.VncSession.Teardown` | src/console/vnc.ts:720-739 | the object is torn down as the model is and holds no bytes |
| `Sessions.VncSession.Attach` | src/console/vnc.ts:312-343 | a second socket is refused; a first starts a fresh connection |
| `Sessions.VncSession.KeyDown` | src/console/vnc.ts:358-363 | the key is remembered only after the send succeeded |
| `Sessions.VncSession.KeyUp` | src/console/vnc.ts:365-369 | the key is forgotten only after the send succeeded |
| `Sessions.VncSession.Press` | src/console/vnc.ts:375-379 | every key down in order, then up in reverse, or nothing sent |
| `Sessions.VncSession.TypeChar` | src/console/vnc.ts:392-403 | one character tapped, inside a shift press if it needs one, or skipped |
| `Sessions.VncSession.ReleaseKeys` | src/console/vnc.ts:407-413 | key-up for every key held while the socket takes it |
| `Sessions.VncSession.Close` | src/console/vnc.ts:346-349 | the keys are released before the socket is closed |
| `Sessions.VncSession.SendPointerEvent` | src/console/vnc.ts:421-432 | a pointer outside the frame, or without one, is refused and not sent |
| `Sessions.VncSession.SendClipboard` | src/console/vnc.ts:456-458 | the clipboard text is sent or refused |
| `Sessions.VncSession.RequestUpdate` | src/console/vnc.ts:463-467 | a full request for the current size, and the counter at that moment |
| `Sessions.VncSession.OnClose` | src/console/vnc.ts:335-341 | a peer that goes away fails the handshake, or else tears down |
| `ClientMessages.DecodeEncode` | src/console/rfb.ts:42-100 | every client message reads back whole, whatever follows it |
| `ClientMessages.StreamReadBack` | src/console/rfb.ts:42-100 | messages run together read back as the messages sent |
| `ClientMessages.BuildSetPixelFormat` | src/console/rfb.ts:42-47 | the buffer written in place is the encoded message |
| `ClientMessages.BuildSetEncodings` | src/console/rfb.ts:50-56 | the same, for any list of encodings |
| `ClientMessages.BuildFbUpdateRequest` | src/console/rfb.ts:58-73 | the same, for an update request |
| `ClientMessages.BuildKeyEvent` | src/console/rfb.ts:75-81 | the same, for a key event |
| `ClientMessages.BuildPointerEvent` | src/console/rfb.ts:83-90 | the same, for a pointer event |
| `ClientMessages.BuildClientCutText` | src/console/rfb.ts:93-100 | the same, for clipboard text |
| `SentBytes.VersionBytes` | src/console/rfb.ts:12 | the version sent is `RFB 003.008` and a newline |
| `SentBytes.SecurityBytes` | src/console/vnc.ts:658-672 | type 2 is chosen if offered and there is a password, else type 1 if offered, else the error |
| `SentBytes.ScreenLimit` | src/console/vnc.ts:55-57 | a screen is too large beyond 33177600 pixels, whatever its shape |
| `SentBytes.GreetingBytes` | src/console/vnc.ts:612-617 | after ServerInit the pixel format, the encodings and a full request for the whole screen |
| `SentBytes.FormatBytes` | src/console/rfb.ts:42-47 | the bytes of SetPixelFormat |
| `SentBytes.EncodingBytes` | src/console/vnc.ts:58 | the bytes of SetEncodings: CopyRect, Raw, DesktopSize |
| `SentBytes.AskBytes` | src/console/vnc.ts:691-696 | an incremental request covers the screen as it now is |
| `SentBytes.RepaintBytes` | src/console/vnc.ts:463-467 | so does a full one |
| `SentBytes.PointBytes` | src/console/vnc.ts:421-432 | a pointer event carries its mask and point, anywhere on the screen and nowhere else |
| `SentBytes.TapBytes` | src/console/vnc.ts:375-379 | each key goes down in order and up in the opposite order |
| `SentBytes.CharacterBytes` | src/console/vnc.ts:392-403 | shift goes down before a shifted character and up after it |
| `SentBytes.TypedBytes` | src/console/vnc.ts:392-403 | newline and carriage return are typed as Return, tab as Tab, other controls are skipped, the rest as themselves |
| `SentBytes.ComboKeys` | src/console/rfb.ts:372-377 | a combination is the keysyms of its names in order, or is refused for a name that is no key |
| `SentBytes.HoldBytes` | src/console/vnc.ts:358-363 | a key held is sent down once and remembered after those held before |
| `SentBytes.LetGoBytes` | src/console/vnc.ts:365-369 | a key let go is sent up once and alone is forgotten |
| `SentBytes.ReleaseBytes` | src/console/vnc.ts:407-413 | every key held is sent up, in the order they were held |
| `Des.TablesUndo` | src/console/des.ts:10-86 | the final permutation undoes the initial one and the other way round |
| `Des.DecryptEncrypt` | src/console/des.ts:91-154 | the same rounds with the subkeys reversed decrypt every block under every key, in both directions |
| `Des.Complementation` | src/console/des.ts:91-154 | encrypting the complement of a block under the complement of a key gives the complement |
| `Des.BytesRoundTrip` | src/console/des.ts:95-109 | bytes to bits and back |
| `Des.BitsRoundTrip` | src/console/des.ts:95-109 | whole bytes of bits to bytes and back |
| `SBoxes.BoxIsOnto` | src/console/des.ts:45-86 | with the outer bits of a six fixed, every box takes the inner bits to every value from 0 to 15 |
| `SBoxes.OneBitSpreads` | src/console/des.ts:130-142 | flipping any one of the six bits changes at least two bits of every box's output |
| `DesAnswers.OnceRound` | src/console/des.ts:119-128 | the sixteen rotations total 28 |
| `DesAnswers.LastSubkeyUnturned` | src/console/des.ts:119-128 | so the last subkey is chosen from the unrotated halves |
| `DesAnswers.SubkeysAt` | src/console/des.ts:119-128 | each subkey is chosen from the halves turned by the sum of the rotations so far |
| `DesAnswers.KnownAnswer` | src/console/des.ts:91-154 | the key 133457799BBCDFF1 takes the block 0123456789ABCDEF to 85E813540F0AB405 |
| `VncCipher.DesEncryptBlock` | src/console/des.ts:145-154 | the loops over subkeys and halves compute the cipher of the specification |
| `VncCipher.Feistel` | src/console/des.ts:130-142 | expansion, S-boxes and permutation as specified |
| `VncCipher.ExpandKey` | src/console/des.ts:119-128 | the sixteen subkeys of the schedule |
| `VncCipher.ReverseBits` | src/console/des.ts:156-162 | the byte whose bits stand in the opposite order |
| `VncCipher.VncDesEncrypt` | src/console/des.ts:165-173 | the answer to a challenge: two blocks under the bit-reversed, zero-padded password |
| `VncCipher.ChallengeRecovered` | src/console/des.ts:165-173 | a server with the password takes the answer back to its challenge |
| `VncCipher.KeyReadIsSevenBits` | src/console/des.ts:91-128 | two passwords give the cipher the same key bits if and only if their first eight characters agree in the low seven bits |
| `VncCipher.SameAnswer` | src/console/des.ts:165-173 | such passwords answer every challenge alike |
| `VncAnswers.ReversedBits` | src/console/des.ts:156-162 | the bits of a reversed byte stand in the opposite order |
| `VncAnswers.KnownChallenge` | src/console/des.ts:165-173 | the password whose bytes mirror that key answers that block twice over with that answer twice over |
| `Clients.ChallengeAnswered` | src/console/vnc.ts:592-600 | the message a session sends for a challenge decrypts to that challenge |
| `Clients.PasswordAnswersInFull` | src/console/vnc.ts:592-600 | the answer is sixteen bytes, as every run relies on |
| `Geometry.ClampRegion` | src/console/framebuffer.ts:57-67 | the clamped region is not empty and lies within the frame; only an empty frame fails |
| `Geometry.ClampKeeps` | src/console/framebuffer.ts:57-67 | a region is kept as it is exactly when it is not empty and lies within the frame |
| `Geometry.ClampNearest` | src/console/framebuffer.ts:57-67 | no region is the whole frame; any other starts at the frame's point nearest its own and has the size nearest its own that fits there |
| `Geometry.ChannelsOf` | src/console/framebuffer.ts:28-30 | red, green and blue are found where the shifts of the pixel format asked for put them in a little-endian pixel |
| `Geometry.PixelAtPoint` | src/console/framebuffer.ts:69-84 | the colour of the screen's pixel at the point, or the error outside it |
| `Geometry.CropFrame` | src/console/framebuffer.ts:105-115 | the crop shows the source's pixels shifted by the clamped region |
| `Geometry.PackRgb` | src/console/framebuffer.ts:90-102 | the pixels packed three or four bytes each, in order |
| `Geometry.PackedAt` | src/console/framebuffer.ts:86-102 | the packed bytes of the pixel at (x, y) are found row-major |
| `Geometry.PackedOrder` | src/console/framebuffer.ts:90-102 | a packed pixel is red, green, blue and an opaque alpha |
| `Scaling.ScaleFrame` | src/console/framebuffer.ts:118-145 | the pixel at (x, y) is the source's at (x/k, y/k), despite the rows being duplicated in place |
| `Scaling.ReadThenWrite` | src/console/framebuffer.ts:132-135 | a pixel read as a little-endian number and written back is the same four bytes |
| `Scaling.BlockIs` | src/console/framebuffer.ts:128-144 | counting blocks of k is division by k |
| `Scaling.ScaleOfCrop` | src/console/framebuffer.ts:105-145 | the scaled region lies within the scaled frame, and scaling a crop shows what cropping the scaled frame by it shows, and nothing else |
| `Scaling.SameBytes` | src/console/framebuffer.ts:105-145 | two snapshots of a size that show the same are byte for byte the same |
| `Measures.ColourDistance` | src/console/framebuffer.ts:44-46 | the distance is within a tolerance exactly when every channel is |
| `Measures.ToleranceFor` | src/console/framebuffer.ts:49-54 | the allowed drift to the nearest level, or the error outside 0 to 1 |
| `Measures.AreaCounts` | src/console/framebuffer.ts:165-178 | the nested loops count each point of the region that qualifies once |
| `Measures.ColourRatio` | src/console/framebuffer.ts:154-180 | the fraction of the region's points whose colour is within the tolerance |
| `Measures.StricterFindsLess` | src/console/framebuffer.ts:153-180 | a stricter threshold never finds more of a colour |
| `Measures.FractionBounds` | src/console/framebuffer.ts:153-214 | the fraction lies between 0 and 1 |
| `Measures.ChangedFraction` | src/console/framebuffer.ts:187-214 | the fraction of the region's points whose colour differs, or 1 for frames of two sizes |
| `Measures.UnchangedMeansSameColours` | src/console/framebuffer.ts:182-214 | nothing changed if and only if every colour of the region is the same, whatever the unused bytes hold |
| `Measures.ChangedEitherWay` | src/console/framebuffer.ts:187-214 | which frame came first makes no difference |
| `Values.NumberReadBack` | src/core/values.ts:35-46 | a decimal number printed is read back |
| `Values.SetWords` | src/core/values.ts:15-19 | 1, on, yes and true, in any case, are true |
| `Values.ClearWords` | src/core/values.ts:15-19 | 0, off, no and false, in any case, are false |
| `Sizes.FormatSize` | src/core/props.ts:63-72 | the loop finds the unit and the count of the specification |
| `Sizes.LargestUnit` | src/core/props.ts:62-72 | no unit up to T whose power of 1024 divides the size is larger than the one chosen |
| `Sizes.DivisionsDivide` | src/core/props.ts:62-72 | the count printed times the unit is the size |
| `Sizes.SizeReadBack` | src/core/props.ts:63-80 | a printed size parses back to itself exactly when it is not negative |
| `Sizes.SizeMeans` | src/core/props.ts:62-72 | with K, M, G and T worth 1024, 1048576, 1073741824 and 1099511627776: every size is written as its sign, how often its letter goes into it without remainder, and the letter; no letter worth more divides it, and zero has none |
| `Sizes.SizeReads` | src/core/props.ts:75-80 | digits, perhaps a fraction, and perhaps a letter with or without `iB` read as that many times the letter's worth, in whole bytes |
| `Sizes.SizeReadIff` | src/core/props.ts:75-80 | and nothing else is a size |
| `Props.DefaultKeyOf` | src/core/props.ts:50-60 | the one default key, none, or the error for two |
| `Props.DefaultKeyIff` | src/core/props.ts:50-60 | a sub-key is the default key if and only if it alone is marked as one; there is none if and only if none is marked; the error, naming two that are, if and only if more than one is |
| `Props.ParsePropertyString` | src/core/props.ts:147-206 | the loop reads the parts one after another, each against the bag so far, and validates only when asked |
| `Props.ValidatedIff` | src/core/props.ts:109-126 | a bag passes exactly when every enum value is a choice and every required sub-key is there |
| `Props.FormatPropertyString` | src/core/props.ts:212-274 | default key, required sub-keys, the rest; a pair folded into one part; or the error of the first value that fails |
| `PropOrder.PartMeans` | src/core/props.ts:156-202 | a part is accepted exactly when it is right by itself and neither sets nor is named like anything already set |
| `PropOrder.AcceptedInOrderIff` | src/core/props.ts:152-205 | for every format, a string is accepted exactly when each part is right by itself and none sets a sub-key that a later one sets or is written under; nothing is overwritten |
| `PropOrder.AcceptedIff` | src/core/props.ts:152-205 | when alias, key-alias and default-key targets are plain, a string is accepted exactly when each part is right by itself and no two set the same sub-key; nothing is overwritten |
| `PropOrder.OrderDoesNotMatterIff` | src/core/props.ts:152-205 | the same parts in any order are accepted alike and give the same bag, for all strings, if and only if no usable alias is the default key or is set by another alias that it neither sets in turn nor shares a sub-key with |
| `PropOrder.PlainIsOrderFree` | src/core/props.ts:152-205 | formats whose alias, key-alias and default-key targets are plain meet that condition |
| `PropOrder.ChainedAliasesDependOnOrder` | src/core/props.ts:178-195 | with an alias of an alias two parts go one way round only |
| `PropRoundTrip.WritableReadsBack` | src/core/props.ts:147-274 | a writable bag comes back from its text, default key bare and pair folded |
| `PropRoundTrip.ReadsBackIff` | src/core/props.ts:147-274 | for a format whose key aliases stand for the default key, an alias-free bag comes back if and only if each value comes back by itself, is not empty and comma-free, the default value is not blank and has no `=`, and a paired value names its alias |
| `PropText.TypedReadsBackIff` | src/core/props.ts:147-274 | for a format whose key aliases stand for the default key, a bag comes back if and only if no sub-key is an alias, each value is of its type (a flag under a boolean, a number under a numeric kind, whole and unit-free where the entry is a size, text that cannot be taken for either), not empty and comma-free, the default value is not blank and has no `=`, and a paired value names its alias |
| `PropText.TypedIff` | src/core/props.ts:82-93 | writing a value and reading it at its entry's type gives it back exactly when it is of that type |
| `PropText.UntypedReadsBackIff` | src/core/props.ts:217-221 | without a format a bag comes back exactly when every value is non-empty comma-free text |
| `PropText.BagOrderDoesNotMatter` | src/core/props.ts:265-271 | each group is written in ascending order, so the bag's own order does not change the text |
| `PropText.BeforeIff` | src/core/props.ts:265-271 | ascending is by code point at the first difference, a prefix first |
| `PropText.DiskWritten` | src/core/props.ts:212-274 | a disk: the default value bare and first, the required flag as 1, the size by its letter |
| `PropPairs.AlwaysOnceIff` | src/core/props.ts:212-274 | every bag is written with no sub-key twice if and only if no sub-key is its own partner, no two share one, and each is reached before its partner (default key first, then required, then the rest, each group sorted) unless the two are partners of each other |
| `PropPairs.ApartWritesOnce` | src/core/props.ts:212-274 | the condition suffices for every bag and order, whatever the format declares |
| `PropPairs.FixedWritesOnce` | src/core/props.ts:212-274 | when key aliases stand for the default key the condition holds, and each sub-key is written in exactly one part |
| `PropParts.WrittenOnceIff` | src/core/props.ts:229-273 | for one bag and order, every sub-key is written, and none twice if and only if no pair is reached after its partner was written |
| `PropParts.PartnerWrittenTwice` | src/core/props.ts:247-255 | a pair whose partner is the default key: the partner is written bare and again in the pair |
| `Auth.StepKeeps` | src/core/auth.ts:261-357 | every stretch between awaits keeps the protocol invariant |
| `Auth.SingleFlight` | src/core/auth.ts:261-352 | in every interleaving at most one login is live and `pending` names it, cache writes land in login-start order, the cache holds the last ticket got, and a login a forced refresh started posts only the password |
| `Auth.RefreshPostsIff` | src/core/auth.ts:267-293 | the login a forced refresh comes back with ever posts a given ticket, cached when it was called, dropped when it resumed or any other, if and only if it shares a login in flight that started with that ticket |
| `Auth.RefreshCarriesTicketIff` | src/core/auth.ts:267-293 | it ever posts the ticket that was cached when the refresh was called if and only if another caller has begun renewing with that ticket by the time the refresh logs in, and is still in flight |
| `Auth.SharedRefreshCarriesOldTicket` | src/core/auth.ts:275-293 | a run in which a forced refresh comes back with a login that posted the ticket it was called to discard |
| `Auth.ServedFromCache` | src/core/auth.ts:261-265 | a ticket is served from the cache exactly when it has more than 900000 ms left, and it is the last one got |
| `Logins.LoginsDeserve` | src/core/auth.ts:295-345 | in every interleaving a login with a credential has failed only on a reply that cannot be read or a refusal of the password, and what it cached is what its last reply granted, for two hours |
| `Logins.RefusalFallsBack` | src/core/auth.ts:305-313 | in every interleaving a refused renewal goes on to post the password, with nothing cached until that is answered, and a ticket cached or posted after it was granted after it |
| `Logins.RenewsWithCached` | src/core/auth.ts:261-307 | with a ticket cached, a caller starts a login that posts that ticket, also once it is within a quarter of an hour of expiring |
| `Logins.DiscardsCached` | src/core/auth.ts:275-280 | a forced refresh that logs in leaves nothing cached and posts the password |
| `Auth.PveAuth.constructor` | src/core/auth.ts:210-220 | no ticket and no login to begin with |
| `Auth.PveAuth.GetTicket` | src/core/auth.ts:261-265 | the cached ticket if fresh, else the login in flight or a new one |
| `Auth.PveAuth.Authenticate` | src/core/auth.ts:287-293 | concurrent callers share the login in flight |
| `Auth.PveAuth.ForceRefresh` | src/core/auth.ts:275-280 | waits for a login in flight, else discards the ticket and logs in |
| `Auth.PveAuth.ResumeForceRefresh` | src/core/auth.ts:277-279 | once the awaited login has landed, discards the ticket and logs in or shares |
| `Auth.PveAuth.OnReply` | src/core/auth.ts:305-313 | a granted ticket is cached, a refused renewal falls back to the password, anything else fails the login |
| `Auth.PveAuth.OnSettled` | src/core/auth.ts:289-291 | `pending` is cleared when its login has settled |
| `Endpoints.ByShape` | src/core/schema.ts:20-29 | the index holds every bucket of the registry, in registry order |
| `Endpoints.SegmentsOf` | src/core/schema.ts:36-38 | slashes separate segments |
| `Endpoints.QueryIsCutOff` | src/core/schema.ts:36-37 | what follows the first question mark is not part of the path |
| `Endpoints.LiteralsAre` | src/core/schema.ts:42-53 | the literals counted are the segments that do not open with a brace |
| `Endpoints.ShapeInjective` | src/core/schema.ts:23 | a shape key determines its method and its segment count |
| `Endpoints.ScanFindsBest` | src/core/schema.ts:31-60 | a scan finds an entry exactly when one fits, and then the first with the most literal segments |
| `Endpoints.Compare` | src/core/schema.ts:42-53 | a template is compared segment by segment and its literals counted |
| `Endpoints.ResolveEndpoint` | src/core/schema.ts:36-60 | the lookup through the index is the scan of the whole registry |
| `Endpoints.ResolvesToFirstAlike` | src/core/schema.ts:31-60 | a template path resolves to the first entry that differs from it at most in variable names |
| `Endpoints.TemplatesResolveThemselves` | src/core/schema.ts:31-60 | every template path resolves to its own entry if and only if no two templates of one method differ only in variable names |
| `Pty.InputFrames` | src/console/pty.ts:22-30 | the loop frames the payload's chunks in order |
| `Pty.ChunksCover` | src/console/pty.ts:25-26 | chunks are 1 to 256 bytes, lose nothing, and number n/256 rounded up |
| `Pty.FrameIs` | src/console/pty.ts:27 | a frame is `0:`, the length in decimal, `:`, and the bytes |
| `Pty.InputReadBack` | src/console/pty.ts:22-30 | a reader of the frames recovers exactly the payload |
| `Numerals.ValueDecimal` | src/console/pty.ts:27 | a printed length reads back |
| `Numerals.LastDigit` | src/console/pty.ts:27 | the last digit of a numeral is the remainder by ten, and the rest is the numeral of the quotient |

## Left out

- WebSockets, TLS, fetch, timers and EventEmitter delivery: the socket is an open flag, timeouts and socket events are steps of a run, events are a log. Handlers that call back into the session while it is reading are not modelled, nor is a late event of an earlier socket after a new one was attached.
- The process exit hook and the registry of sessions holding keys (`src/console/vnc.ts:218-229`).
- `Sessions.VncSession.TypeChar`: one character; the pacing between characters is left to the steps of a run, so anything may happen between two of them.
- `Sessions.VncSession.Press`: takes the key names of a combination; splitting `ctrl-alt-delete` is a regular expression (`src/console/rfb.ts:372-377`) that is not part of this model.
- `Sessions.VncSession.Attach`: takes the cipher keyed by the password as a function, which `Clients.Attach` supplies; the challenge is answered by that function, and `VncCipher.VncDesEncrypt` is proved to compute it.
- `Keys.CharToKeysym`: lone surrogates and names inherited from the object prototype are left out.
- `click`, `move`, `scroll` and `waitForUpdate`: sequences of pointer events, and a wait on the log.
- Error texts: an error keeps what it is about, its words are left out.
- ServerInit's pixel format and desktop name are read past, as in the source, and the name's decoding is left out.
- `Measures.ColourRatio`: takes a colour as three numbers; parsing `#rrggbb` is left out. Fractions are exact rather than floating-point.
- NaN, infinities and non-integer coordinates of `pixelAt` and `scaleFrame`.
- `Values.NumberReadBack`: numbers are exact decimals; rounding of long numerals and exponent printing are left out, as in `Sizes.SizeReadBack`.
- `Props.ValidatedIff`: which of several failing sub-keys is named follows the format's order rather than the bag's.
- `Props.FormatPropertyString`: keys are sorted by code point; characters outside the Basic Multilingual Plane sort by code unit in the source.
- `PropPairs.AlwaysOnceIff`: for formats that declare every alias target, unless unknown sub-keys are accepted; otherwise a partner may be impossible to write by itself, and only `PropPairs.ApartWritesOnce` is claimed.
- `splitPropertyParts` and the indexed-key helpers of `props.ts`, `propertyFormatFor`, `parseConfigValue` and `formatConfigValue`: single calls and small regular expressions.
- `Auth.PveAuth.OnReply`: the request itself, and telling a malformed answer from a transport failure, are one reply that cannot be read.
- Token credentials and `loadCredentials` in `auth.ts`.
- `src/console/terminal.ts`, `proxy.ts`, `client.ts`, the REST wrappers and the generated tables; registries and formats are quantified over.
- UTF-8 encoding of terminal input: payloads are bytes. Window-size, login and keepalive frames.
