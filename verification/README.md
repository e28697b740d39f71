# Verification of the equipment links, the placement run and the test records

A Dafny model of three parts of the repository, with proofs.

* **The SECS/HSMS stack and the placement run.** SECS-II items (`SecsItem`), HSMS frames (`Hsms`),
  the in-memory duplex and the framed reads over it (`Transport`), the session with its waits
  (`Session`, `SessionWaits`) and the GEM bodies (`Gem`). On top of them, one placement run: the host
  and the equipment as machines over two queues (`AssemblyRun`), their behaviour in closed form
  (`Lockstep`), what holds of every interleaving (`RunTheorems`), the same run over bytes in chunks of
  any size (`WireRun`, `WireRefinement`), and the two programs as objects and loops
  (`AssemblyHostObject`, `AssemblyEquipmentObject`) with the proof that, joined by two pipes, they do
  what the machines do (`ProgramsOnTheWire`).
  Beside them stand laws in plain terms: the bytes of every item and frame and what is none
  (`WireLayout`), text by its scalar values (`Utf8Laws`), how each wait ends (`SessionLaws`), what a side
  makes of any message (`PeerLaws`), and what commands, events and records say (`PlacementTerms`,
  `PlacementLaws`).
* **Placement verification.** The three passes of `verify_placements` (`Verify`), the report spelled out
  on the lists of the layout (`VerifyLaws`), what an empty report means for the plane (`PlacementGeometry`), the whole way from a plan to an empty report
  (`EndToEnd`), and why no smaller margins would do (`Margins`).
* **STDF and bin accounting.** Fields (`StdfCodec`), records (`StdfRecords`, `StdfRecordSteps`), when
  they read back (`StdfRoundTrip`), when a read and write pass loses nothing (`StdfLossless`,
  `StdfReread`), records too long for their header (`StdfOverlong`), files (`StdfStream`), bins, wafer
  maps and sorting (`Bins`, `Wafer`, `BinSort`), the wafer map inside a GDR (`WaferMapGdr`), and the
  record stream of a run with its redundant counters and its file (`Recording`, `RecordingTheorems`,
  `RunFile`, `RunFileRoundTrip`). The laws beside them: every record byte for byte (`StdfLayout`), what the
  flag bytes mean (`StdfFlagLaws`), which bin a die gets (`BinLaws`), what a sorted map carries
  (`WaferLaws`), and what every record of a stream says (`StreamLaws`).

A Rust `String` is carried as its UTF-8 bytes (`Utf8`), integers are unbounded with their machine
ranges written out, and floating-point values are carried as bit patterns. A `BTreeMap` is the list of
its entries in key order. What a method of the source does step by step is a method here, tied to a
function of the old state; the lemmas are about that function.

Where the code and its documentation disagree, the model follows the code:

* tpt-ate-test/src/stdf/records.rs:8-12 promises a byte-lossless read and write pass. Bytes behind the
  known fields are dropped (`StdfLossless.TailIsDropped`), and fields that the record ended without are
  added (`StdfLossless.UnitsAreAdded`); `StdfLossless.LosslessIff` says exactly which bodies survive.
* The STDF writer writes little-endian also behind a FAR that announces the big-endian processor
  (`StdfStream.ReadsBackIff` says what then survives), and `write` does not fail on a first record that
  is no FAR, as the comment at tpt-ate-test/src/stdf/writer.rs:9-11 has it, but puts one in front.
* `REC_LEN` keeps 16 bits without a check: a record with a longer body is written and never read back
  (`StdfOverlong.OverlongIsNotRead`), for instance the wafer map of a large run
  (`RunFileRoundTrip.RunFileReadsBackIff`). So do the lengths of the two names of an FTR.
* The equipment ignores the parameters of a host command and follows its own list; two different lists
  can leave both sides waiting for each other (`RunTheorems.RunEnds`).
* The reply to function 127 arrives as function 0 (`Session.SecondaryOfPrimary`).
* The format codes are said to be those of SEMI E5 (tpt-ate-comm/src/secs/item.rs:12-13); the code of F4
  is octal 41, where that standard has octal 44 (`WireLayout.ItemIsSpelledOut`).
* Off-target is measured against the nominal position in the record, not against the site, and the
  chiplet of a record is not compared with that of the site.

## Model

| member | source | states |
|---|---|---|
| SecsItem.ItemRoundTrip | tpt-ate-comm/src/secs/item.rs:146-175 | for every item whose counts and byte lengths fit three bytes at every depth and every suffix, decoding the encoding gives the item back and uses exactly its own bytes |
| SecsItem.EncodingIsPrefixFree | tpt-ate-comm/src/secs/item.rs:146-175 | if two encodings followed by anything are the same bytes, the items and the rests are equal: the encoding is injective and prefix-free |
| SecsItem.DecodeIsLocal | tpt-ate-comm/src/secs/item.rs:235-285 | a successful decode depends on nothing beyond the bytes it reports as used |
| SecsItem.StrictPrefixIsRejected | tpt-ate-comm/src/secs/item.rs:235-285 | every strict prefix of what a decode used is an error |
| SecsItem.TreeIsBounded | tpt-ate-comm/src/secs/item.rs:235-285 | a decode uses at least two bytes and at most all of them, and its tree has at most half as many nodes as bytes used |
| SecsItem.DecodedIsValid | tpt-ate-comm/src/secs/item.rs:235-290 | whatever is decoded is in range and well-formed text, repaired if need be |
| SecsItem.DecodedReencodes | tpt-ate-comm/src/secs/item.rs:235-290 | a decoded item whose text, at any depth, is well formed in the bytes it came from can be encoded, in no more bytes than it was read from, in spite of wide length fields, odd booleans and dropped partial elements |
| SecsItem.NormalFormIsStable | tpt-ate-comm/src/secs/item.rs:186-192 | a decoded item that can be encoded decodes back to itself: one decode reaches a normal form |
| SecsItem.PushHeader | tpt-ate-comm/src/secs/item.rs:196-208 | appends the format byte and the minimal number of length bytes that the specification header has |
| SecsItem.PushFixed | tpt-ate-comm/src/secs/item.rs:211-216 | appends a header counting bytes, then every element big-endian |
| SecsItem.EncodeInto | tpt-ate-comm/src/secs/item.rs:146-175 | the recursive encoder appends exactly the specified encoding, for every encodable item |
| SecsItem.ReadLength | tpt-ate-comm/src/secs/item.rs:246-249 | the length loop reads the big-endian length bytes |
| SecsItem.DecodeItemBytes | tpt-ate-comm/src/secs/item.rs:235-285 | the decoder with its cursor returns what the specification decode says, errors included |
| SecsItem.DecodeListBytes | tpt-ate-comm/src/secs/item.rs:251-260 | the item loop collects exactly the items the recursive specification collects, or its first error |
| WireLayout.ItemIsSpelledOut | tpt-ate-comm/src/secs/item.rs:146-216 | every item at every depth byte for byte: format code and number of length bytes, the length, then the items, the bytes, or each number most significant byte first and in two's complement |
| WireLayout.WhatIsNoItem | tpt-ate-comm/src/secs/item.rs:235-250 | which first bytes are no header, and with which error |
| WireLayout.WhatIsTooShort | tpt-ate-comm/src/secs/item.rs:262-285 | an item other than a list decodes exactly when as many bytes are left as its length bytes announce |
| WireLayout.TrailingBytesAreCounted | tpt-ate-comm/src/secs/item.rs:186-192 | bytes behind the item of a body are an error that counts them |
| WireLayout.ElementsAreRead | tpt-ate-comm/src/secs/item.rs:262-285 | each number of a decoded item is the one whose bytes stand at its place in the payload |
| WireLayout.PayloadIsRead | tpt-ate-comm/src/secs/item.rs:262-285 | any byte but 0 is read as true, and a rest too short for a number is dropped |
| Utf8.LossyIsValid | tpt-ate-comm/src/secs/item.rs:269 | text read from any bytes is well-formed UTF-8 |
| Utf8.LossyKeepsValid | tpt-ate-comm/src/secs/item.rs:269 | well-formed bytes are read unchanged |
| Utf8.LossyUnchangedIff | tpt-ate-comm/src/secs/item.rs:269 | the bytes that are read unchanged are exactly the well-formed ones |
| Utf8.NoReplacementMeansUnchanged | tpt-ate-comm/src/secs/item.rs:269 | text read without U+FFFD is the bytes it was read from |
| Utf8Laws.ValidTextIff | tpt-ate-comm/src/secs/item.rs:269 | the well-formed texts are exactly the encodings of sequences of Unicode scalar values |
| Utf8Laws.PieceIsMaximal | tpt-ate-comm/src/secs/item.rs:269 | what is copied is the encoding of a scalar value, and what is replaced is the longest piece that could begin one, or one byte |
| Utf8Laws.LossyStep | tpt-ate-comm/src/secs/item.rs:269 | text is read piece by piece: copied, or replaced by U+FFFD |
| Hsms.FrameRoundTrip | tpt-ate-comm/src/secs/hsms.rs:159-214 | parsing an encoded frame with anything behind it gives the normal form of the message and the length of the frame, for every message that fits a frame |
| Hsms.NormalizeIsCanonical | tpt-ate-comm/src/secs/hsms.rs:188-207 | the normal form is idempotent and encodes to the same bytes |
| Hsms.DecodedFrameIsNormalIff | tpt-ate-comm/src/secs/hsms.rs:225-297 | a decoded frame is in normal form exactly when its header is that of a data, select, linktest or separate frame with a known status, or its last byte already is what would be written there |
| Hsms.HeaderRoundTrip | tpt-ate-comm/src/secs/hsms.rs:225-297 | the ten header bytes of a message parse back to its normal form |
| Hsms.FillHeader | tpt-ate-comm/src/secs/hsms.rs:164-207 | the header array ends up byte for byte as specified, status and reject fields overlaid on the system bytes |
| Hsms.EncodeMessageInto | tpt-ate-comm/src/secs/hsms.rs:159-214 | the encoder appends length, header and body of the specified frame |
| WireLayout.FrameIsSpelledOut | tpt-ate-comm/src/secs/hsms.rs:159-214 | every frame byte for byte, kind by kind |
| WireLayout.WhatIsNoFrame | tpt-ate-comm/src/secs/hsms.rs:225-297 | which bytes do not start with a frame, and with which error |
| WireLayout.WhatUnknownFramesAre | tpt-ate-comm/src/secs/hsms.rs:250-297 | a Select.rsp of unknown status is read as a refusal, and a frame of unknown kind as a rejection with that kind as reason |
| Transport.Pipe.WriteBytes | tpt-ate-comm/src/secs/transport.rs:22-30 | all of the data is queued, or none of it once the pipe is closed |
| Transport.Pipe.ReadBytes | tpt-ate-comm/src/secs/transport.rs:36-51 | at most as many bytes as wanted, in order, and none only when nothing will ever come |
| Transport.Pipe.Close | tpt-ate-comm/src/secs/transport.rs:53-57 | what was queued stays readable after the close |
| Transport.ReadExactCounted | tpt-ate-comm/src/secs/hsms.rs:301-312 | however the pipe splits the reads, exactly the wanted bytes, or an error that counts how many there were |
| Transport.ReadMessage | tpt-ate-comm/src/secs/hsms.rs:315-324 | takes exactly one frame off the stream, whatever the splitting |
| Transport.NextMessageRoundTrip | tpt-ate-comm/src/secs/hsms.rs:301-324 | the next message of a stream that starts with an encoded frame is its normal form, and the rest is left |
| Transport.FramesReadBack | tpt-ate-comm/src/secs/hsms.rs:315-324 | reading as many messages as were sent gives their normal forms in order and leaves nothing over |
| WireLayout.CutFrameIsNoMessage | tpt-ate-comm/src/secs/hsms.rs:301-324 | a stream that ends within a frame is an error that says how much was wanted and how much there was |
| Transport.ReceiveMessages | tpt-ate-comm/src/secs/hsms.rs:315-324 | the same through a pipe that splits the reads in any way |
| Session.HsmsSession.Select | tpt-ate-comm/src/secs/hsms.rs:372-396 | sends Select.req and ends as the specified wait on the whole inbound stream ends: result, state, system bytes, bytes read and written |
| Session.HsmsSession.AcceptSelect | tpt-ate-comm/src/secs/hsms.rs:400-422 | answers linktests until the Select.req and replies Selected, exactly as the specified wait |
| Session.HsmsSession.AwaitReply | tpt-ate-comm/src/secs/hsms.rs:447-491 | the loop that answers control traffic and takes the first data message with its system bytes, exactly as the specified wait |
| Session.HsmsSession.Transact | tpt-ate-comm/src/secs/hsms.rs:426-443 | nothing is read or written unless selected; otherwise one primary with fresh system bytes and the wait for its reply |
| Session.HsmsSession.ServeOne | tpt-ate-comm/src/secs/hsms.rs:496-553 | one primary is read and answered, control traffic answered or rejected before it, exactly as specified |
| Session.ControlIsAnsweredInOrder | tpt-ate-comm/src/secs/hsms.rs:496-553 | any amount of control traffic in front of anything is answered frame by frame in order and changes nothing else |
| Session.ServeAnswersInOrder | tpt-ate-comm/src/secs/hsms.rs:496-553 | the output of serving one primary behind control traffic: one answer per control frame, then the reply if the W-bit asks and there is one; all behind it stays unread |
| Session.MixIsAnsweredInOrder | tpt-ate-comm/src/secs/hsms.rs:496-553 | any number of serving calls over any mix of primaries and control traffic: together they write the answer to every frame in the order the frames came, and leave unread what is behind the last primary |
| Session.SeparateDeselects | tpt-ate-comm/src/secs/hsms.rs:536-539 | a Separate ends the wait in an error, unanswered, and deselects |
| Session.SilentAfterSeparate | tpt-ate-comm/src/secs/hsms.rs:426-434 | after a Separate, any number of data calls reads and writes nothing |
| Session.DataCallsAreSilentUntilSelected | tpt-ate-comm/src/secs/hsms.rs:426-434 | the same for a session that was never selected |
| SessionLaws.TransactEnds | tpt-ate-comm/src/secs/hsms.rs:426-491 | on the inbound bytes: after any linktests and selects, only a data message with the system bytes of the request is its reply; a Separate deselects, and anything else, other data messages included, ends the transaction in the error for an unexpected function |
| SessionLaws.SelectEnds | tpt-ate-comm/src/secs/hsms.rs:372-396 | after any linktests, only a Select.rsp with status Selected selects; anything else fails and changes no state |
| SessionLaws.AcceptSelectEnds | tpt-ate-comm/src/secs/hsms.rs:400-422 | after any linktests, only a Select.req is accepted and answered; anything else fails unanswered |
| SessionLaws.ControlAnswersSpelledOut | tpt-ate-comm/src/secs/hsms.rs:530-551 | the answer to each control frame while serving |
| Gem.S6F11RoundTrip | tpt-ate-comm/src/secs/gem.rs:68-115 | an event report survives its body, any number of reports and variables |
| Gem.S2F41RoundTrip | tpt-ate-comm/src/secs/gem.rs:321-365 | a host command survives its body, any number of parameters |
| Gem.ParseReportsLoop | tpt-ate-comm/src/secs/gem.rs:92-113 | the loop over report entries returns all of them in order or the first error |
| PeerLaws.EventParsesIff | tpt-ate-comm/src/secs/gem.rs:85-115 | exactly which items are event reports, and what is read from them |
| PeerLaws.CommandParsesIff | tpt-ate-comm/src/secs/gem.rs:335-365 | exactly which items are host commands |
| PeerLaws.HandshakeRoundTrip | tpt-ate-comm/src/secs/gem.rs:49-64 | model and revision, and the acknowledge flag, read back |
| PeerLaws.EquipmentAnswers | tpt-ate-comm/src/secs/gem.rs:138-145 | the item the equipment answers to each function |
| Gem.EquipmentRepliesCanBeSent | tpt-ate-comm/src/secs/gem.rs:138-145 | every standard answer of the equipment can be encoded |
| Layout.FindSiteFinds | tpt-ate-assembly/src/layout.rs:87-89 | a site is found exactly when one has the id, and it is the first one that has |
| Layout.FindDieFinds | tpt-ate-assembly/src/layout.rs:81-84 | a footprint is found exactly when one is for the chiplet, and it is the first one that is |
| Layout.RcmdsAreDistinct | tpt-ate-assembly/src/backend.rs:23-29 | no two techniques share a remote command |
| Lockstep.HostStep | tpt-ate-assembly/src/link.rs:26-124 | after its r-th message, read in order, the host is in the state, with the records and the output, that the closed form for r says, whatever the two plans |
| Lockstep.EquipStep | tpt-ate-assembly/src/equipment.rs:57-120 | the same for the equipment and its r-th message |
| RunTheorems.StepOnGrid | tpt-ate-assembly/src/link.rs:26-124 | every atomic step of either side keeps the run on the grid of four counters that determines both sides and both queues, and uses up some of the remaining work |
| RunTheorems.RunOnGrid | tpt-ate-assembly/src/link.rs:26-124 | hence every state of every interleaving, for every pair of plans and of techniques, is determined by how much each side has read and written |
| RunTheorems.RunsAreBounded | tpt-ate-assembly/src/techniques.rs:103-122 | no interleaving goes on forever |
| RunTheorems.NextReplyIsOwn | tpt-ate-comm/src/secs/hsms.rs:447-491 | in every reachable state, the next message of a side that waits for a reply is the secondary of its own latest primary, although both sides number from 1 and only system bytes are compared |
| RunTheorems.RunEnds | tpt-ate-assembly/src/techniques.rs:103-122 | how every stopped run ended, for every pair of plans and of techniques; both sides are done exactly when the plans name the same sites in the same order and the techniques agree, unless there is nothing to place |
| RunTheorems.SamePlanNeverFails | tpt-ate-assembly/src/link.rs:26-124 | with the same plan and technique, no reachable state has a failed side, and until both are done some step is enabled |
| RunTheorems.SamePlanCompletes | tpt-ate-assembly/src/techniques.rs:103-122 | with the same plan and technique, a stopped run has exactly one record per command, in order, with the reported position |
| AssemblyRun.SamePlanAgrees | tpt-ate-assembly/src/equipment.rs:75-120 | plans name the same sites in the same order exactly when their agreed prefix is all of both |
| PlacementTerms.U4OfIsUnique | tpt-ate-assembly/src/equipment.rs:105-113 | the transported coordinate is 0 for a negative one, the coordinate itself below 2^32, and its low 32 bits beyond |
| PlacementTerms.CommandBodyOrders | tpt-ate-assembly/src/link.rs:48-55 | the command of a placement has the remote command of the technique and exactly the parameters SITE, X and Y, with the site, max(0, x) and max(0, y) |
| PlacementTerms.EventBodyReports | tpt-ate-assembly/src/equipment.rs:105-117 | the event of a placement has event 201 and one report with the site and the jittered coordinates, 0 if negative |
| PlacementLaws.HostOrdersItsPlan | tpt-ate-assembly/src/link.rs:43-60 | whatever bytes come in: what the host program writes reads back as messages whose S2F41 primaries are the commands of its plan, in order and none twice |
| PlacementLaws.EquipReportsItsPlan | tpt-ate-assembly/src/equipment.rs:75-117 | the same for the equipment program and the S6F11 primaries that report its commands |
| PlacementLaws.RecordsAreTrue | tpt-ate-assembly/src/techniques.rs:103-122 | field by field, what a stopped run has recorded of each command |
| PeerLaws.HostTakesAny | tpt-ate-assembly/src/link.rs:26-124 | for any message in any wait of the host: exactly which make it go on, which it takes no notice of, and that all others make it fail |
| PeerLaws.HostRecords | tpt-ate-assembly/src/link.rs:97-122 | from an event it records the place that the first report for the site tells |
| PeerLaws.EquipTakesAny | tpt-ate-assembly/src/equipment.rs:57-117 | the same three cases for the equipment; parameters of commands are not looked at |
| WireRun.CompleteFrame | tpt-ate-comm/src/secs/hsms.rs:315-324 | a completed frame is the first queued message, and the bytes behind it are the other messages |
| WireRun.ReaderProgress | tpt-ate-comm/src/secs/hsms.rs:301-324 | a reader whose queue is not empty can take bytes or decode |
| WireRun.HostMsgIsFrameable | tpt-ate-assembly/src/link.rs:43-55 | every message the host sends fits a frame |
| WireRun.EquipMsgIsFrameable | tpt-ate-assembly/src/equipment.rs:104-116 | every message the equipment sends fits a frame |
| WireRefinement.WireStepRefines | tpt-ate-comm/src/secs/hsms.rs:301-324 | every step over bytes, in chunks of any size, is one step over messages or none |
| WireRefinement.WireRunRefines | tpt-ate-comm/src/secs/hsms.rs:301-324 | every run over bytes is a run over messages |
| WireRefinement.WireRunEnds | tpt-ate-assembly/src/techniques.rs:103-122 | however bytes are split and sides interleave, a stopped run ends as the message run says |
| WireRefinement.WireStepUsesWork | tpt-ate-comm/src/secs/hsms.rs:301-324 | every byte step uses up message work or bytes |
| WireRefinement.WireRunsAreBounded | tpt-ate-comm/src/secs/hsms.rs:301-324 | no run over bytes goes on forever |
| SessionWaits.WaitGivesItsKind | tpt-ate-comm/src/secs/hsms.rs:372-553 | a wait that succeeds ends in the kind of value its caller expects and never deselected |
| AssemblyHostObject.SoloWaits | tpt-ate-assembly/src/link.rs:23-125 | a session wait is a stretch of the run of the host machine |
| AssemblyHostObject.FindReport | tpt-ate-assembly/src/link.rs:97-122 | the loop over reports finds the first one of the site, or the first malformed one |
| AssemblyHostObject.AssemblyHost.AwaitPlacementEvent | tpt-ate-assembly/src/link.rs:77-124 | the event loop takes the host machine from collecting to the next command with one more record, or to failure |
| AssemblyHostObject.AssemblyHost.Place | tpt-ate-assembly/src/link.rs:43-73 | the frame it writes first orders the command: SITE, X and Y as planned; it brings the host machine from sending it to the next one, with the reported position, or to failure, with the error of this site |
| AssemblyHostObject.Connect | tpt-ate-assembly/src/link.rs:26-39 | select and handshake bring the host machine to its first command, or to failure |
| AssemblyHostObject.AssemblyHost.ExecutePlan | tpt-ate-assembly/src/techniques.rs:103-122 | the loop over the plan returns the records of the host machine exactly when that is done, having read and written the same bytes |
| AssemblyHostObject.RunHost | tpt-ate-assembly/src/link.rs:26-124 | the whole host program, on any inbound bytes, ends as the host machine: result, records, bytes read and written |
| AssemblyEquipmentObject.SoloWaits | tpt-ate-assembly/src/equipment.rs:57-120 | a session wait is a stretch of the run of the equipment machine |
| AssemblyEquipmentObject.EquipmentGem.ServeOne | tpt-ate-comm/src/secs/gem.rs:138-145 | serving one primary takes the equipment machine to what it does with that primary |
| AssemblyEquipmentObject.EquipmentGem.SendEventReport | tpt-ate-comm/src/secs/gem.rs:148-173 | sending an event and taking its acknowledge brings the machine to its next command, or to failure |
| AssemblyEquipmentObject.Run | tpt-ate-assembly/src/equipment.rs:57-120 | the whole equipment program, on any inbound bytes, ends as the equipment machine: result, bytes read and written |
| ProgramsOnTheWire.ProgramsMeet | tpt-ate-comm/src/secs/transport.rs:91-100 | in every run on the wire in which both sides have returned, each program, fed what the other wrote, writes what the other read and ends as in the run |
| ProgramsOnTheWire.HostProgramCompletes | tpt-ate-assembly/src/techniques.rs:103-122 | with the same plan, in every finished run on the wire, the host program fed with what the equipment wrote returns one record per command, in order |
| Verify.VerifyPlacements | tpt-ate-assembly/src/verify.rs:51-131 | the three passes report the specified violations, in order, and the report is ok exactly when the placements conform |
| Verify.RecordPass | tpt-ate-assembly/src/verify.rs:59-101 | the first loop, with its early continues, reports the specified violations and collects the accepted sites |
| Verify.MissingPass | tpt-ate-assembly/src/verify.rs:103-107 | the second loop reports every site that was not accepted |
| Verify.OverlapPass | tpt-ate-assembly/src/verify.rs:110-128 | the pairwise loop reports every overlapping pair once, in order |
| Verify.ReportIsExact | tpt-ate-assembly/src/verify.rs:51-131 | a violation is reported exactly when it is justified by the records and the layout, without reference to any pass |
| Verify.ReportIsEmptyIff | tpt-ate-assembly/src/verify.rs:51-131 | the report is empty exactly when the sites of the records are those of the layout, once each, orientations match, deviations are within tolerance, known footprints are inside and no two overlap |
| VerifyLaws.ReportIsSpelledOut | tpt-ate-assembly/src/verify.rs:51-131 | the whole report, with number and order of its violations, in terms of the records and the first entries for their sites and chiplets in the two lists of the layout |
| VerifyLaws.BadFootprintsAreReported | tpt-ate-assembly/src/verify.rs:86-128 | the first footprint of a chiplet that sticks out, or two that overlap, never go unreported |
| PlacementGeometry.SharedPointIff | tpt-ate-assembly/src/verify.rs:115-121 | for rectangles of positive size the overlap test holds exactly when they share a grid point |
| PlacementGeometry.EmptyFootprintCanOverlap | tpt-ate-assembly/src/verify.rs:115-121 | without positive size it does not: an empty rectangle can be reported as overlapping |
| PlacementGeometry.FootprintsAreDisjoint | tpt-ate-assembly/src/verify.rs:110-128 | with an empty report and sized footprints, any two placements occupy disjoint points inside the interposer |
| PlacementGeometry.AreaIsBounded | tpt-ate-assembly/src/verify.rs:86-128 | hence the footprint areas add up to at most the area of the interposer |
| PlacementGeometry.CountingLaw | tpt-ate-assembly/src/verify.rs:59-107 | for every list of records: records less unknown and repeated ones are sites less missing ones |
| EndToEnd.RunConforms | tpt-ate-assembly/src/equipment.rs:96-114 | the records of a completed run of a plan with enough clearance conform, for every jitter in the window, through the clamp at 0 and the U4 transport |
| EndToEnd.PlacementRunVerifies | tpt-ate-assembly/src/techniques.rs:103-129 | every finished run on the wire of such a plan completes on both sides, and verification at the simulated tolerance reports nothing |
| Margins.ManufacturableIff | tpt-ate-assembly/src/techniques.rs:103-129 | for targets within U4 and known footprints of positive size, the records of a run verify under every jitter of the window exactly when the plan is for the layout, has those margins and clearances, and the tolerance is at least twice the largest jitter: no smaller margin would do |
| StdfCodec.FieldReadsIff | tpt-ate-test/src/stdf/codec.rs:49-124 | a written field reads back in a given byte order exactly when its number or length looks the same in that order |
| StdfCodec.FieldsReadIff | tpt-ate-test/src/stdf/codec.rs:49-124 | the same for a row of fields |
| StdfCodec.FieldRewritesIff | tpt-ate-test/src/stdf/codec.rs:49-173 | a field that was read is written back to the very bytes it came from exactly when its text was well formed there |
| StdfCodec.FieldsRewriteIff | tpt-ate-test/src/stdf/codec.rs:49-173 | the same for a row of fields |
| StdfCodec.GetAllIsLocal | tpt-ate-test/src/stdf/codec.rs:49-124 | what a row of fields reads does not depend on the bytes behind it |
| StdfCodec.Reader.TakeBytes | tpt-ate-test/src/stdf/codec.rs:49-56 | the cursor advances over exactly the bytes taken, and not at all on an error |
| StdfCodec.Reader.ReadSn | tpt-ate-test/src/stdf/codec.rs:116-123 | the loop over counted strings returns what the specification reads |
| StdfCodec.Reader.Field | tpt-ate-test/src/stdf/codec.rs:58-114 | each field reader returns what the specification reads and stops where it stops |
| StdfLayout.RecordIsSpelledOut | tpt-ate-test/src/stdf/records.rs:453-609 | every record byte for byte: length, type, and each field in its place and with its bytes, optional ones by the bits that drop them |
| StdfFlagLaws.PtrIsReadByItsBits | tpt-ate-test/src/stdf/records.rs:776-812 | which bit of OPT_FLAG drops which field of a PTR, and from which bytes each of the others is read, in either byte order |
| StdfFlagLaws.PtrWithoutOptFlag | tpt-ate-test/src/stdf/records.rs:776-812 | without the announcing bit there is none of them |
| StdfFlagLaws.FtrIsReadByItsBits | tpt-ate-test/src/stdf/records.rs:850-862 | the same for the alarm id, the second flags and the names of an FTR |
| StdfFlagLaws.PmrTailCases | tpt-ate-test/src/stdf/records.rs:700-708 | a PMR with one byte left is cut short; with more it has a head and a site |
| StdfFlagLaws.MissingStringsAreEmpty | tpt-ate-test/src/stdf/records.rs:724-760 | strings that a WRR or TSR ended without are read as empty |
| StdfFlagLaws.TrailingBytesAreDropped | tpt-ate-test/src/stdf/records.rs:622-919 | for a record type without optional fields, bytes behind the known ones change nothing |
| StdfRoundTrip.OptReadsIff | tpt-ate-test/src/stdf/records.rs:776-811 | an optional field reads back exactly when it is there if and only if its flags want it, and the byte order does not change it |
| StdfRoundTrip.PtrTailReadsIff | tpt-ate-test/src/stdf/records.rs:776-812 | the optional fields of a PTR read back exactly when they match PARM_FLG and OPT_FLAG and the byte order |
| StdfRoundTrip.FtrTailReadsIff | tpt-ate-test/src/stdf/records.rs:850-862 | the optional fields of an FTR read back exactly when they match both flag bytes, none is skipped over, and the 16-bit lengths of its names are the right ones in the byte order |
| StdfRoundTrip.PmrTailReadsIff | tpt-ate-test/src/stdf/records.rs:700-708 | head and site of a PMR read back exactly when both or neither are there |
| StdfRoundTrip.BuiltRow | tpt-ate-test/src/stdf/records.rs:622-919 | every mandatory field is stored where the encoder takes it from: the row can be taken back out of any parsed record |
| StdfRoundTrip.RecordReadsIff | tpt-ate-test/src/stdf/records.rs:453-609 | a record the writer accepts reads back exactly when its optional fields are consistent with its flags, its names fit their lengths, and nothing in it depends on the byte order of the reader |
| StdfRoundTrip.LittleIsSame | tpt-ate-test/src/stdf/records.rs:453-609 | in a consistent record nothing depends on the byte order of a little-endian reader |
| StdfLossless.LosslessIff | tpt-ate-test/src/stdf/records.rs:453-919 | for every type, every body and either byte order: reading and writing gives the same bytes exactly when the body, judged by its bytes alone, is well-formed text throughout, has all the strings of a WRR or TSR, both or none of the numbers of a PMR, what the flags of a PTR or FTR ask for and its units, and nothing behind; and it reads the same in both orders |
| StdfLossless.WrittenIsIntact | tpt-ate-test/src/stdf/records.rs:453-609 | what the writer makes of a consistent record is such a body |
| StdfLossless.PtrTailRewrites | tpt-ate-test/src/stdf/records.rs:767-812 | the end of a PTR with its announced OPT_FLAG, as many bytes as that asks for and its units is parsed and written back to the same bytes |
| StdfLossless.FtrTailRewrites | tpt-ate-test/src/stdf/records.rs:850-862 | the same for the alarm id, second flags and names of an FTR |
| StdfLossless.UnitsAreAdded | tpt-ate-test/src/stdf/records.rs:941-960 | every PTR that ends with its mandatory fields is written with one more byte than it was read from |
| StdfLossless.TailIsDropped | tpt-ate-test/src/stdf/records.rs:8-12 | an input whose tail is not kept, against the documentation |
| StdfReread.ParsedIsConsistentIff | tpt-ate-test/src/stdf/records.rs:622-919 | a parsed record disagrees with its own flags and lengths only as a PTR whose bytes stop short of what its flags ask for, or as an FTR whose repaired names outgrew 16 bits |
| StdfReread.RereadIff | tpt-ate-test/src/stdf/records.rs:622-919 | a record that was read, from any bytes in either order, is read back the same after writing it, unless it is one of those |
| StdfReread.CutPtrIsNotStable | tpt-ate-test/src/stdf/records.rs:767-812 | every PTR that announces OPT_FLAG and ends before it is reread differently: the units the writer added are then the OPT_FLAG |
| StdfRecordSteps.EncodePtrTail | tpt-ate-test/src/stdf/records.rs:941-960 | the conditional writes append exactly the specified tail |
| StdfRecordSteps.EncodeFtrTail | tpt-ate-test/src/stdf/records.rs:981-999 | the conditional writes append exactly the specified tail |
| StdfRecordSteps.ReadPtrTail | tpt-ate-test/src/stdf/records.rs:776-812 | the conditional reads, each where the last one stopped, return the specified optional fields or the first error |
| StdfRecordSteps.ReadFtrTail | tpt-ate-test/src/stdf/records.rs:850-862 | the conditional reads return the specified optional fields or the first error |
| StdfStream.StdfWriter.Write | tpt-ate-test/src/stdf/writer.rs:24-44 | one record is appended, behind an x86 V4 FAR if it is the first and no FAR itself |
| StdfStream.StdfWriter.WriteAll | tpt-ate-test/src/stdf/writer.rs:47-52 | a batch is appended whole, behind such a FAR exactly when it is not empty and does not start with one |
| StdfStream.StdfReader.FillBody | tpt-ate-test/src/stdf/reader.rs:50-59 | the fill loop, over reads of any size, takes exactly the body, or reports how much there was |
| StdfStream.StdfReader.Next | tpt-ate-test/src/stdf/reader.rs:31-70 | one record with the byte order and FAR state it leaves, or the specified error |
| StdfStream.StdfReader.Records | tpt-ate-test/src/stdf/reader.rs:74-80 | all records to the end of the file, or the first error |
| StdfLayout.FileStartsWithFar | tpt-ate-test/src/stdf/writer.rs:24-44 | the six bytes in front of a file that was given no FAR |
| StdfLayout.FarSetsTheOrder | tpt-ate-test/src/stdf/reader.rs:61-68 | a FAR of processor type 1 sets the big-endian order, any other the little-endian one |
| StdfLayout.WhatIsNoRecord | tpt-ate-test/src/stdf/reader.rs:31-59 | which bytes do not start with a record, and with which error |
| StdfOverlong.OverlongIsNotRead | tpt-ate-test/src/stdf/records.rs:605-609 | a record whose body has 65536 bytes or more is not what the reader makes of the bytes its length announces, whatever its type and the byte order |
| StdfStream.ReadsBackIff | tpt-ate-test/src/stdf/reader.rs:31-80 | a written stream reads back exactly when every body can be announced in 16 bits and every record is consistent and looks the same in the byte order the last FAR up to it has set |
| StdfStream.FileReadsBackIff | tpt-ate-test/src/stdf/writer.rs:24-52 | the same for what the writer makes of any list of records, its FAR included |
| StdfStream.LittleFileReadsBackIff | tpt-ate-test/src/stdf/writer.rs:24-52 | without a FAR of the 68000, a file reads back exactly when every body can be announced and every record is consistent with its flags |
| StdfStream.M68000FileDoesNotReadBack | tpt-ate-test/src/stdf/writer.rs:1-2 | a file with such a FAR that does not: the writer writes little-endian all the same |
| Bins.CountsAreExact | tpt-ate-test/src/bins.rs:97-102 | counts kept by inserting or incrementing stay ordered, say of every bin how often it was counted, and add up to the number counted |
| Bins.SameBinsSameCounts | tpt-ate-test/src/bins.rs:97-102 | the counts do not depend on the order of counting |
| Bins.BinTally.Record | tpt-ate-test/src/bins.rs:97-102 | one more die in the totals and in one hard and one soft bin |
| Wafer.OutcomesAfterUpdate | tpt-ate-test/src/wafer.rs:128-136 | recording a die replaces its outcome, if it had one, and touches no other |
| Wafer.WaferDieMap.Record | tpt-ate-test/src/wafer.rs:128-136 | an untested or tested die takes the outcome; an excluded or unknown one is refused and nothing changes |
| Wafer.WaferDieMap.TestedCounts | tpt-ate-test/src/wafer.rs:139-149 | how many outcomes are on the map, and how many of them passed |
| Wafer.WaferDieMap.HardBinCounts | tpt-ate-test/src/wafer.rs:152-160 | the hard bin counts of the outcomes on the map |
| Wafer.WaferDieMap.SoftBinCounts | tpt-ate-test/src/wafer.rs:163-171 | the soft bin counts of the outcomes on the map |
| BinSort.AssignBin | tpt-ate-test/src/bin_sort.rs:71-124 | the two searches with early returns assign the specified bin |
| BinSort.FirstFailureDecides | tpt-ate-test/src/bin_sort.rs:71-124 | a die passes exactly when nothing failed and it was not aborted; otherwise the first failure in order, measurements first, decides test number and bin |
| BinLaws.AssignedIff | tpt-ate-test/src/bin_sort.rs:71-124 | exactly one assignment fits a die: by the first failure in order, the bin its first test or group of that number declares, or the default of its class, 12 for an abort, 1 for a pass, with the hard bin of the taxonomy |
| BinLaws.DefaultBins | tpt-ate-test/src/bins.rs:45-62 | the default taxonomy has four bins of each kind, rolled up by number, of which only number 1 passes |
| BinSort.DefaultPassBinIff | tpt-ate-test/src/bins.rs:45-74 | with the default taxonomy a die is in a pass bin exactly when it is in soft bin 1, where a program can send failures too |
| BinSort.SortWafer | tpt-ate-test/src/bin_sort.rs:129-150 | records every result in order and counts those that found no die |
| BinSort.Tally | tpt-ate-test/src/bin_sort.rs:153-163 | totals, passes, aborts and both bin counts of the assignments in order |
| BinLaws.TallyIsExact | tpt-ate-test/src/bin_sort.rs:153-163 | the tally says of every hard and every soft bin how many results were sorted into it |
| BinSort.SortingAccounts | tpt-ate-test/src/bin_sort.rs:129-150 | after any results: which dies are tested, how many outcomes there are, and that they are the assignments as a multiset when every result found its own die |
| BinSort.CountsAgreeIff | tpt-ate-test/src/bin_sort.rs:129-163 | the counts taken from the map equal those of the tally exactly when every result found its die and no two were for the same one |
| WaferLaws.EachDieKeepsItsLastResult | tpt-ate-test/src/bin_sort.rs:129-150 | after sorting, every die that is not excluded carries the assignment of the last result for it, or is untouched |
| WaferLaws.UnmatchedAreOffMap | tpt-ate-test/src/bin_sort.rs:129-150 | the unmatched results are those for no die of the map or for an excluded one |
| WaferLaws.PassesOnMapIff | tpt-ate-test/src/bin_sort.rs:129-163 | the map has at most as many passes as the tally, and as many exactly when every passing result found its die and none came after it |
| WaferMapGdr.EncodeWaferMap | tpt-ate-test/src/recording.rs:309-328 | the packing loop appends one entry per die in coordinate order |
| StreamLaws.MapIsSpelledOut | tpt-ate-test/src/recording.rs:309-328 | the packed map byte for byte |
| StreamLaws.PayloadCases | tpt-ate-test/src/recording.rs:339-361 | when a payload has no map, when its id runs out of range, and how many entries are read from it |
| StreamLaws.EntryIsRead | tpt-ate-test/src/recording.rs:345-357 | any thirteen bytes as an entry: coordinates, bins and verdict, or untested |
| WaferMapGdr.DecodeWaferMap | tpt-ate-test/src/recording.rs:339-361 | the unpacking loop returns every whole entry; out of range ids are where the source panics |
| WaferMapGdr.EntryRoundTrip | tpt-ate-test/src/recording.rs:316-327 | an entry with anything behind it reads back as its coordinate and what the file can say of its state |
| WaferMapGdr.MapReadsBackIff | tpt-ate-test/src/recording.rs:309-361 | the packed map reads back with its id and every die exactly when the id has at most 255 bytes |
| WaferMapGdr.StatesReadAlikeIff | tpt-ate-test/src/recording.rs:316-356 | the entries of two states of a die, whatever follows them, read alike exactly when the states are the same or neither is an outcome other than a failure into bins 0 and 0; any such outcome is read as it was stored |
| WaferMapGdr.GdrReadsBackIff | tpt-ate-test/src/stdf/records.rs:605 | a GDR reads back exactly when its payload leaves room for its own length, 65533 bytes |
| Recording.Summarize | tpt-ate-test/src/recording.rs:291-304 | how many results were picked, and how many of those failed |
| Recording.BuildWaferRunRecords | tpt-ate-test/src/recording.rs:50-289 | the recorder, loop by loop, builds the specified stream |
| RecordingTheorems.ByCoordSorts | tpt-ate-test/src/recording.rs:134-135 | the order of the dies in the stream: sorted by coordinate, the same results, and stable |
| RecordingTheorems.FirstSpeaksIff | tpt-ate-test/src/recording.rs:174-176 | the first verdict under a number speaks for its die exactly when there is no second one, or none that fails |
| RecordingTheorems.SynopsisAgreesIff | tpt-ate-test/src/recording.rs:172-205 | execution and failure counts over unsorted results against the PTRs or FTRs of the sorted stream: never more, and equal exactly when no die repeats the number, or none of its repeats fails |
| RunFile.EveryTsrAgreesIff | tpt-ate-test/src/recording.rs:172-205 | the same for every TSR that is in a stream |
| RunFile.StreamIsSectioned | tpt-ate-test/src/recording.rs:136-169 | BPS and EPS alternate, results stand only between them, everything else only outside |
| RunFile.StreamTotals | tpt-ate-test/src/recording.rs:207-273 | the sums of the bin records and the counts of WRR and both PCRs are those of the tally and of the map |
| RunFile.StreamCountersAgreeIff | tpt-ate-test/src/recording.rs:207-273 | HBR and SBR counts always add up to the results; WRR and PCR count as many exactly when every result found its die and no die had two |
| StreamLaws.StreamYield | tpt-ate-test/src/recording.rs:207-243 | by sums over the stream: one WRR and one PCR for each of two sites, each with the passing dies of the map as good, the aborts it was told, and no retests or functional parts |
| StreamLaws.StreamYieldAgreesIff | tpt-ate-test/src/recording.rs:207-243 | the good count is at most the passing results, and equal exactly when no pass is lost; the abort count is the aborted results |
| StreamLaws.EveryRecordTellsTheTruth | tpt-ate-test/src/recording.rs:50-289 | every record of a stream says, field by field, what the program, a result, the map, the tally or the metadata say |
| StreamLaws.StreamIsInOrder | tpt-ate-test/src/recording.rs:50-289 | the kinds of records follow one another in a fixed order |
| StreamLaws.ResultsAreInOrder | tpt-ate-test/src/recording.rs:134-169 | its PTRs and FTRs are all the verdicts of the results, die by die in coordinate order, measurements first |
| StreamLaws.ResultsGoByXThenY | tpt-ate-test/src/recording.rs:134-135 | that order is by x first, and by y among equal x |
| RunFileRoundTrip.RunFileReadsBackIff | tpt-ate-test/src/recording.rs:50-289 | the file of a run reads back as its records exactly when the packed wafer map, 13 bytes a die, fits the body of one GDR |
| RunFileRoundTrip.MapSurvivesTheFile | tpt-ate-test/src/recording.rs:275-277 | then the map in the file says of every die, in coordinate order, what the wafer map said |

## Left out

- tpt-ate-aggregate: it copies the bin tally into a report type, hides the counts of bins below a minimum
  cohort, compares schema versions, and writes and reads the report as JSON; JSON is not part of this model.
- The simulated tester (tpt-ate-test/src/sim.rs) and the random numbers (tpt-ate-comm/src/rng.rs):
  jitter is any integer within the window, which covers every seed; the wafer run over HSMS is the same
  protocol with a simpler script.
- Floating-point arithmetic: F4, F8 and R*4 values are bit patterns that are only copied.
- Threads, the mutex and the condition variable of the duplex: reads, writes and closes are atomic steps;
  a blocked read resumes when bytes have arrived or the writer is gone.
- I/O errors of the operating system, `Interrupted` reads, and sources that fill the four header bytes of
  an STDF record in more than one read.
- Machine overflow: coordinates are unbounded up to the U4 conversion, and u32 counters do not wrap.
- SessionWaits.WaitGivesItsKind: waits are on a whole inbound stream that ends; a peer that stays silent
  forever is a run that has not stopped.
- ProgramsOnTheWire.ProgramsMeet: a run that stops in a deadlock of two different plans is not covered,
  because there neither program returns; RunTheorems.RunEnds says exactly when that happens.
- Recording.BuildWaferRunRecords: the library sort is an insertion sort with the same stable result, and
  the package version in MIR is the constant 0.1.0.
- RunFileRoundTrip.RunFileReadsBackIff: asks that every record can be written, which is what the asserts
  of the writer and the ranges of the field types demand.
- StdfReread.RereadIff: asks that the record that was read can be written; the writer panics on strings of
  more than 255 bytes, which repairing can make of shorter ones.
- Display, error texts, the clock, serde, the process parameters of the backends, and the accessors that
  no modelled code calls.
