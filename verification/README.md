# Inspection console: models and proofs

This project models the parts of the ISG console whose correctness is not visible in one
function: the least-squares calibration, the pipeline that turns image verdicts into kick
decisions, the S7 block transfer with the ISO transport underneath it, and the codecs.
Code that changes fields, buffers or arrays is modelled by classes, arrays and loops, and
each method is proved against a specification function; the lemmas are about those
functions. `dafny verify dfyconfig.toml` checks everything.

## Components

**Calibration** (`LinAlg`, `Exchange`, `Determinant`, `Matrix`, `LeastSquares`,
`CoordinateTransform`, `RigidFit`). Floating point is modelled by exact reals. The in-place
inversion with full pivoting keeps the *exchange relation*: after k pivots the array is the matrix of
the original map with k inputs and outputs exchanged. From it follow the inverse, the
singular case, and that the value returned is the determinant (defined by expansion along
the first row). The solver's result satisfies the normal equations and is the unique
minimiser; an exactly affine set of targets is fitted exactly, and by a rigid motion exactly
when the targets keep distances and orientation.

**Inspection pipeline** (`PacketResult`, `PacketDecisions`, `ImageMultipler`,
`ImageGroup`, `BoxResult`, and put together `GroupPlaces`, `Pipeline`, `PipelineSteps`,
`PipelineSafety`, `PipelineAnswers`, `PipelineExamples`). Each slot is one atomic step of
a state machine that carries a history; the theorems hold after every run of events, in
any order, with any clock readings and hash iteration orders. For the composed system,
with results and verdicts in flight for any time and time-outs of images and packets at
any moment, a bad image lets its packet pass only when a time-out came first, and once
nothing is in flight, of the packets that no time-out touched exactly those with a bad
image have been kicked. A bad image is one that the model answered to be so, or another
algorithm.

**Block transfer** (`S7Frames`, `BlockTransfer`, `IsoTcp`, `PartnerLink`). A block is sliced
to the negotiated size, framed, received in fragments, reassembled and answered; sender and
receiver close the loop over two transport buffers. The transport follows section 6 of
RFC 1006 and clause 13.7 of ISO 8073.

**Codecs** (`Bytes`, `MachineWords`, `Tea`, `HexCodec`, `SerialCheck`, `SerialExample`,
`ProtocolStream`, `S7Text`) and the region shrinking of the template matcher
(`PatchCore`). `Basics` holds what several components share.

## Where the code and its documentation or intent disagree

The model follows the code. For each point there is an input that shows it and the exact
condition under which the code does what is expected. The condition is proved one way in two
places: for the round trip of TEA, with an input outside it that fails, and for late results,
where another image of the packet may still fail it.

- The comment at `ISG_Console/Multipler/ImageMultipler.cpp:101` says the last bracket is
  removed before a further result is appended. It is not: `[a,b]]` is sent for two results
  (`ImageMultipler.SentAsPromisedIff`, `TwoResultsExample`; `BuiltIs` is the text in general).
- The ISO fragment loop adds the whole running offset to its write position each turn, so
  fragments are joined only when all data comes in two adjacent telegrams
  (`IsoTcp.JoinsIffAdjacent`, `ThreePartsNotJoined`), and an accepted stream can be written
  behind the buffer (`IsoTcp.WritesInsideIff`, `WritesOutsideExample`).
- Payloads of 4090 to 4096 bytes can be sent but fail the receiver's check, which counts
  the seven header bytes (`IsoTcp.SentIsReceived`, `PartnerLink.FullTelegramRefused`).
- The size field of a block has 16 bits, so a block of exactly 65536 bytes arrives whole and
  is announced with size 0 (`BlockTransfer.RoundTrip`, `FullBlockExample`).
- The packet NG counter is raised when a packet fails and again when it is kicked
  (`PacketResult.NgCountsKicksTwice`, `CountedTwice`).
- Packet ids are milliseconds; a packet created in the same millisecond as a live one
  replaces it (`PacketResult.CreatedAccounted`, `ReplacedPacket`).
- A second verdict on an image replaces the first, so a packet with an image judged bad and
  then good passes (`PacketDecisions.FailedIffNgStands`, `SecondVerdictReplaces`).
- The comment at `ISG_Console/AssistLib/Matrix.cpp:501` speaks of a rigid transformation;
  the code fits a general affine one (`RigidFit.RigidIff`, `StretchIsFitted`).
- Mapping points in place computes the second coordinate from the first one's new value, and
  other shared arrays lose a coordinate before the map is applied
  (`CoordinateTransforms.RightIff`, `InPlaceAlwaysRightIff`, `InPlaceExample`).
- A result that comes after its image's time-out is dropped, so the packet of a bad image can
  pass (`PipelineSafety.BadImageNeverPasses`, `PipelineExamples.PassedLateExample`).
- TEA decryption guesses its starting sum by a shift, which is right exactly for the powers
  of two (`Tea.StartSumExact`). For those it undoes encryption; for three rounds it does not
  (`Tea.ThreeRoundsFail`); `Tea.WhatDecryptionUndoes` says what it undoes for any count.
- The shrinking of the template matcher leaves an empty region exactly when a side was one
  pixel (`PatchCore.ShrunkRegion`, `OnePixelWide`).

## Model

| member | source | states |
|---|---|---|
| Matrix.NewDmat | ISG_Console/AssistLib/Matrix.cpp:44-117 | bounds with no row or column are refused; otherwise storage of the right shape, cleared, with the bounds asked for; allocation may fail |
| Matrix.MatMul | ISG_Console/AssistLib/Matrix.cpp:137-194 | for any index origins, also when the result shares storage with a factor, the result is the product of what the factors held; mismatched shapes are refused and nothing changes |
| Matrix.MatCopy | ISG_Console/AssistLib/Matrix.cpp:204-236 | matrices of equal dimensions are copied whatever their origins, others refused and left alone |
| Matrix.TransposeTo | ISG_Console/AssistLib/Matrix.cpp:238-291 | separate storage, the same square matrix in place, and shared storage under other origins all give the transpose |
| Matrix.TransposeInPlace | ISG_Console/AssistLib/Matrix.cpp:264-269 | swapping above and below the diagonal transposes |
| LinAlg.TransposeInvolutive | ISG_Console/AssistLib/Matrix.cpp:238-291 | transposing twice gives the matrix back |
| Matrix.FindPivot | ISG_Console/AssistLib/Matrix.cpp:341-352 | the first entry of largest magnitude in the remaining block, row by row, and where it is |
| Matrix.Reduce | ISG_Console/AssistLib/Matrix.cpp:372-395 | the loops of one pivot make the exchange step on the whole array |
| Exchange.RowInterchangeKeeps | ISG_Console/AssistLib/Matrix.cpp:354-361 | a signed row interchange keeps the exchange relation to the interchanged original |
| Exchange.ColInterchangeKeeps | ISG_Console/AssistLib/Matrix.cpp:363-370 | the same for columns |
| Exchange.PivotKeeps | ISG_Console/AssistLib/Matrix.cpp:372-395 | one pivot exchanges one more input with its output |
| Exchange.FullyPivoted | ISG_Console/AssistLib/Matrix.cpp:340-396 | once every pair is exchanged, the array maps outputs back to inputs |
| Exchange.RestoreKeeps | ISG_Console/AssistLib/Matrix.cpp:398-415 | undoing one pair of interchanges, sign included, turns an inverse of the interchanged matrix into one of the matrix before |
| Exchange.ZeroPivotSingular | ISG_Console/AssistLib/Matrix.cpp:372-374 | when the remaining block is zero, some non-zero vector is mapped to zero |
| Determinant.DetColLinear | ISG_Console/AssistLib/Matrix.cpp:294-299 | the determinant (first-row expansion) is linear in every column |
| Determinant.DetEqualCols | ISG_Console/AssistLib/Matrix.cpp:294-299 | and zero when two columns are equal |
| Determinant.DetRowInterchange | ISG_Console/AssistLib/Matrix.cpp:354-361 | a signed interchange with the first row keeps the determinant |
| Determinant.DetColInterchange | ISG_Console/AssistLib/Matrix.cpp:363-370 | a signed interchange of columns keeps the determinant |
| Determinant.BlockPivot | ISG_Console/AssistLib/Matrix.cpp:372-395 | a pivot takes exactly itself out of the determinant of the remaining block |
| Determinant.StepKeeps | ISG_Console/AssistLib/Matrix.cpp:340-396 | one whole step keeps the exchange relation and divides the remaining determinant by the pivot |
| Determinant.DetZeroIffSingular | ISG_Console/AssistLib/Matrix.cpp:372-374 | the determinant is zero exactly when some non-zero vector is mapped to zero |
| Matrix.PivotStep | ISG_Console/AssistLib/Matrix.cpp:341-395 | one step of the reduction, or a zero remaining block |
| Matrix.Eliminate | ISG_Console/AssistLib/Matrix.cpp:339-396 | the product of the pivots is the determinant; when it is not zero the array is fully exchanged and the permutation arrays record every interchange |
| Matrix.UndoInterchanges | ISG_Console/AssistLib/Matrix.cpp:398-415 | undone in reverse order, the interchanges leave the inverse of the original |
| Matrix.MatInvert | ISG_Console/AssistLib/Matrix.cpp:303-421 | returns the determinant; it is zero exactly for singular matrices, and otherwise the array holds the two-sided inverse; unequal origins and failed allocation leave the matrix alone |
| LinAlg.InverseMapsAreInverse | ISG_Console/AssistLib/Matrix.cpp:294-299 | matrices whose maps undo each other have products equal to the identity, and neither is singular |
| LeastSquares.NormalSolutionMinimises | ISG_Console/AssistLib/Matrix.cpp:424-428 | a solution of the normal equations has the least squared error, and is the only one when m^T m is not singular |
| LeastSquares.ResidualOrthogonal | ISG_Console/AssistLib/Matrix.cpp:424-428 | its residual is orthogonal to everything the matrix can produce |
| LeastSquares.PseudoInverseSolves | ISG_Console/AssistLib/Matrix.cpp:440-495 | (m^T m)^-1 m^T takes the right-hand side to a solution of the normal equations |
| LeastSquares.ExactSolutionIsFound | ISG_Console/AssistLib/Matrix.cpp:424-428 | an exact solution is the one that is found |
| LeastSquares.SolveSystem | ISG_Console/AssistLib/Matrix.cpp:429-497 | success exactly for matching shapes, enough rows and a determinant of magnitude at least 0.001; then every column of the result solves the normal equations of the inputs |
| CoordinateTransforms.SolveTransMatrix | ISG_Console/AssistLib/Matrix.cpp:506-609 | success exactly for three or more points with a large enough determinant; the parameters are the fit of both coordinates; with a square root that is one, the error is the sum of the distances between the mapped points and their targets, each the non-negative number whose square is the sum of the two squared differences, divided by the number of points; a failure changes nothing, or only the first row, to its fit, when a later allocation failed |
| CoordinateTransforms.TotalOfDistances | ISG_Console/AssistLib/Matrix.cpp:596-607 | the summed error is the sum of these distances |
| CoordinateTransforms.ExactFit | ISG_Console/AssistLib/Matrix.cpp:531-594 | when the targets are an affine image of the sources, the fit is that affine map |
| CoordinateTransforms.TotalErrorSign | ISG_Console/AssistLib/Matrix.cpp:596-607 | the error is not negative and zero exactly when every point is hit |
| CoordinateTransforms.ZeroErrorIffAffine | ISG_Console/AssistLib/Matrix.cpp:596-607 | the mean error of a fit is zero exactly when the targets are an affine image of the sources |
| RigidFit.Triangle | ISG_Console/AssistLib/Matrix.cpp:531-560 | points that determine the fit are not all on one line |
| RigidFit.RigidIff | ISG_Console/AssistLib/Matrix.cpp:500-594 | for affine targets, the fitted rows are orthonormal exactly when all distances are kept, and a rotation exactly when all orientations are kept too |
| RigidFit.StretchIsFitted | ISG_Console/AssistLib/Matrix.cpp:500-594 | three points, one moved twice as far: the determinant is 1, so the fit succeeds, and every fit of them has rows that are not orthonormal |
| RigidFit.StretchHasFit | ISG_Console/AssistLib/Matrix.cpp:500-594 | and these points have a fit |
| CoordinateTransforms.CoordinateTransform.SetData | ISG_Console/AssistLib/CoordinateTransform.cpp:11-21 | keeps the points and drops the old map's validity |
| CoordinateTransforms.CoordinateTransform.Generate | ISG_Console/AssistLib/CoordinateTransform.cpp:24-46 | on success the stored map is the fit, and equals any affine map that relates the points; a failure leaves an earlier success flag, and the map too unless an allocation failed |
| CoordinateTransforms.CoordinateTransform.Transform | ISG_Console/AssistLib/CoordinateTransform.cpp:49-71 | for any sharing of the four arrays, what each point becomes, and that it is the affine image under the condition of `RightIff`; without a map, or for more than 100 points, the points are only copied |
| CoordinateTransforms.RightIff | ISG_Console/AssistLib/CoordinateTransform.cpp:49-71 | for two different source arrays and any sharing with the destinations: a call is right for all points exactly when the coordinate that is lost or overwritten does not matter to the map, and a destination shared by both gets the same value twice |
| CoordinateTransforms.InPlaceAlwaysRightIff | ISG_Console/AssistLib/CoordinateTransform.cpp:66-69 | in place, a call is right for all points exactly when the second coordinate does not use the first, or the first never changes |
| CoordinateTransforms.InPlaceExample | ISG_Console/AssistLib/CoordinateTransform.cpp:66-69 | a map and a point for which the call in place gives another result |
| CoordinateTransforms.InPlaceRightIff | ISG_Console/AssistLib/CoordinateTransform.cpp:66-69 | mapping a point in place is right exactly when the first coordinate does not move or does not matter to the second |
| CoordinateTransforms.CoordinateTransform.Reset | ISG_Console/AssistLib/CoordinateTransform.cpp:74-81 | clears points, map and flag |
| S7Frames.TelegramParses | ISG_Console/ThirdParty/Snap7/s7_partner.cpp:745-800 | what the receiver reads at its own offsets is what the sender wrote: kind, end mark, R_ID, slice length, total size and slice |
| S7Frames.TelegramLayout | ISG_Console/ThirdParty/Snap7/s7_partner.cpp:748-800 | the telegram byte by byte: fixed bytes, the lengths of parameters and data from its size, the sequence word in machine order at 4, the partner's number at 17 and the sender's at 18 |
| BlockTransfer.Partner.GetNextByte | ISG_Console/ThirdParty/Snap7/s7_partner.cpp:434-440 | the number handed out is the new counter, never 0 or 255 from a counter below 255 |
| BlockTransfer.Partner.GetNextWord | ISG_Console/ThirdParty/Snap7/s7_peer.cpp:59-64 | the old counter is handed out, except that 65535 becomes 0 |
| BlockTransfer.Partner.AsBSend | ISG_Console/ThirdParty/Snap7/s7_partner.cpp:1063-1083 | a block is taken only when linked and idle; a refusal changes neither the block nor the pending flag |
| BlockTransfer.Partner.BlockSend | ISG_Console/ThirdParty/Snap7/s7_partner.cpp:700-824 | sends exactly the telegrams of the specification, numbered and cut as `Numbered` and `Carries` say of their bytes, and succeeds exactly when every exchange up to the last byte was good; otherwise the error says whether the last exchange was lost or refused |
| BlockTransfer.TelegramsFit | ISG_Console/ThirdParty/Snap7/s7_partner.cpp:726-740 | no telegram exceeds the negotiated size |
| BlockTransfer.SlicesPartition | ISG_Console/ThirdParty/Snap7/s7_partner.cpp:733-743 | the data parts of the telegrams, in order, are the block |
| BlockTransfer.BlockIsCarried | ISG_Console/ThirdParty/Snap7/s7_partner.cpp:726-800 | on the bytes of a whole send: every telegram but the last is as long as negotiated, the data parts follow each other through the block, the end mark is in the telegram that takes the rest and no other, the R_ID in all and the block's size in the first |
| BlockTransfer.NumbersRunOn | ISG_Console/ThirdParty/Snap7/s7_partner.cpp:751-772 | on the bytes of a whole send: byte 17 is zero in the first telegram and then the number in the previous answer; byte 18 is zero in a single telegram and otherwise runs on from the sender's counter; the sequence words run on |
| BlockTransfer.NumberedAt | ISG_Console/ThirdParty/Snap7/s7_partner.cpp:751-772 | the same for the telegram at any place of the send |
| BlockTransfer.Partner.OpenSequence | ISG_Console/ThirdParty/Snap7/s7_partner.cpp:902-917 | an idle receiver starts a sequence; a busy one is unchanged |
| BlockTransfer.Partner.PickData | ISG_Console/ThirdParty/Snap7/s7_partner.cpp:826-897 | a telegram of another kind is refused without a change; otherwise the slice is put at the running offset, the first telegram's size and R_ID are kept, and the answer carries the receiver's sequence number and no error |
| BlockTransfer.Partner.ClearRecv | ISG_Console/ThirdParty/Snap7/s7_partner.cpp:610-614 | the receive state is idle again |
| BlockTransfer.Partner.BlockRecv | ISG_Console/ThirdParty/Snap7/s7_partner.cpp:899-939 | one telegram through the receiver is one step of the specification; the answer, and the callback exactly when the block ends or fails |
| BlockTransfer.ReceiveInFull | ISG_Console/ThirdParty/Snap7/s7_partner.cpp:826-939 | what any readable telegram does, by the bytes at their offsets: refusal, a failed answer, the end of a block and the middle of one; where the slice goes, what stays, and the numbers and counters that a new sequence takes |
| BlockTransfer.OneTelegram | ISG_Console/ThirdParty/Snap7/s7_partner.cpp:826-939 | a receiver in step with the sender takes the next telegram and is in step again, or has delivered the block |
| BlockTransfer.BlockArrives | ISG_Console/ThirdParty/Snap7/s7_partner.cpp:728-939 | a block of any size up to the buffer's, in telegrams of any negotiated size, is delivered unchanged at its last telegram and not before |
| BlockTransfer.RoundTrip | ISG_Console/ThirdParty/Snap7/s7_partner.cpp:728-939 | from an idle receiver; the announced size is right exactly below 64 KiB |
| BlockTransfer.FullBlockExample | ISG_Console/ThirdParty/Snap7/s7_partner.cpp:728-939 | a block of 65536 bytes is delivered, and its announced size is 0 |
| BlockTransfer.FullBlockAnnouncedEmpty | ISG_Console/ThirdParty/Snap7/s7_partner.cpp:922-937 | every block of that size is in the buffer, and none of it is in what the callback is given |
| BlockTransfer.AnswerIsGood | ISG_Console/ThirdParty/Snap7/s7_partner.cpp:870-893 | the answer, read at the sender's offsets, has the receiver's sequence number and error 0 |
| BlockTransfer.AnswerLayout | ISG_Console/ThirdParty/Snap7/s7_partner.cpp:872-893 | the answer byte by byte |
| BlockTransfer.LoopDelivers | ISG_Console/ThirdParty/Snap7/s7_partner.cpp:733-939 | sender and receiver talking to each other, with nothing assumed about the exchanges, deliver every block at its last telegram |
| BlockTransfer.LoopIsExchange | ISG_Console/ThirdParty/Snap7/s7_partner.cpp:700-824 | a sender whose exchanges come out as the receiver's answers completes the block, and its telegrams are those of the closed loop |
| BlockTransfer.LoopSends | ISG_Console/ThirdParty/Snap7/s7_partner.cpp:700-939 | for an idle receiver those answers exist: with them the success condition of the send holds and its telegrams deliver the block |
| IsoTcp.IsoSocket.IsoSendBuffer | ISG_Console/ThirdParty/Snap7/s7_isotcp.cpp:248-282 | payloads up to 4096 bytes go out as one TPKT and DT TPDU, larger ones are refused |
| IsoTcp.IsoSocket.IsoRecvFragment | ISG_Console/ThirdParty/Snap7/s7_isotcp.cpp:368-438 | one fragment off the stream, put at the given position, with every refusal of the header checks |
| IsoTcp.IsoSocket.IsoRecvPdu | ISG_Console/ThirdParty/Snap7/s7_isotcp.cpp:440-490 | the fragment loop with its drifting write position; the total is left in the header, and a failure purges the stream |
| IsoTcp.IsoSocket.IsoRecvBuffer | ISG_Console/ThirdParty/Snap7/s7_isotcp.cpp:284-298 | hands out as many bytes as were accounted for |
| IsoTcp.FrameParses | ISG_Console/ThirdParty/Snap7/s7_isotcp.cpp:46-65 | a sent frame is refused above 4089 bytes of payload or without room, and otherwise gives its payload and end mark |
| IsoTcp.FrameLayout | ISG_Console/ThirdParty/Snap7/s7_isotcp.cpp:248-282 | a sent telegram byte by byte: version 3, the whole length, length indicator 2, type 0xF0, end mark 0x80, payload |
| IsoTcp.FragmentIff | ISG_Console/ThirdParty/Snap7/s7_isotcp.cpp:368-438 | for any stream, when a telegram is taken off it and what it then is, and which refusal it is otherwise |
| IsoTcp.ReceiveBounded | ISG_Console/ThirdParty/Snap7/s7_isotcp.cpp:440-490 | for any stream, at most 64 fragments and at most 4096 bytes |
| IsoTcp.StreamReceived | ISG_Console/ThirdParty/Snap7/s7_isotcp.cpp:440-490 | a stream of fragments is received exactly when the loop's bounds admit them, and what the buffer then holds |
| IsoTcp.AcceptsIff | ISG_Console/ThirdParty/Snap7/s7_isotcp.cpp:450-480 | those bounds in closed form: number of parts, bytes in all, bytes before the last |
| IsoTcp.RefusalReason | ISG_Console/ThirdParty/Snap7/s7_isotcp.cpp:440-490 | a stream that is not admitted is refused for a part that overflows the room left, when there is one within 64 parts, and otherwise for their number |
| IsoTcp.InPlaceIff | ISG_Console/ThirdParty/Snap7/s7_isotcp.cpp:455-460 | every part is written where it belongs exactly when all the data comes in two adjacent parts |
| IsoTcp.JoinsIffAdjacent | ISG_Console/ThirdParty/Snap7/s7_isotcp.cpp:455-460 | the payload is the concatenation, whatever the buffer held, exactly under that condition |
| IsoTcp.ThreePartsNotJoined | ISG_Console/ThirdParty/Snap7/s7_isotcp.cpp:455-460 | three one-byte parts over a cleared buffer give 1, 2, 0, 3 |
| IsoTcp.WritesInsideIff | ISG_Console/ThirdParty/Snap7/s7_isotcp.cpp:455-460 | every write stays in the buffer exactly when each part with data fits behind its drifted position |
| IsoTcp.DriftOfTail | ISG_Console/ThirdParty/Snap7/s7_isotcp.cpp:455-460 | that position counts each part once for every part after it |
| IsoTcp.JoinedInside | ISG_Console/ThirdParty/Snap7/s7_isotcp.cpp:455-460 | parts that are joined are also written inside |
| IsoTcp.WritesOutsideExample | ISG_Console/ThirdParty/Snap7/s7_isotcp.cpp:455-460 | parts that the loop accepts and writes behind the buffer |
| IsoTcp.SentIsReceived | ISG_Console/ThirdParty/Snap7/s7_isotcp.cpp:248-298 | what one socket sends the other receives, exactly up to 4089 bytes |
| PartnerLink.BlockCrosses | ISG_Console/ThirdParty/Snap7/s7_partner.cpp:728-939 | end to end over the transport, every block is delivered at its last telegram for negotiated sizes up to 4089 |
| PartnerLink.LinkDelivers | ISG_Console/ThirdParty/Snap7/s7_isotcp.cpp:248-309 | the same over the link in both directions: telegram and answer framed, received and written into the two transport buffers, whatever these hold at first, for negotiated sizes up to 4089 |
| PartnerLink.FullTelegramRefused | ISG_Console/ThirdParty/Snap7/s7_isotcp.cpp:46-65 | a full telegram of a negotiated size of 4090 to 4096 is refused by the receiver |
| PacketResult.CPacketResult.PreInferAsync | ISG_Console/Multipler/PacketResult.cpp:63-108 | the first packet near in time, in iteration order, decides alone: it takes the image or a new packet does; the id returned is that of a packet with the image in it |
| PacketResult.FirstNearDecides | ISG_Console/Multipler/PacketResult.cpp:65-107 | the first packet in iteration order whose first image is within the interval decides: the image joins it when its camera is absent there and a place is free, and otherwise starts a new packet |
| PacketResult.FarStartsNew | ISG_Console/Multipler/PacketResult.cpp:94-107 | an image outside the interval of every live packet starts a new one |
| PacketResult.OnlyNearJoins | ISG_Console/Multipler/PacketResult.cpp:67-89 | an image within the interval of one live packet only joins it, when its camera is absent and a place is free |
| PacketResult.CPacketResult.OnImageResult | ISG_Console/Multipler/PacketResult.cpp:110-146 | records verdicts on the packet's own images, and settles the packet when they are complete |
| PacketResult.VerdictInFull | ISG_Console/Multipler/PacketResult.cpp:112-145 | the verdict kept in 16 bits on an own image, the packet settled once it has as many verdicts as cameras or images, failed exactly when one of them is the bad one, and then kicked; every table and counter after it |
| PacketResult.CPacketResult.OnTimer | ISG_Console/Multipler/PacketResult.cpp:149-189 | at most one overdue packet leaves, without verdicts silently, otherwise settled |
| PacketResult.TimeoutInFull | ISG_Console/Multipler/PacketResult.cpp:151-187 | the first packet in iteration order whose first image is the time-out old leaves: silently without verdicts, otherwise settled, and kicked only with as many images as cameras |
| PacketResult.NothingOverdue | ISG_Console/Multipler/PacketResult.cpp:152-153 | when none is that old, nothing happens |
| PacketResult.CPacketResult.DoKickFinal | ISG_Console/Multipler/PacketResult.cpp:201-205 | a bad packet is kicked and counted |
| PacketResult.RunKeeps | ISG_Console/Multipler/PacketResult.cpp:63-189 | over every run: distinct cameras, verdicts incomplete and only for own images, each explained by an event, and created = live + overwritten + passed + failed + expired as multisets |
| PacketResult.LivePackets | ISG_Console/Multipler/PacketResult.cpp:63-108 | in every reachable state a live packet has images of different cameras, each taken at most the interval before or after its first image, and verdicts on its own images only, not on all of them |
| PacketResult.AtMostOnce | ISG_Console/Multipler/PacketResult.cpp:110-189 | with distinct ids, a packet leaves at most once, is kicked at most once, and is not live afterwards |
| PacketResult.CreatedAccounted | ISG_Console/Multipler/PacketResult.cpp:94-108 | created = live + finished + timed out, exactly when no packet was overwritten |
| PacketResult.KickHasReason | ISG_Console/Multipler/PacketResult.cpp:110-189 | a kick has a bad verdict on an image assigned to that packet behind it |
| PacketResult.NgCountsKicksTwice | ISG_Console/Multipler/PacketResult.cpp:140-143 | the NG counter is the failed packets plus the kicks |
| PacketResult.CountedTwice | ISG_Console/Multipler/PacketResult.cpp:140-143 | a run with one failed packet and an NG counter of two |
| PacketResult.ReplacedPacket | ISG_Console/Multipler/PacketResult.cpp:94-107 | a run with two packets created in one millisecond, one of them gone without leaving |
| PacketResult.TargetJoins | ISG_Console/Multipler/PacketResult.cpp:63-108 | the packet named for an image is live and has the image, with its camera |
| PacketDecisions.RunDecides | ISG_Console/Multipler/PacketResult.cpp:110-189 | over every run with distinct ids: a live packet's results are the last verdicts on its images, passed packets have no bad one standing, failed ones have, expired ones have none |
| PacketDecisions.FailedIffNgStands | ISG_Console/Multipler/PacketResult.cpp:123-189 | no bad packet passes: a packet that left with a verdict failed exactly when a bad verdict stands for one of its images, and was kicked exactly then unless a time-out settled it with images missing |
| PacketDecisions.KickedIffNgStands | ISG_Console/Multipler/PacketResult.cpp:123-145 | a packet that left on a verdict was kicked exactly when a bad verdict stands for one of its images |
| PacketDecisions.FailedIffNgJudged | ISG_Console/Multipler/PacketResult.cpp:110-189 | with one verdict for each image, exactly when some image was judged bad at all |
| PacketDecisions.SecondVerdictReplaces | ISG_Console/Multipler/PacketResult.cpp:119-121 | a run in which an image is judged bad and then good, and its packet passes |
| PacketDecisions.EveryImageJudged | ISG_Console/Multipler/PacketResult.cpp:123-126 | while the number of cameras does not change, a packet that left on a verdict had one for every image ever assigned to it |
| ImageMultipler.CImageMultipler.OnImageData | ISG_Console/Multipler/ImageMultipler.cpp:68-78 | an image is admitted unless it is pending |
| ImageMultipler.ImageInFull | ISG_Console/Multipler/ImageMultipler.cpp:70-77 | an image that is not pending becomes so without results |
| ImageMultipler.CImageMultipler.OnImageIasResult | ISG_Console/Multipler/ImageMultipler.cpp:80-203 | the merged records, counts, reports and signals are those of the list of results; results of other cameras or unknown images change nothing |
| ImageMultipler.ResultInFull | ISG_Console/Multipler/ImageMultipler.cpp:80-203 | a result of another camera or for an image that is not pending changes nothing; otherwise it is added, and the image is finished exactly with the last result waited for |
| ImageMultipler.CImageMultipler.OnTimeout | ISG_Console/Multipler/ImageMultipler.cpp:205-245 | the first overdue image in iteration order is reported with what it has |
| ImageMultipler.TimeoutInFull | ISG_Console/Multipler/ImageMultipler.cpp:209-242 | the first pending image in iteration order that is the time-out old is finished with the results it has |
| ImageMultipler.NothingOverdue | ISG_Console/Multipler/ImageMultipler.cpp:209-212 | when none is that old, nothing happens |
| ImageMultipler.CImageMultipler.GetStatistic | ISG_Console/Multipler/ImageMultipler.cpp:247-254 | admitted and NG images since the last reading |
| ImageMultipler.ReportsSay | ISG_Console/Multipler/ImageMultipler.cpp:145-198 | one report for each finished image, in order, under its own ids, with a bad verdict if some result was bad and otherwise the first one, and the text built from its results |
| ImageMultipler.SignalsSay | ISG_Console/Multipler/ImageMultipler.cpp:180-187 | one signal for each image finished in inference mode, in order, with its ids and the reported verdict |
| ImageMultipler.NgCountIs | ISG_Console/Multipler/ImageMultipler.cpp:176-178 | the NG count is the number of finished images with a bad result |
| ImageMultipler.MergeFolds | ISG_Console/Multipler/ImageMultipler.cpp:108-114 | folding results one by one gives NG if any was NG and otherwise the first that is not the initial value |
| ImageMultipler.VerdictIsFirst | ISG_Console/Multipler/ImageMultipler.cpp:108-114 | when the first result is not the initial value, it is the verdict unless some result is NG |
| ImageMultipler.SentAsPromisedIff | ISG_Console/Multipler/ImageMultipler.cpp:96-107 | the text sent is the bracketed list joined by commas exactly for one result, or none at a time-out |
| ImageMultipler.BuiltIs | ISG_Console/Multipler/ImageMultipler.cpp:96-107 | what is sent for any number of results: every further text closes the array again |
| ImageMultipler.TwoResultsExample | ISG_Console/Multipler/ImageMultipler.cpp:96-107 | two results give a bracket too many |
| ImageMultipler.RunKeeps | ISG_Console/Multipler/ImageMultipler.cpp:68-245 | over every run: admitted = pending + finished as multisets; an image is finished with a result from every algorithm, or late with fewer |
| ImageMultipler.FinishedOnce | ISG_Console/Multipler/ImageMultipler.cpp:68-245 | with distinct image ids, an image is finished at most once and not while pending |
| ImageGroup.ImageGrouper.OnImageData | ISG_Console/IasAgent/imageGroup.cpp:42-74 | the image joins its object's group, or starts one; the group is emitted or kept |
| ImageGroup.ArrivalInFull | ISG_Console/IasAgent/imageGroup.cpp:44-73 | when a group is emitted with the image that arrives, which images it then has, and since when a group waits |
| ImageGroup.ImageGrouper.OnTimeout | ISG_Console/IasAgent/imageGroup.cpp:76-89 | erasing while iterating emits the overdue groups in order |
| ImageGroup.RunConserves | ISG_Console/IasAgent/imageGroup.cpp:42-89 | over every run and per object, the images received are those of the emitted groups followed by those pending, in order; the vectors stay aligned and no group is empty |
| ImageGroup.ScanLeaves | ISG_Console/IasAgent/imageGroup.cpp:80-88 | a scan leaves exactly the groups that are not overdue, unchanged |
| ImageGroup.NoOverdueSurvives | ISG_Console/IasAgent/imageGroup.cpp:76-89 | no overdue group survives a time-out |
| ImageGroup.PendingIncomplete | ISG_Console/IasAgent/imageGroup.cpp:53-58 | in inference mode with a constant number of cameras, a complete group does not wait |
| ImageGroup.OnImageGroup | ISG_Console/IasAgent/batchInfer.cpp:101-151 | one result for each image, in order, under its own ids: good exactly when the model answered good, bad exactly when it answered not good, with the model's text; and a time-out for each when no model is loaded |
| ImageGroup.ResultSays | ISG_Console/IasAgent/batchInfer.cpp:107-150 | the same of the specification that the pipeline uses |
| GroupPlaces.OnImagePlaces | ISG_Console/IasAgent/imageGroup.cpp:42-74 | every image received is in exactly one group, waiting or emitted, under its own object and camera |
| GroupPlaces.ScanPlaces | ISG_Console/IasAgent/imageGroup.cpp:76-89 | and stays so when groups are flushed |
| PipelineSafety.RunKeeps | ISG_Console/ImgSrc/ImageSrcDev.cpp:196-213 | over every run of the composed system with time-outs, each image is pending, has its verdict in flight or has had it delivered, exactly one of these, and a bad result is lost only when it comes after the image was reported or its verdict after the packet left |
| PipelineSafety.BadImageNeverPasses | ISG_Console/Multipler/ImageMultipler.cpp:22-50 | whatever is in flight or times out, an image that some algorithm judged bad keeps its packet from passing, unless it was reported before the bad result or the packet was settled before the verdict; a packet that failed without a time-out was kicked |
| PipelineSafety.BadImageKicks | ISG_Console/Multipler/PacketResult.cpp:110-147 | when neither the image nor its packet timed out, the packet is live, or has failed and been kicked |
| PipelineSafety.QuietDecision | ISG_Console/Multipler/ImageMultipler.cpp:22-50 | once nothing is in flight, every packet has left; one that no time-out touched was kicked exactly when some algorithm judged one of its images bad, and passed otherwise, whatever timed out elsewhere |
| PipelineSafety.TimelyDecision | ISG_Console/Multipler/PacketResult.cpp:110-147 | in a run without time-outs that is so for every packet |
| PipelineAnswers.AnswersOfRun | ISG_Console/IasAgent/batchInfer.cpp:122-149 | the answer that a run keeps for an image is what the loaded model answered when its group was inferred, and there is no other |
| PipelineAnswers.BadIff | ISG_Console/IasAgent/batchInfer.cpp:143-147 | an image is bad exactly when the model answered that it is not good or another algorithm sent a bad result for it |
| PipelineAnswers.QuietAnswers | ISG_Console/Multipler/PacketResult.cpp:110-147 | once nothing is in flight, a packet that no time-out touched was kicked exactly when one of its images got such an answer or result, and passed otherwise |
| PipelineExamples.PassedLateExample | ISG_Console/Multipler/ImageMultipler.cpp:205-245 | a run in which an image is reported at a time-out, its packet passes, and the image is then judged bad |
| PipelineExamples.KickedExample | ISG_Console/IasAgent/batchInfer.cpp:101-151 | a run of the composed system that comes to rest with a kick |
| PipelineExamples.PassedExample | ISG_Console/IasAgent/batchInfer.cpp:101-151 | a run that comes to rest with a good image and its packet passed |
| BoxResult.CBoxResult.EnqueueBox | ISG_Console/Multipler/BoxResult.cpp:123-137 | a new box comes first, and the oldest is dropped when there are too many |
| BoxResult.BoxEnters | ISG_Console/Multipler/BoxResult.cpp:123-137 | the queue, the counters and what stays after a box has entered |
| BoxResult.CBoxResult.DequeueBox | ISG_Console/Multipler/BoxResult.cpp:139-159 | the oldest box is popped exactly when it has stayed long enough |
| BoxResult.BoxLeaves | ISG_Console/Multipler/BoxResult.cpp:139-159 | the oldest box is taken off exactly when it is the dwell time old; the flag, the slot and the queue after it |
| BoxResult.CBoxResult.OnBarCode | ISG_Console/Multipler/BoxResult.cpp:161-165 | a bar code takes the next box off, as above |
| BoxResult.CBoxResult.PreInferAsync | ISG_Console/Multipler/BoxResult.cpp:63-121 | which box an image goes to; the id returned is that of a box with the image in it |
| BoxResult.LineImage | ISG_Console/Multipler/BoxResult.cpp:67-87 | an image of cameras 1 to 3 is added to the newest box, which camera 1 has just started |
| BoxResult.WrapperImage | ISG_Console/Multipler/BoxResult.cpp:88-120 | an image of another camera takes the next box off when it is the first for three seconds and no connected reader does, and is added to the box last taken off, if there is one |
| BoxResult.CBoxResult.FindBox | ISG_Console/Multipler/BoxResult.cpp:167-181 | the newest box of that id in the queue, otherwise the popped box if it has the id |
| BoxResult.CBoxResult.OnImageResult | ISG_Console/Multipler/BoxResult.cpp:200-220 | a verdict is recorded on the box that holds the image, and a bad one marks and counts it |
| BoxResult.VerdictInFull | ISG_Console/Multipler/BoxResult.cpp:200-220 | which box a verdict goes to, that it is recorded there, that a bad one makes a good box bad and counts it, and that nothing else changes |
| BoxResult.RunKeeps | ISG_Console/Multipler/BoxResult.cpp:63-220 | over every run with time not running backwards: the queue is bounded, newest first, entered = left + queued in order, and popped boxes stayed long enough |
| BoxResult.LeaveInOrder | ISG_Console/Multipler/BoxResult.cpp:123-159 | boxes leave in the order they came, and none is lost |
| BoxResult.FailsOnce | ISG_Console/Multipler/BoxResult.cpp:200-220 | with distinct ids, each box adds to the NG count at most once, also when popped between two bad verdicts |
| BoxResult.NgCountsBoxes | ISG_Console/Multipler/BoxResult.cpp:200-220 | the NG count is the number of boxes that a bad verdict on a registered image was on |
| Tea.RoundInverse | ISG_Console/AssistLib/Tea.cpp:154-189 | one decoding round undoes one encoding round with the same sum, and the reverse |
| MachineWords.XorBitsIsXor | ISG_Console/AssistLib/Tea.cpp:157-158 | the exclusive or of the model, bit by bit, is that of 32-bit machine words |
| Tea.MixIs | ISG_Console/AssistLib/Tea.cpp:157-158 | what a half round adds is the machine's exclusive or of the word shifted up by 4 plus the low key word, the word plus the sum, and the word shifted down by 5 plus the high key word |
| Tea.MixDiffers | ISG_Console/AssistLib/Tea.cpp:157-158 | how each key word and the sum enter, for all words: changing one changes the mix by the exclusive or of its two terms |
| Tea.HalvesOf | ISG_Console/AssistLib/Tea.cpp:157-158 | the first half of a round takes the first two key words, the second half the other two and the new first word |
| Tea.LoadIs | ISG_Console/AssistLib/Tea.cpp:143-149 | the bytes of a loaded word in either byte order |
| Tea.StartSumExact | ISG_Console/AssistLib/Tea.cpp:177-182 | decryption starts from the sum that encryption ends with exactly for powers of two |
| Tea.ThreeRoundsFail | ISG_Console/AssistLib/Tea.cpp:141-192 | for three rounds there is a key for which decrypting the encrypted zero block does not give it back |
| Tea.ThreeRoundsFailOnBytes | ISG_Console/AssistLib/Tea.cpp:131-192 | the same on bytes, in either byte order |
| Tea.WhatDecryptionUndoes | ISG_Console/AssistLib/Tea.cpp:164-192 | for every round count, decryption undoes the encryption from a certain start, which is zero exactly for powers of two |
| Tea.DecryptEncrypt | ISG_Console/AssistLib/Tea.cpp:141-192 | for a power of two, every key, block and byte order, decryption undoes encryption |
| Tea.EncryptDecrypt | ISG_Console/AssistLib/Tea.cpp:141-192 | and encryption undoes decryption |
| Tea.EncryptedIsInjective | ISG_Console/AssistLib/Tea.cpp:141-162 | for any round count, blocks with equal ciphertext are equal |
| Tea.NtohTwice | ISG_Console/AssistLib/Tea.cpp:4-12 | the byte order conversion undoes itself |
| Tea.TEA.Encrypt | ISG_Console/AssistLib/Tea.cpp:131-162 | the loop computes the rounds of the specification; the rest of the buffer is untouched, and the output may be the input |
| Tea.TEA.Decrypt | ISG_Console/AssistLib/Tea.cpp:136-192 | the same for decryption |
| HexCodec.BytesToHexString | ISG_Console/AssistLib/Tea.cpp:58-72 | prints the bytes as pairs with single spaces between them |
| HexCodec.HexStringToBytes | ISG_Console/AssistLib/Tea.cpp:74-101 | one byte per space-separated group, and nothing behind them is touched; undefined exactly when a group is empty |
| HexCodec.CharRoundTrip | ISG_Console/AssistLib/Tea.cpp:14-56 | a hexadecimal digit is read as a value that prints as its upper case |
| HexCodec.CharValue | ISG_Console/AssistLib/Tea.cpp:48-56 | the value of every character: letters past F count on, others are zero |
| HexCodec.HexRoundTrip | ISG_Console/AssistLib/Tea.cpp:58-101 | printing and parsing give every byte string back |
| HexCodec.WrapString | ISG_Console/AssistLib/Tea.cpp:27-46 | defined exactly for lengths 8 to 16, and then the eight groups with a space after each |
| HexCodec.SerialIsCut | ISG_Console/AssistLib/Tea.cpp:27-46 | a serial without spaces is cut into exactly eight groups that make it up again |
| SerialCheck.DelStringSpace | ISG_Console/AssistLib/Tea.cpp:195-215 | the text without spaces and its length, or -1 exactly when it does not fit with its terminator |
| SerialCheck.VerifyEncryptCode | ISG_Console/AssistLib/Tea.cpp:217-261 | the check of the specification, with the refused serial lengths and the undefined cases |
| SerialCheck.KeyParses | ISG_Console/AssistLib/Tea.cpp:224-236 | the key text parses to the sixteen key bytes |
| SerialExample.CiphertextExample | ISG_Console/AssistLib/Tea.cpp:141-162 | the sixteen-round ciphertext of one block under the built-in key, whose four words differ |
| SerialExample.ExampleSerial | ISG_Console/AssistLib/Tea.cpp:217-261 | for serial 21234567 a code of hexadecimal digits is accepted exactly when, spaces and case aside, it is F51E1CF971BFC132 |
| SerialCheck.AcceptsByValues | ISG_Console/AssistLib/Tea.cpp:217-261 | any code is accepted exactly when it has sixteen characters without its spaces and their values, in pairs and modulo 256, are the ciphertext of the serial |
| SerialCheck.AcceptsExactly | ISG_Console/AssistLib/Tea.cpp:217-261 | a code of hexadecimal digits is accepted exactly when, spaces and case aside, it is the printed ciphertext of the serial |
| SerialCheck.PrintedCodeAccepted | ISG_Console/AssistLib/Tea.cpp:217-261 | the printed ciphertext is accepted with any spacing |
| SerialCheck.OneBlockPerCode | ISG_Console/AssistLib/Tea.cpp:217-261 | no code is accepted for serials that stand for different blocks |
| ProtocolStreams.HeaderRoundTrip | ISG_Console/BaseLib/Protocol.h:43-54 | a header's packed bytes give the header back |
| ProtocolStreams.HeaderBytesRoundTrip | ISG_Console/BaseLib/Protocol.h:43-54 | and any thirty bytes are those of one header |
| ProtocolStreams.HeaderFields | ISG_Console/BaseLib/Protocol.h:43-54 | where each field of the header lies |
| ProtocolStreams.ParseConserves | ISG_Console/BaseLib/ProtocolStream.cpp:39-60 | messages and leftover together are the stream, and the leftover holds no complete message |
| ProtocolStreams.ParseOfWire | ISG_Console/BaseLib/ProtocolStream.cpp:39-60 | a stream can be cut only one way: the messages that were put on it are the messages parsed |
| ProtocolStreams.LeftoverIsPrefix | ISG_Console/BaseLib/ProtocolStream.cpp:39-60 | the leftover is a strict prefix of a single message |
| ProtocolStreams.ChunksDoNotMatter | ISG_Console/BaseLib/ProtocolStream.cpp:35-61 | however the stream is cut into chunks, messages and leftover are those of the whole |
| ProtocolStreams.SentIsReceived | ISG_Console/BaseLib/ProtocolStream.cpp:15-61 | messages whose length field is the body's size come back unchanged, with nothing left over, in any chunks |
| ProtocolStreams.ProtocolStream.OnReadyRead | ISG_Console/BaseLib/ProtocolStream.cpp:35-61 | the transaction loop signals the messages of the buffer and leaves the leftover |
| ProtocolStreams.ProtocolStream.SendMessage | ISG_Console/BaseLib/ProtocolStream.cpp:15-33 | a prefix of the message goes out, as long as the device's answers allow |
| ProtocolStreams.SentIffAll | ISG_Console/BaseLib/ProtocolStream.cpp:21-32 | true is returned exactly when every byte is on its way |
| ProtocolStreams.SentInFull | ISG_Console/BaseLib/ProtocolStream.cpp:21-32 | how many bytes go out and how it ends, from the sum of the device's answers before the first negative one |
| S7Text.Itoa | ISG_Console/ThirdParty/Snap7/s7_text.cpp:29-53 | for every 32-bit number and base, digits written backwards by truncating division and turned around in place are the number's text and a terminator; an empty text for other bases |
| S7Text.TextParses | ISG_Console/ThirdParty/Snap7/s7_text.cpp:29-53 | the text reads back as the number |
| S7Text.NoLeadingZero | ISG_Console/ThirdParty/Snap7/s7_text.cpp:29-53 | without leading zeros, and with a sign exactly for negative numbers |
| S7Text.TextFits | ISG_Console/ThirdParty/Snap7/s7_text.cpp:29-53 | it fits in 34 characters with its terminator |
| S7Text.Reverse | ISG_Console/ThirdParty/Snap7/s7_text.cpp:47-51 | the two-ended loop reverses in place and touches nothing else |
| S7Text.NumToString | ISG_Console/ThirdParty/Snap7/s7_text.cpp:56-78 | the text with leading zeros up to the length asked for, at most 64 of them |
| S7Text.PaddedText | ISG_Console/ThirdParty/Snap7/s7_text.cpp:56-78 | the length of the padded text, its zeros and the number at its end |
| S7Text.PaddedParses | ISG_Console/ThirdParty/Snap7/s7_text.cpp:56-78 | padded text reads back exactly unless zeros stand before a sign |
| PatchCore.PatchCoreResult.Shrink | ISG_Console/IasCore/patchcore/PatchCorePt.cpp:251-277 | a small region is left alone; otherwise the sides after the first round with a small area, in closed form, around the old centre and cut at the image's edges |
| PatchCore.StopsIff | ISG_Console/IasCore/patchcore/PatchCorePt.cpp:261-271 | the loop ends for every large region with positive sides, which a bounding rectangle has, and for no other |
| PatchCore.ShrunkRegion | ISG_Console/IasCore/patchcore/PatchCorePt.cpp:251-277 | the new region is inside the old one, its area is at most 3600, and it is empty exactly when a side was one pixel |
| PatchCore.OnePixelWide | ISG_Console/IasCore/patchcore/PatchCorePt.cpp:251-277 | a region of one by 3601 pixels shrinks to width 0 |

## Left out

- IEEE rounding, overflow and the casts between float and double in the calibration: exact reals are used, and the square root is a parameter with the property of a square root.
- Matrices that share storage under different shapes: two matrices with the same storage have the same dimensions in the model.
- Whether allocations succeed is a parameter (`memory`); when it is false, any of them may fail, which is reported by an extra result (`oom`) that the original does not have.
- CoordinateTransforms.RightIff: assumes two different source arrays. With one array as both sources every point lies on the diagonal, and `Transform` says what it becomes.
- CoordinateTransforms.CoordinateTransform.Transform: arrays that overlap without being the same are not covered.
- BlockTransfer.Partner.BlockSend: how an exchange comes out is a parameter of the method; `BlockTransfer.LoopDelivers` and `PartnerLink.LinkDelivers` put the receiver's answer there, and `BlockTransfer.LoopSends` gives the parameter that stands for it. A negotiated size below the 36 bytes of overhead is excluded: the original then copies a negative number of bytes, which is undefined.
- BlockTransfer.Partner.PickData: telegrams that announce more than they carry, or more than the buffer holds, are excluded here and in `BlockRecv`, because the original then reads or writes outside its buffers, which is undefined.
- The partner's worker thread, negotiation, connection handling, timers, statistics and the passive server.
- IsoTcp.IsoSocket.IsoRecvPdu: bytes that the drifting write position would put behind the payload buffer are dropped in the model; the original writes them into whatever follows. `IsoTcp.WritesInsideIff` says exactly when there are none.
- Connection and disconnection TPDUs other than that they pass the header check.
- Report-rate flags, configuration, logging, the kick hardware, the PLC coordinates and the reports to the policy store, beyond what is sent in which order.
- PacketResult.CPacketResult.OnTimer: the number of cameras online and the clock are arguments of the event, so nothing relates them from one event to the next.
- PipelineSafety.QuietDecision: this and `PipelineAnswers.QuietAnswers` assume distinct packet ids, distinct image ids, a number of cameras that does not change and inference mode; one batch inference serves all cameras, and other algorithms deliver at most one result each for an image. An image reaches its multipler and its grouper in one step with its capture: the original queues them, and a result can only be queued behind.
- Signals are atomic steps; threads, queued delivery and reentrant slots are not modelled.
- BoxResult.NgCountsBoxes: assumes that the slot for the popped box starts out good and that box ids differ from each other and from its id; the original leaves that slot uninitialised. A camera number stored as 2^32 - 1, which the original takes for a missing one, is not considered.
- The bar code itself, and the stop command to machine 1 or 2, whose test is always true.
- Tea.DecryptEncrypt: that the round trip fails for every round count that is not a power of two is not claimed; three rounds are shown to fail. The logarithm is exact in the model; negative round counts are excluded, because the original decrements them past the smallest integer, which is undefined.
- HexCodec.HexStringToBytes: characters are 7-bit ones; the classification of others depends on the locale. When a group is empty nothing is said about the output.
- HexCodec.WrapString: a length of 2^31 and more, which would be truncated, is excluded.
- ProtocolStreams.ProtocolStream.SendMessage: the device's answers are a list, and `Pending` stands for a loop that has used them up; the original keeps asking, for ever if every answer is zero.
- PatchCore.PatchCoreResult.Shrink: requires that the loop ends, by the condition `PatchCore.StopsIff` makes exact; 32-bit overflow of the area is not modelled. The template comparison after it is left out.
- Polygon tests, server lookup, bar code index, post-processing, firmware tables and the TCP server.
