# A verified model of rcopy and its server

rcopy fetches a file from a server over datagrams that may be lost, repeated, delayed, reordered or damaged.
The server cuts the file into chunks of `buffsize` bytes, keeps a window of them in a ring of frames, slides the
window on RR and SREJ, and sends it again on a timeout. rcopy keeps a window of its own, answers every chunk
with RR or SREJ, and writes what it accepts. This project models the three source files that do this,
`server.c`, `rcopy.c` and `libsrj.c`, and proves what they achieve together.

## How the model is laid out

| file | what is in it |
|---|---|
| `Bytes.dfy`, `Checksum.dfy`, `Codec.dfy`, `InitPayload.dfy` | numbers in memory, the Internet checksum, datagrams, the FILE_NAME payload |
| `Chunks.dfy`, `Ring.dfy` | sequential reads of a file, the window and its slots |
| `Sender.dfy`, `SenderLoop.dfy` | the server's transfer loop on values, its invariant and its termination |
| `Resend.dfy`, `FileEnd.dfy`, `LossFree.dfy`, `AckAhead.dfy` | what it sends again, when it notices the end of the file, what it does when nothing is lost, and the limit of its labelling |
| `Receiver.dfy`, `ReceiverLoop.dfy` | rcopy's transfer loop on values, and the simple automaton it refines |
| `Session.dfy`, `SessionInvariant.dfy` | both programs and the network as one state machine, and what every reachable state satisfies |
| `Safety.dfy`, `Progress.dfy`, `Completion.dfy`, `EarlyEnds.dfy`, `HandshakeLoop.dfy` | the results about whole runs |
| `Projection.dfy`, `LossFreeRun.dfy` | each program's own loop inside a run of the session, and the runs in which nothing is lost |
| `PacketBuffer.dfy`, `WindowBuffer.dfy`, `ServerProgram.dfy`, `RcopyProgram.dfy`, `HandshakeProgram.dfy` | the programs as they are written: classes over buffers, frames, sockets and files |

There are two levels. The classes have the source's fields, loops and buffers; each of their methods is proved to
do what a function on values says. Fields of the source's `uint32_t` have a type into which only a value that fits can
be assigned, and the sums that can wrap around, on both levels, are written as sums modulo 2^32.

The functions on values make up the session: in every state of either program's loops one event is one pass of the
loop, one datagram heard, or one wait that ends in silence. A run is any sequence of events; a datagram can be heard
if it was ever sent, or is what any damage that does not check out has left of one that was (`Session.Arrives`). That
this takes in every flipped bit and all but two kinds of damage to a word is proved of the checksum and not assumed
(`SessionInvariant.DamageArrives`). Datagrams are sequences of bytes throughout, the two hosts may have opposite byte
orders, and the server learns the file name and both sizes from the FILE_NAME packet.

The receiver's frames are modelled with the sharing they have: filling a frame copies the packet structure and not
its bytes, so every filled frame points at the one receive buffer. The classes have that pointer; the values have
one buffer and a length for each frame. `ReceiverLoop.ReceiverIsSimple` shows that nevertheless the loop does what
an automaton that remembers only the next number would do, and `Receiver.AcceptedBytesIff` shows when it would not.

The loops see only what arrives at their own socket. `Projection` shows that in every run of the session each program
does what its loop does on what it has heard, so what is proved of runs holds of the classes.

## What is assumed

- The body of `in_cksum` is not part of this model; it is taken to be the checksum of section 1 of RFC 1071, read in the host's byte order.
- One rcopy and one server child; the file does not change; `num_wait` and `top_sent`, which `window_alloc` leaves unset, start at zero, and so does `num_wait` of rcopy's socket.
- `1 <= buffsize <= 1400`, a window of at least one frame, a file name without NUL that fits the first packet, and fewer than 2^32 - 1 chunks and frames together (`SessionInvariant.Good`).
- Damage that goes unnoticed is no part of a session; `Codec.DamagedWordIsAcceptedIff` says which damage within a word that is.
- No datagram heard is shorter than a header. Both programs send none, and losing, repeating or flipping bits makes none.

## Findings

- An empty file is never copied to the end: nothing is sent, so nothing is acknowledged, and `rr > top_sent` never holds (`Safety.EmptyFileNeverCompletes`). For any other file some run completes (`Completion.CompletesIff`).
- The server notices the end of the file only by a read that comes out short. The acknowledgement of all it has sent ends the transfer exactly if its window reaches past the end of the file at that moment, `top * buffsize > length` (`FileEnd.LastAckEndsIff`, `Completion.LastAckEndsTransferIff`).
- So a transfer can fail although nothing is lost. If every chunk and every acknowledgement is heard once and in order, it ends exactly if the window has two frames or more or `buffsize` does not divide the length of the file (`LossFree.AllHeardFinishesIff`, and of every run of a session `LossFreeRun.AllHeardFinishesRunIff`; `LossFreeRun.NothingLost` shows that there is such a run). One byte under a window of one frame of one byte is the smallest file that is given up.
- If of the acknowledgements of a window only the last is heard, larger windows fail too: such rounds finish the server exactly if `size * buffsize` does not divide the length (`Completion.LastAckRoundsFinishIff`). If it does, rcopy can have all of the file and have acknowledged all of it, and both programs give up (`FileEnd.ExactWindowIsGivenUp`, `Completion.ExactFitIsGivenUp`). What saves a transfer that is left so is hearing any RR or SREJ at all (`FileEnd.AnyAnswerFinishesIff`), for instance the last one again (`Progress.RepeatedAckFinishes`).
- The repository calls the protocol selective reject, but SREJ selects nothing: after an RR or SREJ the server sends only chunks it has never sent (`Resend.AnswerSendsOnlyNew`), and chunks are sent again, all that are outstanding, exactly when there has been a timeout since the last answer (`Resend.PassSendsExactly`, `Safety.OnlyTimeoutsResend`). The model follows the code.
- The server labels the chunks it reads by their place in the window. That is right only as long as no acknowledgement runs ahead of what was sent (`AckAhead.ReadsInPlaceIff`, `AckAhead.AckAheadMislabels`); in a session none does (`Safety.WindowsOverlap`).
- A loop `seq <= Window->top` never ends if the top is 2^32 - 1, and only then (`Ring.LoopEndsIff`), which is the top of a window of `size` frames exactly if it starts at 2^32 - size (`Ring.SlidTopIff`). So an RR or SREJ of that number makes the server hang, in any state in which it waits, unless the end of the file is known and all that was sent is acknowledged, by that RR itself for one (`SenderLoop.AckHangsIff`); one of a higher number makes the top wrap around to below the bottom, and the server sends nothing (`AckAhead.AckAheadWraps`). If none of that number is heard, `file_transfer` ends (`SenderLoop.WholeTransferIsBounded`), and in a session none is (`Projection.ServerRunsItsLoop`).
- On rcopy's side the same number, of a chunk, is the last that can be accepted: after it the window's top wraps around (`Receiver.AcceptsNextIff`).
- The server's close ends on any packet that carries the number of FILE_EOF, which is 1 (`server.c:489`). In a session that is FILE_EOF_ACK or an SREJ of the first chunk and nothing else (`EarlyEnds.CloseEndsIff`), so the close can end on something else than the acknowledgement exactly if rcopy has sent that SREJ (`EarlyEnds.CloseIsAcknowledgedIff`). Every file of two chunks or more can be closed that way under a window of two frames or more, with rcopy still waiting and no FILE_EOF_ACK ever sent (`EarlyEnds.CloseCanEndEarly`).
- Of what rcopy sends, a FILE_NAME or FILE_BEGIN that is heard again while the server waits ends the transfer unfinished, and nothing else does (`EarlyEnds.TransferIsInterruptedIff`). One repeated FILE_BEGIN is enough for any file (`EarlyEnds.RepeatedBeginEndsTransfer`).
- While the transfer is being set up the server answers any FILE_BEGIN, even after it has answered that the file could not be opened, and then reads from no file (`HandshakeLoop.NameIsAnswered` says exactly when, `HandshakeLoop.BeginWithoutFileCrashes` is an instance). rcopy never sends FILE_BEGIN in that case, so it does not happen in a session (`Safety.HandshakeOrder`).

## Model

| member | source | states |
|---|---|---|
| Checksum.PassesIff | libsrj.c:209-222 | a datagram checks out exactly when its words are not all zero and sum to zero modulo 2^16 - 1 |
| Checksum.WorkedExample | libsrj.c:209-222 | the worked example of section 3 of RFC 1071: the checksum of its eight bytes, read in either byte order |
| Checksum.PassingIsOrderFree | libsrj.c:209-222 | whether a datagram of any length checks out does not depend on the byte order of the host |
| Checksum.StoredChecksumIsOrderFree | libsrj.c:186-187 | hosts of either byte order leave the same two bytes in the checksum field |
| Checksum.WordChangePassesIff | libsrj.c:92-101 | a change within one word of a good datagram stays unnoticed exactly when it swaps 0x0000 and 0xFFFF and does not clear everything |
| Checksum.FlippedBitIsDetected | libsrj.c:92-101 | a good datagram of any length with any one bit flipped does not check out |
| Codec.EncodedPasses | libsrj.c:177-193 | every packet that is created checks out |
| Codec.WireLayout | libsrj.c:177-193 | the first four bytes of every created packet are its number, most significant first, the seventh is its flag, the eighth is 0, and the data follow |
| Codec.ControlPackets | libsrj.h:66-77 | the eight bytes of RR and SREJ for chunk 1 and of each packet of the handshake and the close, which fixes the flags and the checksum field |
| Codec.DataPackets | libsrj.h:66-77 | the bytes of a DATA, a FILE_NAME and a FILE_NAME_ERR_ACK |
| Codec.RoundTrip | libsrj.c:158-206 | what one host creates the other receives, flag, number and data, for hosts of any two byte orders |
| Codec.EncodingIsOrderFree | libsrj.c:177-193 | hosts of either byte order create the same bytes |
| Codec.FlippedBitIsRejected | libsrj.c:81-104 | a created packet with one bit flipped, header and checksum field included, is not received |
| Codec.DamagedWordIsAcceptedIff | libsrj.c:81-104 | exactly which damage within one word of a created packet is accepted |
| InitPayload.PayloadLayout | rcopy.c:230-253 | the payload of FILE_NAME is the buffer size and the window size, four bytes each and most significant first, then the name and a NUL |
| InitPayload.ParametersRoundTrip | rcopy.c:230-253 | the server reads back the buffer size, window size and name rcopy wrote, whatever follows them in its buffer |
| InitPayload.ReadFilename | server.c:535-553 | the name is the bytes before the first NUL, found by counting |
| Chunks.ReadIsChunk | libsrj.c:401-422 | a read where k chunks end yields chunk k + 1, is empty exactly past the last chunk, and is short exactly if that chunk would reach past the end |
| Chunks.ChunksConcatenate | libsrj.c:401-422 | the first k chunks are a prefix of the file |
| Ring.LoopEndsIff | server.c:292 | a 32-bit loop from a window's bottom to its top ends exactly if the top is not 2^32 - 1 |
| Ring.SlidTopIff | server.c:278-279 | a window has that top exactly if its first number and its size add up to 2^32, and wraps around to below its bottom exactly if they add up to more |
| Ring.SlotIsRemainder | libsrj.c:456-460 | the slot of a number is what is left of it when the size of the window is taken away as often as possible |
| Ring.SlotInjective | libsrj.c:456-460 | two numbers of one window share a slot only if they are equal |
| Ring.SlotSurjective | libsrj.c:456-460 | every slot holds a number of the window |
| Ring.EmptyDownEffect | server.c:273-276 | the downward loop empties the slots of the numbers that leave and no other slot |
| Ring.SlideEffect | server.c:271-281 | numbers that stay in the window keep their frames, numbers that enter find theirs empty |
| Ring.RefillEffect | server.c:393-395 | the loop makes sent frames of the window full and touches no other |
| Sender.StartInv | libsrj.c:483-503 | the window the transfer starts with satisfies the sender's invariant |
| Sender.AdjustKeepsInv | server.c:261-285 | sliding keeps every remaining frame under its number with its chunk, and empties what enters |
| Sender.FillFrameKeepsLoaded | libsrj.c:401-422 | one more frame is loaded with the chunk its number stands for, or the end of the file is noted |
| Sender.FillKeepsInv | server.c:287-297 | after filling, the window is loaded as far as it or the file reaches, the end of the file is known exactly if it reaches past it, and nothing sent before is about to be sent again |
| Sender.SendKeepsInv | server.c:299-314 | exactly the full frames go out, in order, each chunk under its own number, and all that was read is sent |
| Sender.FullWiresAreLabelled | server.c:303-312 | whatever a pass sends is a chunk under its own number |
| Sender.TimeoutKeepsInv | server.c:386-399 | after a timeout with tries left everything outstanding is full again |
| Sender.RespondKeepsInv | server.c:316-351 | a response that acknowledges nothing unsent keeps the invariant |
| Resend.PassSendsExactly | server.c:299-314 | a pass sends the chunks never sent if there has been no timeout since the last answer, and else the whole window, in order and each once |
| Resend.AnswerMovesWindow | server.c:261-285 | any RR or SREJ m that acknowledges nothing unsent leaves the waiting server done, exactly if the end of the file is known and all sent is acknowledged, or with a window that starts at the larger of its old start and m and has its full size |
| Resend.AnswerSendsOnlyNew | server.c:325-335 | whatever RR or SREJ m is heard, the next pass of a server that is not done sends from its highest sent chunk + 1 to the smaller of the last chunk and max(bottom, m) + size - 1, and no others |
| Resend.TimeoutSendsAllAgain | server.c:386-399 | after a timeout with a try left, everything outstanding is sent again, in order, and nothing else |
| FileEnd.LastAckEndsIff | server.c:267-268 | a server told that all it has sent is accepted is done exactly if its window reaches past the end of the file, and otherwise moves its window on |
| FileEnd.LastAckThenSilence | server.c:199-259 | followed by silence, that acknowledgement leads to the end exactly if so, and otherwise to giving up, with nothing more sent once all chunks were |
| FileEnd.ExactWindowIsGivenUp | server.c:267-268 | a file of exactly one window, sent once, of whose acknowledgements only the last is heard, is given up |
| FileEnd.AnyAnswerFinishesIff | server.c:261-285 | a server with nothing left to send, all of it acknowledged, is done when it hears any RR or SREJ, and on nothing else |
| LossFree.TurnMovesWindow | server.c:261-314 | the acknowledgement of a chunk that is not the last moves the window by one and sends what enters it |
| LossFree.AllHeardFinishesIff | server.c:199-259 | with every acknowledgement heard once and in order, and then silence, the transfer ends exactly if the window has two frames or more or the last chunk is short, and is given up if not; every chunk is sent once |
| AckAhead.ReadsInPlaceIff | server.c:271-279 | the file stands where the next frame's chunk starts exactly when the acknowledgement asks for at most one more than was sent, or nothing is left to read |
| AckAhead.AckAheadMislabels | server.c:287-294 | otherwise the next chunk is put under the number that was asked for, as long as the window from there on fits below 2^32 - 1 |
| AckAhead.AckAheadWraps | server.c:278-297 | if it does not fit, the server never gets out of filling it, or fills and sends nothing, according to whether the sum is 2^32 or more |
| SenderLoop.PassIsBounded | server.c:210-255 | a pass sends at most a window of datagrams and uses up the credit of sends the state had |
| SenderLoop.TransferIsBounded | server.c:210-255 | from any state, against any responses, the loop is over, ended or hanging, within the sends its tries and valid packets allow |
| SenderLoop.ReturnsUnlessStuck | server.c:210-255 | it ends unless an RR or SREJ is heard whose number and the window's size add up to 2^32 |
| SenderLoop.AckHangsIff | server.c:261-297 | such an answer makes it hang in any state in which it waits, unless the end of the file is known and all that was sent is acknowledged |
| SenderLoop.WholeTransferIsBounded | server.c:199-259 | with k valid packets heard, at most 11 * (k + 1) passes over the window and a window of datagrams in each; and unless such an answer is heard, the transfer ends |
| SenderLoop.DamageIsSilence | server.c:318-351 | a datagram that does not check out has the effect of silence: it leads to the timeout and changes nothing in the window |
| SenderLoop.SilenceUsesAllCredit | server.c:386-399 | met with silence, a sender that is not done makes every pass its tries allow and only then gives up, unless it hangs |
| SenderLoop.SilentClientIsSentElevenWindows | server.c:386-399 | so the bound is met: a client that never answers is sent the window eleven times, unless the window has 2^32 - 1 frames |
| SenderLoop.AnswerRestoresPatience | server.c:321-335 | any valid answer that does not end the transfer buys eleven more passes, unless it makes the server hang |
| Receiver.HearSimulates | rcopy.c:145-176 | hearing any datagram is one step of the simple automaton, although buffered frames share one buffer |
| Receiver.PassSimulates | rcopy.c:84-107 | every other pass leaves the automaton alone, except that it sends the reply that is owed |
| Receiver.AcceptedBytesIff | libsrj.c:389-397 | the bytes about to be written are the packet's data exactly when its frame was empty or filled by data as long |
| Receiver.EarlyChunkIsKept | rcopy.c:161-170 | a chunk that comes before it is wanted leads to SREJ and makes its frame full, with its length if the frame was empty, and changes no other frame |
| Receiver.HearingFills | rcopy.c:145-176 | of the frames past the wanted one, hearing a datagram makes full that of an early chunk, and no other |
| Receiver.PassFillsNothing | rcopy.c:84-107 | no other pass fills or empties a frame past the wanted one |
| Receiver.SrejIsLastAsked | rcopy.c:127-133 | `srej` is the number last asked for by SREJ: sending one sets it, and nothing else changes it |
| Receiver.WriteAppendsOneFrame | rcopy.c:196-217 | a write appends the frame just accepted, as long as that chunk is, marks it written and touches no other frame; after a duplicate it does nothing |
| Receiver.AcceptsNextIff | rcopy.c:164-166 | after a chunk has been accepted the next is accepted in its turn exactly if the window that starts at the first fits 32 bits; if not, nothing is |
| Receiver.EnteringFrameIsEmpty | rcopy.c:178-194 | when the window slides the frame entering at its top is empty and the others are as they were |
| ReceiverLoop.FileTransfer | rcopy.c:80-119 | whatever arrives, the loop ends in one of its two final states |
| ReceiverLoop.ReceiverIsSimple | rcopy.c:71-125 | on any arrivals in which data of one number have one length and none are numbered 2^32 - size, the loop's replies, output and ending are those of the simple automaton on the datagrams before the first silence |
| ReceiverLoop.TransferActsSimply | rcopy.c:71-125 | the same from the start of the transfer, asked only of the arrivals |
| SessionInvariant.DamageArrives | libsrj.c:62-79 | among the damage a session admits are any flipped bit and any change of a word but between 0x0000 and 0xFFFF |
| SessionInvariant.ArrivalWasSent | libsrj.c:81-104 | of the datagrams that arrive, damaged in any way that does not check out or not at all, those received are ones that were sent, unchanged |
| SessionInvariant.SenderPasses | server.c:210-255 | a pass of the server's transfer keeps the session's invariant |
| SessionInvariant.ServerHearsKeeps | server.c:316-351 | so does the server hearing anything that can arrive, in every phase |
| SessionInvariant.ClientHearsKeeps | rcopy.c:145-176 | so does rcopy hearing anything that can arrive |
| SessionInvariant.ClientPassesKeeps | rcopy.c:80-119 | so does a pass of rcopy |
| SessionInvariant.RunKeeps | rcopy.c:23-60 | so does every run of both programs over the network |
| Safety.TransferIsFaithful | rcopy.c:80-124 | in every run in which rcopy's transfer ends with FILE_EOF, its output file is the server's file |
| Safety.OutputIsPrefix | rcopy.c:145-217 | at every moment of every run the output file is the first chunks in order, all those below the number wanted whenever rcopy waits |
| Safety.DataIsLabelled | server.c:287-314 | every DATA datagram ever sent carries the bytes of the file its number stands for |
| Safety.WindowsOverlap | server.c:271-280 | the server's window starts at or below the number rcopy wants, which is at most one past what was sent, and no acknowledgement is ahead of it |
| Safety.GoodDataIsAnswered | rcopy.c:158-171 | rcopy's window reaches as far as the server's when it waits, and every intact chunk that arrives is answered, by RR up to the wanted number and by SREJ past it |
| Safety.SenderWindowWhenWaiting | server.c:287-314 | whenever the server waits, its window starts at the larger of `rr` and `srej` and has its full size; what every slot holds, how far it has read, and that it knows of the end of the file exactly if the window reaches past it |
| Safety.EveryAnswerMovesWindow | server.c:261-285 | in every run, any RR or SREJ m that arrives at the waiting server ends its transfer, exactly if the end of the file is known and all sent is acknowledged, or moves its window to the larger of its old start and m |
| Safety.OnlyTimeoutsResend | server.c:299-314 | in every run a pass puts on the network the chunks never sent, and with them all outstanding ones exactly if there has been a timeout since something valid was heard |
| Safety.ReceiverWindowWhenWaiting | rcopy.c:145-207 | in every run, whenever rcopy waits, its window starts at the wanted number; a frame past that is full exactly if its chunk was heard before it was wanted, and empty if not; a full one has the length of its chunk |
| Safety.NothingWraps | server.c:273-292 | no sum or loop index on either window leaves 32 bits in any reachable state |
| Safety.ArrivalsAreTame | rcopy.c:164-168 | nothing that can arrive makes either end compute a number beyond 32 bits |
| Safety.HandshakeOrder | server.c:462-482 | rcopy transfers only after a FILE_BEGIN_ACK, sent only after a FILE_BEGIN, sent only after a FILE_NAME_ACK, sent only if the file was opened, with the parameters rcopy asked for |
| Safety.EmptyFileNeverCompletes | server.c:267-268 | no run ends the transfer of an empty file |
| Progress.ChunkIsAcknowledged | rcopy.c:158-168 | a chunk delivered when it is wanted, or again, is accepted and acknowledged |
| Progress.ChunksAreAcknowledged | rcopy.c:145-176 | chunks delivered in order bring rcopy past the last of them |
| Progress.WindowIsAcknowledged | server.c:299-314 | a window sent and delivered brings rcopy to one past the highest number sent |
| Progress.ServerSlides | server.c:261-285 | hearing so, the server is done, or its window starts there |
| Progress.LastAckRoundAdvances | server.c:210-255 | a round in which each chunk of a window is delivered once and only its last acknowledgement is heard has the window accepted, and leaves the server done exactly if the window reaches past the end of the file, and else ready to send the next |
| Progress.RepeatedAckFinishes | server.c:267-268 | with nothing left to send, the server is done once it hears its last acknowledgement again |
| Completion.TimeoutRecovers | server.c:386-399 | from any reachable state with a try left, resending and delivering the window brings both ends to one past the highest number sent |
| Completion.LastAckRoundsDeliver | server.c:210-255 | after k such rounds rcopy wants number min(k * W, N) + 1, and the server has moved there, or is done, or has nothing left to send |
| Completion.LastAckRoundsFinishIff | server.c:267-268 | enough such rounds finish the server exactly if the bytes of a window do not divide the file's length |
| Completion.LastAckEndsTransferIff | server.c:261-285 | in every run, hearing that all it has sent is accepted ends the server's transfer exactly if its window reaches past the end of the file |
| Completion.ExactFitIsGivenUp | server.c:267-268 | if they divide it, there is a run in which rcopy writes the whole file and both programs give up |
| Completion.LastAckRoundsExist | server.c:210-255 | k such rounds are always possible |
| Completion.EofIsAcknowledged | server.c:484-494 | the acknowledgement rcopy sends for FILE_EOF is the one that ends the server's close |
| Completion.CompletesIff | server.c:261-285 | some run copies the file and finishes both programs exactly when the file exists, is not empty, and the local file can be opened |
| HandshakeLoop.CloseIsBounded | server.c:402-460 | whatever arrives, the server finishes, having sent FILE_EOF once and again for each silence before the first good packet under its number, up to ten times again |
| HandshakeLoop.ServesIff | server.c:513-562 | the listening server serves exactly on an intact FILE_NAME, flag 6, with the sizes and the name at their places in it, and ignores everything else |
| EarlyEnds.CloseEndsIff | server.c:484-494 | in every run, what ends the server's wait for FILE_EOF_ACK is exactly that packet or an SREJ of the first chunk |
| EarlyEnds.CloseIsAcknowledgedIff | server.c:484-494 | the close can end on something else than FILE_EOF_ACK exactly if rcopy has sent that SREJ, and if not rcopy has the end when it ends |
| EarlyEnds.CloseCanEndEarly | server.c:489-490 | for any file of two chunks and window of two frames, a run in which the close ends while rcopy waits and no FILE_EOF_ACK was sent |
| EarlyEnds.TransferIsInterruptedIff | server.c:323-346 | in every run, what ends a waiting transfer unfinished is exactly FILE_NAME, which starts it over, or FILE_BEGIN, which finishes the server |
| EarlyEnds.RepeatedBeginEndsTransfer | server.c:341-345 | for any file, a run in which a FILE_BEGIN heard again ends the transfer |
| Projection.ServerRunsItsLoop | server.c:199-259 | in every run the server is where its loop is on what it has heard, on which the loop ends, and the DATA on the network are what its loop has sent |
| Projection.ClientRunsItsLoop | rcopy.c:71-125 | in every run rcopy is where its loop is on what it has heard, which meets what `ReceiverLoop.TransferActsSimply` asks, and the RR and SREJ on the network are what its loop has sent |
| Projection.ProgramsCopyTheFile | rcopy.c:80-124 | in every run in which rcopy hears the end, its loop ends with the server's file as its output, and the server's loop ends done |
| LossFreeRun.AllHeardFinishesRunIff | server.c:199-259 | in every run in which the server hears every acknowledgement once, in order, its transfer ends exactly if the window has two frames or more or the last chunk is short, and the DATA on the network are every chunk once |
| LossFreeRun.NothingLost | server.c:199-259 | for every file there is a run in which each chunk and each acknowledgement is heard once and in order; rcopy has the whole file, and the server is done exactly in that case |
| HandshakeLoop.NameIsAnswered | server.c:116-196 | how often the name is answered, always the same way, and that the first FILE_BEGIN before a silence is acknowledged and starts the transfer of the opened file, or crashes a server without one |
| HandshakeLoop.BeginWithoutFileCrashes | server.c:462-482 | for a name that cannot be opened, one FILE_BEGIN leads to the crash |
| HandshakeLoop.WholeHandshakeIsBounded | rcopy.c:347-392 | rcopy asks for the file once and again for each silence before FILE_NAME_ACK, up to ten times again; it asks to begin once for every silence or other datagram before FILE_BEGIN_ACK, until the tenth silence; it receives exactly if both came in time and the local file could be opened |
| PacketBuffer.Pkt.GetHdr | libsrj.c:196-206 | the header fields and the data after them are the packet the buffer holds |
| PacketBuffer.Pkt.CreateHdr | libsrj.c:177-193 | the buffer holds the datagram of the number, the flag and the data already there, whose bytes `Codec.WireLayout` gives |
| PacketBuffer.Pkt.CreatePkt | libsrj.c:158-174 | the buffer holds the datagram of the packet, whose bytes `Codec.WireLayout` gives, and the header fields agree |
| PacketBuffer.Pkt.RecvPkt | libsrj.c:81-104 | a datagram of any length overwrites the start of the buffer and is reported good exactly when it checks out; the header is then the one in the buffer, of which a shorter datagram replaces only a part |
| WindowBuffer.Window.constructor | libsrj.c:483-503 | distinct empty frames with buffers of their own |
| WindowBuffer.Window.FileFillFrame | libsrj.c:401-422 | the next bytes of the file become a packet in the frame, other frames keep theirs, and the end of the file is noted |
| WindowBuffer.Window.PktFillFrame | libsrj.c:389-397 | the frame is full, and if it was empty it now points at the packet's buffer and has its length |
| WindowBuffer.Window.SendFrame | libsrj.c:462-466 | the frame's datagram is sent and the frame is sent |
| WindowBuffer.Window.Slide | server.c:271-281 | both ends' window moves as `Ring.Slide` says, its top wrapping around in 32 bits; where that is on an acknowledgement is `Resend.AnswerMovesWindow`, what becomes of the frames `Ring.SlideEffect` |
| WindowBuffer.Window.RefillSent | server.c:393-395 | sent frames become full |
| ServerProgram.Transfer.AdjustWindow | server.c:261-285 | done exactly when the end of the file is known and more was acknowledged than sent; otherwise the window in memory moves as `Sender.AdjustWindow` says, of which `Resend.AnswerMovesWindow` is proved, and no buffer changes |
| ServerProgram.Transfer.FillWindow | server.c:287-297 | frames, buffers, file position and end-of-file mark end up as `Sender.FillWindow` says, the value whose frames are proved to hold the right chunks |
| ServerProgram.Transfer.SendWindow | server.c:299-314 | the socket has sent exactly the datagrams of `Sender.SendWindow`, in order, and the frames are marked as it says |
| ServerProgram.Transfer.WaitOnResponse | server.c:316-351 | one arrival is used up; silence and damage lead to the timeout, a good packet resets the tries and raises `rr` or `srej`, or ends the transfer |
| ServerProgram.Transfer.TimeoutOnResponse | server.c:386-399 | the transfer ends after the tenth try, before that every sent frame in memory is full again |
| ServerProgram.Transfer.FileTransfer | server.c:199-259 | whenever the loop on values ends, so does this one, in the state and with the datagrams sent that `SenderLoop.FileTransfer` gives, for which the bound is proved |
| RcopyProgram.Transfer.WaitOnData | rcopy.c:145-176 | arrivals are used up until one calls for an answer or none comes, with the frames, the shared buffer and `rr` as `ReceiverLoop.WaitOnData` gives them, of which `Receiver.EarlyChunkIsKept` and `Receiver.AcceptedBytesIff` are proved |
| RcopyProgram.Transfer.SendRR | rcopy.c:135-143 | RR with the number wanted is sent, and the received data stay in their buffer |
| RcopyProgram.Transfer.SendSREJ | rcopy.c:127-133 | SREJ with the number wanted is sent and remembered, and the received data stay in their buffer |
| RcopyProgram.Transfer.WriteFrame | rcopy.c:209-217 | appends what the frame's packet points at, which is the start of the shared buffer |
| RcopyProgram.Transfer.WriteData | rcopy.c:196-207 | the output file grows by the full frames below the number wanted, read through their pointers |
| RcopyProgram.Transfer.AdjustWindow | rcopy.c:178-194 | the window in memory slides, and every frame still in use points at the shared buffer |
| RcopyProgram.Transfer.FileTransfer | rcopy.c:71-125 | ends, in the state, with the replies and with the output file that `ReceiverLoop.FileTransfer` gives, whatever arrives, which are those of the simple automaton if data of one number have one length and none are numbered 2^32 - size |
| RcopyProgram.Transfer.FileEof | rcopy.c:256-290 | the end is acknowledged under the number it came with |
| HandshakeProgram.Child.FileBegin | server.c:462-482 | listens until FILE_BEGIN under the right number, which is acknowledged, or FILE_NAME, or silence |
| HandshakeProgram.Child.FileName | server.c:116-164 | ends, with the datagrams sent and the phase of `HandshakeLoop.ServerRun`, about which `HandshakeLoop.NameIsAnswered` is proved |
| HandshakeProgram.Child.WaitOnAck | server.c:484-494 | listens until any packet under the number of FILE_EOF, whatever its flag, or silence |
| HandshakeProgram.Child.FileEof | server.c:402-439 | ends, with exactly the datagrams sent of `HandshakeLoop.ServerRun`, whose number `HandshakeLoop.CloseIsBounded` gives |
| HandshakeProgram.Starter.CreateInitPkt | rcopy.c:230-253 | the payload put together byte by byte is the one the server reads back |
| HandshakeProgram.Starter.WaitOnAck | rcopy.c:369-382 | listens until FILE_NAME_ACK under the right number, or silence |
| HandshakeProgram.Starter.FileBegin | rcopy.c:347-367 | asks again after every wait until FILE_BEGIN_ACK or the tenth silence, with exactly the datagrams sent of `HandshakeLoop.ClientRun`, whose number `HandshakeLoop.WholeHandshakeIsBounded` gives |
| HandshakeProgram.Starter.Connect | rcopy.c:293-345 | ends, with exactly the datagrams sent and the phase of `HandshakeLoop.ClientRun`, both of which `HandshakeLoop.WholeHandshakeIsBounded` gives |

## Left out

- Sockets, `select`, `fork`, addresses, arguments, printing, allocation failures and `util.c`: a wait ends with a datagram or in silence, and a read or write of a file does not fail.
- A FILE_NAME heard during the transfer: the server would start over at the first chunk while rcopy is ahead, and its labels would be wrong as `AckAhead.AckAheadMislabels` describes; the session ends there instead.
- Several children of one server, and the parent after the first client.
- `process_pkt`, which nothing calls, and rcopy's reaction to FILE_NAME_ERR_ACK, which `wait_on_ack` never lets through.
- The headers of buffered frames, which are only printed; a packet's header fields are part of the packet structure and not a structure of their own.
- Session.ServerHear: a FILE_NAME payload shorter than its two sizes, which rcopy never sends, is ignored, where the source would read what is behind it in its buffer.
- ServerProgram.Transfer.FileTransfer: asks that the loop on values ends (`SenderLoop.Returns`), for a method that does not end cannot be written; what a hanging loop goes on doing to the frames and the network is not modelled. `SenderLoop.ReturnsUnlessStuck` says when it ends, and `Projection.ServerRunsItsLoop` that it does on all that is heard in a session.
- Guaranteed completion: a network that loses everything prevents it, and an exact fit can (see Findings). Safety, termination, progress without loss and the exact conditions of completion are proved.
