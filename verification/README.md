# gousb: verified models of its protocols

A Dafny model of the parts of gousb that hold a protocol or keep state: the
transfer streams, the transfer they are made of and its race with libusb's event
thread, the layout of isochronous buffers, the tree of claimed devices,
configurations and interfaces, the building of descriptors, and the parser of
usb.ids. `dafny verify dfyconfig.toml` checks all of it.

## How it is organised

**Streams.** `StreamSpec` says on values what each operation of `ReadStream` and
`WriteStream` does to the ring of transfers, given an `Endpoint`: a function from
the number of a submit attempt to what the device makes of it (refused, or
accepted and later answered with a count, an error and data). Theorems quantify
over this function and so over every behaviour of the device and of the contexts.
`ReadTheorems` and `WriteTheorems` prove the invariant and the theorems about
whole runs. `Channels`, `Transfers`, `Streams`, `ReadStreams`, `WriteStreams` and
`Endpoints` are the Go code with its objects, fields and loops; each method is
proved to do exactly what the function of the same name says, and theorems such as
`ReadAmount`, `RunError` and `RoundIs` say what that is in terms of the device's
answers. The preconditions
of `Channel` (no send on a closed or full channel, no second close, no receive
that blocks) and of `UsbTransfer` (no submit of a freed transfer) are discharged
at every call, and `CopyIn` and `CopyOut` demand a transfer that is not in flight.
`Endpoints.DriveRead` and `Endpoints.DriveWrite` connect any sequence of calls on
the objects with the runs of the theorems.

**One transfer.** `TransferSpec` gives the sequential meaning of submit, wait,
cancel and free, with numbered submissions. `TransferProtocol` is a step system
with an atomic step for each access to what others can see meanwhile, for any
number of goroutines and transfers, libusb's callback thread and reuse of freed
pointers. Its runs are arbitrary interleavings, including the callback running before
`submitted` is set, and libusb handing out memory again before `t.xfer` is nil.
`TransferTheorems` says what its invariant means. The calls are shown to be
linearizable to `TransferSpec`: all of them, on all transfers, in one order.
`TransferProgress` shows that from every reachable state a bounded run of libusb,
the holder of the mutex and the goroutine itself ends the goroutine's call, unless
a freed transfer is submitted. `TransferRefinement` closes the gap to the streams:
for every run of the protocol and for any set of transfers, such as those of one
stream, there is an `Endpoint` on which the transfers of `StreamSpec` give the
same replies, counts, errors and data as these did. It is one the stream theorems
speak about if libusb keeps to the buffers of these transfers; other streams may
have buffers of other sizes. In the other direction the methods of
`Transfers.UsbTransfer` are proved to follow `TransferSpec`.

**Isochronous buffers.** `IsoLayout`: the division into packets, the in-place
compaction loop, and why no wait of a stream reports more than its buffer holds.

**Claims.** `ClaimSpec` is the tree of claims on values, next to libusb's own
record of open handles and claimed interfaces, with the invariant of all runs.
`ClaimTree` has the classes Context, Device, Config and Interface. The answers of
libusb are parameters of the calls. `ClaimRuns` derives from the invariant that
libusb is only given open handles, and drives any sequence of calls on the objects
as a run of `ClaimSpec`.

**Descriptors.** `Descriptors` builds the interfaces of a configuration as
`getDeviceDesc` does; `DescriptorTheorems` says what survives and what lookups find.

**usb.ids.** `UsbIdsSpec` gives the meaning of a file as a fold over lines, with
entries instead of pointers; `UsbIds` is the parser with its objects; it is proved
to compute that meaning. `UsbIdsLines` cuts every text into lines.
`UsbIdsForest` and `UsbIdsRoundTrip` list a database, in any spelling of the ids,
and read it back. `parseVendor` and `parseClass` are the same code at two types
and modelled once.

## Where the code does not do what its comments say

* The last chunk of a Write is said to be sent with less data than the full
  buffer. libusb always gets the whole buffer (`WireIsDataWritten`).
* `submitAll` neither submits nor frees the transfers after the first refused one
  (`NewReadStarts`, `ReadConservation`); only their finalizers free them.
* Only one Config of a device can be used at a time, says the documentation, but
  `Device.Config` does not look for an earlier claim (`ClaimKeeps`, `SecondClaim`).
* `OpenDeviceWithVIDPID` may return a device and an error, says its comment. It
  never does; nor does it try another match when the first cannot be opened.
* `getDeviceDesc` warns about repeated settings and goes on, but an entry with
  nothing else makes it panic (`PanicsExactly`).

## What the code does that a caller may not expect

* `usbTransfer.submit` does not notice a freed transfer (`CrashesIffFreed`).
* The usb.ids parser keeps the kind of the last line that had one: a vendor line is
  one exactly if no line before it had a kind (`KindSticks`, `VendorLineLands`).
* It never forgets a product when a new vendor begins (`LeafJoinsLatestMid`).
* `alloc` refuses a length of 2^31 or more without giving back the memory it just
  got (`LosesMemory`).

## Model

| member | source | states |
|---|---|---|
| ReadTheorems.ReadFidelity | transfer_stream.go:121-180 | over any run of reads and closes the bytes delivered by nil-error reads are a prefix of the data of the accepted submissions in submission order, and all of what has been consumed |
| ReadTheorems.EndDeliversAll | transfer_stream.go:125-143 | the read that ends the stream answers, if the channel is drained, with the reason of the refused submit or else with EOF, the latter only after a Close, and then the reads before it delivered all data of all submissions; otherwise with the count and error of the oldest failed wait, and then they delivered all data before that |
| ReadTheorems.ReadKeeps | transfer_stream.go:121-166 | every read keeps the ring invariant (queue in submission order, finished exactly when an error is set, transfers distinct, current one not in flight) and hands out the next bytes |
| ReadTheorems.ReadAmount | transfer_stream.go:142-149 | a read that does not end the stream hands out the next bytes of one submission: all that is left of it, or as many as there is room for |
| ReadTheorems.RunError | transfer_stream.go:121-180 | in every run the error of an open stream is the reason of the refused submit, EOF if it was closed and no submit was refused, and nil otherwise |
| ReadTheorems.FirstErrorStays | transfer_stream.go:173-180 | whichever comes first, the refused submit or Close, decides, whatever is read afterwards |
| ReadTheorems.NoMoreSubmits | transfer_stream.go:153-163 | after an error no read submits a transfer again |
| ReadTheorems.CloseKeeps | transfer_stream.go:173-180 | so does Close, which hands out nothing |
| ReadTheorems.NewReadStarts | transfer_stream.go:52-68 | a new stream has queued exactly the transfers before the first refused submit, reports that refusal, and has abandoned exactly the ones after it |
| ReadTheorems.StartReturns | transfer_stream.go:58-67 | of these only the refused one is given back to libusb |
| ReadTheorems.RingIsFull | transfer_stream.go:153-154 | while no error is set the queue and the current transfer are all N transfers, and never more, so a send cannot block |
| ReadTheorems.ReadConservation | transfer_stream.go:132-163 | once the stream is over each transfer has been given back exactly once, except those submitAll abandoned, which never are |
| ReadTheorems.ClosedForGood | transfer_stream.go:111-124 | after a read answered with an error all later ones answer ErrClosedPipe and change nothing |
| ReadTheorems.CloseDrains | transfer_stream.go:168-180 | after Close only a bounded number of reads succeed before the stream ends |
| WriteTheorems.WriteFidelity | transfer_stream.go:222-259 | over any run the chunks copied into the accepted submissions, in order, are the data the writes reported as written |
| WriteTheorems.WriteCopies | transfer_stream.go:222-259 | one write copies exactly its first n bytes, in chunks that are full except the last, and n is everything unless it reports an error |
| WriteTheorems.SendKeeps | transfer_stream.go:228-257 | one round of the loop keeps the ring invariant and makes progress |
| WriteTheorems.RoundIs | transfer_stream.go:228-257 | in terms of the device's answers: what one round waits for, counts, answers and hands to libusb, including the rest of the buffer, which stays as the device left it |
| WriteTheorems.BrokenMeansAllFlying | transfer_stream.go:235-238 | when a wait in Write fails all transfers left in the queue are in flight, as the comment claims |
| WriteTheorems.FailedForGood | transfer_stream.go:196-225 | after a failed Write every Write, and after Close every operation, answers ErrClosedPipe and changes nothing |
| WriteTheorems.CloseReports | transfer_stream.go:281-305 | Close answers with the first error, with nil exactly if no submit and no wait failed, and Written is then the sum over all submissions, otherwise up to the first failed one |
| WriteTheorems.FirstFailure | transfer_stream.go:231-234 | the first error in flight is that of the first submission that failed, and the count is what was reported for the submissions up to it and for it |
| WriteTheorems.WriteConservation | transfer_stream.go:281-298 | after Close each transfer has been given back exactly once although Close frees each twice |
| WriteTheorems.WireIsDataWritten | transfer_stream.go:193-195 | over a run without failed writes, what libusb is given is the data written if and only if every Write is of a multiple of the buffer size |
| WriteTheorems.ShortWrite | transfer_stream.go:241-246 | after one short Write libusb has been given a full buffer |
| WriteTheorems.NewWriteStarts | transfer_stream.go:307-316 | a new write stream satisfies the ring invariant |
| RingLemmas.QueueShape | transfer_stream.go:229-240 | the queue is unsubmitted transfers followed by those in flight in submission order |
| RingLemmas.FlushKeeps | transfer_stream.go:70-77 | flushing leaves no transfer in flight and gives every queued one back once |
| Channels.Channel.Send | transfer_stream.go:65 | the value goes to the end; the caller must show that the channel is open and not full |
| Channels.Channel.Receive | transfer_stream.go:126 | the oldest value, or none if the channel is closed and empty; the caller must show that it does not block |
| Channels.Channel.Close | transfer_stream.go:45-50 | the caller must show that the channel is open |
| Streams.Stream.GotError | transfer_stream.go:39-43 | the first error stays |
| Streams.Stream.NoMore | transfer_stream.go:45-50 | closes the channel once |
| Streams.Stream.SubmitAll | transfer_stream.go:52-68 | the two loops make the ring that submitting the queue in order makes |
| Streams.Stream.FlushRemaining | transfer_stream.go:70-77 | the loop frees all queued transfers, and cancels those in flight before it waits for them |
| Streams.Stream.constructor | transfer_stream.go:307-316 | a channel with room for all transfers, holding them in order |
| ReadStreams.ReadStream.ReadContext | transfer_stream.go:121-166 | the fields, the result and the bytes in p are those of one read of ReadTheorems, which ReadAmount, RunError, EndDeliversAll and ReadConservation describe; nothing else of p changes |
| ReadStreams.ReadStream.Close | transfer_stream.go:173-180 | the fields are those of the Close of ReadTheorems, which RunError and FirstErrorStays describe |
| ReadStreams.NewStream | endpoint_stream.go:41-48 | the stream after submitAll satisfies the invariant of the theorems |
| WriteStreams.WriteStream.WriteContext | transfer_stream.go:222-259 | the fields and the result are those of WriteTheorems.Write |
| WriteStreams.WriteStream.CloseContext | transfer_stream.go:281-298 | the fields and the result are those of StreamSpec.CloseWrite |
| WriteStreams.WriteStream.Written | transfer_stream.go:300-305 | once the stream is closed, the bytes the device confirmed for the submissions up to and including the first failed one |
| WriteStreams.NewStream | endpoint_stream.go:55-61 | the new stream satisfies the invariant of the theorems |
| Endpoints.NewTransfers | endpoint_stream.go:17-31 | all transfers, or an error at the first refused allocation, and then every transfer allocated before is given back once; at most one block of memory is lost, exactly if libusb had memory for a length that does not fit C's int |
| Endpoints.NewReadStream | endpoint_stream.go:41-48 | a read stream that satisfies the invariant, exactly if all allocations succeed |
| Endpoints.NewWriteStream | endpoint_stream.go:55-61 | a write stream that satisfies the invariant, exactly if all allocations succeed |
| Endpoints.Transfer | endpoint.go:88-110 | one submission with the caller's data, the answer of its wait, the data received in the caller's buffer, and the transfer given back once in every case |
| Endpoints.DriveRead | transfer_stream.go:100-180 | any sequence of calls on a ReadStream is a run of the theorems |
| Endpoints.DriveWrite | transfer_stream.go:189-305 | any sequence of calls on a WriteStream is a run of the theorems |
| Transfers.UsbTransfer.Submit | transfer.go:45-56 | refused in flight; otherwise as libusb answers; follows TransferSpec |
| Transfers.UsbTransfer.Wait | transfer.go:63-83 | 0 and nil if not submitted, otherwise the outcome, with the buffer as data() leaves it, after which the transfer is not in flight; follows TransferSpec |
| Transfers.UsbTransfer.Cancel | transfer.go:87-100 | libusb is asked exactly if the transfer is in flight; "not found" is no error; nothing else changes yet |
| Transfers.UsbTransfer.Free | transfer.go:104-118 | refused in flight, gives the transfer back the first time, nothing the second time |
| TransferTheorems.StepKeeps | transfer.go:45-118 | every atomic step of every goroutine and of the callback keeps the invariant |
| TransferTheorems.TokensBalance | transfer.go:66-82 | in every reachable state each accepted submission has at most one token, received once and evaluated once, and the channel is empty and everything settled when nobody holds the mutex of a transfer not in flight |
| TransferTheorems.CallbackRoutes | libusb.go:541-546 | the callback finds the channel of the transfer that owns the memory, even if libusb reused it, and its send does not block |
| TransferTheorems.DataIsFinished | transfer.go:76-78 | data() is evaluated only when libusb is through with the memory, the channel is empty, all submissions are accounted for, and the report in the memory is about this submission |
| TransferTheorems.MemoryIsOwn | libusb.go:473-490 | a transfer owns the memory it points to, no other transfer that has not given it back points to it, and it is found through xferDoneMap unless it is just being freed; while free has given the memory back and not yet cleared the pointer, xferDoneMap does not lead from it to this transfer any more |
| TransferTheorems.OneAtATime | transfer.go:45-118 | one goroutine at a time is inside a call on a transfer |
| TransferTheorems.CancelWaitsForWait | transfer.go:87-89 | a cancel cannot take effect while another goroutine waits for the transfer |
| TransferTheorems.LibraryIsSafe | libusb.go:521-526 | libusb frees memory only when it is idle and unmapped, and submits and cancels only allocated memory |
| TransferProgress.WaiterIsServed | transfer.go:69-76 | from every state with a goroutine at the receive, and for anything libusb may report, a run of at most three steps of libusb alone makes the token available to it |
| TransferProgress.NobodyIsStuck | transfer.go:45-118 | from every reachable state a goroutine inside a call, or waiting for its mutex, is out of the call after a run of at most fifteen steps of libusb, of the holder of the mutex and of its own, or one of the two goroutines submits a freed transfer |
| TransferTheorems.HistoryIsLegal | transfer.go:45-118 | the calls answered so far are a legal sequential history ending in the phase of the fields; each wait reports about its own submission |
| TransferTheorems.LogIsLegal | transfer.go:45-118 | the calls on all transfers are, in one order |
| TransferRefinement.HistoryIsServed | transfer_stream.go:24-28 | for every legal history of any transfers there is an endpoint on which the transfers the streams are proved about give the same replies, counts, errors and data |
| TransferRefinement.ProtocolIsServed | transfer.go:45-118 | for every run of the protocol and every set of transfers, such as those of one stream, there is such an endpoint for the calls on these transfers, and it meets what the stream theorems assume if libusb keeps to the buffers of these transfers |
| TransferTheorems.OneEntryPerCall | transfer.go:45-118 | a call takes effect once, while it holds the mutex, with the reply it returns |
| TransferTheorems.ErrorsAreLibusbs | transfer.go:45-118 | submit and cancel fail with exactly the error of libusb, "not found" of a cancel excepted; a call is refused exactly if it is a submit or free of a transfer in flight |
| TransferTheorems.CancelsAreAsked | transfer.go:70-94 | libusb is asked to cancel by exactly the cancels that find the transfer in flight and by waits whose context is done |
| TransferTheorems.ResultsAreReported | libusb.go:512-519 | in every run what a wait answers, the count, status and data, was reported by libusb in the same run |
| TransferTheorems.OthersStay | transfer.go:45-118 | no step moves another goroutine, and libusb's steps answer no call |
| TransferTheorems.CrashesIffFreed | transfer.go:48-51 | submit hands a nil pointer to libusb if and only if the transfer has been freed |
| TransferTheorems.SubmitAfterFree | transfer.go:48-51 | from every reachable state with an idle, unlocked transfer such a run exists |
| IsoLayout.LayoutFits | transfer.go:127-151 | at least one packet of the largest size allowed, all inside the buffer, less than one packet of it left over (one packet if it is empty), and libusb is told exactly this if and only if there is memory and the length is below 2^31 |
| IsoLayout.LosesMemory | libusb.go:474-480 | memory is lost if and only if there was some and the length is 2^31 or more |
| IsoLayout.CompactedIsPayload | transfer.c:57-77 | the overlapping moves leave the payloads before the first failed packet side by side and disturb neither them nor the unread slots |
| IsoLayout.PayloadIs | transfer.c:57-77 | the i-th packet before the first failed one contributes its first bytes, from its own slot, right behind those of the packets before it |
| IsoLayout.PayloadSize | transfer.c:57-77 | there is nothing else, and the status is that of the first failed packet |
| IsoLayout.CompactIsoData | transfer.c:57-77 | the loop in the buffer does that, and returns the total and the first status |
| IsoLayout.AnswerIsBounded | libusb.go:512-519 | a wait never returns more than the buffer length; on isochronous endpoints the bytes it counts are the payloads, and its error is nil exactly if no packet failed, otherwise that of the first that did; on others count, data and error are those of the transfer |
| IsoLayout.StreamsAreWellFormed | transfer.go:127-155 | so every endpoint meets what the stream theorems assume |
| ClaimSpec.StepKeeps | usb.go:203-327 | a successful call keeps the tree and libusb's record consistent if and only if it is no second claim of a device and no setting found under another number |
| ClaimSpec.ClaimKeeps | device.go:146-180 | Device.Config breaks the tree exactly when the device is claimed already |
| ClaimSpec.TakeKeeps | config.go:124-147 | Config.Interface keeps it exactly when the setting carries the number asked for and that number fits a byte |
| ClaimSpec.RunKeeps | usb.go:203-327 | the invariant holds after every disciplined run |
| ClaimSpec.OpenInterfaceHolds | interface.go:98-107 | an open Interface has an open Config, which is its device's claim, a device with an open handle in an open context, and is claimed at libusb |
| ClaimSpec.BottomUp | config.go:82-100 | a Config, a Device, the Context can be closed exactly when none of their Interfaces, Configs, Devices is open |
| ClaimSpec.ClaimsBalance | interface.go:98-107 | libusb's claims on a handle are the numbers of the Interfaces open on that device, one for each |
| ClaimSpec.NumberIsFree | config.go:135-139 | releasing after a failed setAlt takes no other claim away |
| ClaimSpec.SecondClaim | device.go:146-180 | after a second claim the device can be closed under an open Interface, which then cannot be closed |
| ClaimTree.Context.OpenDevices | usb.go:203-238 | opens exactly the wanted devices that can be opened, in order, as a run of the tree, and reports the last error |
| ClaimTree.ToOpenIs | usb.go:214-236 | opened are exactly the devices with a descriptor that the opener accepts and libusb can open, in order |
| ClaimTree.AskedIs | usb.go:214-224 | the opener is called with every descriptor that could be read, in order |
| ClaimTree.LastErrorIs | usb.go:214-230 | the error is that of the last device whose descriptor could not be read, or that was accepted and could not be opened; nil if there is none |
| ClaimTree.Context.OpenDeviceWithVIDPID | usb.go:281-297 | opens the first match or nothing, so no other handle is left open, and has an error only without a device |
| ClaimTree.OneToOpen | usb.go:281-297 | its stateful opener accepts the first match only |
| ClaimTree.Context.Close | usb.go:306-327 | refused while devices are open; closes once |
| ClaimTree.Context.CloseDevice | usb.go:299-304 | closes the handle and forgets the device |
| ClaimTree.Device.Config | device.go:146-180 | succeeds if and only if the device is open and has the configuration, no kernel driver that must be detached refuses, and the configuration is active or libusb selects it; then libusb has been told exactly this, and the claim is the step Claim; with the error of the first step that failed otherwise |
| ClaimTree.Device.DefaultInterface | device.go:185-203 | succeeds if and only if the active configuration is known and each of its steps succeeds, and then claims two levels; or fails, and then an unclaimed device and libusb's record are as they were, and an earlier claim is forgotten exactly if a Config was made; the steps it makes |
| ClaimTree.Done | device.go:199-202 | the returned function releases both levels and keeps the invariant |
| ClaimTree.Device.Close | device.go:214-226 | refused while claimed; otherwise the step CloseDev, once |
| ClaimTree.Device.Reset | device.go:116-126 | refused while claimed or closed, and otherwise libusb is told |
| ClaimTree.Device.SetAutoDetach | device.go:294-304 | sets the flag of an open device, tells libusb, touches no claim |
| ClaimTree.Config.Interface | config.go:110-148 | succeeds if and only if the Config is open, has the setting and has not claimed the interface, libusb claims it and, if the interface has several settings, selects the setting; then it is the step Take with the setting the descriptor has, and libusb has been told to select it exactly if there are several; no change at all otherwise, also when setAlt fails, and the error of the step that failed |
| ClaimTree.Lookup | config.go:115-122 | the setting found, and whether the interface has several |
| ClaimTree.Config.Close | config.go:82-100 | refused while interfaces are claimed; otherwise the step CloseCfg, once |
| ClaimTree.Interface.Close | interface.go:98-107 | the step CloseIntf, once |
| ClaimTree.TidyIsDisciplined | interface.go:32-41 | on descriptors with one entry for each interface number the setting found carries that number |
| ClaimRuns.AllUsable | config.go:130-136 | in an orderly tree every Device, Config and open Interface has the open handle that libusb is given |
| ClaimRuns.Drive | usb.go:203-327 | any sequence of the calls on a new context and the objects it hands out, Reset and SetAutoDetach included, with Config and DefaultInterface made only on unclaimed devices, is a run of ClaimSpec, if in the descriptors libusb lists the settings carry the number of their interface and it is below 256 |
| Descriptors.BuildSettings | libusb.go:328-361 | the settings of one entry not seen before, in order, and the set of pairs seen; see DescriptorIs |
| Descriptors.BuildInterfaces | libusb.go:315-366 | the interfaces of all entries, or the panic; see DescriptorIs and PanicsExactly |
| DescriptorTheorems.PanicsExactly | libusb.go:362-365 | the panic happens if and only if some entry only repeats settings of the entries before it |
| DescriptorTheorems.DescriptorIs | libusb.go:315-366 | otherwise there is one interface for each non-empty entry, in order, with the number of its first setting; its settings are those of the entry whose numbers no setting before them in the descriptor has, in order, each with the fields and the endpoints of the one it was made from |
| DescriptorTheorems.EndpointMapIs | libusb.go:355-359 | the keys are exactly the addresses of the endpoints, each with the last endpoint that has it |
| DescriptorTheorems.KeepsUnseen | libusb.go:315-366 | all kept settings together are the enumerated ones without repetitions, in order |
| DescriptorTheorems.KeepsFirsts | libusb.go:338-345 | they are exactly the first occurrences, each once and in order |
| DescriptorTheorems.EachPairOnce | libusb.go:338-345 | every enumerated pair of numbers is there exactly once |
| DescriptorTheorems.SettingIsUnique | interface.go:32-41 | settings of one interface with the same number differ in the alternate number |
| DescriptorTheorems.LookupFindsFirst | config.go:52-66 | on descriptors with one entry for each number both lookups succeed for every enumerated pair and find the copy of its first occurrence |
| DescriptorTheorems.IntfDesc | config.go:52-66 | the first interface with the number, or none has it |
| DescriptorTheorems.AltSetting | interface.go:32-41 | the first setting with the alternate number, or none has it |
| UsbIds.ParseIDs | usbid/parse.go:78-244 | the maps are the meaning of the text as a fold over its lines, or the error is the one the fold stops with and there are no maps |
| UsbIds.Split | usbid/parse.go:82-112 | kind, level, id and name of a line |
| UsbIdsRoundTrip.LineIsMadeOf | usbid/parse.go:82-112 | an accepted line is its tabs, its kind, its hexadecimal id, the first two spaces and its name |
| UsbIds.Block.Add | usbid/parse.go:118-204 | accepts an entry exactly if it has a parent and at most level two, and then records it |
| UsbIds.Block.MapIsForest | usbid/parse.go:114-204 | the mutated objects reachable from the map are what the accepted entries mean |
| UsbIds.Reader.ReadLine | usbid/parse.go:212-225 | the next line without its terminator, or that it does not fit 512 bytes, or the reader's error, for readers that report the end with the last bytes and for those that report it later |
| UsbIdsForest.ListTops | usbid/parse.go:114-204 | entries listed parents first build the database they list |
| UsbIdsForest.LeafJoinsLatestMid | usbid/parse.go:144-156 | a level-two line belongs to the latest level-one line even across a new parent, and is lost if that one's parent was redefined |
| UsbIdsLines.ParseIsFold | usbid/parse.go:212-241 | parsing lines with either terminator is folding over them, up to the end or a line that is too long |
| UsbIdsLines.TextIsLines | usbid/parse.go:207-221 | every text is such lines |
| UsbIdsLines.EveryTextIsFolded | usbid/parse.go:207-244 | so every text is parsed as a fold, and fails with the first line that is rejected or too long |
| UsbIdsLines.StopsAtFirstBad | usbid/parse.go:226-240 | parsing fails at line k if and only if all lines before it are accepted and it is not |
| UsbIdsLines.OnlyCommentsAreSkipped | usbid/parse.go:83-109 | a line that is empty or begins with # changes nothing; any other is rejected if its grammar is violated, as malformed if it has no two spaces and for its id otherwise |
| UsbIdsLines.CommentsDoNothing | usbid/parse.go:220-222 | such lines between others change nothing of the outcome |
| UsbIdsLines.RefusedEntries | usbid/parse.go:118-160 | an entry is refused if and only if its level is three or more or no entry one level up came before |
| UsbIdsLines.DigitIs | usbid/parse.go:104 | the digits are hexadecimal, in either case |
| UsbIdsLines.IdIs | usbid/parse.go:104 | an id is one or more of them with a value below 65536 |
| UsbIdsLines.TooLongIs | usbid/parse.go:207-219 | a line is too long if and only if no newline is among 512 bytes, unless the file is known to end with them |
| UsbIdsRoundTrip.RoundTrip | usbid/parse.go:78-244 | every listed database comes back from any text whose lines spell its entries, with any number of hexadecimal digits and with empty lines and lines beginning with # anywhere in between |
| UsbIdsRoundTrip.TwoDigitInterface | usbid/testdata/testdb.txt:7 | the repository's own file uses one of these spellings |
| UsbIdsRoundTrip.EveryDatabaseIsListed | usbid/parse.go:78-244 | every database with 16-bit and 8-bit ids has a listing, whose names are those of the database |
| UsbIdsRoundTrip.EveryListingHasLines | usbid/parse.go:78-244 | every listing whose names have no newline and fit the line buffer has lines that fit it and spell it |
| UsbIdsRoundTrip.EveryDatabaseComesBack | usbid/parse.go:78-244 | for every database with such ids and names, and every reader of either kind, there is a text that is parsed to it |
| UsbIdsLines.KindSticks | usbid/parse.go:226-236 | after an accepted text the parser is in vendor mode if and only if it began in it and no line brought a kind; otherwise the vendors do not change any more |
| UsbIdsRoundTrip.VendorLineLands | usbid/parse.go:226-236 | a line of a new vendor is added to the vendors if and only if no line before it brought a kind, becomes a class after a class line, and is dropped after other kinds |

## Left out

- libusb itself, its event loop, device lists, control transfers, string descriptors and kernel drivers: their answers are parameters or part of the endpoint's outcomes.
- Cancellation by a context: for streams it is one of the outcomes the device may give; in `TransferProtocol` it is a step of the waiting goroutine.
- Finalizers: they free the transfers that `submitAll` drops some time later.
- Concurrent calls of stream methods, which their documentation forbids, and races between methods of Device, Config and Interface, whose nil checks stand outside their locks: those methods are atomic here.
- Streams with no transfers or with empty buffers: reads would block and writes would not progress; both sizes are positive in the model.
- The data of a Write is a sequence value, so a caller changing the slice meanwhile is not modelled.
- `OpenDeviceWithFileDescriptor`: it skips the check for a closed context and keeps no record of a handle whose descriptor cannot be read.
- Endpoints of an interface (`openEndpoint`, `InEndpoint`, `OutEndpoint`), endpoint descriptors, versions and power values: lookups and small finite conversions.
- libusb's dereferencing of listed devices in `OpenDevices`, and the hand-shake with the event loop in `Context.Close`.
- Error texts: an error made by gousb itself is one value, except for the line number and the reason in usb.ids.
- Nil maps of vendors without products and the like are empty maps.
- Loading usb.ids from a URL, describing and classifying devices, formatting, logging and the command line tools.
