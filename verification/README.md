# Verified models of ostool's protocols and stores

This project models the parts of ostool whose correctness depends on state, interleaving or byte
layout, and proves what each of them is for. Each component has a specification on values, methods
that change state in place and are proved against it, and theorems about all inputs or all runs. The
stores, the serial actor, the hand-over of a port and the management projection end in a method that puts
the object through any run and has the theorems of the run as its result.

| file | component |
|---|---|
| `serial_discovery.dfy`, `serial_system.dfy`, `serial_passes.dfy` | the serial discovery actor: its steps, every interleaving of them with scan tasks, closing tasks, leases and reservations in flight, and what exactly a turn does |
| `serial_lease.dfy`, `beacon.dfy` | what a scan hands over to a lease, and the bounded decoder of serial beacons |
| `fdt_format.dfy`, `fdt_tree.dfy`, `fdt_contents.dfy`, `fdt_writer.dfy`, `fdt_roundtrip.dfy` | an independent reader of the flattened devicetree format, the tree a FIT configuration describes, what is found in it by path and name, the writer, and the round trip |
| `ota_store.dfy`, `ota_runs.dfy`, `ota_answers.dfy`, `ota_service.dfy` | loader upgrade assignments and the image files they need: every run, and what exactly each call does |
| `admin_events.dfy` | the management projection with its bounded log, and subscribers that follow it |
| `board_lease.dfy`, `board_runs.dfy` | leasing boards to sessions and releasing them |
| `loader_registry.dfy`, `loader_runs.dfy`, `loader_answers.dfy`, `loader_service.dfy` | loader registrations that supersede one another: every run, and what exactly each request does |
| `ymodem.dfy`, `crc16.dfy` | sending a file with YMODEM, and the table-driven CRC-16 |
| `echo_command.dfy` | the echo-paced command sender |
| `bytes.dfy`, `options.dfy` | bytes, decimal numbers, optional values |

## What is taken from outside

- Time, random identifiers, results of input and output, and whether anyone still waits for a reply are
  parameters of each step and may take any value, also different ones in one pass. Only identifiers are
  assumed never to repeat, where a theorem says so.
- A step of a run is one section of the program that nothing else can interrupt: one turn of the serial
  actor, one locked section of a store, one sub-step of a release pass. Steps interleave freely, and
  messages in flight may be delivered in any order.
- 32-bit sizes and offsets in device trees and 64-bit cursors are reduced or refused as the code does;
  counters that would have to overflow 64 bits are natural numbers.
- A request whose client goes away is dropped at its next wait. For uploads, deletions and the creation of
  sessions that is a step of its own. A decide dropped between its two locks leaves the same state as one
  whose jobs cannot be written; no other call has anything half done when it waits.
- Symbolic links that name serial ports are a fixed map.
- The reader of device trees follows sections 5.2 to 5.6 of the Devicetree Specification, release 0.4,
  except for the order of items in a node: it accepts a property after a child node (section 5.4.2 asks
  for properties first), because the writer puts the reference to the default configuration after the
  configuration's node.
- The receiving side of YMODEM follows sections 5 and 8 of Forsberg's XMODEM/YMODEM Protocol Reference;
  control sequences are those of section 5.4 of ECMA-48.

## Results that a reader may not expect

- `OtaRuns.DecideTwice`: deciding is not idempotent for every report; the lemma gives the exact condition,
  and `OtaRuns.NotIdempotent` a run that meets it.
- `OtaRuns.DelayHolds`: a scheduled delay is forgotten by exactly the writable reports without an upgrade
  state; `OtaRuns.DelayLostInARun` gives a run.
- `OtaRuns.ChangeIsLost`: a change of a waiting device is lost for good exactly if its report is first stored
  when the jobs cannot be written; `OtaRuns.ChangeLostInARun` gives a run.
- `OtaRuns.AbandonedRemoval`: dropping the request of a deletion while its files are being removed can take
  the image from a job that is queued afterwards; the lemma gives the exact moments.
- `BoardRuns.ExactlyStranded`: a board stays leased for ever in exactly two cases: the creation of its session
  was cancelled between the claim and the registration, or the release of the session was not enqueued.
  `BoardRuns.LostInARun` and `BoardRuns.RejectedInARun` give runs of both.
- `AdminEvents.ExactlyCurrent`: a cursor ahead of the present makes a client miss publications; the lemma
  gives exactly the starting points from which no client ever goes wrong.

## Model

| member | source | states |
|---|---|---|
| SerialSystem.OneUserPerPort | ostool-serial/src/manager.rs:245-325 | In every run of the actor with all its tasks, messages, leases and reservations, in every interleaving, a port has at most one user at a time, counting a scan from before it opens the port until its stream is closed. |
| SerialSystem.MessagesFindTheirEntries | ostool-serial/src/manager.rs:200-208 | In every run each task in flight owns the candidate entry with its generation, each lease, reservation or release message the leased entry with its token, and every entry has such an owner: no message is ever stale and no port stays locked for nothing. |
| SerialSystem.AnswersAreTrue | ostool-serial/src/manager.rs:384-447 | Every answer sent in any turn of any run is true at the end of the turn: a released owner has no lease, open or closing, and no waiting bind (and no task has a port once no bind waits); an accepted exclusion has no scan and no discovery lease on a matching port. |
| SerialSystem.LeasesAreDeserved | ostool-serial/src/manager.rs:264-306 | In every run a granted lease goes to a bind that was pending, before its deadline, on a port neither excluded nor awaited by a reservation, with a stream on which that bind's own identity was heard. |
| SerialSystem.PassIsComplete | ostool-serial/src/manager.rs:397-518 | After every pass nobody who waits for an owner and no accepted exclusion could have been answered, and if a bind scans, every known port is being scanned or cannot be. |
| SerialSystem.RefusalsAreDue | ostool-serial/src/manager.rs:328-370 | A pass drops a bind only if nobody waits for it or its time is up, refuses only binds whose time is up, and keeps every other one. |
| SerialSystem.ScanTimeIsFair | ostool-serial/src/manager.rs:329-370 | At the end of every turn of every run, whatever the clock shows from turn to turn, each waiting bind is not overdue and is either within one second of grace for its remembered port or scans until five seconds after its request at least, never beyond its deadline; and every bind a turn gives up had those five seconds or its deadline. |
| SerialPasses.NobodyIsForgotten | ostool-serial/src/manager.rs:113-129 | Over every run, whoever asks for a bind, an exclusion, a reservation or the release of an owner, and does not give up, has exactly one answer, or still waits, or his bind was superseded by a later boot of the same device: what was asked equals what waits, what was answered and what was superseded. |
| SerialPasses.PassLosesNobody | ostool-serial/src/manager.rs:328-447 | A pass answers or keeps everybody who still waits for an answer, and answers nobody twice. |
| SerialPasses.NewParametersScanAll | ostool-serial/src/manager.rs:160-166 | In every run, the turn that admits a bind with parameters that no bind it leaves standing has scans every known port that nobody uses, awaits or excludes, if a bind scans, whatever failed before. |
| SerialPasses.NoPortIsLeftOut | ostool-serial/src/manager.rs:448-518 | After every turn of every run a known port that nobody uses or awaits, that no exclusion names by serial number, name, alias or link, and whose last scan did not end by itself, is being scanned if a bind scans, or if it is where a waiting device was confirmed last. |
| SerialPasses.ScansExactly | ostool-serial/src/manager.rs:458-517 | A pass starts scans of exactly the known ports that are available and wanted, one for each name, and changes nothing else. |
| SerialPasses.ListingExactly | ostool-serial/src/manager.rs:448-457 | Ports are listed anew exactly while binds wait, no listing is under way, and 250 milliseconds after the last one began. |
| SerialPasses.ClosingExactly | ostool-serial/src/manager.rs:384-396 | A scan is told to stop exactly if nobody waits, an exclusion names its port or a reservation awaits it, and a stopping scan goes on stopping. |
| SerialPasses.ExpiryExactly | ostool-serial/src/manager.rs:337-370 | The binds that go on waiting stay in order; the others are told of the faults so far, or of the time; and the remembered port is forgotten of exactly the devices whose bind is refused or starts to scan. |
| SerialPasses.FoundExactly | ostool-serial/src/manager.rs:257-325 | A found port is leased exactly if its scan is current and not stopping, a bind for the identity is waited for and in time, and commands can still come: to the first such bind, for its owner, under a new token, with the stream; otherwise it is closed and stays taken until then. |
| SerialPasses.DeadlineMeans | ostool-serial/src/manager.rs:342-351 | After a second a bind scans too; its scan gets the window from now, or from the request, loses no time it was given, and never goes beyond its deadline. |
| SerialPasses.WindowMeans | ostool-serial/src/manager.rs:329-336 | The window is two seconds for each set of line parameters that is waited for, and five seconds at least. |
| SerialPasses.PlacesWereConfirmed | ostool-serial/src/manager.rs:209-217 | In every run, wherever a device is remembered, the holder of the lease of that port, by its token, has confirmed it to be there. |
| SerialPasses.WaitingDiffer | ostool-serial/src/manager.rs:145-156 | In every run waiting binds are for different devices and different identities. |
| SerialSystem.RunKeeps | ostool-serial/src/manager.rs:113-129 | The inductive invariant behind these results holds after every run, pairwise different devices and identities of waiting binds included. |
| SerialSystem.NextKeeps | ostool-serial/src/manager.rs:113-129 | One turn (input, then pass) or one step of a task or holder keeps the invariant. |
| SerialSystem.ReceiveKeeps | ostool-serial/src/manager.rs:138-327 | Every command and event keeps the ownership of entries by what is in flight. |
| SerialSystem.ReconcileKeeps | ostool-serial/src/manager.rs:328-532 | A pass keeps the ownership, makes everything that conflicts close, and sends only true answers. |
| SerialSystem.ReleaseKeeps | ostool-serial/src/manager.rs:200-208 | A release message always finds the entry it was granted for and removes that entry only. |
| SerialSystem.ClosedKeeps | ostool-serial/src/manager.rs:245-256 | A closing message always finds the entry it was started for and removes that entry only. |
| SerialSystem.FoundKeeps | ostool-serial/src/manager.rs:257-325 | A found stream becomes the one lease of its port for the first bind that wants it, exactly if its scan is current and not closing, such a bind waits and commands can still come; otherwise its port stays a closing candidate with a task that closes the stream. |
| SerialSystem.ExcludeKeeps | ostool-serial/src/manager.rs:177-190 | An accepted exclusion never covers a port that a discovery lease is on: selectors already in force do not match it, and new ones were checked. |
| SerialSystem.MoveKeeps | ostool-serial/src/lib.rs:205-221 | Opening, reading, reporting, closing and dropping streams outside the actor keep the invariant. |
| SerialSystem.Drive | ostool-serial/src/manager.rs:113-126 | The actor object, put through any turns with anything in flight, ends where the run of these turns ends, in order, with no two users of a port. |
| SerialSystem.TakeTurn | ostool-serial/src/manager.rs:113-126 | One turn of the object: its input, the pass, and what it sent going into flight. |
| SerialDiscovery.Discovery.HandleCommand | ostool-serial/src/manager.rs:138-225 | No command gives out a port or starts a scan: candidates and the token counter stay, of the leased ports only the one a release names with its token goes, and nothing that may not be together comes together. A device is remembered at a port exactly when the holder of the port confirms it, and forgotten when it is told to be elsewhere. |
| SerialDiscovery.Discovery.HandleBind | ostool-serial/src/manager.rs:140-176 | Refused as busy exactly while an unsuperseded rival for the device or the identity waits; otherwise it waits behind exactly those it does not supersede, until its deadline or five seconds on, scanning at once exactly if no port is remembered for its device. Failed ports get another chance exactly if nobody it leaves standing has its parameters; faults are forgotten exactly if nobody stands. |
| SerialDiscovery.Discovery.FindStanding | ostool-serial/src/manager.rs:145-149 | The loop keeps exactly the binds the request does not supersede, in order. |
| SerialDiscovery.Discovery.HandleExclude | ostool-serial/src/manager.rs:177-190 | Refused exactly if a selector that was not in force matches a leased port, so no leased port ever comes under a new exclusion; an accepted one is answered later. |
| SerialDiscovery.Discovery.HandleReserve | ostool-serial/src/manager.rs:191-199 | Refused exactly if the port is leased or already asked for, so waiting reservations are for different ports, none of them leased. |
| SerialDiscovery.Discovery.HandleEvent | ostool-serial/src/manager.rs:233-327 | A closing message removes exactly the candidate with its generation and counts a scan that ended by itself as failed; a stale one changes nothing; an inventory ends the listing and a fault is noted under its port, and neither changes anything else. |
| SerialDiscovery.Discovery.FindPosition | ostool-serial/src/manager.rs:275-279 | The loop finds the first bind that wants the identity, is waited for and is not past its deadline. |
| SerialDiscovery.Discovery.HandleFound | ostool-serial/src/manager.rs:257-325 | A leasable stream goes to the first bind that wants it, under a new token; any other keeps its port until it is closed; no other port is touched. |
| SerialDiscovery.Discovery.ExpirePending | ostool-serial/src/manager.rs:329-370 | The loop over the binds does what the specification's fold does, one bind at a time. |
| SerialDiscovery.Discovery.PublishExpectations | ostool-serial/src/manager.rs:371-383 | What scans look for is the list of waiting binds. |
| SerialDiscovery.Discovery.CloseConflicting | ostool-serial/src/manager.rs:384-396 | In whatever order the candidates come, exactly those that conflict are told to close. |
| SerialDiscovery.Discovery.ReplyExcludes | ostool-serial/src/manager.rs:397-405 | All waiting exclusions are answered if no candidate matches the exclusions, and none otherwise. |
| SerialDiscovery.Discovery.ServeReservations | ostool-serial/src/manager.rs:406-432 | Reservations wait while their port is a candidate and are granted under a new token otherwise. |
| SerialDiscovery.Discovery.ServeWaiters | ostool-serial/src/manager.rs:433-447 | Waiters for an owner are answered exactly when the owner is not busy. |
| SerialDiscovery.Discovery.Discover | ostool-serial/src/manager.rs:448-518 | Enumeration and scans are started as the specification says, one port after the other. |
| SerialDiscovery.Discovery.ReconcileAll | ostool-serial/src/manager.rs:328-532 | The parts of a pass run in this order, each on the state the one before left. |
| SerialDiscovery.Discovery.NextToken | ostool-serial/src/manager.rs:226-232 | Tokens and generations come from one counter that only grows. |
| SerialHandOver.HandOver | ostool-serial/src/manager.rs:579-622 | A scan through any reads and changes of parameters, and then a lease read in any portions. Nothing is found only if no byte of any read completed an identity that was wanted at that byte, out of bytes since the last change, and then all moves were made unless the stream ended; otherwise the first such byte decides. The reader then gets, with what is left to hand over, the last min(n, 65536) of the n bytes scanned followed by the live bytes, and live reading only starts when nothing is left. |
| SerialHandOver.LastBytesAppend | ostool-serial/src/manager.rs:608-610 | Trimming the history to 65536 bytes after every read keeps what trimming once at the end would keep. |
| SerialHandOver.Scan.Step | ostool-serial/src/manager.rs:605-620 | One read. The scan goes on exactly if the read gave bytes and none of them completed an identity wanted at that byte, out of bytes read since the last change of line parameters; otherwise it ended, or found the identity at the first byte that does. For any read size the history stays the last 65536 bytes of everything read. |
| SerialHandOver.Scan.Rotate | ostool-serial/src/manager.rs:592-603 | Other line parameters start the search over and keep the history. |
| SerialHandOver.SerialLease.constructor | ostool-serial/src/manager.rs:294-305 | A lease takes over the stream and its last min(n, 65536) bytes. |
| SerialHandOver.SerialLease.PollRead | ostool-serial/src/lib.rs:222-253 | What was handed over comes first, as much as fits, and without reading; then one read for each call. All bytes ever returned are one stretch of the stream, from the start of the handed-over part on, without gap or repeat, for any read sizes; the location is invalidated exactly after an error or an end of file. |
| SerialHandOver.SerialLease.Configure | ostool-serial/src/lib.rs:192-199 | Nothing read before new line parameters counts towards an identity any more. |
| SerialHandOver.SerialLease.TakeObservedId | ostool-serial/src/lib.rs:201-203 | The last identity that live bytes announced since the last change of parameters, if any was announced since the one before was taken. |
| Beacon.DecodeAll | httpboot-protocol/src/serial.rs:165-209 | For every byte stream the 64-byte decoder reports, in order, exactly the identities that an unbounded decoder finds in its newline-ended lines. |
| Beacon.SerialFrameDecoder.Push | httpboot-protocol/src/serial.rs:184-208 | The buffer holds the unfinished line or knows that it is too long; each byte reports what it completes. |
| Beacon.BeaconsAreShort | httpboot-protocol/src/serial.rs:164-169 | A line that announces an identity fits the buffer, a carriage return included, so a line that overflows announces nothing. |
| Beacon.BeaconMeans | httpboot-protocol/src/serial.rs:193-204 | Exactly the lines made of AXLOADER-SERIAL/1, a space and 32 lower-case hexadecimal digits announce these digits, with or without a carriage return at the end. |
| Beacon.UnfinishedMeans | httpboot-protocol/src/serial.rs:184-192 | The unfinished line is what follows the last newline. |
| Beacon.LinesSnoc | httpboot-protocol/src/serial.rs:184-208 | A newline ends the unfinished line, any other byte extends it. |
| FitRoundTrip.BuildFit | fitimage/src/fit/builder.rs:43-51 | For every configuration, whatever order its map is iterated in, a reader of the devicetree format recovers exactly the described tree from the image if and only if the image is shorter than 2^32 bytes and no node name holds a NUL, and in it finds everything that the configuration asks for; longer images are rejected by a reader; shorter ones have a header of version 17 and blocks that fill them; the device tree payload is at an offset divisible by 8. |
| FitContents.DescribedRead | fitimage/src/fit/standard_dt_builder.rs:54-174 | What a reader finds, in terms of the configuration alone: time, description and cell sizes at the root; the kernel, device tree and ramdisk that there are, in this order, each with exactly its properties; and one node for each configuration with its references and the default, or the default configuration that refers to all components. |
| FitContents.KernelRead | fitimage/src/fit/standard_dt_builder.rs:177-232 | The kernel node has its description, type, architecture and system or their defaults, its compression, its load address and its entry point exactly if they are given, big-endian in eight bytes, its data, each once, and nothing else. |
| FitContents.FdtRead | fitimage/src/fit/standard_dt_builder.rs:235-278 | The same of the device tree, which has no system and no entry point. |
| FitContents.RamdiskRead | fitimage/src/fit/standard_dt_builder.rs:281-306 | The same of the ramdisk, whose configured description, type and entry point are not used. |
| FitContents.ComponentsAreFound | fitimage/src/fit/standard_dt_builder.rs:90-118 | For every name, a path below the images leads to the first of kernel, device tree and ramdisk that has it, and nowhere exactly if none has. |
| FitContents.ConfigurationsAreFound | fitimage/src/fit/standard_dt_builder.rs:148-170 | For every name, a path below the configurations leads to the configuration of that name with its own references, and nowhere exactly if there is none. |
| FitContents.DefaultBoots | fitimage/src/fit/standard_dt_builder.rs:123-147 | Without configurations the default leads to a node whose references lead to the images of the components. |
| FitRoundTrip.TokenBytes | fitimage/src/fit/fdt_tokens.rs:23-77 | How each token looks in bytes: its number, and the name, or length, name offset and value. |
| FitRoundTrip.ImageReadsBack | fitimage/src/fit/standard_dt_builder.rs:383-424 | The same for any tokens and strings the builder may have collected, both directions. |
| FitRoundTrip.LayoutOf | fitimage/src/fit/standard_dt_builder.rs:383-424 | The header of an image below 2^32 bytes describes adjacent, non-overlapping blocks that fill the total size exactly. |
| FitRoundTrip.TooLong | fitimage/src/fit/standard_dt_builder.rs:385-395 | An image of 2^32 bytes or more is rejected by a reader: its 32-bit total size is wrong. |
| FitRoundTrip.TreeUnparse | fitimage/src/fit/standard_dt_builder.rs:54-87 | Parsing loses nothing: the parsed tree, written as tokens again, is what was read. |
| FitRoundTrip.DescribedClean | fitimage/src/fit/standard_dt_builder.rs:90-174 | Exactly the component and configuration names become node names of the caller's choosing. |
| FitRoundTrip.WordsAt | fitimage/src/fit/fdt_header.rs:77-93 | The k-th header word is read back as the k-th field, modulo 2^32. |
| FdtFormat.ReadTokensOf | fitimage/src/fit/fdt_tokens.rs:23-77 | Reading a structure block undoes writing it, for every readable sequence of tokens. |
| FdtFormat.ResolveGrows | fitimage/src/fit/string_table.rs:25-44 | Strings added later change no property name. |
| FdtFormat.TreeParses | fitimage/src/fit/standard_dt_builder.rs:309-319 | Parsing the tokens of a tree gives the tree. |
| FdtFormat.NamesRead | fitimage/src/fit/fdt_tokens.rs:54-63 | A reader never sees a NUL in a node name. |
| FdtFormat.WordOfBe32 | fitimage/src/fit/fdt_tokens.rs:30-32 | Four big-endian bytes are read back as the number modulo 2^32. |
| FitWriter.StringTable.AddString | fitimage/src/fit/string_table.rs:25-44 | A known string keeps its offset and nothing else changes; a new one is appended; every recorded offset goes on pointing at its NUL-terminated name while the block is below 2^32 bytes, and the block stays 4-byte aligned. |
| FitWriter.PadToAlignment | fitimage/src/fit/fdt_tokens.rs:43-51 | Zero bytes up to the next multiple of four. |
| FitWriter.WriteString | fitimage/src/fit/fdt_tokens.rs:54-63 | Text, NUL and padding, behind an aligned buffer. |
| FitWriter.WritePropData | fitimage/src/fit/fdt_tokens.rs:66-70 | Data and padding, behind an aligned buffer. |
| FitWriter.StandardFdtBuilder.BeginNode | fitimage/src/fit/standard_dt_builder.rs:309-313 | The structure block stays the encoding of the tokens of the tree so far, now inside a new node. |
| FitWriter.StandardFdtBuilder.EndNode | fitimage/src/fit/standard_dt_builder.rs:316-319 | The innermost open node becomes a child of the one around it. |
| FitWriter.StandardFdtBuilder.AddPropertyString | fitimage/src/fit/standard_dt_builder.rs:322-333 | One more item of the open node: the name with the text and its NUL as value. |
| FitWriter.StandardFdtBuilder.AddPropertyU32 | fitimage/src/fit/standard_dt_builder.rs:336-343 | One more item of the open node: the name with a big-endian 32-bit value. |
| FitWriter.StandardFdtBuilder.AddPropertyU64 | fitimage/src/fit/standard_dt_builder.rs:346-353 | One more item of the open node: the name with a big-endian 64-bit value. |
| FitWriter.StandardFdtBuilder.AddPropertyData | fitimage/src/fit/standard_dt_builder.rs:356-363 | One more item of the open node, its value byte for byte 12 bytes after the former end of the block. |
| FitWriter.StandardFdtBuilder.AlignFdtData | fitimage/src/fit/standard_dt_builder.rs:371-380 | At most one no-operation token is appended, and the next property value then starts at a multiple of 8 of the finished image; the described tree does not change. |
| FitWriter.StandardFdtBuilder.AddFdtPropertyData | fitimage/src/fit/standard_dt_builder.rs:366-369 | The payload is in the block, at an aligned place. |
| FitWriter.StandardFdtBuilder.AddKernelImage | fitimage/src/fit/standard_dt_builder.rs:177-232 | The open node gets exactly the kernel image node, defaults filled in; what is in it is FitContents.KernelRead. |
| FitWriter.StandardFdtBuilder.AddFdtImage | fitimage/src/fit/standard_dt_builder.rs:235-278 | The open node gets exactly the device tree image node, its payload aligned. |
| FitWriter.StandardFdtBuilder.AddRamdiskImage | fitimage/src/fit/standard_dt_builder.rs:281-306 | The open node gets exactly the ramdisk image node. |
| FitWriter.StandardFdtBuilder.AddImages | fitimage/src/fit/standard_dt_builder.rs:90-118 | The images of the configuration, in the order kernel, device tree, ramdisk. |
| FitWriter.StandardFdtBuilder.AddConfigurations | fitimage/src/fit/standard_dt_builder.rs:121-174 | Without configurations a default one and, after its node, the reference to it; otherwise the reference first and then one node for each configuration, in the order of the map. |
| FitWriter.StandardFdtBuilder.BuildStructureBlock | fitimage/src/fit/standard_dt_builder.rs:54-87 | The complete block describes exactly the tree of the configuration. |
| FitWriter.StandardFdtBuilder.BuildFitTree | fitimage/src/fit/standard_dt_builder.rs:36-51 | The same, with one terminating reservation added first. |
| FitWriter.StandardFdtBuilder.Finalize | fitimage/src/fit/standard_dt_builder.rs:383-424 | The image is header, reservations, structure and strings, in this order, with 32-bit sizes and offsets. |
| FitWriter.FdtHeader.WriteToBuffer | fitimage/src/fit/fdt_header.rs:77-93 | Fourteen big-endian words in the order of the fields, the last four zero. |
| OtaRuns.SuccessIsEarned | ostool-server/src/ota.rs:382-413 | In every run a job succeeds, through decide or report, only if an earlier decide saw, for the same update id and image, a server's trial pending that id and running that image, and the report that completes it names the job's image as the active one. |
| OtaRuns.ConfirmedWereSeen | ostool-server/src/ota.rs:403-413 | In every run a confirming or succeeded job's trial was seen. |
| OtaRuns.AssignmentsAdvance | ostool-server/src/ota.rs:363-466 | Per assignment the rank of the phase never drops between any two points of any run, and a finished assignment does not change. |
| OtaRuns.NoUpdateAfterStaging | ostool-server/src/ota.rs:438-446 | In every run no image is sent for an assignment once it is staged, confirming or finished. |
| OtaRuns.JobAdvances | ostool-server/src/ota.rs:499-545 | One call advances a job, leaves it alone, or replaces a finished one by a new assignment. |
| OtaRuns.AttemptsAreLimited | ostool-server/src/ota.rs:595-609 | In every run an unfinished job has fewer than three counted retryable failures. |
| OtaRuns.UnavailableHolds | ostool-server/src/ota.rs:590-594 | After a device was unavailable, its assignment goes on waiting over any calls that neither record another failure nor reuse its id, if and only if no other report of the device is stored and acted on with the jobs written; and then its image is not sent. |
| OtaRuns.ChangeStep | ostool-server/src/ota.rs:340-381 | A changed report of a waiting device is new still, or ends the waiting, or is lost: exactly if the observation cannot be written, if both files can, or if only the observation can. |
| OtaRuns.ChangeIsLost | ostool-server/src/ota.rs:340-381 | Over any repetitions of the changed report, whatever else happens to the store, the change is never acted on, and the image not sent, exactly if the jobs could not be written when the report was first stored; the assignment stops waiting exactly if they could. |
| OtaRuns.ChangeLostInARun | ostool-server/src/ota.rs:340-381 | A run from the empty store, and a report, that lose a change. |
| OtaRuns.DelayHolds | ostool-server/src/ota.rs:434-454 | Over any calls before the scheduled time that neither record another failure nor reuse the id, the delay survives at every point if and only if none of them is a writable report of the undelivered device without an upgrade state; and then nothing is sent. |
| OtaRuns.DelayForgotten | ostool-server/src/ota.rs:447-455 | After any such report the image is sent at the next ordinary report of the device, at any time. |
| OtaRuns.DelayLostInARun | ostool-server/src/ota.rs:447-455 | A run from the empty store that schedules a delay, and a report that forgets it. |
| OtaRuns.SentExactly | ostool-server/src/ota.rs:337-446 | A decide hands out the image exactly if the job is undelivered, the board idle, the device free for another image, nothing is left to wait for and what changes can be written; the job is then downloading. |
| OtaRuns.ConfirmedExactly | ostool-server/src/ota.rs:379-413 | A decide asks to confirm exactly the trial that the server started for the unfinished job, if that can be written; the job is then confirming. |
| OtaRuns.ImagesStay | ostool-server/src/ota.rs:153-256 | However uploads and deletions interleave with the other calls, and whichever file steps fail, an unfinished job's image is in the catalog with both its files, in every run in which no caller goes away at a harmful moment. |
| OtaRuns.AbandonedRemoval | ostool-server/src/ota.rs:168-193 | A caller that goes away endangers the images exactly if its deletion is still removing files, or the files of a catalog entry it was deleting are gone: then, and only then, some continuation has an unfinished job without its image. |
| OtaRuns.FilesStep | ostool-server/src/ota.rs:168-193 | Every step keeps both files of each catalog entry in place, unless the entry is being deleted under the lock or a caller goes away at a harmful moment. |
| OtaRuns.DecideTwice | ostool-server/src/ota.rs:327-467 | Deciding again at the same time with the same report answers the same and changes nothing, if and only if the report does not name one update both as the running trial and as the last confirmed one for a job that is not confirming yet. |
| OtaRuns.NotIdempotent | ostool-server/src/ota.rs:382-413 | A run from the empty store and a report that meet the exception. |
| OtaRuns.AssignmentCanSucceed | ostool-server/src/ota.rs:363-446 | Wherever the image can be queued, an assignment whose device takes the image, boots it as the server's trial and reports it confirmed, succeeds, whenever and in whichever boots these reports come. |
| OtaService.Drive | ostool-server/src/ota.rs:102-107 | The store object, put through any calls and file steps, ends where their run ends: images stored, attempts limited, trials seen. |
| OtaService.OtaFiles.QueueJob | ostool-server/src/ota.rs:203-256 | Answered exactly if the catalog is free and has the image, no assignment of the board is under way, its device, as far as it was seen, runs no trial and another image, and the job can be written. Then the new job is queued as asked, no unfinished job is replaced, and the files of the image are there. |
| OtaService.OtaFiles.CancelJob | ostool-server/src/ota.rs:258-282 | Answered exactly for the present, unfinished assignment if both files can be written; it is cancelled and waits for nothing, no decide sends its image any more, and what was observed of the board is forgotten. |
| OtaService.OtaFiles.DecideNow | ostool-server/src/ota.rs:327-467 | Answered exactly if what the report changes can be written. Then it is stored, and the job ends or moves on exactly as the report and the old job say: rolled back or failed by the outcome that names it, failed also if an idle board runs the image already, succeeded exactly if confirming, confirmed and active, confirming exactly by its own trial, staged exactly while it is pending, downloading exactly if it is due. The device is told to install, to confirm, to wait, or nothing, exactly when it follows; other boards, files and what the job has reached are kept. |
| OtaAnswers.ReportMovesJob | ostool-server/src/ota.rs:382-455 | For every unfinished job and report: if and only if for each phase the job can reach, what becomes of its error and of what it waits for, and if and only if for each of the four answers. |
| OtaAnswers.DecideMeans | ostool-server/src/ota.rs:340-466 | The same of a whole call, with the cases of no job, a finished one, another device and files that cannot be written. |
| OtaService.OtaFiles.ReportPhase | ostool-server/src/ota.rs:469-546 | Accepted exactly if it is about the present assignment, of the boot that was last seen, names a phase that can follow, and for a success the trial is seen and the image active, and if what changes can be written. An unfinished job takes phase and error and waits on only while downloading; a refused report changes nothing. |
| OtaService.OtaFiles.RecordDeliveryFailure | ostool-server/src/ota.rs:548-615 | Answered exactly for the present assignment of the device as it was last seen, finished or not yet staged. A rejected delivery or the third counted failure ends it; otherwise it is tried again five seconds later, or five more for each counted failure, or when the device has changed, and waits for just that. |
| OtaService.OtaFiles.WriteMetadataFile | ostool-server/src/ota.rs:682-695 | The image becomes assignable exactly if the write succeeded, and then both its files are there. |
| OtaService.OtaFiles.StartDelete | ostool-server/src/ota.rs:168-182 | Answered exactly if the catalog is free and no unfinished job needs the image; until it is free again no image can be queued. |
| OtaService.OtaFiles.FinishDelete | ostool-server/src/ota.rs:183-193 | Only the deleted image can leave the catalog, and it stays only with both its files. |
| OtaAnswers.QueueRefusals | ostool-server/src/ota.rs:208-250 | Queueing is refused for the first of these reasons that there is: a catalog that is busy, no such image, an assignment under way, an unconfirmed trial, an image that is active already, jobs that cannot be written. |
| OtaAnswers.ReportRefusals | ostool-server/src/ota.rs:478-528 | A report of a loader is refused for the first of these reasons: no assignment, another one, a device that was not observed, another boot or no upgrade state, a phase that loaders do not report, an assignment that finished otherwise, a phase that cannot follow, a success without the trial, jobs that cannot be written. |
| OtaAnswers.FailureRefusals | ostool-server/src/ota.rs:556-582 | A failure of delivery is refused for the first of these reasons: another boot, no assignment, another one, one that is staged already, jobs that cannot be written. |
| OtaAnswers.UploadMeans | ostool-server/src/ota.rs:153-166 | Whatever its two file operations do, an upload leaves the catalog free, and the image in it exactly if both succeeded. |
| OtaAnswers.DeletionMeans | ostool-server/src/ota.rs:168-193 | Whatever its file operations do, a deletion leaves a needed image as it is; otherwise it leaves the catalog free, and the image in it exactly if both files are still there and can be read. |
| OtaService.OtaFiles.LoseCaller | ostool-server/src/ota.rs:183-188 | A caller that goes away frees the catalog; the images stay secure exactly if this was not harmful. |
| AdminEvents.ExactlyCurrent | ostool-server/src/admin_events.rs:128-151 | In every interleaving of publications, deliveries and reconnections from an empty queue, a client with nothing left to deliver holds the present projection, if and only if its starting cursor is unreadable, of another epoch, or not ahead of the present and, if the log covers it, the later updates complete what the client holds. |
| AdminEvents.ClientsFollow | ostool-server/src/admin_events.rs:209-232 | A client that starts without a cursor of this epoch, replaces on snapshots and merges on updates, holds exactly the projection as it was at its cursor, through any publications, deliveries and reconnections. |
| AdminEvents.EmptyWhenCurrent | ostool-server/src/admin_events.rs:128-151 | Once initialised, nothing comes after a cursor if and only if the cursor is current, however much of the log was trimmed. |
| AdminEvents.AfterAnswers | ostool-server/src/admin_events.rs:128-151 | What comes after a cursor is the rest of everything ever published, or one snapshot of the present. |
| AdminEvents.PublishKeepsLog | ostool-server/src/admin_events.rs:104-127 | The bounded log stays the last 256 updates ever published, numbered without gaps, and the data what they all add up to. |
| AdminEvents.DataIsPublished | ostool-server/src/admin_events.rs:104-127 | In every run the projection has, of each topic, what was last published. |
| AdminEvents.CoversExactly | ostool-server/src/admin_events.rs:128-144 | The rest of the log is handed out exactly for a cursor of this epoch that missed 256 updates at most, and a snapshot for any other. |
| AdminEvents.IdleIsCurrent | ostool-server/src/admin_events.rs:223-231 | A subscriber that finds nothing to deliver holds the present projection. |
| AdminEvents.CursorReads | ostool-server/src/admin_events.rs:214-215 | An issued cursor is understood again, whatever colons its epoch holds. |
| AdminEvents.CursorMeans | ostool-server/src/admin_events.rs:130-133 | A text is understood as a cursor exactly if it is an epoch, a colon, and a decimal number of 64 bits, with or without a plus sign. |
| AdminEvents.ForgedCursor | ostool-server/src/admin_events.rs:130-139 | A cursor any number of revisions ahead of the present is taken for current once the projection gets there, whatever the client holds. |
| AdminEvents.Hub.PublishValues | ostool-server/src/admin_events.rs:104-127 | The values are merged into the data. The revision grows by one exactly on the first call or if a value differs from the data, and then one update tells exactly the topics that differ, with their values; otherwise nothing happens. The log is trimmed to 256. |
| AdminEvents.Hub.UpdatesAfter | ostool-server/src/admin_events.rs:128-151 | The loop over the log gives the rest of everything published, or a snapshot. |
| AdminEvents.Subscription.Poll | ostool-server/src/admin_events.rs:209-232 | An event is delivered exactly if one is queued, and moves the cursor to it as its client takes it in; a client that follows the hub goes on following it, and holds the present data if nothing is left. |
| AdminEvents.Serve | ostool-server/src/admin_events.rs:195-232 | A new hub and client, put through any publications, rounds and reconnections: the client always holds the projection as it was at its cursor, and the hub what was last published of each topic. |
| BoardRuns.LeasesAreExclusive | ostool-server/src/state.rs:247-301 | In every run a board is leased exactly when it names a session, that session holds exactly this board (registered, about to be, or lost when its creation was cancelled), and nobody else does. |
| BoardRuns.OneJobPerSession | ostool-server/src/session.rs:345-376 | In every run a session has at most one release job, and owns its board until that job is done. |
| BoardRuns.IdleIsEarned | ostool-server/src/state.rs:670-780 | In every run a leased board only returns to idle when its session's tasks were seen stopped, its power went off, it settled after both and its files were cleaned up, whatever failed and was retried in between. |
| BoardRuns.ExactlyStranded | ostool-server/src/state.rs:641-649 | In every run, a leased board is leased to its session in every continuation if and only if this session is stranded: lost because its creation was cancelled, or registered with its task finished and no release job because that could not be enqueued. |
| BoardRuns.CanBeFreed | ostool-server/src/state.rs:665-780 | Every other session can be released from wherever it is, being created, waiting, stopping, or in a release job at any stage that has failed at anything before: some continuation makes its board idle. |
| BoardRuns.LostInARun | ostool-server/src/state.rs:286-299 | A run that loses a session: its creation is cancelled between the claim of the board and the registration. |
| BoardRuns.RejectedInARun | ostool-server/src/session.rs:368-373 | A run that strands a session otherwise: its release is not enqueued, which is only logged. |
| BoardRuns.RunRecorded | ostool-server/src/state.rs:681-743 | A job's four flags are what the run has achieved for its session, each once, settling after the tasks and the power. |
| BoardRuns.StepsMakeAPass | ostool-server/src/state.rs:665-780 | The steps of a pass, when nothing comes between them, do to the boards and the job what one pass of the release job does, errors on the board included. |
| BoardRuns.RunKeeps | ostool-server/src/state.rs:544-639 | The invariant that ties boards, sessions, objects and jobs to each other holds after every run. |
| BoardRuns.CompleteWorks | ostool-server/src/state.rs:591-617 | In every reachable state a job that completes finds its board and its session. |
| BoardLease.GoodPassFrees | ostool-server/src/state.rs:746-759 | A pass in which nothing still to do fails gives the board and the session back. |
| BoardLease.FailedPassKeeps | ostool-server/src/state.rs:761-779 | A pass in which something fails keeps the board with its session, records why each step failed, and leaves only the failed steps to do. |
| BoardLease.FruitlessPass | ostool-server/src/state.rs:746-779 | A pass in which nothing fails, for a board that is not the session's or a session that is gone, frees nothing, and says so on a board that is the session's. |
| BoardRuns.Drive | ostool-server/src/state.rs:533-639 | The server's board states, put through any steps, are those of the run of these steps, each board leased exactly to the one session that has it. |
| BoardLease.AppState.ClaimBoard | ostool-server/src/state.rs:544-559 | Exactly an idle, known board is claimed, and then exactly one more board has an owner. |
| BoardLease.AppState.TransitionToReleasing | ostool-server/src/state.rs:561-589 | Works exactly for the owner of a board without an error, again and again; nobody gains or loses a board. |
| BoardLease.AppState.CompleteRelease | ostool-server/src/state.rs:591-617 | Exactly for the board's own registered session the board becomes free and the session is forgotten, together; nobody else loses a board, and otherwise nothing changes. |
| BoardLease.AppState.MarkBoardError | ostool-server/src/state.rs:619-639 | Exactly the board's own session marks it; it stays that session's, and nobody can claim it. |
| BoardLease.AppState.SyncRuntimes | ostool-server/src/state.rs:533-542 | Exactly the configured boards are known; they keep their state, and new ones can be claimed. |
| BoardLease.SessionState.BeginRelease | ostool-server/src/session.rs:219-228 | Exactly one caller begins the release. |
| BoardLease.SessionState.RequestStop | ostool-server/src/session.rs:238-254 | The stop command is sent at most once, and never after the release began. |
| BoardLease.ReleaseJob.RunPass | ostool-server/src/state.rs:686-779 | One pass of the retry loop has the specified effect on flags, board and session. |
| Ymodem.Sender.Send | uboot-shell/src/ymodem.rs:62-98 | Sending in CRC mode succeeds exactly if every block was acknowledged and another batch is asked for, and gives up only on a block that was refused ten times or on the end mark. If it succeeds, the receiver has received exactly the file under its name if and only if the name holds no NUL, and the sender was a new one; the i-th block carries i modulo 256, and each is sent identically until it is acknowledged. |
| Ymodem.Sender.SendBlock | uboot-shell/src/ymodem.rs:131-182 | A block is repeated unchanged until it is acknowledged, at most ten times, and the number advances only then. |
| YmodemProtocol.ReceivedName | uboot-shell/src/ymodem.rs:124-127 | A receiver never takes a name with a NUL in it. |
| Ymodem.Sender.WaitAck | uboot-shell/src/ymodem.rs:100-115 | Reads up to the first acknowledgement or refusal. |
| Ymodem.Sender.Attempt | uboot-shell/src/ymodem.rs:152-166 | Each transmission is one well-formed block with the remainder of its data as checksum. |
| Ymodem.Sender.SendContents | uboot-shell/src/ymodem.rs:78-89 | The file goes out in chunks of 1024 bytes, numbered on from the header. |
| YmodemProtocol.ReceivedFile | uboot-shell/src/ymodem.rs:117-129 | A receiver that took the header and the chunks of a file, and closed, has received that file. |
| YmodemProtocol.BlockIsUnique | uboot-shell/src/ymodem.rs:148-163 | Number and data determine a block completely. |
| YmodemChecksum.BlockChecksum | uboot-shell/src/ymodem.rs:158-163 | The two appended bytes are the remainder of the data as a polynomial. |
| Crc16.Crc16Ccitt | uboot-shell/src/crc.rs:51-56 | The loop computes the byte-wise checksum that the properties are about. |
| CrcProperties.CrcIsRemainder | uboot-shell/src/crc.rs:7-56 | For every buffer and initial value the table-driven checksum is the remainder of long division by x^16+x^12+x^5+1. |
| CrcTable.TableEntry | uboot-shell/src/crc.rs:7-30 | Each of the 256 entries is eight shifts of its index through the divider. |
| CrcProperties.CrcComposes | uboot-shell/src/crc.rs:51-56 | Continuing from the checksum of a first part is the checksum of the whole. |
| CrcProperties.CrcClosesFrame | uboot-shell/src/ymodem.rs:158-163 | A buffer followed by two bytes has checksum zero if and only if they are its checksum, high byte first. |
| CrcProperties.BurstDetected | uboot-shell/src/crc.rs:51-56 | Any change confined to two adjacent bytes changes the checksum. |
| CrcDivision.RegisterIsLongDivision | uboot-shell/src/crc.rs:4-6 | Feeding bits through the 16-bit register is long division. |
| LoaderRuns.CurrentIsUnsuperseded | ostool-server/src/loader.rs:273-360 | In every poll-only run, with clock readings in any order, among a device's registrations that ever polled exactly its current one is not superseded. |
| LoaderRuns.PruneConsistent | ostool-server/src/loader.rs:472-497 | Pruning keeps that, and never drops a current registration before its device. |
| LoaderRuns.IssueTimesAdvance | ostool-server/src/loader.rs:315-341 | While a device's record survives, the issue time of its current registration never goes back. |
| LoaderRuns.SupersededForever | ostool-server/src/loader.rs:302-341 | In every run with announcements, boot epochs apart from registration ids, a superseded registration never becomes current again. |
| LoaderService.Drive | ostool-server/src/loader.rs:61-72 | The registry object, put through any requests, ends where their run ends: currents unsuperseded with polls only, and nothing superseded ever current again. |
| LoaderService.Loaders.HandlePoll | ostool-server/src/loader.rs:273-360 | Answered exactly for a registration known after pruning. It is seen; unless it was superseded or is not newer than the one that speaks for the device, it speaks for it from now on and supersedes that one, and otherwise it is superseded itself; it is answered without conflict exactly if it speaks and no superseded registration of the device reported in the last ten seconds. Other devices only age. Each reason for a rejection is given exactly when it applies; that a registration expired never is, since pruning makes it unknown first. |
| LoaderAnswers.PollExactly | ostool-server/src/loader.rs:273-360 | The whole registry after a poll: every registration's last report and supersession, and the device's record. |
| LoaderService.Loaders.HandleStatus | ostool-server/src/loader.rs:362-420 | Accepted exactly from the registration that speaks for a device without a conflict; both are then seen at the same time. A superseded one that reports is seen and puts the device in conflict; any other report leaves no trace, and other devices only age. Each reason for a rejection is given exactly when it applies. |
| LoaderService.Loaders.HandleAnnouncement | ostool-server/src/loader.rs:90-140 | A conflict is answered exactly while a record of the device from elsewhere, or one in conflict, is less than ten seconds old, and keeps that record; otherwise this boot replaces it. |
| LoaderService.Loaders.TouchDevice | ostool-server/src/loader.rs:142-151 | The announcing boot at its own address keeps its record for a day; nobody else does, and nothing else changes. |
| LoaderService.Loaders.OfferRegistration | ostool-server/src/loader.rs:239-271 | A new registration is known for exactly thirty seconds unless it is used; no device changes its registration. |
| LoaderService.Loaders.PruneOld | ostool-server/src/loader.rs:472-497 | In whatever order devices come, exactly what was not used within thirty seconds or not heard of for a day goes, and a device is in conflict exactly if a superseded registration of it still reports, or an announced conflict is less than ten seconds old. |
| LoaderAnswers.PruneMeans | ostool-server/src/loader.rs:472-512 | The same of the function, with all times. |
| EchoCommand.SendEchoedCommand | uboot-shell/src/lib.rs:234-287 | Against a console with one input slot that echoes each byte it accepts, with any complete control sequences around the echoes, sending fails only if an echo does not come in time or writing fails; and a successful send lost no byte, and the console's line at the newline is exactly the command. |
| EchoCommand.AwaitEcho | uboot-shell/src/lib.rs:243-273 | It fails exactly if a byte or the echo does not come in time. While the host waits, either the byte is still in the slot or its echo is the one visible byte to come. |
| EchoCommand.RunCommand | uboot-shell/src/lib.rs:339-366 | Over up to three attempts, whatever is late, lost or refused, every line that the console runs for a command is exactly the command with the success suffix, except that one that the first attempt ended continues what the editor held before; success means that one was run and the editor is empty, and a command with control bytes is refused before anything is sent. It fails only after three failed attempts, or if no prompt comes after an interrupt. |
| EchoCommand.Resynchronize | uboot-shell/src/lib.rs:288-305 | After a failed attempt a prompt is only seen if the editor is empty, or will be after the newline or interrupt it has yet to process, even if the interrupt was lost. |
| EchoCommand.Attempt | uboot-shell/src/lib.rs:307-334 | One attempt sends at most one line: what the editor held, and the command. |
| EchoCommand.FormattingInvisible | uboot-shell/src/lib.rs:255-268 | Complete control sequences are skipped entirely and leave the host's two flags clear. |

## Left out

- AdminEvents.Hub.PublishValues: does not model the set of dirty topics and the projector that collects their values; a publication is any map of values.
- OtaService.OtaFiles.DecideNow: keeps jobs and observations in memory; what the two files hold after a failed write, and reading them back at start, is not modelled.
- OtaService.OtaFiles.FinishDelete: files change only through the store; a path that exists without being a file is outside tampering. Both files are looked at in the step that updates the catalog, not shortly before it.
- BoardRuns.ExactlyStranded: a release that is not enqueued is a step that may happen at any time; why the coordinator ended is not modelled, and panicking tasks are not either.
- BoardLease.AppState.SyncRuntimes: in runs it only happens when every leased board stays configured, because the routes that call it check this and are not part of this model.
- BoardLease.ReleaseJob.RunPass: one pass only; that the retry loop ends is not claimed, because a step may fail for ever. The three quick attempts inside a step are one attempt here.
- Ymodem.Sender.Send: CRC mode only, since the code sends no checksum byte in checksum mode; reads fill 1024 bytes except the last, the header fits one block, and no start character follows its acknowledgement.
- EchoCommand.SendEchoedCommand: the console prints nothing but echoes and complete control sequences while a command is sent.
- EchoCommand.RunCommand: prompts only come after a newline or an interrupt, and a console that is silent for 300 ms has processed what it received; the reply is not parsed, so whether it ends in the success text may be either. What a command that failed for the third time leaves in the editor is what the next one continues.
- FitRoundTrip.BuildFit: component data is any bytes, so compressing it beforehand is not modelled; lengths whose 32-bit sums would overflow wrap around, as in a release build.
- SerialDiscovery.Discovery.HandleCommand: the counter of tokens does not overflow, and the published counts of binds, candidates and leases are not modelled.
- SerialSystem.LeasesAreDeserved: says nothing about line parameters, since what is expected may change between the scan's check and the event; panicking tasks and shutdown are not modelled either.
- SerialHandOver.SerialLease.PollRead: a read that is still pending changes nothing and is not a step; writing to a lease is not modelled.
- LoaderRuns.SupersededForever: the lookup for devices that report upgrades through the old protocol and the timer that announces deadlines only read the registry and are not modelled.
- Board allocation, power keys, configuration of boards, sockets, HTTP, terminals, processes and user interfaces.
- Granting and revoking a serial binding on the loader's side: three short branches.
