# TSscatterfix, verified

TSscatterfix repairs damaged MPEG transport streams and recovers still images from them. This project models
its library in Dafny and proves what its parts promise. `dafny verify dfyconfig.toml` checks everything.

The model has four parts.

- **Repair pipeline** (`src/scatterfix.c`, `src/repair.c`, `src/psi.c`, `src/ts_packet.c`, `src/continuity.c`).
  `TsPacket`, `Crc`, `Psi`, `Continuity`, `Timestamps`, `Framing` and `Pipeline` say what each step does to the state.
  `InPlace`, `PsiContext` and `Scatterfix` are the program's own form: classes whose methods rewrite the packet buffer
  and the tables in place, each proved to leave the state those functions tell. `PipelineSafety`, `PipelineClocks`,
  `RepairRuns`, `RepairActions` and `RepairCounts` prove what holds of the whole output and of the statistics on every
  run, `ContinuityRecords` what the continuity checker reports; `SmoothingEffect`, `RepairFates` and
  `RepairInjections` say what exactly is written for each packet, told from the packet and the output so far;
  `NoisyStream` that packets are found whatever noise is between them; `PacketCodec`, `PsiListing` and `SdtListing`
  that the parsers read back what a multiplexer wrote; `TablePackets` and `RepairLimits` where the library falls short.
- **Image recovery** (`src/recovery.c`). `AnnexB`, `RankModel` and `RecoverySpec` are the state machine,
  `RecoveryInPlace` and `Recovery` the imperative engine that refines it. `RecoveryInvariants`, `RecoveryRuns`,
  `RecoveryPreview`, `RecoveryLooks`, `RecoveryMarks`, `RecoveryShowings`, `RecoveryAccounts`, `RecoveryLoss`,
  `RecoveryLossRuns`, `RecoveryRanking`, `RecoveryStreams` and `RecoveryCleanRuns` prove invariants, non-interference
  of previews, byte and loss accounting, ranking, voting, how often a unit is shown, and the Annex B round trips up to
  the streams the host is shown; `RecoverySelection`, `RecoveryUnits`, `RecoveryFeatures` and `RecoveryImages` which
  stream is followed, what its packets gather to and count for, and which of the streams shown become images;
  `RecoveryLimits` and `RecoveryReplays` hold inputs on which a preview interferes.
- **Files** (`tools/model.c`, `src/rank_model.c`). `Csv` holds the CSV writer and reader and their round trip,
  `CsvText` which texts the reader takes and for what table; `ModelFile` and `ModelLoader` the JSON reader,
  `ModelWriter` the writer, `ModelDocument` what a document means and that the reader loads exactly that, `ModelText`
  that it loads nothing else.
- **Fragment ring and busiest PIDs** (`src/contest.c`): `Contest`.

What the program asks of its surroundings is a parameter: the clock and the answers of the write callback
(`Pipeline.World`); the candidate and feature callbacks, the decoder and the entropy of a payload
(`RecoverySpec.World`); reading and printing of numbers by the C library (`ModelFiles.Numbers`). The theorems hold for
all their answers. What callbacks are shown is recorded in ghost lists, which start afresh at a reset.

Where the code does not do what one might expect, the model follows the code, and lemmas give the exact condition and
an input:

- the continuity checker counts a gap of up to seven lost packets as one packet more (`Continuity.LossMiscounted`),
  while the recovery engine counts it exactly (`RecoveryLoss.ExactLoss`, `RecoveryLossRuns.RunExactLoss`);
- `sanitize` without cleaning mode puts filler packets into the total of repair actions that no single counter holds
  (`RepairActions.RunExplained`, `TotalAddsUp`, `TotalExceeds`);
- a new PAT may change the PMT PID while the PMT cached under the old PID stays, so a replacement PMT may come out on an
  earlier PID (`RepairLimits.StandInPid`, `StraysExactly`, `MovedPmtStrays`), where cleaning mode filters it out unless
  that PID is listed for something else (`StrayFiltered`);
- an SDT with a malformed tail may set the service names and still be refused (`RepairLimits.RefusedNames`,
  `BrokenListNames`, `BrokenSdtNames`);
- tables injected while the clock shows zero count as not injected (`RepairInjections.RunSpaced`);
- without `sanitize` and cleaning mode a table packet with its error flag set can be cached, so the promise about the
  error flag is made for those modes only (`RepairLimits.ErrorsCached`, `CacheCleanExactlyWhenStrict`,
  `ErrorsReachCache`);
- a preview may cache a parameter set whose end has not arrived, so previews do not leave the header cache alone
  (`RecoveryLooks.PreviewKeepsHeaders`, `RecoveryLimits.LookCachesCutHeader`); `RecoveryPreview.PreviewsDoNotInterfere`
  says what they do leave alone;
- an access unit shown by a look before it is closed is shown again when it closes, although the parameter sets are the
  same (`RecoveryMarks.FinishShowsAnew`, `RecoveryReplays.OpenUnitShownTwice`); a unit no look has met open is shown at
  most once for the same parameter sets (`RecoveryShowings.RunShowsOnce`, `WithoutLooksShownOnce`).

## Model

| member | source | states |
|---|---|---|
| Crc.MpegCrc32 | src/psi.c:10-19 | The bit loop computes the checksum register, 32 bits held as booleans, that the lemmas below are about. |
| Crc.SectionCheck | src/psi.c:10-19 | A section of at least four bytes has checksum zero exactly when its last four bytes are the big-endian checksum of the rest (ISO/IEC 13818-1, Annex A). |
| Crc.BurstDetected | src/psi.c:10-19 | Any change confined to four consecutive bytes of a section with checksum zero makes the checksum non-zero, for every section and every place. |
| Crc.CrcKeepsDifference | src/psi.c:10-19 | Two registers that differ still differ after any common bytes: no later data hides an error. |
| Crc.SealChecks | src/psi.c:10-19 | Of all four-byte tails exactly one, the packed checksum of the body, makes a section check. |
| Crc.GeneratorShows | src/psi.c:10-19 | A single one bit fed to a register of zeros leaves the generator polynomial of ISO/IEC 13818-1, term by term. |
| Crc.StartsAllOnes | src/psi.c:11 | The register starts as all ones. |
| TsPackets.ParseFromHeader | src/ts_packet.c:3-52 | Everything but the clock reference is decided by the first six bytes of a packet. |
| TsPackets.ParseWithCc | src/ts_packet.c:3-52 | Rewriting the counter nibble changes the decoded counter and no other field, and never makes a packet undecodable. |
| TsPackets.NullPacket | src/scatterfix.c:31-39 | The filler packet decodes, on PID 0x1fff, with error flag, unit start and clock reference clear. |
| PacketCodecs.PacketDecodes | src/ts_packet.c:3-52 | A packet written with any flags, PID, scrambling, counter, adaptation field, clock reference and payload decodes to exactly these, the place of the payload included. |
| PacketCodecs.EveryPacketWritten | src/ts_packet.c:3-52 | Every packet that decodes is one so written, so that statement covers all of them. |
| PacketCodecs.RefusedPackets | src/ts_packet.c:7-36 | A packet is refused exactly for its sync byte, for having neither adaptation field nor payload, and for an adaptation field longer than 183 bytes. |
| PacketCodecs.SectionFound | src/psi.c:83-106 | A section written into a payload, behind a pointer and what it skips when a unit starts, is found there whole. |
| PacketCodecs.FoundSection | src/psi.c:83-106 | Whatever section is found was written so. |
| PsiContexts.PsiContext.constructor | src/psi.c:21-26 | A new context knows no table. |
| PsiContexts.PsiContext.Init | src/psi.c:21-26 | Resets the context to that state. |
| PsiContexts.PsiContext.ParsePat | src/psi.c:108-142 | Field by field what a PAT section changes, the cached packet included, and that a refused one changes nothing. |
| PsiContexts.PsiContext.TakeDescriptor | src/psi.c:178-199 | What one descriptor of an SDT does to the service names. |
| PsiContexts.PsiContext.ParseSdt | src/psi.c:160-214 | What an SDT section changes; a malformed tail leaves the names already taken but neither flag nor cache. |
| PsiContexts.PsiContext.TakeStreams | src/psi.c:240-252 | The elementary stream loop gathers the video and audio lists, 32 entries at most each. |
| PsiContexts.PsiContext.ParsePmt | src/psi.c:224-265 | What a PMT section changes, and that a refused one changes nothing. |
| PsiContexts.PsiContext.Observe | src/psi.c:267-280 | Which parser an observed packet reaches and the state it leaves. |
| PsiContexts.PsiContext.HasValidSection | src/psi.c:290-306 | Decides whether a packet carries a whole section of the kind its PID calls for, checksum included. |
| PsiListings.PmtListing | src/psi.c:224-265 | A valid PMT whose loop lists some streams leaves exactly those of video and of audio types, in order, the first 32 of each, whatever the reserved bits and descriptors, a last entry that announces more descriptors than follow and a rest too short for an entry included; it sets the PID of the clock reference, is noted and cached, and changes nothing else. |
| PsiListings.EverySectionLists | src/psi.c:232-252 | Every stream loop is such a list, so that statement covers every PMT. |
| PsiListings.ProgramsRead | src/psi.c:114-127 | Of the programs a PAT lists the parser takes the first that is not the network entry, number and PID, whatever the reserved bits, and none if there is none. |
| PsiListings.PatListing | src/psi.c:108-142 | A valid PAT that lists some programs leaves number and PMT PID of that program, is noted and cached, and changes nothing else; it changes nothing at all if there is none or its PID is the null PID. |
| PsiListings.TableIds | src/psi.c:290-306 | What makes a section a table of its PID: table id, least length and a checksum of zero. |
| SdtListings.SdtListing | src/psi.c:160-214 | A checked SDT that lists some services leaves the names its service descriptors give, up to the break if its loop breaks off; it is noted and cached exactly when the loop does not, whatever flags, reserved bits, other descriptors and bytes too few for another entry. |
| SdtListings.EverySdtLists | src/psi.c:169-203 | Every service loop is such a list, broken off or not, so that statement covers every SDT. |
| SdtListings.RenamedLast | src/psi.c:186-197 | Of the descriptors behind the first one that names a service only those of the same service count, and the last of them wins. |
| SdtListings.NameShown | src/psi.c:144-158 | Names are shown without the byte that selects a character table, with question marks for all but printable ASCII, cut to 255 bytes. |
| PsiTables.ObserveKeepsCacheValid | src/psi.c:267-280 | Whatever is observed, each cached packet still carries a section of its own kind with checksum zero. |
| PsiTables.ObserveKeepsCacheErrorFree | src/psi.c:267-280 | As long as observed packets have the error flag clear, so has every cached packet. |
| PsiTables.ObserveKeepsRole | src/psi.c:267-280 | Observing a packet changes neither whether its PID carries tables nor the verdict on its section. |
| PsiTables.SectionSurvives | src/psi.c:83-106 | A packet that differs in front of its payload only, and in nothing decoded but counter and clock reference, keeps its section. |
| Timestamps.PtsRoundTrip | src/scatterfix.c:161-176 | Writing a 33-bit time stamp and reading it back gives the value modulo 2^33, in any packet at any place. |
| Timestamps.PtsFrame | src/scatterfix.c:169-176 | Writing it sets the three marker bits, keeps the four bits in front and leaves every other byte alone. |
| Timestamps.PcrRoundTrip | src/scatterfix.c:186-194 | A written clock reference decodes as the value modulo 2^33, and no other byte changes. |
| Timestamps.DeltaIsModular | src/scatterfix.c:178-184 | The signed distance of two stamps depends on their residues modulo 2^33 only. |
| Timestamps.SmoothKeepsHeader | src/scatterfix.c:196-276 | Smoothing changes neither the header nor anything decoded from it but the clock reference. |
| Timestamps.OutputPaced | src/scatterfix.c:196-276 | For every sequence of packets, consecutive PTS values of the smoothed video packets, and likewise PCR bases, advance modulo 2^33 by 3600 to 93600 ticks. |
| Timestamps.SmoothingIdempotent | src/scatterfix.c:196-276 | Running the output through a fresh smoother changes no byte, PTS, DTS and PCR included, from whatever state the first run began. |
| SmoothingEffects.StampLayout | src/scatterfix.c:161-167 | Five bytes with any front and marker bits hold the 33-bit number between them, most significant bits first. |
| SmoothingEffects.RunMends | src/scatterfix.c:196-276 | Along every stream of packets, told from the stamps that went out before: a PTS, and likewise a clock reference, 3600 to 93600 ticks after the last one out stays and any other continues it by 3600; a DTS stays exactly when the PTS does and lies within 90000 ticks of it, and otherwise reads back as the outgoing PTS modulo 2^33; no other byte changes, and packets of other PIDs go out as they are. |
| SmoothingEffects.InPlaceUntouched | src/scatterfix.c:196-276 | A packet whose stamps are all in place, its DTS near, goes out byte for byte. |
| InPlace.MakeNullPacket | src/scatterfix.c:31-39 | Fills the buffer with the filler packet. |
| InPlace.CopyPacket | src/scatterfix.c:91 | Copies a cached packet into the buffer. |
| InPlace.SetCc | src/scatterfix.c:92 | Rewrites the counter nibble and nothing else. |
| InPlace.RewritePsiCc | src/scatterfix.c:115-134 | New counter table and new packet bytes of the table rewriter. |
| InPlace.RewriteVideoCc | src/scatterfix.c:136-159 | New counter table, new packet bytes and whether the counter changed, for the video rewriter. |
| InPlace.TimestampRepair.SmoothPcr | src/scatterfix.c:206-230 | The clock reference is kept or replaced in the buffer, and the state advances. |
| InPlace.TimestampRepair.StampPts | src/scatterfix.c:245-268 | The PTS is kept or replaced in the buffer, and the state advances. |
| InPlace.TimestampRepair.SmoothDts | src/scatterfix.c:269-275 | A DTS too far from the PTS is replaced by it. |
| InPlace.TimestampRepair.SmoothPts | src/scatterfix.c:232-275 | The PES part of the smoother on the buffer. |
| InPlace.TimestampRepair.Smooth | src/scatterfix.c:196-276 | The whole smoother on the buffer and its state. |
| InPlace.ContinuityContext.Observe | src/continuity.c:11-77 | New record of the PID and new counters of the stream; all other PIDs untouched. |
| Continuity.LossMiscounted | src/continuity.c:57-61 | After any number of lost packets this checker counts one more than the number modulo 16 if that is 1 to 7, and none otherwise; it is right exactly when nothing was lost. |
| Continuity.ConsecutiveAccepted | src/continuity.c:11-77 | On a PID whose payload packets count consecutively the checker finds no error exactly when every discontinuity announced without payload names the counter before the next one. |
| Continuity.NoStraysFit | src/continuity.c:19-28 | Without such announcements that condition holds. |
| ContinuityRecords.RecordsTell | src/continuity.c:11-77 | For every stream the record of every PID and the totals over all PIDs are told from the counters alone: a repeated counter is a duplicate, a step of 2 to 8 counts as that many missing packets, one of 9 to 15 as out of order, each of them as one error; an announced discontinuity gives a new base; packets without payload and null packets count for nothing. |
| Framing.FrameConserves | src/scatterfix.c:421-443 | Every byte of a stream lies in exactly one place: a packet, a skipped run or the unfinished tail. |
| Framing.AlignedStream | src/scatterfix.c:421-443 | A stream of whole packets is framed into exactly those packets. |
| NoisyStreams.NoisyFramed | src/scatterfix.c:421-443 | Of packets with noise free of sync bytes between them the framer finds exactly the packets, skips exactly the noise, counts each noisy place once and keeps the beginning of a packet at the end. |
| NoisyStreams.EveryStreamNoisy | src/scatterfix.c:421-443 | Every stream is such a stream. |
| Framing.ChunkingIrrelevant | src/scatterfix.c:421-443 | However the input is cut into calls, the final state is that of feeding it at once, output and failures included. |
| Framing.FeedIsFrame | src/scatterfix.c:421-443 | The byte-fed machine does what framing the whole input and handling its packets in order does: same state, one resync per skipped run, one count per skipped byte. |
| PipelineSafety.AdmitScreens | src/scatterfix.c:315-372 | With a sound cache neither of the two checks after a replacement ever drops a packet; what passes decodes, has its error flag clear where damaged packets are replaced, and carries a sound table on a table PID in cleaning mode. |
| PipelineSafety.RewriteKeeps | src/scatterfix.c:394-406 | The rewriters keep a packet decodable, error-free and on its PID, and keep its section, also on a table PID that is listed as video. |
| PipelineSafety.SmoothKeepsTables | src/scatterfix.c:196-276 | Smoothing leaves every sound table alone: the clock reference lies in front of the payload, and a payload that opens with a PES start code holds no section that fits. |
| PipelineSafety.ProcessSafe | src/scatterfix.c:314-419 | One packet keeps the cache invariant and the promise about every packet written; packets written minus tables injected grows by one on success. |
| PipelineClocks.ProcessTimes | src/scatterfix.c:402-404 | One packet keeps the written video packets equal to the output of the smoother. |
| PipelineClocks.ProcessCounters | src/scatterfix.c:394-401 | One packet keeps the counters of a PID running on over all packets written while its rewriter was in charge of it, and the rewriter's table in step with them. |
| RepairRuns.RunSafe | src/scatterfix.c:314-453 | In every state reachable by feeds, finishes and resets each packet written since the last reset, injected ones included, decodes with its error flag clear when damaged packets are replaced; in cleaning mode it carries a sound table on every table PID, and unless injected is on a PID the tables allow at that moment. |
| RepairRuns.RunNeverLoses | src/scatterfix.c:343-371 | On no run is a packet lost to the two checks after a replacement. |
| RepairRuns.RunBalanced | src/scatterfix.c:314-419 | On every run without a failed call, resets included, packets written equal packets read plus tables injected. |
| RepairRuns.AcceptingNeverFails | src/scatterfix.c:408-418 | If the callback never refuses, or in a dry run, no call fails. |
| RepairRuns.RunAccounts | src/scatterfix.c:421-453 | On every run without a failed call, bytes fed equal 188 per packet read plus bytes dropped plus bytes pending plus the unfinished bytes given up at resets. |
| RepairRuns.RunPaced | src/scatterfix.c:314-419 | On every run the stamps of the written video packets advance by 3600 to 93600 ticks modulo 2^33, and smoothing them again changes nothing. |
| RepairRuns.RunCounters | src/scatterfix.c:394-401 | On every run, whatever was written on the PID before or in between: of the payload packets written while a rewriter was in charge of a PID the k-th carries the first counter plus k modulo 16, from zero on a table PID. On a table PID listed as video as well, a packet takes its turn and may carry the video counter. |
| RepairRuns.TableCounters | src/scatterfix.c:394-401 | On every run in cleaning mode the payload packets written on PID 0, and likewise on the SDT's PID, injected copies aside, carry 0, 1, 2, ... modulo 16, unless a PMT lists that PID as video while video counters are smoothed. |
| RepairRuns.OutputAccepted | src/continuity.c:11-77 | The continuity checker run against any stretch of the output, injected tables included, on which a rewriter had the last word on a PID and no table was injected on it (always so with injection off) finds no error there exactly when every announced discontinuity without payload fits. |
| RepairRuns.PassthroughIdentity | src/scatterfix.c:314-419 | In passthrough the output is exactly the packets of the input, and after a refusal a prefix of them. |
| RepairFates.AdmitsExactly | src/scatterfix.c:315-372 | From a sound cache admission does exactly this: an undecodable packet becomes filler where damaged packets are replaced and goes out as it is elsewhere; a marked one becomes the cached table of its PID, or filler, or passes; a table packet without a sound section becomes the cached table under its own counter, or filler, in cleaning mode; every other packet passes as it is. |
| RepairFates.ProcessFate | src/scatterfix.c:314-419 | The packet written for an input packet, exactly: what admission makes of it, made filler if its PID is not wanted, with the next counter of its PID and its stamps in place (unless the PMT lists the null PID as video). |
| RepairFates.RunFate | src/scatterfix.c:314-453 | The same in every state a run reaches, counters and stamps told from the packets written since the last reset. |
| RepairFates.GoodVideoUntouched | src/scatterfix.c:314-419 | In every such state an undamaged packet of a listed video PID whose counter is next and whose stamps are in place, its DTS near, goes out byte for byte. |
| RepairInjections.ProcessInjects | src/repair.c:74-111 | One packet: the cached PAT, PMT and SDT go out directly in front of it, in this order, exactly when it is passed on outside passthrough, the interval is not zero, one of them is cached, and either no injection has been or at least the interval has elapsed on the clock modulo 2^64; a refusal cuts this short and nothing else is written. |
| RepairInjections.RunInjects | src/repair.c:74-111 | The same in every state a run reaches, the last injection being told from the packets written since the last reset. |
| RepairInjections.RunSpaced | src/repair.c:80-82 | On every run injections since the last reset lie at least the interval apart on the clock modulo 2^64; one made while the clock showed zero counts as none. |
| RepairActions.ProcessExplained | src/scatterfix.c:314-419 | One packet counts every repair action in the total and in exactly one counter of its own, but for filler packets made by `sanitize` without cleaning mode, which count as invalid or unrepairable. |
| RepairActions.RunExplained | src/scatterfix.c:314-453 | On every run, refusals and resets included, the total of repair actions exceeds the sum of injections, cache repairs, counted filler packets and rewrites by exactly the invalid and unrepairable packets in that mode, and by nothing in any other. |
| RepairActions.TotalAddsUp | src/scatterfix.c:315-364 | The total is the sum exactly when `sanitize` is not on alone or has met neither an invalid nor an unrepairable packet. |
| RepairActions.TotalExceeds | src/scatterfix.c:317-328 | In that mode one packet that does not decode makes the total exceed the sum. |
| RepairCounts.ProcessCounts | src/scatterfix.c:314-419 | What one packet adds to each counter, whatever the callback answers: read, invalid, marked, repaired from the cache, beyond repair, bad tables, filtered PIDs, filler packets; counter, clock reference and PTS rewrites told from the output so far; and that the continuity checker sees exactly the packets passed on (unless the PMT lists the null PID as video). |
| RepairCounts.RunCounts | src/scatterfix.c:314-453 | The same in every state a run reaches. |
| RepairCounts.ProcessHands | src/repair.c:27-35 | What is counted as written is what was handed over and not refused; besides the packet itself these are the tables counted as injected; a dry run hands nothing over and never fails. |
| RepairLimits.CachedWhenAccepted | src/psi.c:108-265 | A packet replaces the cached table of its kind exactly when it passes the guards of its parser. |
| RepairLimits.ErrorsCached | src/psi.c:267-280 | From a clean cache a packet marked as damaged is cached exactly when a parser accepts it. |
| RepairLimits.ErrorsReachCache | src/scatterfix.c:340-375 | In every mode that leaves damaged packets alone one marked PAT is cached and stands in for others. |
| RepairLimits.CacheCleanExactlyWhenStrict | src/scatterfix.c:340-375 | No run caches a packet marked as damaged exactly in the modes that replace damaged packets. |
| RepairLimits.StandInPid | src/repair.c:46-55 | A cached replacement is on the PID of the packet it replaces exactly unless that is a PMT PID the PAT has moved since the PMT was cached. |
| RepairLimits.StraysExactly | src/scatterfix.c:315-372 | What admission passes is on its own PID or filler, except exactly for damaged packets on such a moved PMT PID. |
| RepairLimits.MovedPmtStrays | src/repair.c:37-72 | A run that shows it: PAT, PMT, a second PAT, and a damaged packet that comes out as the PMT on its earlier PID. |
| RepairLimits.StrayFiltered | src/scatterfix.c:50-68 | In cleaning mode such a packet is always passed on to the PID filter, which makes it filler exactly when the earlier PID is listed for nothing else, and lets it through otherwise. |
| RepairLimits.RefusedNames | src/psi.c:160-214 | A packet that is not cached changes the service names exactly when it carries a checked SDT that breaks off behind a descriptor that names a service differently. |
| RepairLimits.BrokenListNames | src/psi.c:160-214 | The same told from what the section lists: refused exactly when its service loop breaks off, and then with other names exactly when a service descriptor in front of the break gives other names. |
| RepairLimits.BrokenSdtNames | src/psi.c:160-214 | A run that shows it, in every mode: an SDT cut short names the service and is neither noted nor cached. |
| Scatterfixes.Scatterfix.constructor | src/scatterfix.c:286-296 | A new context is the initial state. |
| Scatterfixes.Scatterfix.WritePacket | src/repair.c:27-35 | What is handed to the callback, what is counted, and that a refusal counts nothing. |
| Scatterfixes.Scatterfix.WriteTables | src/repair.c:84-96 | The cached tables go out in order up to the first refusal. |
| Scatterfixes.Scatterfix.MaybeInjectPsi | src/repair.c:74-111 | Tables go out when due; the time of the injection and the counters change only if all went out. |
| Scatterfixes.Scatterfix.CachedFor | src/repair.c:46-55 | The cached table for a PID. |
| Scatterfixes.Scatterfix.ReplaceTei | src/repair.c:37-72 | The damaged packet becomes the cached table or stays, with the counters of either case. |
| Scatterfixes.Scatterfix.ReplaceBadPsi | src/scatterfix.c:69-113 | A bad table packet becomes the cached table under its own counter, or filler; a good one stays. |
| Scatterfixes.Scatterfix.Admit | src/scatterfix.c:315-372 | Verdict, packet bytes and counters up to the observers. |
| Scatterfixes.Scatterfix.Learn | src/scatterfix.c:374-375 | Continuity first, then tables; the packet stays. |
| Scatterfixes.Scatterfix.FilterPid | src/scatterfix.c:381-392 | Packets on other PIDs become filler. |
| Scatterfixes.Scatterfix.Rewrite | src/scatterfix.c:394-406 | The three rewriters in order, on one buffer, with their counters. |
| Scatterfixes.Scatterfix.Deliver | src/scatterfix.c:408-418 | Injection before the packet; the first refusal ends both. |
| Scatterfixes.Scatterfix.ProcessPacket | src/scatterfix.c:314-419 | The whole new state and the answer for one packet. |
| Scatterfixes.Scatterfix.Take | src/scatterfix.c:424-440 | One turn of the feed loop is feeding the bytes it takes one by one. |
| Scatterfixes.Scatterfix.Feed | src/scatterfix.c:421-443 | The new state is that of feeding every byte in order; the answer tells whether the context has failed. |
| Scatterfixes.Scatterfix.Finish | src/scatterfix.c:445-453 | An unfinished packet is given up and counted. |
| Scatterfixes.Scatterfix.Reset | src/scatterfix.c:298-312 | Everything but the statistics starts afresh. |
| AnnexB.SplitOfJoin | src/recovery.c:236-261 | Annex B round trip (ITU-T H.264 and H.265): splitting units joined with 3- or 4-byte start codes, bodies free of start codes and not ending in zero, visits exactly those units in order. |
| AnnexB.PlacedBytes | src/recovery.c:236-261 | Each visited unit holds exactly the bytes of the unit that was written. |
| AnnexB.UnitsCover | src/recovery.c:236-261 | Whatever the bytes, the visited units are adjacent and cover everything from the first start code on. |
| RecoveryInPlace.FindStartCode | src/recovery.c:118-126 | The scan finds the first start code and the length of its prefix. |
| RecoveryStreams.ScanJoined | src/recovery.c:236-261 | The scan of joined units keeps exactly the units a candidate is meant to keep, in order, and caches whole units only, each in the slot of its kind. |
| RecoveryStreams.ScanOfCleanPes | src/recovery.c:225-261 | The candidate of such an access unit consists of exactly its kept units, and every cached parameter set is a unit of an access unit scanned so far. |
| RecoveryFeatures.FeaturesOfCleanPes | src/recovery.c:225-263 | The features such an access unit is recorded with: bytes of all slices, whether there is a keyframe, the bytes of its first slice, which is the key slice of the candidate, the mean confidence of its packets, and the evidence of the packets as it stands. |
| RecoveryUnits.UnitGathered | src/recovery.c:300-334 | From the packet that opens an access unit on, packets of other streams in between or not, the open unit is exactly the payloads of its packets in order, or nothing once they exceed half the budget. |
| RecoveryUnits.PesHeaderSkipped | src/recovery.c:230-233 | The elementary stream is what follows the PES header and the bytes it announces. |
| RecoveryUnits.NoPesHeader | src/recovery.c:230-233 | Without a PES start code, or in a unit too short for a header, it is the whole unit; behind a header that overruns the unit it is empty. |
| RecoveryUnits.KeptTogether | src/recovery.c:265-277 | A newer keyframe leaves all older candidates in place unless there are 256 or half the budget would be exceeded. |
| RecoveryUnits.UnitsCounted | src/recovery.c:225-283 | A closed unit is counted, a preview is not; a keyframe is counted when its unit, not given up, is stored for the first time. |
| RecoveryUnits.OversizedCounted | src/recovery.c:328-333 | A unit given up for its size is counted once. |
| RecoveryStreams.EmittedSplits | src/recovery.c:158-163 | The stream emitted for a candidate that keeps certain units splits back into exactly the cached parameter sets of its codec, each of its kind and in order, followed by exactly those units. |
| RecoveryStreams.FinishStaysClean | src/recovery.c:225-283 | Closing or previewing a clean access unit keeps the cached parameter sets units of access units scanned, each candidate the kept units of the access unit of its number, and so is every stream it shows but voted ones. |
| RecoveryCleanRuns.RunStreams | src/recovery.c:336-355 | On every run whose access units since the last reset, as closed or looked at, are clean, each stream shown to the host, voted ones apart, splits into the parameter sets of its codec in order, each a unit of one of these access units, and exactly the kept units of the access unit whose number it carries. |
| RecoveryStreams.LongestHeaderWins | src/recovery.c:247-252 | After a scan a header slot holds its old content or a unit of its type, at least as long as every admissible one seen. |
| RecoveryInvariants.EvictMakesRoom | src/recovery.c:220-224 | Eviction drops oldest candidates only, keeps the byte count exact and ends with room for the newcomer in bytes and places. |
| RecoveryInvariants.EvictDropsNoMore | src/recovery.c:276 | With one candidate more there would have been no room. |
| RecoveryInvariants.KeepOk | src/recovery.c:265-277 | Taking a candidate in keeps the store bounded, exactly counted and in strictly rising access-unit order, and puts the newcomer last. |
| RecoveryInvariants.AnalyzeSafe | src/recovery.c:141-209 | Emission and voting keep the invariant whatever callbacks and decoder answer. |
| RecoveryInvariants.FinishPesSafe | src/recovery.c:225-283 | Closing or previewing an access unit keeps it. |
| RecoveryInvariants.PacketSafe | src/recovery.c:284-335 | Any packet keeps it. |
| RecoveryRuns.RunSafe | src/recovery.c:336-355 | In every state reachable by feeds, previews, finishes and resets: retained bytes are the sum of the candidate sizes and at most half the budget, so is the PES; at most 256 candidates with strictly rising access units and key slices inside their data; images since the last reset or stream change are numbered 1, 2, 3, ... with strictly rising scores and sufficient quality. |
| RecoveryRuns.RunStatus | src/recovery.c:42-59 | After every call phase, percentage, headers found and required and retained bytes tell the truth; 100 percent exactly when there is an image, 20 to 59 in proportion to the headers found while some are missing. |
| RecoveryRuns.FeedCtxChunks | src/recovery.c:336-349 | However the input of the engine is cut into calls, the final state is that of feeding it at once, as long as no call before the last fails. |
| RecoveryAccounts.PacketReceived | src/recovery.c:284-287 | A packet that is handled counts as one received, whatever it is and whatever it sets off. |
| RecoveryAccounts.RunBalanced | src/recovery.c:336-355 | On every run, previews and resets included: unless a call has failed since the last reset, bytes received since then equal 188 per packet received plus bytes discarded plus bytes pending. |
| RecoverySelection.LearnFollows | src/recovery.c:284-299 | A packet that changes the tables makes the engine follow the first H.264 or H.265 stream listed whose PID and codec the configuration asks for; another stream than before starts with nothing kept of the old one, the same one keeps everything. |
| RecoverySelection.RunFollows | src/recovery.c:284-299 | In every reachable state that stream is the one followed, as far as the tables list one. |
| RecoverySelection.ListingFollowed | src/recovery.c:284-299 | The same told from what the PMT lists. |
| RecoveryPreview.PreviewsDoNotInterfere | src/recovery.c:211-219 | Inserting previews anywhere in a run that does not fail leaves the records of the access units, their numbering, the PES, framing and continuity state as they are without, even if callbacks and decoder answer differently. |
| RecoveryPreview.PreviewKeepsCore | src/recovery.c:211-219 | One preview leaves all of that alone. |
| RecoveryLooks.LooksDrain | src/recovery.c:211-219 | Repeated `sf_recovery_analyze` without input shortens the queue of unseen candidates at each call once the open unit has been looked at. |
| RecoveryLooks.LooksFallSilent | src/recovery.c:211-219 | After the first such call and more further ones than candidates were waiting, the next shows the host nothing, whatever headers are missing. |
| RecoveryMarks.AnalyzeSettles | src/recovery.c:141-209 | Every analysis keeps the account of every access unit under every header version: its showings plus one if it waits; if a callback refuses, what was shown stays within that. |
| RecoveryMarks.FinishShowsAnew | src/recovery.c:225-283 | Exactly when the end of a unit, or a look at it, shows it or leaves it waiting, on top of all its showings under that header version so far: when it holds a keyframe and was not given up and there is a header version, or, if it is not stored, when it still waited under the headers it leaves. |
| RecoveryShowings.RunShowsOnce | src/recovery.c:336-355 | Between any two moments of a run without a reset or a change of stream, the calls that close units and changes of the parameter sets included, no access unit is shown twice under one header version but those a look of the stretch has met open; the others are shown only if open or waiting before (or under later parameter sets) and then, refusals apart, wait no more. Units closed before are met by no look. |
| RecoveryShowings.RunShowings | src/recovery.c:336-355 | The same by numbers: over such a stretch the showings of a unit under a header version grow by at most one, plus one for each look at it while it is open that ends under that version; without the first one for a version already past, and for the version in force if the unit was closed and did not wait. |
| RecoveryShowings.WithoutLooksShownOnce | src/recovery.c:336-355 | Without looks no access unit at all is shown twice under one header version. |
| RecoveryMarks.StoredAnewWaits | src/recovery.c:265-279 | A unit that is stored, again or for the first time, because it holds a keyframe and was not given up, waits to be shown exactly if there is a header version; one that is not stored waits exactly if it waited before. |
| RecoveryReplays.OpenUnitShownTwice | src/recovery.c:211-283 | A run that shows it: one packet with parameter sets and a keyframe, a look, and the end of the stream show the same stream of the same unit twice under one header version. |
| RecoveryLooks.ScanKeepsHeaders | src/recovery.c:247-252 | A scan leaves the header cache alone exactly when no unit of at most 65536 bytes is longer than its slot. |
| RecoveryLooks.PreviewKeepsHeaders | src/recovery.c:211-219 | A preview leaves the header cache alone exactly when there is nothing new to scan or the part of the access unit that has come holds no longer parameter set. |
| RecoveryLimits.LookCachesCutHeader | src/recovery.c:211-219 | Two packets that show it: with a look between them the engine ends with the parameter set and two bytes of the next start code, without with the parameter set alone. |
| RecoveryLoss.PacketTotal | src/recovery.c:317-326 | Each packet adds its own continuity evidence to the total over finished and open units and nothing else. |
| RecoveryLoss.ExactLoss | src/recovery.c:317-327 | If only bursts of at most eight packets are lost, the missing count summed over all units grows by exactly the packets lost and the error count by exactly the bursts, with or without a counter seen before. |
| RecoveryLossRuns.RunExactLoss | src/recovery.c:317-355 | The same over any stretch of a run, with looks and ends of streams anywhere in it; from a start on the totals are exactly the packets lost and the bursts. |
| RecoveryLossRuns.StartsUntouched | src/recovery.c:293-297 | Such a start is a new engine, a reset, and a change of stream. |
| RecoveryFeatures.PacketEvidence | src/recovery.c:302-327 | What one packet adds to the evidence, told from the packet, the entropy of its payload and the last counter. |
| RecoveryFeatures.SoundConfidence | src/recovery.c:302-327 | A sound packet in order inside a unit counts with a confidence of 0.90. |
| RecoveryFeatures.DamageCosts | src/recovery.c:302-316 | What an error flag, scrambling and unlikely entropy cost. |
| RecoveryFeatures.OrderCounts | src/recovery.c:313-327 | What a start of a unit is worth, and what gaps, repeats and disorder cost. |
| RecoveryFeatures.ConfidenceCounted | src/recovery.c:302-327 | What is added is that confidence cut to 0..1. |
| RecoveryRanking.OrderIsStableSort | src/recovery.c:148-153 | The order is a permutation of the candidates by falling score, earlier candidates first among equals. |
| RecoveryRanking.EmitRankedShows | src/recovery.c:154-166 | The loop shows the best unseen candidates in order, as many as allowed, and marks exactly those. |
| RecoveryRanking.PassEmitsBest | src/recovery.c:154-166 | A successful pass emits the first `max_candidates` of the candidates this header version has not seen, by falling score with stable ties, and leaves the others waiting in the same order. |
| RecoveryRanking.AnalyzePass | src/recovery.c:141-209 | The same for a whole analysis, which then, when a vote is due, shows exactly one voted stream per election, and settles the vote. |
| RecoveryRanking.PassesDrain | src/recovery.c:154-166 | Repeated analysis without input shortens the queue of unseen candidates at each pass. |
| RecoveryRanking.PassesFallSilent | src/recovery.c:154-166 | When the queue is empty a further analysis shows the host nothing. |
| RecoveryImages.EmitPictures | src/recovery.c:127-140 | Of a stream handed to the host: with decoding on and the stream accepted, the decoder is asked about exactly its bytes and codec if and only if there is no image yet or its score exceeds that of the last one; an image, numbered on, comes of it if and only if the answer is good enough. |
| RecoveryImages.RunPictures | src/recovery.c:127-209 | Over any stretch of a run without a reset or a change of stream images, attempts and decoded images are exactly what that rule makes of the streams shown, in order, voted ones included. |
| RecoveryImages.BestIsPictured | src/recovery.c:127-209 | If a stream shown in the stretch is accepted and would decode well enough, there is an image, and the last one has at least its score. |
| RecoveryImages.NothingDecoded | src/recovery.c:129-137 | With decoding off there is no attempt and no image. |
| RecoveryRanking.BucketsPartition | src/recovery.c:167-180 | Every candidate stands in its own bucket exactly as often as in the store and in no other. |
| RecoveryFeatures.BucketIsNearest | src/recovery.c:169 | Key slices vote together when their sizes are nearest the same number of packets. |
| RecoveryRanking.ElectionPerBucket | src/recovery.c:167-180 | Every bucket of two or more candidates holds exactly one election, no other bucket holds any. |
| RecoveryRanking.VoteShows | src/recovery.c:167-207 | A successful vote emits exactly one stream per election: the headers, then the voted slice, under the features of the best candidate of the bucket. |
| RecoveryRanking.LongestIsReached | src/recovery.c:174-179 | The voted slice is as long as the longest key slice of its bucket. |
| RecoveryRanking.VotedByteWins | src/recovery.c:184-203 | The voted byte is one a member shows at the place; no byte value has more weight behind it, and of the heaviest it is the one of the best-ranked member. |
| RecoveryFeatures.SayOf | src/recovery.c:189-190 | The weight of a candidate is the whole part of its score plus 4096 times one half plus its confidence, at least one; scores of a model count 1024 times. |
| RecoveryInPlace.RankOrder | src/recovery.c:148-153 | The insertion sort in its buffer of 256 places leaves the order of the specification. |
| RecoveryInPlace.InsertPlace | src/recovery.c:149-153 | One turn moves lower candidates up and fills the gap. |
| RecoveryInPlace.BallotWeight | src/recovery.c:189-190 | The weight of a vote. |
| RecoveryInPlace.CountBallots | src/recovery.c:185-193 | The 256 counters hold the total weight behind each byte value. |
| RecoveryInPlace.VoteByte | src/recovery.c:184-202 | The two loops over the members find the winning byte. |
| RecoveryInPlace.VoteSlice | src/recovery.c:184-203 | The voted slice, place by place. |
| RankModels.ComputeRankScore | src/recovery.c:108-116 | The weighted sum over the features, a zero scale counting as one; the heuristic score without a model. |
| RankModels.AverageScoresBias | src/recovery.c:108-116 | A model scores average features with its bias alone. |
| RankModels.ScoreIsLinear | src/recovery.c:108-116 | Changing one feature changes the score in proportion to its weight, in units of its scale, a zero scale counting as one. |
| RankModels.MoreScoresHigher | src/recovery.c:108-116 | More of a feature with positive weight and no negative scale scores higher. |
| RankModels.NoModelNoChange | src/recovery.c:108-116 | Without a model the heuristic score stands. |
| RecoveryFeatures.HeuristicMeans | src/recovery.c:262 | The heuristic score: bytes of slices, less 188 for a missing packet, 64 for an error, 128 for disorder and 96 for a bad start, plus the whole part of 128 times the excess of confidence over one half, per packet. |
| RecoveryUnits.RunScored | src/recovery.c:225-283 | In every reachable state every candidate carries the rank score of its own features. |
| Recovery.SfRecovery.constructor | src/recovery.c:99-103 | A new engine is the initial state. |
| Recovery.Create | src/recovery.c:88-104 | There is an engine exactly for the configurations within bounds. |
| Recovery.SfRecovery.UpdateStatus | src/recovery.c:42-59 | The derived status and nothing else. |
| Recovery.SfRecovery.EmitCandidate | src/recovery.c:127-140 | What callback and decoder are shown, in which order, and what their answers change. |
| Recovery.SfRecovery.EmitRanked | src/recovery.c:154-166 | The emission loop on the candidate array. |
| Recovery.SfRecovery.GatherMembers | src/recovery.c:174-179 | The members of a bucket, best first, and their longest slice. |
| Recovery.SfRecovery.VoteBuckets | src/recovery.c:167-207 | The voting loop. |
| Recovery.SfRecovery.Analyze | src/recovery.c:141-209 | The whole new state and the answer of one analysis. |
| Recovery.SfRecovery.ScanUnit | src/recovery.c:240-259 | What one unit does to headers, features and candidate. |
| Recovery.SfRecovery.SplitLoop | src/recovery.c:236-261 | The split loop over a whole elementary stream. |
| Recovery.SfRecovery.RemoveCandidate | src/recovery.c:268-269 | The candidate is gone, the others keep their order, the byte count follows. |
| Recovery.SfRecovery.Replace | src/recovery.c:266-271 | The candidate of the same access unit, if any, leaves the store. |
| Recovery.SfRecovery.EvictOldest | src/recovery.c:220-224 | The eviction loop on the candidate array. |
| Recovery.SfRecovery.KeepCandidate | src/recovery.c:265-277 | A keyframe enters the store. |
| Recovery.SfRecovery.FinishPes | src/recovery.c:225-283 | The whole new state and the answer for one access unit, whole or partial. |
| Recovery.SfRecovery.SelectStream | src/recovery.c:288-299 | Which stream is followed, and what is forgotten when it changes. |
| Recovery.SfRecovery.GatherEvidence | src/recovery.c:302-327 | The evidence one packet adds. |
| Recovery.SfRecovery.AppendPayload | src/recovery.c:328-333 | The payload joins the PES within the budget; an oversized PES is given up. |
| Recovery.SfRecovery.Packet | src/recovery.c:284-335 | The whole new state and the answer for one packet. |
| Recovery.SfRecovery.Feed | src/recovery.c:336-349 | The new state is that of feeding every byte in order, with the status brought up to date. |
| Recovery.SfRecovery.Look | src/recovery.c:211-219 | A preview of a PES that has grown, then an analysis. |
| Recovery.SfRecovery.Finish | src/recovery.c:350-355 | The open access unit is closed and analyzed, the unfinished packet given up. |
| Recovery.SfRecovery.Reset | src/recovery.c:78-87 | Everything starts afresh. |
| Csv.WriteRow | tools/model.c:92-100 | Appends the quoted row to the file. |
| Csv.WriteTable | tools/model.c:101-105 | The whole file. |
| Csv.RowRead | tools/model.c:34-66 | The row at a place of a file and where it ends, an error, or the end of the file, for every file. |
| Csv.TableRead | tools/model.c:67-77 | The table in a file, if it has one. |
| Csv.RoundTrip | tools/model.c:34-105 | A written table reads back as itself exactly when it has 1 to 100000 rows, each with a cell and every cell shorter than 1 MiB, whatever quotes, commas and line ends are in the cells (RFC 4180, section 2). |
| Csv.AcceptedRoundTrip | tools/model.c:34-105 | Whatever file is accepted, writing its table gives a file that reads back as the same table. |
| CsvTexts.TextRead | tools/model.c:34-77 | The text of a table, each cell quoted or plain, each line ended by line feed, carriage return, both or the end of the file, reads back as exactly that table if it has 1 to 100000 rows and no cell of 1 MiB, and is refused otherwise; a last line of one empty plain cell ended by the file is no row. |
| CsvTexts.StrayRefused | tools/model.c:44-60 | A quote inside a plain cell, or text behind a closing quote, is refused. |
| CsvTexts.AcceptsExactly | tools/model.c:34-77 | A file is accepted exactly when it is such a text, and then for that table. |
| ModelLoader.Json.Token | src/rank_model.c:10-11 | White space is skipped, and the character taken if it is there. |
| ModelLoader.Json.String | src/rank_model.c:12-22 | The string at the cursor within its capacity, or a refusal. |
| ModelLoader.Json.Number | src/rank_model.c:23-29 | The number at the cursor, or a refusal. |
| ModelLoader.Json.Skip | src/rank_model.c:30-46 | Passes over one value within the depth limit, leaving the depth as it was; it terminates on every text. |
| ModelLoader.Json.Map | src/rank_model.c:51-64 | The map at the cursor put over the vector, no feature twice. |
| ModelLoader.Json.Features | src/rank_model.c:81-89 | The list of features, none twice. |
| ModelLoader.Json.Weights | src/rank_model.c:91-95 | The list of weights. |
| ModelLoader.Json.Fields | src/rank_model.c:75-103 | The loop over the fields. |
| ModelLoader.LoadModel | src/rank_model.c:65-109 | The model in a file, or none. |
| ModelDocuments.SkipValue | src/rank_model.c:30-46 | Any JSON value, whatever its white space, is passed over exactly if it is nested at most 16 deep together with its surroundings; a deeper one is refused. |
| ModelDocuments.LoadDocument | src/rank_model.c:65-109 | Of all documents of well-formed fields, whatever their white space and the spelling of their numbers, exactly those are loaded that have each known field once, no value nested too deep and a weight more than features; what is loaded is what the document means. |
| ModelTexts.LoadsExactly | src/rank_model.c:9-109 | A text is loaded exactly when it is the text of a document of well-formed fields that is complete in that sense, and then for what that document means. |
| ModelTexts.Classes | src/rank_model.c:10-25 | White space and digits are the characters the C library counts as such. |
| ModelDocuments.AssignedAt | src/rank_model.c:51-64 | A feature named in a map gets its number, another keeps its default. |
| ModelDocuments.PlacedAt | src/rank_model.c:106-107 | A listed feature gets the weight of its place, another weighs nothing, the bias stays first. |
| ModelDocuments.FieldOrderIrrelevant | src/rank_model.c:75-103 | Permuting the top-level fields and laying them out differently never changes what is loaded, refusals included. |
| ModelDocuments.PairOrderIrrelevant | src/rank_model.c:81-107 | Permuting feature names together with their weights, or the entries of a map, in any layout, changes neither the loaded model nor any score. |
| ModelWriters.WriteModel | tools/model.c:224-233 | The bytes of the file. |
| ModelWriters.TrainedModelLoads | tools/model.c:224-233 | A model written by `train` loads back as itself, given that each printed number reads back, exactly as long as the file stays below 65536 bytes. |
| Contest.Fnv1a | src/contest.c:6-13 | The hash of a payload, with 1 in place of 0. |
| Contest.HashValues | src/contest.c:6-13 | The hash has the published FNV-1a values of the empty text and of one letter. |
| Contest.MakeFragment | src/contest.c:45-65 | What is kept of a packet. |
| Contest.WindowSlides | src/contest.c:38-43 | A newcomer pushes the oldest fragment out of a full ring, and the byte total follows. |
| Contest.TotalsCount | src/contest.c:67-76 | Each total is the number of fragments of its kind among all seen: damaged, starting a unit, scrambled, announcing a discontinuity, of tables, video and audio. |
| Contest.ConfidenceShares | src/contest.c:56-65 | A sound fragment has full confidence; each sign of damage leaves a fixed share of it, whatever the others. |
| Contest.ContestContext.Observe | src/contest.c:28-79 | Whatever has come before, the ring holds the last 4096 fragments, the byte total is what they carry, and the totals count every fragment ever seen. |
| Contest.HotPids | src/contest.c:89-112 | The selection loop leaves the busiest PIDs: at most eight, active, best first, and none missing but those ranked behind a full table. |
| Contest.TopIsSortHead | src/contest.c:89-112 | That table is the head of the stable descending sort of all PID counts: its first eight places, cut where counts reach zero. |

## Left out

- RepairFates.ProcessFate: while a PMT lists the null PID as video, what its packets are sent as is left open, since filler packets written at once pass the counters by; likewise RepairCounts.ProcessCounts.
- RepairRuns.TableCounters: injected copies keep the counter they were cached with and are not counted; with injection off the statement covers the whole output.
- RepairRuns.RunPaced: speaks of packets the smoother saw; injected copies are written past it.
- RecoveryRuns.FeedCtxChunks: after a failing call the engine refuses further input, so the cut decides how much is counted as received; a call before the last that fails is left out.
- ModelTexts.LoadsExactly: that the number the C library reads does not depend on which delimiter or white space ends it is assumed, as is true of `strtod` where the decimal point is a point.
- ModelWriters.TrainedModelLoads: that a number printed with 17 digits reads back as itself is assumed of the C library.
- Csv.RowRead: read errors of the file system are not modelled; a file is the string of its bytes.
- Weights and lifetimes of the PSI candidate tables (`src/psi.c:28-81`): they feed confidences in log lines only.
- The packet structure's pointer into the buffer: the model passes the bytes along, so a stale pointer after an in-place rewrite is not expressible.
- `double` arithmetic: scores, weights and confidences are reals; `-DBL_MAX` is the value before the first image and is never compared.
- Unsigned wrap-around of the statistics counters: they are natural numbers; time stamps, clock differences and the hash do wrap as in the code.
- Memory exhaustion: allocation succeeds.
- `src/ml_model.c`, `src/stats.c` and the calls to them: role guessing and printing change no packet. The contest observer is proved by itself and not wired into the pipeline model.
- Decoding and image quality (`src/media.c`): an arbitrary answer per attempt.
- Training, image heuristics, directory scanning and option parsing in `tools/model.c`; sockets, terminal and threads.
- `src/ts_parser.c`: the programs go through the feed functions.
- Status printing, log lines and the text fields of the status.
- Finiteness of the numbers in a configuration: reals are finite.
