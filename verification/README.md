# The perf ring-buffer reader, verified

This project models the path a perf sample takes from the kernel's ring buffer to the sample log:

1. the circular data area of a perf mapping, with the kernel's `data_head` and the reader's `data_tail`;
2. `perf_mmap_read`: load the head, copy the circular area into the linear scratch array with two
   memcpys, parse the new records, clear the scratch array, store the tail, return the head;
3. the record decoder: a cursor that walks over records whose layout depends on a bit mask, on length
   fields inside the data, on a nested `read_format` and on a register mask;
4. the table of one ring per core, and the signal handler that finds a ring by file descriptor.

The decoder never advances by the size a record declares. Each case advances by what it has read, so
whether the cursor still stands on a record boundary afterwards is a theorem, and for some
configurations a false one. The project proves exactly for which configurations it holds.

## How it is built

`Layout` and `Records` give the layout of include/perf_event.h as an encoder and know nothing of the
decoder. `Decoder`, `RecordDecoder` and `Batch.DecodeBatch` say what the C code computes, as functions
of the buffer and the cursor. `SampleReader`, `MmapReader` and `Sampler` are the imperative code
itself, over arrays and objects, each method proved equal to its function. `FieldLaws` and
`RecordLaws` show that reading is the exact inverse of encoding, in both directions and on arbitrary
buffers. `Positions`, `FieldOrder` and `RegisterMasks` say the same things a second time and prove the
two accounts equal: where each reported number stands, counted in bytes from the start of its record;
the order of the fields by the lines of the two files that list them; which number each bit of a mask
is. A mistake that encoder and decoder shared would show here. `SampleSync`, `SampleSyncNecessary` and `SampleOrder` settle the two questions about field
order, and `FallbackMask` a third, about cores whose event opened without branch stacks. `Batch` lifts
the answers to records and to the bytes of a whole batch. `RingWindow`, `Protocol`, `ProtocolSafety`,
`ExactlyOnce` and `SplitSteps` are the protocol: every run of any number of rings, with the kernel
publishing any record that fits between any two steps of a handler run. `Liveness` shows that there is
such a run for every stream of records. The `Sampler` object carries
the run it is in along as ghost state, so the theorems about runs are theorems about its handler.

`Result.Fault` stands for behaviour that the C program leaves undefined: a read outside the buffer the
decoder was given, or a copy of negative length. In a run that buffer is the scratch array, and a run
that comes upon a Fault is `Crashed`. `InSync` asks about a sample alone in its buffer, where running
over its end is a Fault; `InSyncAnywhere` shows that this is the same as ending off its end in a larger
one. `NoUndefinedRead` shows that no run crashes whose records the decoder can walk over.

## Main results

* `SyncExact`: the cursor ends on the end of every sample the kernel can write under a configuration
  if and only if `SyncMask` holds. PHYS_ADDR is never read. IDENTIFIER, which the header puts first and
  the decoder last, is harmless only as long as no earlier field has a length of its own. A user stack
  is found only if as many bytes were expected before it as were put there, which for IDENTIFIER
  together with REGS_INTR means an empty register mask.
* `OrderExact`: the fields reported are the fields written, for every sample, if and only if
  `OrderMask` holds. The mask of src/test_events.c is in step but fails this (`TestEventsMask`):
  REGS_INTR is read before DATA_SRC, though the header puts it after.
* `RecordSyncExact` and `NoTrailerFitsAll`: for the other record types the cursor is right if and only
  if the `sample_id` trailer has the one length the case assumes, and no configuration suits them all.
* `FallbackExact`: when an event opens only on the second try, without branch stacks, the handler still
  decodes with the mask that was asked for. On each core it keeps in step with everything the kernel may
  write there if and only if `SyncMask` holds and either the first try succeeded or no branch stacks
  were asked for. `FallbackRecords` says the same of the records on that core's ring.
* `BatchRoundTrip`, `ViewExact`: a record is reported unchanged if and only if it is `Verbatim`, and
  parsing the encoding of a list of such records, of handled types, gives that list back.
* `ExactlyOnce`, `BatchingIndependence`: whatever else is published, a ring whose records the decoder
  can walk over has, in every reachable state, a log of exactly the records published below its
  position, each once and in order, however the stream was cut into handler runs. `LogIsStream` and
  `HeaderLogIsStream` say when these are the published records themselves, field by field, and
  `LogPrintsStream` that they at least print the same if a NUL stands between name and trailer.
* `EveryStream`, `EveryList`: any stream of such records, each small enough for the ring, has a run that
  publishes and shows the whole of it; `FitsExact`: the kernel's test refuses a record if and only if it
  would overwrite a byte not yet read.
* `RecordPositions`, `SamplePositions`: one turn of the loop reports a record if and only if its parts
  stand at the header file's offsets, and a sample's fields one behind the other in the order of the
  lines that test for them. `HeaderRecordExact` is the kernel's side of it.
* `DeliveredInBatches` and `WindowInvariant` hold for arbitrary published records, until a read is
  undefined: a batch of records that the decoder can walk over is reported in full whatever other
  batches held.
* `SplitStepSafety`: a handler run with publications in all five gaps leaves log, table, scratch and
  tails as the uninterrupted run at head-load time would.
* `Sampler.Handler`: from any state that a run has led to, the imperative handler leads to another; where
  the decoder can walk over what was waiting it reads nothing undefined, and where it can walk over the
  whole ring that ring's log is then the views of everything published there.

Where the code and the header file disagree, the model follows the code: the order of REGS_INTR and
IDENTIFIER, the missing PHYS_ADDR, the fixed trailer of 8 bytes after AUX, LOST_SAMPLES and SWITCH.

## Model

| member | source | states |
|---|---|---|
| FieldLaws.ReadLaw | src/parse_record.c:37-116 | reading a read_format yields value and end cursor exactly when the buffer holds that value's header encoding there, for all flag combinations |
| FieldFacts.ReadLength | src/parse_record.c:37-116 | a group has as many counters as its count says, none if the sign bit is set, and the length returned follows from the flags and the number of counters |
| FieldLaws.RegsLaw | src/parse_record.c:152-179 | a register dump is read exactly where its encoding stands, with the register numbers of the mask's set bits |
| FieldFacts.RegisterDump | src/parse_record.c:152-179 | register i gets the word whose index is the number of set bits below i, and popcount many registers come out |
| RegisterMasks.BitValue | src/parse_record.c:162 | the bit that the dump tests for register i is the number 2^i |
| RegisterMasks.MaskRestored | src/parse_record.c:161-175 | or-ing those bits over the registers selected gives the mask back |
| RegisterMasks.SetBitsExact | src/parse_record.c:161-175 | the registers selected are the one ascending list of numbers below 64 whose bits make up the mask |
| FieldFacts.WeightIsPopCount | src/parse_record.c:161-175 | the number of registers dumped is the number of powers of two that make up the 64-bit mask |
| FieldFacts.RegistersDumped | src/parse_record.c:152-179 | the register numbers printed are those whose bits make up the mask, in ascending order |
| FieldLaws.FieldLaw | src/parse_record.c:712-1060 | each field of a sample is read exactly where its encoding stands, and the cursor stops right after it |
| FieldLaws.FieldsLaw | src/parse_record.c:711-1061 | the same for any list of fields in any order, on arbitrary buffers: decoding inverts encoding both ways |
| Positions.ReadPositions | src/parse_record.c:37-116 | a read_format is reported if and only if count, times, values and ids stand at their offsets, counter i at i times the counter's size |
| Positions.FieldPositions | src/parse_record.c:712-1060 | a field is reported if and only if its numbers, spelled out in bytes, stand at their offsets, entry i of an array at i times its size, as many entries as the count says |
| Positions.SamplePositions | src/parse_record.c:711-1061 | a sample is reported if and only if its fields stand one behind the other, in ascending order of the lines that test for them, one for every bit but PHYS_ADDR |
| Positions.RecordPositions | src/parse_record.c:410-1161 | a turn of the loop reports a record if and only if type, misc, size, body and trailing word stand at the header file's offsets, and where it leaves the cursor |
| FieldOrder.HeaderOrder | include/perf_event.h:805-849 | the header's order of the fields is the one ascending by the lines that list them, of exactly the configured kinds |
| FieldOrder.LadderOrder | src/parse_record.c:712-1052 | the decoder's order is the one ascending by the lines that test for them, of all configured kinds but PHYS_ADDR |
| FieldOrder.ListedExact | include/perf_event.h:805-849 | every field whose count is the number of its entries and whose parts are those configured is one the kernel may write, and no other |
| FieldOrder.HeaderSampleExact | include/perf_event.h:805-851 | the samples the kernel may write, without reference to the encoder's lists and counts |
| FieldOrder.HeaderRecordExact | include/perf_event.h:682-951 | the records the kernel may write: true size, and the fields or the number of trailer words configured |
| FieldOrder.TrailerExact | include/perf_event.h:698-705 | the trailer has a word for each configured one of six fields |
| SampleSync.SyncSufficient | src/parse_record.c:711-1061 | under SyncMask every sample in header order is walked over exactly |
| SampleSync.SyncPermutedTail | src/parse_record.c:902-1060 | with REGS_INTR read early the fields before it are exact and the sample still ends at its end |
| SampleSync.CompensatedOrders | src/parse_record.c:902-1050 | IDENTIFIER and an empty interrupt dump shift the user stack by the same amount |
| SampleSyncNecessary.SyncNecessary | src/parse_record.c:711-1061 | outside SyncMask some sample of the header's layout is left at the wrong cursor or read past the buffer |
| SampleSync.InSyncAnywhere | src/parse_record.c:711-1061 | a sample in step alone in its buffer ends at its end wherever it stands in any buffer, and only such a sample does |
| SampleSyncNecessary.SyncExact | src/parse_record.c:711-1061 | the cursor ends at the end of every sample of a configuration, alone or anywhere in a buffer, if and only if SyncMask holds |
| SampleOrder.OrderSufficient | src/parse_record.c:711-1061 | under OrderMask the decoder's field order is the header's |
| SampleOrder.OrderNecessary | src/parse_record.c:711-1061 | outside OrderMask some sample is reported with other fields than were written |
| SampleOrder.OrderExact | src/parse_record.c:711-1061 | the fields of all samples are recovered if and only if OrderMask holds |
| SampleOrder.OrderImpliesSync | src/parse_record.c:711-1061 | recovering the fields is the stronger demand |
| Configurations.SampleBitMask | include/perf_event.h:123-146 | a mask with one of the header's bits asks for that field alone |
| Configurations.SampleMaskUnion | include/perf_event.h:123-146 | a union of masks asks for the union of the fields |
| Configurations.FormatMasks | include/perf_event.h:285-292 | the same for the four bits of a read_format |
| Configurations.DefaultMaskIsExact | src/PAPI_sample.c:82 | the initial sample_type_handle means IP, READ and CPU, and is recovered exactly, whatever the read format and registers |
| Configurations.HandlerReadLength | src/PAPI_sample.c:77-80 | with the handler's read_format every read value is a group with both times and an id per counter, 24 + 16 nr bytes long for every nr below 2^63 |
| Configurations.ClearedBit | src/PAPI_sample.c:247 | clearing PERF_SAMPLE_BRANCH_STACK in the 32-bit mask removes that field and no other |
| Configurations.TestEventsMask | src/test_events.c:37-41 | the mask of the test program keeps the cursor in step but not the field order |
| FallbackMask.FallbackBreaks | src/PAPI_sample.c:240-258 | after the fallback without branch stacks, if they were asked for, the handler's mask throws the cursor off on some sample, whatever else is in the mask |
| FallbackMask.FallbackExact | src/PAPI_sample.c:240-258 | a core is in step for all samples the kernel may write there if and only if SyncMask holds and the first try succeeded or no branch stacks were asked for |
| FallbackMask.FallbackRecords | src/PAPI_sample.c:240-258 | under exactly that condition the decoder can walk over every SAMPLE record of that core's ring |
| RecordLaws.BodyLaw | src/parse_record.c:523-1152 | each case of the record switch reads exactly the header's body layout, strings taking their length from the declared size |
| RecordLaws.RecordLaw | src/parse_record.c:410-1161 | a turn of the loop yields a record and an end cursor exactly when the buffer holds that record's encoding there |
| RecordLaws.OtherLaw | src/parse_record.c:1154-1157 | a type without a case yields its header and moves the cursor to the end of the batch |
| Batch.RecordDelivered | src/parse_record.c:410-1161 | wherever a kernel record stands, one turn reports its view and moves the cursor by exactly the declared size |
| Batch.HeaderDecodable | src/parse_record.c:410-1161 | what the kernel writes under SyncMask, with a trailer that suits the case, the decoder can walk over |
| Batch.ViewExact | src/parse_record.c:410-1161 | a record is reported unchanged if and only if it is Verbatim: no absorbed trailer, no skipped payload, and a sample's fields in the decoder's order |
| Batch.HeaderVerbatim | src/parse_record.c:410-1161 | what the kernel writes under OrderMask is Verbatim if and only if no name absorbs a trailer |
| Batch.FrontExact | src/parse_record.c:711-900 | under SyncMask without IDENTIFIER all fields before the interrupt registers are reported as written |
| Batch.CStringExact | src/parse_record.c:554-556 | what is printed of a name is the one beginning that has no NUL and goes on to one or to the end |
| Batch.AbsorbedTrailerUnseen | src/parse_record.c:549-558 | a name prints the same, although the trailer is taken for a part of it, if and only if a NUL stands between the two |
| Batch.ViewPrinted | src/parse_record.c:537-667 | a record is reported as it would print itself if and only if it is Legible: a NUL between name and trailer, a sample's fields in the decoder's order |
| Batch.RecordSyncExact | src/parse_record.c:523-1152 | for every handled type and wherever the record stands, the cursor is right if and only if the sample is InSync or the trailer has the length its case assumes |
| Batch.TrailerByType | src/parse_record.c:523-1152 | type by type: LOST, FORK, EXIT, THROTTLE, UNTHROTTLE and ITRACE_START are in step if and only if they have no trailer, AUX, LOST_SAMPLES and the SWITCH types if and only if it is one word, names always |
| Batch.NoTrailerFitsAll | src/parse_record.c:526-535 | no configuration gives every record type the trailer its case assumes |
| Batch.Progress | src/parse_record.c:410-517 | each turn moves the cursor by at least the 8 header bytes or to the end, so the loop ends |
| Batch.BatchDelivered | src/parse_record.c:407-1161 | parsing the bytes of a batch of kernel records reports that batch, independently of anything else in the scratch array |
| Batch.BatchRoundTrip | src/parse_record.c:407-1161 | parsing the encoding of a list of Verbatim records of handled types gives that list back |
| Batch.DeliverAppend | src/parse_record.c:407-1161 | decoding a concatenation of batches of handled types is the concatenation of their decodings |
| Batch.DeliverAll | src/parse_record.c:407-1161 | without unhandled types every record of a batch is reported, in its place |
| Batch.DeliverStops | src/parse_record.c:1154-1157 | records before an unhandled one are reported, it is reported itself, the rest of its batch is not |
| Batch.DeliverComplete | src/parse_record.c:1154-1160 | a batch counts all its records if and only if no unhandled type stands before its last record |
| RingWindow.ToInt32 | src/parse_record.c:358 | the narrowing of head minus prev_head: congruent, in range, and exact when it fits |
| RingWindow.UnwrapIndex | src/parse_record.c:386-402 | after the two copies scratch position k holds ring position (prev_head+k) modulo the ring size |
| RingWindow.UnwrapWindow | src/parse_record.c:386-402 | so the unread bytes come out as the linear slice of the published stream, wrapped or not |
| RingWindow.FitsExact | include/perf_event.h:592-608 | a record is refused if and only if one of its bytes would fall on a byte not yet read or on another of its own |
| RingWindow.AppendKeepsWindow | include/perf_event.h:592-608 | a record that fits between head and tail is published without disturbing unread bytes |
| ProtocolSafety.CopyHighKeeps | src/parse_record.c:393-394 | the first copy takes the unread bytes up to the end of the ring, whatever has been published meanwhile |
| ProtocolSafety.CopyLowKeeps | src/parse_record.c:401-402 | the second copy completes the batch fixed when the head was loaded |
| ProtocolSafety.ParseReports | src/parse_record.c:407-1161 | the parse of a run reports exactly the batch fixed when the head was loaded, if the decoder can walk over it |
| ProtocolSafety.StoreTailKeeps | src/parse_record.c:1165-1166 | clearing the scratch array and storing the tail keep every ring's window |
| ProtocolSafety.StepKeeps | src/PAPI_sample.c:89-141 | every step of kernel or handler keeps the invariant of all rings, whatever record the kernel writes |
| ProtocolSafety.RunKeeps | src/PAPI_sample.c:89-141 | so does every run |
| ExactlyOnce.NoUndefinedRead | src/PAPI_sample.c:89-141 | no run over records the decoder can walk over comes upon an undefined read |
| ExactlyOnce.DeliveredInBatches | src/PAPI_sample.c:120-131 | the log of a ring is the reports of its batches, the batches are the published records without gap or overlap, and a batch the decoder can walk over is reported in full whatever the others held |
| ExactlyOnce.ExactlyOnce | src/PAPI_sample.c:89-141 | in every reachable state the log of a ring is the views of the records published below its position, once and in order |
| ExactlyOnce.LogIsStream | src/PAPI_sample.c:89-141 | where the records are Verbatim it is the published records themselves |
| ExactlyOnce.HeaderLogIsStream | src/PAPI_sample.c:89-141 | so it is for samples under OrderMask, names without a trailer, and all other handled types with the trailer their case reads |
| ExactlyOnce.LogPrintsStream | src/PAPI_sample.c:89-141 | and with a NUL between each name and its trailer the log prints as the published records do |
| Liveness.PublishedAndShown | src/PAPI_sample.c:89-141 | records that fit a ring together are all published, and the next handler run shows them all |
| Liveness.EveryList | src/PAPI_sample.c:89-141 | every list of records that fits a ring is what some run has published, and one handler run later it is in the log |
| Liveness.EveryStream | src/PAPI_sample.c:89-141 | every stream of records that can be walked over, each small enough for the ring, has a run that publishes and shows all of it and leaves the ring empty |
| ExactlyOnce.CaughtUp | src/PAPI_sample.c:120-131 | a ring read up to its head has everything published in the log |
| ExactlyOnce.BatchingIndependence | src/PAPI_sample.c:121-131 | how a stream was cut into handler runs does not show in the log |
| ExactlyOnce.WindowInvariant | src/parse_record.c:355-372 | between runs, whatever has been published, prev_head equals the tail, is a record boundary, and the unread part fits, so the narrowing is exact and the overflow message unreachable |
| SplitSteps.AtomicRun | src/PAPI_sample.c:120-131 | an uninterrupted handler run over waiting records that can be walked over never faults, and its whole effect on rings, table, scratch and log |
| SplitSteps.SplitStepSafety | src/parse_record.c:355-402 | publications in all gaps of a run change nothing of its outcome |
| SplitSteps.AtomicIsRun | src/parse_record.c:355-1171 | from any state, the six steps with no publication in between are the uninterrupted run, down to whether a read is undefined |
| SplitSteps.HandlerDelivers | src/PAPI_sample.c:89-141 | after a run the log shows all that was published on that ring, and nothing new for any other |
| SampleReader.HandleStructReadFormat | src/parse_record.c:37-116 | the imperative read_format reader computes the specified value and length |
| SampleReader.ReadCounters | src/parse_record.c:73-87 | its counter loop |
| SampleReader.PrintRegs | src/parse_record.c:152-179 | the register loop computes the specified dump and returns 8 times the popcount |
| SampleReader.ReadCallchain | src/parse_record.c:784-795 | the callchain loop |
| SampleReader.ReadRawField | src/parse_record.c:796-819 | the RAW case with its own inner size |
| SampleReader.ReadBranchStack | src/parse_record.c:829-880 | the branch-entry loop |
| SampleReader.ReadStackField | src/parse_record.c:921-946 | the STACK_USER case with its own inner size |
| SampleReader.ReadPlace | src/parse_record.c:712-747 | the ladder from IP to ADDR |
| SampleReader.ReadOrigin | src/parse_record.c:748-774 | the ladder from ID to PERIOD |
| SampleReader.ReadBulk | src/parse_record.c:775-900 | the ladder from READ to REGS_USER |
| SampleReader.ReadTail | src/parse_record.c:902-1060 | the ladder from REGS_INTR to TRANSACTION, in the order of the code |
| SampleReader.ReadSample | src/parse_record.c:711-1061 | the whole SAMPLE case computes the specified fields and cursor |
| MmapReader.ReadStringCase | src/parse_record.c:537-667 | the COMM, MMAP and MMAP2 cases |
| MmapReader.ReadPlainCase | src/parse_record.c:525-708 | the LOST, FORK, EXIT, THROTTLE, UNTHROTTLE and ITRACE_START cases |
| MmapReader.ReadTrailedCase | src/parse_record.c:1063-1151 | the AUX, LOST_SAMPLES, SWITCH and SWITCH_CPU_WIDE cases |
| MmapReader.ReadRecord | src/parse_record.c:412-1159 | header and switch compute the specified record and cursor |
| MmapReader.CopyWindow | src/parse_record.c:386-402 | the two memcpys fill the scratch array with the unwrapped ring |
| MmapReader.ParseBatch | src/parse_record.c:407-1161 | the loop reports the specified batch and counts one event per record; `quiet` only silences the log |
| MmapReader.PerfMmapRead | src/parse_record.c:321-1173 | all returns of perf_mmap_read; head, tail, scratch and count do not depend on `quiet` or on whether events are counted |
| MmapReader.PerfPage.Publish | include/perf_event.h:592-608 | the kernel's side: a record is written circularly and published, or refused when it would overwrite unread data |
| Sampler.Sampler.Allocate | src/PAPI_sample.c:160-203 | an empty table, cleared heads and a scratch array of the mapping's size |
| Sampler.Sampler.AddMap | src/PAPI_sample.c:265-277 | one table entry, leaving the others alone |
| Sampler.Sampler.MapCores | src/PAPI_sample.c:225-285 | the init loop fills one entry per core, fails at the first that cannot be opened or mapped, or writes past the table of 100 entries; and the sample type each event was opened with |
| Sampler.Sampler.FindRing | src/PAPI_sample.c:106-118 | the search finds the ring of a registered descriptor and fails only for an unregistered one |
| Sampler.Sampler.ReadRing | src/PAPI_sample.c:121-129 | the call on one ring moves that ring's tail, appends its batch to the log and leaves the other rings and the table alone |
| Sampler.Sampler.Drain | src/PAPI_sample.c:120-131 | reading and saving the head has the effect of one uninterrupted run of the machine |
| Sampler.Sampler.Serve | src/PAPI_sample.c:120-131 | in a run, no undefined read where the waiting records can be walked over, and then the ring's log is the views of what was published |
| Sampler.Sampler.Handler | src/PAPI_sample.c:89-141 | the handler performs that run on the ring of its descriptor, or ends the program if there is none; it leads from a state of a run to a state of a run, with the ring's log complete |
| Sampler.Sampler.KernelWrites | include/perf_event.h:592-608 | a record published or refused on one mapping is a publication step of the run the object is in |
| Sampler.Sampler.Track | src/PAPI_sample.c:198 | an initialised sampler over fresh mappings begins a run |
| Sampler.FreshSampler | src/PAPI_sample.c:198 | an initialised sampler over fresh mappings is an initial state of the protocol |

## Left out

- Printed text, symbolic names, and the label printing of branch flags and DATA_SRC words: presentation; the log holds the decoded values.
- `dump_raw_ibs_fetch`, `dump_raw_ibs_op` and `raw_type`: printing without effect on the cursor.
- The user-stack dump loop: printing only; the stack bytes, both sizes and the cursor are modelled. What it prints beyond the copied bytes is not.
- `validate`: it only adds messages on stderr, and the handler passes NULL.
- MmapReader.PerfMmapRead: `validate` and `raw_type` are not parameters, and with `quiet` the C code skips reading register values and raw bytes for printing, while the model still requires them to lie in the buffer, which differs only on malformed data.
- Batch.Progress: a negative RAW length would move the C cursor backwards, so that a turn need not progress; the kernel writes no such length, and the model calls it a Fault.
- SampleReader.ReadRawField: the same Fault for a negative inner size. A negative string or stack length would copy without bound and is a Fault too.
- Fault: after an undefined read nothing is claimed about the log or the scratch array, and Reachable leaves such runs out.
- Register masks: the decoder is passed one mask for both register dumps, so the layout assumes the kernel uses that mask for both; registers are always present, as in the header text.
- Batch.BatchDelivered: stated for records that are Decodable; RecordSyncExact says exactly which handled records are.
- ExactlyOnce.ExactlyOnce: asks of its ring that all records on it are Decodable and of a type the switch handles; DeliveredInBatches and DeliverStops say what happens otherwise.
- SplitSteps.SplitStepSafety: asks the same of the waiting records, types aside, since for others an interrupted run may read bytes past the batch that a publication has changed.
- Sampler.Sampler.Handler: one call without publications inside it; SplitStepSafety covers those.
- Wrap-around of the 64-bit head counters: heads are natural numbers.
- Weak memory: steps are sequentially consistent; the read barrier stands after the load of the head, and the full barrier before the tail store is commented out in the source.
- Partial publication: the kernel publishes whole records in one step.
- ioctl, fcntl, sigaction, mmap, malloc, files, libpfm and PAPI calls: foreign effects; their answers are parameters, and distinct descriptors and mappings are assumed of them.
- Overlapping handlers, a second initialisation after stop, and draining at stop: one initialised lifetime with handlers that do not overlap.
- Latency-event tables, processor detection, test programs and scripts: finite tables and easy loops.
