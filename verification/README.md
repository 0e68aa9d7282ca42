# tsanalyze, modelled in Dafny

tsanalyze takes an MPEG transport stream apart: it cuts the input into packets,
rebuilds sections from them, hands each section to the callbacks registered for
its PID and table id, decodes the tables, and streams the result out as a JSON,
HTML or YAML tree. This project models the parts of that path whose correctness
is not visible in any one function, and proves what they are for.

`dafny verify dfyconfig.toml` checks everything.

## What is proved

**The emitter (`src/result.c`).** Flat calls `(level, key, value)` become a
nested document while they arrive. `Emitter.Build` says which tree a call
sequence denotes, without any stack; `ResultTree.RenderRoot` says how a tree is
printed; `JsonParser.ParseDocument` is a reader after RFC 8259. For every call
sequence, the text written on the fly is the printed tree, and it reads back as
exactly that tree if and only if no bare element ever finds an object open, a
condition on the writer's state before each call. For everything that dump code
can put out, `Dump` gives the calls and, independently of them, the tree: the
calls build that tree, and a reader of the document gets it. The class `JsonWriter.Writer`
does this on the fixed 32-slot stack, which never overflows. The YAML writer
keeps the same stack. Its text is the plain block form of the tree with repeated
keys renamed, and a block YAML reader gets that tree back if and only if no
container mixes members with and without a key and no renamed key clashes.

**From packets to tables (`src/ts.c`, `src/table.c`, `src/descriptor.c`).**
Blocks are cut into packets wherever their boundaries fall. Sections carried in
payloads of any sizes, behind any pointer_field and any adaptation field, come
out again, per PID, in order, each once and on its last packet, under every
interleaving and every blocking; what `emit_section` writes is one such stream. A PMT that is
built, fragmented, interleaved, reassembled and parsed gives back its PCR PID,
descriptors and streams. Of a stream of PATs exactly those are listed that the
code can notice, each with its own programs, and the last one is active. From an
empty state, a stream of PATs registers exactly the PMT PIDs of the noticed ones,
and a PMT that follows on such a PID fills the slot of that PID.

**Dispatch (`src/filter.c`).** After any sequence of registrations and removals,
the 256-entry index makes the calls of a linear scan: a callback is called if and
only if a registration of it in force agrees with the section in every bit that
its mask sets.

**Algorithms on the heap.** getopt's block exchange and argument permutation,
short and long options, over whole runs (`src/win_getopt.c`): `GetoptCommands`
says from the text of the option string and the table what an argument list
means, every list means something, and a run returns exactly that. The circular
list (`include/list.h`).

**Codes and fields.** The table-driven CRC is the bit-serial register; it leaves
zero exactly behind its own value and detects every change within 32 consecutive
bits. The bit-field reader returns consecutive slices of the bit string. SCTE 35
splice commands survive encoding and parsing.

## Where the code differs from its documentation

- The version of a section is read one bit early (`src/table.c:415`,
  `src/table.c:484`): version `v` is taken as `16 + v / 2`
  (`PsiSection.VersionRead`). A PAT of version `w` therefore updates one of
  version `v` if and only if `w / 2 > v / 2`, or `v` is 30 or 31 and `w` is not
  (`PsiSection.UpdateNoticed`, `PatStream.UpdateListed`): of the higher versions
  the odd one after an even one is missed (`PsiSection.WhenNoticed`), for example
  1 after 0 (`PatStream.UpdateMissed`).
- The section bitmap of a PMT slot is never cleared. A section reaches the table
  if and only if its length is allowed and it is in the short form, or in the
  long form and the first one of the slot (`Pmt.WhenTaken`). A PMT in the long
  form therefore never updates a slot, whatever its version
  (`Pmt.SlotIsFrozen`, `Pmt.FirstPmtStays`).
- A program that a PAT lists twice is moved to the second PID, but only the PID
  of its first entry is registered for PMTs (`Analyzer.NewPidsAre`,
  `Analyzer.MovedPidUnregistered`).
- A section that fits its packet leaves its record open (`src/ts.c:142-144`). A packet
  that starts no section is ignored after a section if and only if that section
  took several packets; otherwise stale bytes of the buffer are delivered
  (`Sections.StrayAfterSection`).
- A call with neither key nor value is ignored by the JSON writer. In YAML it
  prints an empty list item, and the stacks stay the same if and only if only the
  root is open, or the call closes nothing and finds a decided container
  (`YamlProof.SilentCallSame`).
- The suffix that keeps YAML keys apart goes through a buffer of 64 bytes. The
  keys of a mapping are distinct if and only if no repeat is written under a key
  of the mapping or under the cut name of an earlier repeat
  (`YamlKeys.KeysDistinct`); a key of 63 bytes fails when used twice, one of 61
  or more when used three times (`YamlKeys.LongKeysClash`).

## Model

| member | source | states |
|---|---|---|
| JsonRoundTrip.EscapeRoundTrip | src/result.c:68-86 | every string is read back from its escaped form, whatever follows the closing quote |
| JsonRoundTrip.ValueRoundTrip | src/result.c:147-228 | a printed value at any depth reads back as its tree if keys stand exactly in the objects, and is rejected otherwise |
| JsonRoundTrip.DocumentRoundTrip | src/result.c:313-336 | the same for a whole document |
| EmitterProof.Segment | src/result.c:147-228 | whatever run of calls goes to one container, its output grows by the printed children that the calls denote, once what they left open is closed |
| EmitterProof.WritesTheTree | src/result.c:147-228 | output from `res_open` to the end of `hier_close` is the printed tree of the calls |
| BareRule.RespectsIsKeyed | src/result.c:147-197 | the tree is well keyed if and only if every bare element finds, after sealing, an undecided container or an array |
| Dump.DumpBuilds | src/table.c:85-108 | the calls for any fields, groups and lists, each at the level of its container's children or deeper, with list elements at the level of the list's own call or one deeper, build exactly the tree of what is dumped |
| Dump.DumpReadsBack | src/dvb_si.c:70-86 | a reader of the document of such calls gets what was dumped |
| EmitterStack.EmitShape | src/result.c:147-228 | a call keeps the levels non-decreasing up the stack with at most two entries per level |
| EmitterStack.DepthBound | src/result.c:50-59 | with levels up to L such a stack has at most 2L+3 entries |
| EmitterStack.RunShape | src/result.c:147-228 | both, over every run |
| JsonWriter.Writer.constructor | src/result.c:338-344 | the root container that `res_init_root` sets up |
| JsonWriter.Writer.PutIndent | src/result.c:61-66 | writes that many spaces |
| JsonWriter.Writer.PutEscaped | src/result.c:68-86 | the loop appends the escaped string |
| JsonWriter.Writer.SealTo | src/result.c:149-162 | closes exactly the containers that the call has ascended out of |
| JsonWriter.Writer.WrapMember | src/result.c:164-180 | inserts an object around a keyed member of an array |
| JsonWriter.Writer.ResolveTop | src/result.c:182-189 | the first child decides between array and object |
| JsonWriter.Writer.LeadChild | src/result.c:191-197 | separator and indentation, and the container has a child from now on |
| JsonWriter.Writer.Put | src/result.c:201-228 | one call is one step of the emitter, and the 32-slot stack never overflows for levels 0 to 14 |
| JsonWriter.Writer.PutPayload | src/result.c:206-226 | key and value, or key and a new undecided container |
| JsonWriter.Writer.Close | src/result.c:313-336 | pops every container, then writes the root bracket |
| JsonWriter.SilentCalls | src/result.c:201-228 | calls with neither key nor value change nothing |
| JsonWriter.WriteDocument | src/result.c:201-336 | a whole session writes the printed tree of its calls, and the text parses back to that tree if and only if every bare element lands outside objects |
| YamlProof.EmitSame | src/result.c:236-310 | a call keeps the YAML stack (level, child level, closing kind) equal to the JSON stack |
| YamlProof.RunSame | src/result.c:236-310 | the same over every run without key-less, value-less calls |
| YamlProof.SilentCallSame | src/result.c:236-310 | a key-less, value-less call keeps the stacks equal if and only if only the root is open, or its level reaches the top container and that one is decided |
| YamlProof.WritesTheTree | src/result.c:236-310 | the text written on the fly by any calls is the block text of their tree |
| YamlKeys.EmittedAt | src/result.c:116-141 | every repeat, and nothing else, is renamed by the number of this occurrence and cut to the buffer |
| YamlKeys.DecimalValue | src/result.c:121-123 | the suffix number is a numeral without leading zeros whose value by Horner's rule is the count |
| YamlKeys.DedupedKey | src/result.c:116-141 | after any keys of a mapping, a new key is written as it stands, a repeated one followed by a number sign and a numeral of how many positions hold it by now, cut at 63 bytes |
| YamlKeys.EmittedIs | src/result.c:116-141 | the same at every position of every mapping |
| YamlKeys.KeysDistinct | src/result.c:111-141 | the keys written into a mapping are pairwise distinct if and only if no repeat is written under a key of the mapping or under the cut name of an earlier repeat |
| YamlKeys.FittingClash | src/result.c:116-127 | where no name is cut, only a key of the mapping itself can clash |
| YamlKeys.LongKeysClash | src/result.c:116-127 | in any mapping a key of 63 bytes used twice clashes, and so does one of 61 or more used three times |
| YamlDocument.HeadRenamed | src/result.c:273-300 | renaming while writing equals renaming the tree first and printing it plainly |
| YamlDocument.DocumentKeysDistinct | src/result.c:111-141 | the same equivalence for every mapping of a document at once |
| YamlRoundTrip.DocumentBack | src/result.c:273-300 | block text of a tree reads back as that tree if and only if every container is one node with distinct keys |
| YamlRoundTrip.CallsReadBack | src/result.c:236-310 | the same for the renamed tree of any calls, with the condition on the raw keys |
| YamlRoundTrip.KeyedIsRegular | src/result.c:236-310 | calls that are fit for JSON never mix, so only key clashes can spoil their YAML |
| YamlWriter.Writer.SealTo | src/result.c:240-249 | popped slots are left without remembered keys |
| YamlWriter.Writer.DedupKey | src/result.c:116-141 | the loop records the key and returns what has to be written for it, told from the keys that the mapping had before |
| YamlWriter.Writer.Push | src/result.c:256-264 | a pushed container starts with no remembered keys |
| YamlWriter.Writer.Put | src/result.c:236-310 | one call is one step of the YAML emitter within the 32-slot stack |
| YamlWriter.Writer.Close | src/result.c:313-336 | all remembered keys are dropped and nothing is written |
| YamlWriter.WriteDocument | src/result.c:236-336 | a whole session of any calls writes the plain block text of the renamed tree, which reads back as that tree if and only if no container mixes members with and without a key and no key clashes |
| Crc32.StepIsSerial | src/crc32.c:39-48 | one table step equals eight clocks of the shift register |
| Crc32.CrcIsSerial | src/crc32.c:39-48 | the table-driven CRC of any message equals the bit-serial register, for any start |
| Crc32.BurstsAreDetected | src/crc32.c:39-48 | messages of equal length that differ only within 32 consecutive bits have different CRCs |
| Crc32.FourBytesAreDetected | src/crc32.c:39-48 | the same for four consecutive bytes |
| Crc32.ResidueIsZero | src/crc32.c:39-48 | a message and four bytes leave zero if and only if the bytes are its CRC, big-endian |
| CrcTable.TableGenerated | src/crc32.c:7-37 | all 256 constants are what the polynomial generates |
| CrcTable.GenerateEntry | tests/gen_full.c:35-43 | the eight-step loop computes a table entry |
| CrcTable.GenerateTable | tests/gen_full.c:35-43 | the table-building loops fill the array with the constants of the other table |
| CrcTable.Compute | src/crc32.c:39-48 | the CRC loop equals the bit-serial register |
| Getopt.ScanKeepsOrder | src/win_getopt.c:501-570 | options, short or long, with their arguments and the other arguments are two order-preserving parts of the argument list |
| GetoptCommands.WantsRead | src/win_getopt.c:775-1018 | a character is unknown, a flag, or takes a required or an optional argument according to what follows its first place in the option string: no colon, one, or two |
| GetoptCommands.MatchMeans | src/win_getopt.c:597-638 | a typed name means the first option of that very name, or else the first it abbreviates if all such options are the same up to their names; otherwise none |
| GetoptCommands.CommandScanned | src/win_getopt.c:501-1022 | for every list of choices (clusters of flags, attached, detached, omitted and lacking arguments, long options in all forms, errors, operands, `--`) that obeys the option string and the table: the scan of the arguments that say it returns its values, options and operands |
| GetoptCommands.EverythingSays | src/win_getopt.c:501-1022 | every argument list says such a command |
| GetoptCommands.ScanIsYield | src/win_getopt.c:501-1022 | so the scan of any arguments is what each command yields that they say |
| Getopt.FindLong | src/win_getopt.c:597-618 | the two loops find the end of the name and the option meant: an exact name wins, and an abbreviation is ambiguous exactly when it stands for options that differ |
| Getopt.SameElements | src/win_getopt.c:501-570 | two such parts have together exactly the elements of the list |
| Getopt.ExchangedPermutes | src/win_getopt.c:291-358 | exchanging two adjacent blocks permutes the list |
| Getopt.Exchange | src/win_getopt.c:291-358 | the repeated in-place block swap turns the two adjacent blocks around, keeps the order in each and touches nothing else |
| GetoptRun.Scanner.Settle | src/win_getopt.c:504-518 | repairing the records and exchanging keeps where the run is heading |
| GetoptRun.Scanner.SkipNonOptions | src/win_getopt.c:520-525 | skips to the next option element or the end |
| GetoptRun.Scanner.EndOptions | src/win_getopt.c:528-543 | `--` joins the options, the rest the non-options |
| GetoptRun.Scanner.Finish | src/win_getopt.c:528-554 | at the end the arguments are arranged and `optind` is at the first non-option |
| GetoptRun.Scanner.DecodeChar | src/win_getopt.c:775-1022 | reads one option character with its argument, as the scan foresees whose meaning `GetoptCommands.ScanIsYield` gives |
| GetoptRun.Scanner.DecodeLong | src/win_getopt.c:587-769 | reads one long option with its argument, as the scan of the original list foresees |
| GetoptRun.Scanner.Next | src/win_getopt.c:501-570 | one call permutes the arguments and returns the next value of the scan of the original list, or arranges them at the end |
| GetoptRun.Run | src/win_getopt.c:501-570 | over all calls until -1, with or without long options: the returned values are those of every command that the arguments say, its options with their arguments come first and its operands follow from `optind`, both in their original order, and nothing is lost |
| Sections.CarriedDelivered | src/ts.c:122-196 | from any parser state, payloads of any sizes that carry a section, behind any pointer_field and with anything behind its end, deliver it on the last one and nothing before |
| Sections.PayloadsCarry | tests/gen_full.c:214-246 | the fragmenter's payloads are such payloads |
| Sections.SectionDelivered | src/ts.c:122-196 | so the payloads of a fragmented section deliver it |
| Sections.StrayPayloads | src/ts.c:168-171 | without an open section, payloads that start none are ignored and change nothing |
| Sections.StrayAfterSection | src/ts.c:136-182 | after a section, a payload that starts none is ignored if and only if the section took several payloads; otherwise it makes the code deliver stale bytes |
| Sections.SectionsDelivered | src/ts.c:122-196 | the same for any list of sections |
| Sections.FeedWhole | src/ts.c:136-143 | what lies behind packets that hold the length field plays no part |
| Sections.SectionParser.Accept | src/ts.c:129-149 | one PSI packet updates the record in place as the pure form says, also when the length field lies behind the packet; the offset stays within the buffer |
| Demux.EmitSection | tests/gen_full.c:214-246 | the loop emits exactly the packets of the fragmentation |
| Demux.HeaderOf | src/ts.c:287-295 | every packet with a sync byte is a header of the modelled form and a rest |
| Demux.PacketClass | src/ts.c:276-344 | a packet on a PSI PID is recognised with its PID and payload, whatever flags it has and whatever adaptation field stands before the payload |
| Demux.OtherClasses | src/ts.c:283-333 | packets without payload, with reserved control, without sync byte or on the null PID are ignored; a payload on any other PID that is not PSI is left to the PES branch |
| Demux.PidsAreIndependent | src/ts.c:276-344 | what happens on a PSI PID depends on the payloads of that PID only, whatever the PES branch does to the records of other PIDs |
| Demux.PacketsDeliver | src/ts.c:122-344 | under any interleaving each PSI PID delivers exactly the sections its packets carry, in order, each once and with its last packet, whatever the payload sizes and adaptation fields |
| Demux.Reassembly | src/ts.c:122-344 | the same without naming the packets: a PID whose packets carry sections delivers them |
| Demux.FragmentsAreSent | tests/gen_full.c:214-246 | what the fragmenter makes of sections carries them |
| Blocks.MoreBytes | src/ts.c:410-430 | packets of a concatenation are those of the first part, then those of its remainder with the second part |
| Blocks.Splitter.Cut | src/ts.c:411-422 | consumes all whole packets and keeps the rest |
| Blocks.Splitter.Take | src/ts.c:423-428 | completes the carried packet from the next block |
| Blocks.FeedsOne | src/ts.c:423-430 | every input has just one list of blocks that are read with data left after each of them and followed by a failed read, a last block or nothing |
| Blocks.SplitBlocks | src/ts.c:410-430 | the packets handed on are the consecutive packets of the first block and all of these, concatenated |
| Stream.ProcessBlocks | src/ts.c:410-430 | what blocks deliver is what the packets of the concatenated blocks deliver one by one |
| Stream.AnyBlockingDelivers | src/ts.c:276-430 | however a stream of packets is cut into blocks, every PSI PID delivers exactly its sections |
| Descriptors.ParseLoop | src/descriptor.c:62-79 | the cursor loop collects tag and payload of each descriptor |
| Descriptors.RoundTrip | tests/gen_full.c:204-212 | every encoded descriptor list is parsed back, whatever follows it |
| PsiSection.BuildIsSection | tests/gen_full.c:181-202 | a built section has the length its header says |
| PsiSection.BuildChecks | tests/gen_full.c:181-202 | its CRC leaves zero |
| PsiSection.VersionRead | src/table.c:404-427 | version `v` is read as 16 + v / 2, both when checking and when storing |
| PsiSection.UpdateNoticed | src/table.c:404-427 | a built section of version `w` counts as newer than version `v` if and only if w/2 > v/2, or v/2 is 15 and w/2 is not; as the same if and only if the halves are equal |
| PsiSection.WhenNoticed | src/table.c:404-427 | of higher versions only the odd one after an even one is missed; of lower ones only those after 30 or 31 are noticed |
| PsiSection.HeaderOfBuilt | src/table.c:431-528 | every header field and the body bytes of a built single section |
| PsiSection.HeaderOfShort | src/table.c:460-475 | a section in the short form is read with all its bytes, whatever the slot held |
| Pmt.Slot.ParseStreamLoop | src/table.c:713-745 | the loop appends the streams |
| Pmt.Slot.ParsePmt | src/table.c:673-748 | the slot after a section is the function of the slot before it |
| Pmt.StreamsRoundTrip | src/table.c:713-745 | every encoded stream list is parsed back |
| Pmt.SectionRoundTrip | src/table.c:673-748 | a built PMT section gives a fresh slot its program, PCR PID, descriptors and streams |
| Pmt.SlotIsFrozen | src/table.c:503-507 | a slot that has taken a section keeps everything but header fields under any section in the long form |
| Pmt.WhenTaken | src/table.c:455-507 | a section reaches the table if and only if its length is allowed and it is short, or long and the first of the slot |
| Pmt.FirstPmtStays | src/table.c:673-748 | a fresh slot that takes a built PMT keeps its program, PCR PID, descriptors and streams under any later long sections |
| Pmt.SecondCall | src/table.c:948-954 | a PID registered twice gets a section twice; the second call changes nothing |
| Pmt.EndToEnd | src/table.c:673-748 | building, fragmenting, interleaving, reassembling and parsing a PMT gives it back |
| Pat.RepointNodes | src/table.c:579-585 | the traversal repoints the nodes of one program number |
| Pat.ParseEntries | src/table.c:567-597 | the entry loop adds the entries before any 0xFFFF in order |
| Pat.ListIsRight | src/table.c:567-597 | a bit is set if and only if exactly one node has the number; nodes are in order of first appearance and carry the latest PID |
| Pat.Psi.ParsePat | src/table.c:530-600 | the list of tables and the active table after any section; a first section that reads as version 31 is refused and changes nothing |
| Pat.OldVersionsAreIgnored | src/table.c:404-427 | a section of the same or an older version changes no program list |
| Pat.NewVersionsAreListed | src/table.c:541-561 | a newer version is appended, becomes active and describes exactly the entries between header and CRC |
| Pat.RetransmissionIsIdempotent | src/table.c:530-561 | the same section again changes no table, from every state of a run |
| Pat.RunsAreSound | src/table.c:530-600 | over every run the active table is the last one, versions rise unless 31, earlier lists stay, and the tables added hold the accepted sections, one each, in order |
| PatStream.EntriesRoundTrip | tests/gen_full.c:85-107 | encoded entries are read back |
| PatStream.EntriesEnd | src/table.c:576-578 | nothing behind a program number of 0xFFFF is read |
| PatStream.UpdateListed | src/table.c:530-561 | with version `v` active, a built PAT adds a table if and only if its version is noticed; then the table has its programs, otherwise no list changes |
| PatStream.UpdateMissed | src/table.c:404-427 | after version 0, version 1 with any programs leaves the list as it is |
| PatStream.AcceptedAreNoticed | src/table.c:404-427 | the sections that the code accepts from a stream of PATs are those noticed by version_number |
| PatStream.EndToEnd | src/table.c:530-600 | building, fragmenting, interleaving, reassembling and parsing any PATs leaves one table for each noticed one, in order, with its programs |
| Analyzer.PatFold | src/table.c:751-756 | over any run the PATs and the registered PIDs are those of the PAT sections delivered, in order |
| Analyzer.SlotFold | src/table.c:777-781 | over any run the slot of a registered PID is that of the PMT sections delivered on it, in order |
| Analyzer.PassesIsFilter | src/table.c:22-31 | the sections taken for a table are those that agree with its filter in every bit |
| Analyzer.UnregisteredPid | src/ts.c:319-327 | a packet on a PID from 0x20 on that nothing registered changes nothing |
| Analyzer.NewPidsAre | src/table.c:579-596 | the PIDs a PAT registers are those of the first entries of its programs, except that of the NIT |
| Analyzer.MovedPidUnregistered | src/table.c:579-596 | a program listed twice is moved to a PID that is not registered |
| Analyzer.PatsTaken | src/ts.c:276-344 | from the empty state a stream of PATs, with sections of other tables among them, leaves one table for each noticed one and registers exactly their PIDs |
| Analyzer.PmtTaken | src/ts.c:276-344 | the slot of a registered PID shows the first PMT sent on it, whatever sections of other tables come with it and whatever PMTs follow |
| Analyzer.StartUp | src/ts.c:276-344 | from the empty state: PATs, then a PMT on a PID that a noticed PAT registers, fill the slot of that PID, with the PSI PIDs derived along the run |
| Analyzer.FragmentsRun | tests/gen_full.c:214-246 | the fragments of a section on a PSI PID keep the code within its buffers and deliver the section with the last one |
| Analyzer.PatThenPmt | tests/gen_full.c:214-246 | the stream that the fragmenter makes of any PAT and then of a PMT on a PID it registers is such a stream, and fills the slot |
| Filter.IndexNext | src/filter.c:43-61 | one step of the index-building loop |
| Filter.Match | src/filter.c:153-165 | the loop tells whether the section has every bit that the mask sets as the filter has it |
| Filter.Head.Rebuild | src/filter.c:43-61 | the index afterwards agrees with the slots |
| Filter.Head.Register | src/filter.c:74-108 | alloc and set add one slot at the end, or nothing when the PID is full |
| Filter.Head.Lookup | src/filter.c:128-150 | the first slot with these parameters |
| Filter.Head.Unregister | src/filter.c:110-126 | lookup and free with swap-pop |
| Filter.Head.Process | src/filter.c:153-187 | the calls made are those of the linear scan |
| Filter.IndexAgrees | src/filter.c:153-187 | an index entry names the only matching slot, and no entry means no match |
| Filter.DropTakesOne | src/filter.c:110-126 | a removal takes out exactly one registration and keeps the multiset of the others |
| FilterRuns.SlotsInForce | src/filter.c:74-126 | the slots hold exactly the parameters in force: one more for each registration with room, one less for each removal that names them |
| FilterRuns.SlotsAre | src/filter.c:74-126 | every slot holds the parameters and the callback of its own registration |
| FilterRuns.HeldOnce | src/filter.c:74-126 | no registration is in force twice |
| FilterRuns.StaysInForce | src/filter.c:74-126 | a registration for which there was room is in force until its parameters are named for removal |
| FilterRuns.CalledWhen | src/filter.c:153-187 | a callback is called if and only if a registration of it in force agrees with the section bit by bit |
| FilterRuns.CalledInOrder | src/filter.c:168-182 | registered callbacks are called in the order they came |
| FilterRuns.PairMask | src/table.c:895-898 | mask 0xFE takes exactly the two table_ids that differ in the last bit |
| FilterRuns.OpenMask | src/filter.c:157-158 | a mask without bits, or depth 0, takes every section |
| FilterRuns.Dispatch | src/filter.c:74-187 | after every sequence of registrations and removals, for any section long enough for the registered depths, the calls are those of a linear scan, and a callback is among them if and only if a registration of it in force agrees with the section |
| List.AddAfter | include/list.h:184-191 | the ring with the node inserted behind another |
| List.AddBefore | include/list.h:228-235 | the ring with the node inserted before another |
| List.Delete | include/list.h:320-329 | the ring without the node, whose own pointers stay |
| List.Swap | include/list.h:401-411 | the ring with one node replaced |
| List.IsEmpty | include/list.h:263-267 | true exactly for the ring of the head alone |
| List.AppendList | include/list.h:622-636 | the concatenated ring and an empty source, also when either is empty |
| List.PrependList | include/list.h:652-666 | the same in front |
| List.DeleteAll | src/descriptor.c:81-88 | deleting during safe traversal visits every node once in order and ends with an empty ring |
| BitFields.WindowRead | include/ts.h:127-130 | shifting and masking a big-endian window gives a slice of the bit string |
| BitFields.ReadField | include/descriptor.h:465-471 | one member is the next slice, and whole bytes are carried from the bit offset |
| BitFields.ReadFields | include/descriptor.h:464-475 | all members are the consecutive slices; the bit offset stays below 8 and ends at 0 exactly when the widths sum to whole bytes |
| Scte.TimeRoundTrip | src/scte.c:93-107 | every splice_time() comes back |
| Scte.InsertRoundTrip | src/scte.c:109-172 | every splice_insert(), whatever its flags and components, comes back |
| Scte.ScheduleRoundTrip | src/scte.c:24-90 | every splice_schedule(), whatever its events, comes back |
| Scte.EventSpan | src/scte.c:109-172 | an event takes at most 1546 bytes |
| Scte.EventsSpan | src/scte.c:24-90 | the cursor stays within the section |
| Scte.ParseComponents | src/scte.c:133-151 | the component loop collects the components; the counter is the cursor modulo 65536 |
| Scte.ParseInsert | src/scte.c:109-172 | the parsed event, and the length returned is the number of bytes read |
| Scte.ParseSchedule | src/scte.c:24-90 | the parsed events; the length returned is the number of bytes read if and only if that is below 65536, as in every section |

## Left out

- Tables of several sections: the code completes only tables whose last section number is 0 (`src/utils.c:50`, `src/table.c:524`), so the model demands section and last section number 0.
- Sections.SectionParser.Accept: the PES branch is not modelled (`Demux` lets it leave anything in its record), and the buffer, allocated on first use in the code, exists from the start with arbitrary contents.
- Demux.Reassembly: a PID that is an elementary stream at one time of the run and PSI at another is outside the claim, as both branches share its record; so are streams with a packet whose adaptation field or pointer_field points outside the packet (`Demux.Readable`), from which the code would copy a negative length. A PID delivers what is claimed when its packets carry the sections one after the other, each from a packet of its own on that holds its length field; a tail of the previous section before the place that pointer_field names, and any but the first section in a packet, the code drops. The array of 8192 records is a sequence of values; updating one record in place is `Sections.SectionParser`.
- Demux.PacketClass: counters, adaptation-field statistics and clocks are not modelled; which PIDs carry PSI is a parameter here and derived in `Analyzer`.
- Blocks.SplitBlocks: probing for the packet size and the start offset are parameters, and the block fetched by the last read before the loop ends is outside the claim, as the code never processes it.
- Stream.AnyBlockingDelivers: packets of 188 bytes; with the 192- and 204-byte sizes `ts_proc` takes the extra bytes as payload.
- PsiSection.HeaderOfBuilt: the five bytes that the code allocates but does not copy are an arbitrary parameter.
- Pat.Psi.ParsePat: sections are single ones with whole 4-byte entries; registering PMT PIDs is in `Analyzer`.
- Pmt.Slot.ParsePmt: registering callbacks for the streams is not modelled; lists are values here, their pointers are in `List`.
- Analyzer.StartUp: sections of other tables and the PIDs registered for them are parameters; runs on which a delivered PAT or PMT section makes the code read outside it are excluded (`Analyzer.Lawful`); the state is a value, its parts are updated in place in `Sections`, `Pat` and `Pmt`.
- Descriptors.ParseLoop: a descriptor is its tag and payload; the member lists of each descriptor type, the `__m1` and variable-length members and 24-bit fields are data tables for the generic reader and are not modelled.
- BitFields.ReadFields: members of 31 or 32 bits in a 32-bit type and of 64 bits in a 64-bit type are excluded, because the mask is then an undefined shift in C; no descriptor has one.
- JsonWriter.WriteDocument: levels above 14, which no dump code uses; values are given already formatted, so the cut at the formatting buffer's size is not modelled. A key or value is a sequence of characters, as the writer copies all but the escaped ones unchanged; the reader does not combine surrogate pairs, which the writer never produces.
- YamlWriter.WriteDocument: levels above 14, as for JSON; the reader knows the block forms that the writer uses, not the whole of YAML 1.2, and takes an empty node for an empty list.
- YamlWriter.Writer.DedupKey: the growing array of key records is a sequence.
- GetoptRun.Run: `W;`, the two other ordering modes, `getopt_long_only`, `optopt`, the variables that long options set and the error messages are not modelled; PERMUTE mode is demanded of the option string, and POSIXLY_CORRECT is unset.
- Filter.Head.Register: the slot array's growth is a sequence; between `filter_alloc` and `filter_set` the index is stale, so the two are one step as in their callers.
- Scte.ParseSchedule: an allocation of zero events or components is taken to succeed.
- Splice descriptors, whose length accounting does not match the pointer (`src/scte.c:186-209`).
- Subtitles, teletext, ATSC PSIP and the other DVB SI tables: field copying or unfinished decoders.
- Text output, the HTML template around the tree, files, UDP, option text and the Python binding: input, output and user interface.
- Allocation failures: memory is always available.
