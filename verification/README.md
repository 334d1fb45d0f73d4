# wxEDID in Dafny

wxEDID shows a 128-byte EDID base block and a CTA-861 extension block as a two-level tree of groups, lets the
user edit the tree, and assembles it back into bytes.  This project models the parts of it that do the work and
proves what holds of them for every input and every run.

| module | what it models |
|---|---|
| `GroupTree` | guards and edits of the group arrays as functions on trees of groups with cached sizes, offsets and indices |
| `GroupContent` | the plain list of contents behind a tree, and `Render`, which computes every cache from it |
| `GroupEdits`, `GroupRuns`, `GroupLaws` | every guarded edit is a list edit of the contents; whole runs; undo laws; stale offsets |
| `GroupShift`, `GroupScope` | the two places where a guard lets an edit through that breaks the layout, and what holds of runs that go there |
| `GroupBooks`, `GroupCapacity`, `GroupItems` | every guarded run without exception: offsets and counters, exact layout and capacity, the data as an edited list |
| `SubGuards`, `SubPasteTree` | the guards of sub-group edits and what they keep; the whole tree after a sub-group paste |
| `GroupArrays` | the same arrays in place: classes of group and sub-group objects refining `GroupTree` |
| `BlockSplit`, `FlatSplit`, `InfoFrames` | the descriptor-driven splitters of data blocks |
| `DataBlocks` | the class of a block by its tags, the descriptors, strict parsing of one block |
| `BlockBytes`, `FlatBytes`, `CeaBytes` | strict parsing of data blocks and of the whole block said in plain bytes |
| `Assembler`, `CeaImage` | `AssembleEDID`, and the closed form of the block it writes |
| `CeaParser`, `CeaTiling`, `FarTimings` | `ParseEDID_CEA` in strict mode, what its acceptance means, and timings read from behind the block |
| `RoundTrip`, `EditRoundTrip`, `ShiftedBlock`, `EditSession`, `AnySession` | parse-assemble, assemble-parse, and the whole session parse-edit-assemble-parse |
| `BaseBlock`, `Checksums` | the base block, checksums, assembly with checksums |
| `DtdCodec`, `HexText`, `RcodeSearch` | detailed-timing fields, hex strings and hex files, the table search of rcode messages |

The central idea: a tree is correct when it is `Render(cs)` for some list of contents `cs`.  Each edit function
copies what the C++ does to the caches step by step; the lemmas prove that the result is again a rendering, of the
list a reader would expect.  Loops of the source are methods proved equal to a recursive function; what the source
promises is then proved of that function.

Where the code differs from the obvious claim, the model follows the code and a lemma says exactly when the claim holds:

- Below a lone header `InsertDn` places the group at offset 5 instead of 4, and from then on every group of the tree
  is cached one byte too far (`GroupShift.RunShifts`).  A DTD offset stored from such a tree makes the block unreadable, so a session
  whose header ever stood alone before an edit never comes back (`AnySession.AnySessionReparse`).
- The guard of `InsertDn` for sub-groups looks at the next sub-group only, so it lets a part be added behind the fixed parts
  of a VDDD block, which has no header part to hold it; the layout is gone (`GroupScope.VdddTakesPart`).  Runs keep the
  layout at every step exactly if they avoid these two places (`GroupScope.RunScopeExact`).  The bytes of such parts are
  counted twice, so two guarded edits can overdraw the space left (`GroupCapacity.TwoPartsOverdraw`); the exact condition on a
  run is `GroupCapacity.RunCapacityExact`.
- The number of timings that fit is computed by an unsigned division.  When the data blocks end behind the extension block the
  space left is negative, the quotient is huge, and timings are read from the following blocks up to a zero pixel clock
  (`FarTimings.TimingsBehind`, `FarTimings.OverlongParses`).
- Sub-group edits leave the sub-groups of later blocks with stale absolute offsets whenever the block changes size
  (`GroupLaws.LaterBlocksGoStale`); undoing an edit restores those offsets only if none was stale (`GroupLaws.MoveUndo`, `GroupLaws.CutUndo`).
- Pasting a sub-group moves its parent block to the sub-group's own offset (`GroupLaws.SubPasteMisplaces`).
- After a sub-group edit the stored block length omits the tag byte of two-byte headers (`GroupLaws.StoredLength`), and the
  block is not read again (`AnySession.ShortBlockLost`).
- Without a DTD the stored DTD offset is 0, so the data blocks are not read again; a block that an empty VDDD part
  ends at byte 126 is parsed but not assembled (`RoundTrip.ParseThenAssemble`, `EditRoundTrip.AssembledReparses`).
- The table search finds every key exactly when half the table size has at most two bits set (`RcodeSearch.Completeness`).
- Hex import loses byte 127 when byte 126 is zero (`HexText.FileRoundTrip`).

Check everything with `dafny verify dfyconfig.toml`.

## Model

| member | source | states |
|---|---|---|
| `GroupContent.UpdRelRenders` | src/grpar.cpp:33-48 | from any sub-group on, UpdateRelOffs makes every cached offset and index the prefix-sum one |
| `GroupContent.UpdAbsRenders` | src/grpar.cpp:52-88 | UpdateAbsOffs from group i completes a tree that is right before i to the full rendering, with or without sub-group updates |
| `GroupShift.UpdAbsFromHeader` | src/grpar.cpp:52-88 | UpdateAbsOffs from index 0 leaves every group but the header one byte behind its place |
| `GroupContent.CalcRenders` | src/grpar.cpp:336-361 | the counters CalcDataSZ computes are the bytes the contents occupy and what is left of 127 |
| `GroupEdits.CutRenders` | src/grpar.cpp:90-144 | Cut and Delete of any block equal list removal, with all offsets, sizes and counters |
| `GroupEdits.PasteRenders` | src/grpar.cpp:107-128 | Paste of any well-formed block equals list update |
| `GroupEdits.MoveDnRenders` | src/grpar.cpp:146-165 | moving a block equals swapping two neighbours |
| `GroupEdits.InsertUpRenders` | src/grpar.cpp:167-179 | insertion above equals list insertion |
| `GroupEdits.InsertDnRenders` | src/grpar.cpp:181-192 | insertion below, also by way of insert-then-move behind the last group, equals list insertion at i+1 |
| `GroupEdits.InsertDnBelowLoneHeader` | src/grpar.cpp:181-192 | with only the header in the array the same edit puts the group at offset 5, not 4: no list insertion |
| `GroupEdits.SubCutRenders` | src/grpar.cpp:600-626 | cutting a sub-group equals list removal inside the block, its new length and size, and the shift of later blocks |
| `GroupEdits.SubInsertUpRenders` | src/grpar.cpp:710-734 | inserting a sub-group above equals list insertion inside the block |
| `GroupEdits.SubInsertDnRenders` | src/grpar.cpp:736-747 | inserting a sub-group below equals list insertion at k+1, also behind the last |
| `GroupEdits.SubMoveDnRenders` | src/grpar.cpp:685-708 | moving a sub-group equals swapping two neighbours; nothing else changes |
| `GroupRuns.MoveGuardExact` | src/grpar.cpp:393-438 | two neighbours may change places exactly when both are blocks and the DTDs stay last, seen from either of them |
| `GroupRuns.InsertDnGuardExact` | src/grpar.cpp:488-533 | a block may go below a group exactly when its type is insertable, it fits and the DTDs stay last |
| `GroupRuns.InsertUpGuardExact` | src/grpar.cpp:446-486 | a block may go above a group exactly when its type is insertable, it fits, and both or neither are DTDs |
| `GroupRuns.PasteGuardExact` | src/grpar.cpp:281-310 | a block may be replaced exactly by one of its own type that fits into the space left |
| `GroupRuns.CutGuardExact` | src/grpar.cpp:312-334 | every block may be cut or deleted, the header may not |
| `GroupRuns.StepRefines` | src/grpar.cpp:194-334 | any edit its guard allows, in the scope that `GroupScope.StepLayoutExact` shows to be exact, refines the list edit and keeps contents good: header first, all blocks well-formed, at most 127 bytes, DTDs last |
| `GroupRuns.RunRefines` | src/grpar.cpp:90-192 | the same for every run of edits in that scope |
| `GroupRuns.RunKeepsLayout` | src/grpar.cpp:33-192 | after every run in that scope: offsets are prefix sums of sizes, relative = absolute mod 128, indices are positions, sub-groups tile their block, used + free are the capacities and free >= 0 on both levels, header first, data blocks before DTDs |
| `GroupScope.StepLayoutExact` | src/grpar.cpp:488-598 | a guarded edit of a good tree keeps the layout if and only if it is neither an insertion below a lone header nor one into a block without a header part |
| `GroupScope.RunScopeExact` | src/grpar.cpp:90-192 | any run of guarded edits keeps the layout at every step if and only if all its edits are in scope |
| `GroupScope.FlatOnlyAppends` | src/grpar.cpp:570-598 | in a block without a header part the guards admit insertion behind the last part and nothing else |
| `GroupScope.AppendGuardExact` | src/grpar.cpp:570-598 | insertion behind the last sub-group is allowed exactly for a sub-group that fits on both levels and has the same parent type; whether the last one is fixed does not matter |
| `SubGuards.AboveGuardExact` | src/grpar.cpp:548-568 | a sub-group may go above a part exactly if it fits on both levels, that part is not fixed, and tag and extended tag are those of the part |
| `SubGuards.BelowGuardExact` | src/grpar.cpp:570-598 | below a part exactly if it may go above the next one; behind the last if it fits and has its tag and extended tag |
| `SubGuards.PartMoveExact` | src/grpar.cpp:194-238 | two neighbouring parts may change places exactly if neither is fixed, seen from either of them |
| `SubGuards.PartCutExact` | src/grpar.cpp:312-334 | a part may be cut exactly if it is not fixed |
| `SubGuards.InsertableExact` | src/grpar.cpp:446-533 | the blocks that may be inserted are those without an extended tag |
| `SubGuards.ParsedRunAkin` | src/grpar.cpp:548-598 | after any guarded run from a strictly parsed block every part of every block carries the tag and the extended tag of its block |
| `GroupScope.VdddTakesPart` | src/grpar.cpp:570-598 | any strictly parsed VDDD block behind a header takes 1 to 30 bytes of unknown data behind its fixed parts, and the layout does not hold afterwards |
| `GroupShift.LoneHeaderShifts` | src/grpar.cpp:181-192 | insertion below a lone header equals list insertion shifted by one byte |
| `GroupShift.StepShifts` | src/grpar.cpp:90-192 | every guarded edit of a shifted or unshifted tree, sub-groups edited in blocks with a header part, is the list edit, shifted as before or from a lone header on |
| `GroupShift.RunShifts` | src/grpar.cpp:90-192 | the same for whole runs: shifted exactly if the header stood alone before one of the edits |
| `GroupShift.RunLayoutExact` | src/grpar.cpp:33-192 | after such a run the layout holds if and only if the header never stood alone before an edit or stands alone now; the order of header, data blocks and DTDs holds always |
| `GroupBooks.UpdatedBooks` | src/grpar.cpp:52-88 | from any group behind the header on, UpdateAbsOffs makes the offsets sums of the cached sizes again, one byte too far or not as they were before it, and leaves the data and the counted bytes alone |
| `GroupCapacity.StepBooks` | src/grpar.cpp:90-192 | any guarded edit at all keeps right books and the order of types, and the space left afterwards is that before less what the new groups or bytes count and plus what the old ones counted |
| `GroupCapacity.RunBooks` | src/grpar.cpp:33-192 | the same for every run of guarded edits, parts added to VDDD blocks and insertion below a lone header included |
| `GroupCapacity.AnyRunLayoutExact` | src/grpar.cpp:33-192 | after any run of guarded edits all counters are right, no block is overdrawn and the types are in order; the layout holds if and only if no block without a header part has bytes in its parts, and the header never stood alone before an edit or stands alone now |
| `GroupCapacity.StepCapacityExact` | src/grpar.cpp:534-598 | if the space left was not negative before a guarded edit, it is not afterwards if and only if the edit puts no part into a block without a header part, or twice the bytes of all its parts then are at most the space left plus what the block counted before |
| `GroupCapacity.RunCapacityExact` | src/grpar.cpp:336-361 | over any run of guarded edits the space left is never negative if and only if every edit meets that condition |
| `GroupCapacity.UsableNeverOverdrawn` | src/grpar.cpp:336-361 | so it never is while sub-groups are edited in blocks with a header part only, whether the header stood alone or not |
| `GroupCapacity.TwoPartsOverdraw` | src/grpar.cpp:570-598 | with one byte left, parts of 1 and 29 bytes pass the guards one after the other behind the parts of any flat 32-byte block of an extended type, and the space left is -27 |
| `GroupCapacity.OverdrawnExample` | src/grpar.cpp:570-598 | such a block exists: any strictly parsed VDDD block behind a header and before five timings |
| `GroupItems.StepItems` | src/grpar.cpp:90-192 | any guarded edit of any tree, well-formed or not, edits types, bytes, sizes and parts as a plain list |
| `GroupItems.AnyRunRefines` | src/grpar.cpp:90-192 | after any run of guarded edits of a good tree the data are those of the edited list and the books are right |
| `GroupItems.BooksDetermine` | src/grpar.cpp:33-88 | right books and equal data mean equal offsets, indices, sizes and counters, the absolute offsets of sub-groups excepted |
| `GroupLaws.TopEditInStep` | src/grpar.cpp:52-88 | the tree after any guarded top-level edit has, from the edited position on, sub-group offsets that agree with their blocks |
| `GroupLaws.MoveUndo` | src/grpar.cpp:146-165 | MoveUp(i+1) after MoveDn(i) is allowed and restores the whole state exactly when no sub-group offset from i on was stale; otherwise those are refreshed |
| `GroupLaws.CutUndo` | src/grpar.cpp:90-179 | InsertUp(i) of the group just cut restores sequence, offsets and counters when a successor exists, with the same exact condition |
| `GroupLaws.SubEditKeepsStep` | src/grpar.cpp:600-747 | in the edited block the sub-group offsets agree with the block after the edit exactly when they did before |
| `GroupLaws.LaterBlocksGoStale` | src/grpar.cpp:600-747 | a later block in agreement stays so exactly when the edited block kept its size |
| `GroupLaws.SubPasteMisplaces` | src/grpar.cpp:628-656 | sub-group paste gives the parent the sub-group's absolute offset, beyond its own place |
| `SubPasteTree.SubPasteWhole` | src/grpar.cpp:628-656 | the whole tree after a sub-group paste: the parts with one type and its bytes replaced, their relative offsets moved by the growth and their absolute ones in step with the misplaced block, sizes, length field and counters of the new parts, every later block moved by misplacement and growth with its parts in step, earlier ones untouched |
| `GroupLaws.StoredLength` | src/EDID_shared.h:377-385 | after inserting or cutting sub-groups the 5-bit length holds the payload length uncut beside the old tag; it spans the block exactly for one-byte headers |
| `GroupArrays.BlkGrp.UpdateRelOffs` | src/grpar.cpp:33-48 | the loop over sub-group objects in place equals the tree function |
| `GroupArrays.BlkGrp.RemoveSub` | src/grpar.cpp:600-618 | detaching a sub-group object, new offsets, sizes and length field of the block |
| `GroupArrays.BlkGrp.InsertSub` | src/grpar.cpp:710-729 | inserting a sub-group object, new offsets, sizes and length field of the block |
| `GroupArrays.CeaGrpAr.UpdateAbsOffs` | src/grpar.cpp:52-88 | the loop over group objects in place equals the tree function; no group gains or loses a sub-group |
| `GroupArrays.CeaGrpAr.CalcDataSZ` | src/grpar.cpp:336-361 | the nested summing loops; changes the counters only |
| `GroupArrays.CeaGrpAr.Cut` | src/grpar.cpp:90-105 | the new array, and the group taken out keeps its whole state |
| `GroupArrays.CeaGrpAr.Paste` | src/grpar.cpp:107-128 | replaces the object at i |
| `GroupArrays.CeaGrpAr.InsertUp` | src/grpar.cpp:167-179 | inserts the object at i |
| `GroupArrays.CeaGrpAr.InsertDn` | src/grpar.cpp:181-192 | inserts the object at i+1, the last position included |
| `GroupArrays.CeaGrpAr.MoveDn` | src/grpar.cpp:152-165 | swaps two objects by detach and insert |
| `GroupArrays.CeaGrpAr.MoveUp` | src/grpar.cpp:146-150 | swaps with the object above |
| `GroupArrays.CeaGrpAr.SubCut` | src/grpar.cpp:600-626 | the whole tree after cutting a sub-group object |
| `GroupArrays.CeaGrpAr.SubPaste` | src/grpar.cpp:628-656 | the whole tree after pasting one, with the offset handed to the parent |
| `GroupArrays.CeaGrpAr.SubInsertUp` | src/grpar.cpp:710-734 | the whole tree after inserting one |
| `GroupArrays.CeaGrpAr.SubInsertDn` | src/grpar.cpp:736-747 | the whole tree after inserting one below, the last position included |
| `GroupArrays.CeaGrpAr.SubMoveDn` | src/grpar.cpp:691-708 | the whole tree after moving one down |
| `BlockSplit.WalkConserves` | src/CEA_class.cpp:1390-1453 | the sub-groups cut so far and the rest are the payload, at every descriptor, whatever faults occur |
| `BlockSplit.RootConserves` | src/CEA_class.cpp:1348-1453 | header bytes and sub-groups in order, the unknown one included, are the block, in strict and in error-ignoring mode |
| `BlockSplit.SpawnSubGroups` | src/CEA_class.cpp:1391-1425 | the two nested loops, ended by the falling number of bytes left although a count may be 2^32-1, yield that walk with prefix-sum offsets |
| `BlockSplit.AppendUnkDat` | src/EDID_class.cpp:3197-3213 | leftover bytes become one more sub-group at the running offset |
| `BlockSplit.InitRootGrp` | src/CEA_class.cpp:1348-1453 | the group filled in is the rendering of the contents at its offset, with the total size the header byte gives, also for a block that ends inside its header; or the block is refused |
| `BlockSplit.InitSub` | src/CEA_EXT_class.cpp:861-937 | a variable-length sub-group takes at least one byte and never more than is left |
| `BlockBytes.VideoBlock` | src/CEA_class.cpp:846-880 | in bytes: strict mode takes any video block with a payload, one sub-group for each byte |
| `BlockBytes.AudioBlock` | src/CEA_class.cpp:330-393 | in bytes: exactly the audio blocks of whole three-byte descriptors, at least one, each with a format code |
| `BlockBytes.ExtVideoBlock` | src/CEA_EXT_class.cpp:999-1105 | in bytes: preferred formats and 4:2:0 video, one sub-group for each byte behind the tags, at least one |
| `BlockBytes.RoomBlock` | src/CEA_EXT_class.cpp:1423-1450 | in bytes: room configuration has twelve bytes, and sub-groups of 1, 3, 3 and 3 |
| `BlockBytes.LocationBlock` | src/CEA_EXT_class.cpp:1536-1612 | in bytes: accepted with sub-groups ds exactly when they are speaker locations of two bytes, or five by bit 6, that make up the payload |
| `BlockBytes.MetadataBlock` | src/CEA_EXT_class.cpp:863-960 | in bytes: accepted with sub-groups ds exactly when they are dynamic metadata of declared length + 1 that make up the payload; only the last needs a length that suits its type, and it may be cut short |
| `BlockBytes.IgnoringAudio` | src/CEA_class.cpp:1348-1453 | with errors ignored: the descriptors an audio block begins with, the rest as one part of unknown data, and 32 bytes kept |
| `FlatSplit.LayTiles` | src/CEA_class.cpp:1574-1621 | through nested flexible groups running offset + remaining length stays constant and the byte ranges of the field groups tile what lies between |
| `FlatSplit.FlatTiles` | src/CEA_class.cpp:1456-1572 | the byte ranges of the known field groups and the unknown-byte fields cover the block behind its header, each byte once |
| `FlatSplit.InitFlatGrp` | src/CEA_class.cpp:1456-1572 | the loops compute that layout |
| `FlatBytes.PlainFlatBlock` | src/CEA_class.cpp:1107-1290 | in bytes: which lengths strict mode takes of vendor specific, speaker allocation and transfer characteristic blocks, and their types |
| `FlatBytes.ExtFlatBlock` | src/CEA_EXT_class.cpp:78-130 | in bytes: the same for the six extended tags of flat blocks |
| `FlatBytes.DisplayBlock` | src/CEA_EXT_class.cpp:405-470 | in bytes: a VESA display device block has 32 bytes and five fixed parts without bytes |
| `FlatBytes.OtherBlock` | src/EDID_class.cpp:149-252 | every other tag, extended tag, and a missing second byte is refused |
| `FlatBytes.VendorFields` | src/CEA_class.cpp:1067-1120 | which bytes of a vendor specific block are shown by which group of fields, and which are unknown |
| `FlatBytes.FixedFields` | src/CEA_class.cpp:1456-1572 | the same for six other classes; `FlatBytes.MetadataFields` for static metadata |
| `InfoFrames.IfdbAccepts` | src/CEA_EXT_class.cpp:1714-1825 | the walk succeeds with sub-groups ds exactly when ds is a processing descriptor followed by short descriptors that tile the whole block |
| `FlatBytes.FrameBlock` | src/CEA_EXT_class.cpp:1714-1825 | in bytes: accepted with sub-groups ds exactly when they are a processing descriptor and short ones that make up the payload, with their types |
| `FlatBytes.IgnoringFrames` | src/CEA_EXT_class.cpp:1714-1825 | with errors ignored: the descriptors as far as they are complete, then the rest as one part of unknown data |
| `InfoFrames.IfdbConserves` | src/CEA_EXT_class.cpp:1714-1825 | the two header bytes and all sub-groups are the block, short blocks included, except where strict mode stops at a bad type code |
| `InfoFrames.WalkIfdb` | src/CEA_EXT_class.cpp:1752-1812 | the loop ends, offset + bytes left stays the block length, sub-groups carry prefix-sum offsets |
| `InfoFrames.InitIfdbGrp` | src/CEA_EXT_class.cpp:1714-1825 | the group filled in is the rendering of the contents; a short block in error-ignoring mode counts 32 bytes, and where strict mode stops the counters stay 0 |
| `DataBlocks.StrictKeepsBytes` | src/EDID_class.cpp:255-290 | a block accepted in strict mode becomes a well-formed data block that holds exactly its bytes |
| `DataBlocks.AvReparses` | src/CEA_class.cpp:330-341 | an audio or video block parses back to itself exactly when it has sub-groups, all well-formed, and its header byte holds their tag and length |
| `DataBlocks.InitBlock` | src/EDID_class.cpp:149-252 | dispatch by tag and extended tag, then init of the class found: the rendering of the strict contents, or failure |
| `CeaParser.ParseDbcs` | src/EDID_class.cpp:334-372 | the data block loop with its collision and end tests yields the rendered blocks up to the DTD offset, or fails |
| `CeaParser.CountDtds` | src/EDID_class.cpp:382-385 | the number of records left: the quotient in the block, and more than the buffer holds behind it, where the unsigned division sees a huge number |
| `CeaParser.ParseDtds` | src/EDID_class.cpp:374-455 | mandatory and further DTDs, in or behind the block: fails exactly when the run of timings is shorter than the native number, else appends the whole run; says exactly when the loop leaves the buffer |
| `CeaParser.PaddingIsZero` | src/EDID_class.cpp:457-471 | true exactly when all bytes up to the checksum are zero |
| `CeaParser.ParseEdidCea` | src/EDID_class.cpp:293-480 | the whole strict parse over the buffer, for every DTD offset, is ParsedTree, and it reads behind the buffer exactly if LeavesBuffer holds |
| `CeaTiling.AcceptedIsTiled` | src/EDID_class.cpp:334-472 | for every DTD offset from 4 on strict acceptance yields a tiling by accepted blocks of length 1 + blk_len up to the offset, the last of them starting inside the block, the longest run of fitting timings with at least the native ones, and zeros, or behind the block a zero pixel clock; the groups are those parts |
| `CeaTiling.TiledIsAccepted` | src/EDID_class.cpp:334-472 | every such tiling is accepted |
| `CeaTiling.OneTiling` | src/EDID_class.cpp:334-472 | a block has at most one |
| `CeaBytes.GoodBytesParse` | src/EDID_class.cpp:293-480 | in bytes: data blocks from byte 4 up to the DTD offset, timings with one of two clock bytes not zero, then a record with both zero or none that fits, at least the native ones, and zeros: accepted, and the groups hold those bytes |
| `CeaBytes.ParsedBytes` | src/EDID_class.cpp:293-480 | nothing else is accepted with a DTD offset from 4 on |
| `CeaBytes.ShortOffset` | src/EDID_class.cpp:318-325 | of the offsets 0 to 3 only 0 is accepted, and only the header is read |
| `FarTimings.TimingsBehind` | src/EDID_class.cpp:382-455 | with a DTD offset of 128 or more every timing of the tree is a record of a following block, with its offset there, up to the first zero pixel clock, and the free space is negative |
| `FarTimings.OverlongParses` | src/EDID_class.cpp:382-455 | data blocks up to offset 128, no native timing or one, and a next block beginning with 02 03: that block's first 18 bytes become a timing at buffer offset 256 |
| `FarTimings.ZeroTailInside` | src/EDID_class.cpp:433-455 | in a buffer that is zero at its end, as after the import of at most four blocks into a cleared one, parsing never leaves the buffer |
| `FarTimings.BehindNeverAssembles` | src/EDID_class.cpp:745-778 | a tree with such timings is never assembled |
| `Assembler.SetDtdOffset` | src/EDID_class.cpp:679-723 | the loop stores the cached offset of the first DTD, or 0 |
| `Assembler.AssembleGroups` | src/EDID_class.cpp:745-778 | the loop over groups and sub-groups, with its early failure, is Place |
| `Assembler.AssembleCeaBlock` | src/EDID_class.cpp:783-793 | copying, DTD offset, clearing of unused bytes |
| `Assembler.AssembleEdid` | src/EDID_class.cpp:725-802 | both blocks in order; a base block that is not full fails |
| `Assembler.PlaceSucceeds` | src/EDID_class.cpp:751-776 | copying succeeds exactly when the last piece, also an empty one, starts before the room ends |
| `CeaImage.AssemblesImage` | src/EDID_class.cpp:725-793 | for every good tree assembly succeeds unless an empty part ends a full block, and the 128 bytes written depend on the contents only, not on the buffer |
| `CeaImage.LandsAtCachedOffset` | src/EDID_class.cpp:3031-3035 | every group's bytes land exactly at its cached relative offset, end where the next begins, and only zeros follow the last |
| `CeaImage.SubLandsAtCachedOffset` | src/EDID_class.cpp:766-776 | in a block with a header part the bytes of each sub-group land at the block's offset plus its own cached relative offset |
| `CeaImage.DtdRunAt` | src/EDID_class.cpp:692-710 | the stored DTD offset is the start of one contiguous run of 18-byte DTDs |
| `RoundTrip.ParseThenAssemble` | src/EDID_class.cpp:293-480 | for DTD offsets 4..127 parse then assemble reproduces the whole buffer if there is a DTD; without one exactly byte 2 becomes 0, and assembly fails exactly when an empty part ends at byte 126 |
| `RoundTrip.HeaderOnlyAssembles` | src/EDID_class.cpp:318-320 | for DTD offset 0 assembly clears bytes 4..126 and changes nothing else, so the buffer comes back if and only if they were zero |
| `EditRoundTrip.AssembledRereads` | src/EDID_class.cpp:725-793 | whatever good contents are assembled, the block parses to the same groups if and only if it is a lone header, or every data block parses by itself and its DTDs are at least one, at least the native ones, and all have a pixel clock |
| `EditRoundTrip.AssembledReparses` | src/EDID_class.cpp:725-793 | an assembled block parses to the same groups if and only if it is a lone header, or no audio or video block was emptied and its DTDs are at least one, at least the native ones, and all have a pixel clock |
| `ShiftedBlock.AssemblesShifted` | src/EDID_class.cpp:679-710 | assembly of a shifted tree succeeds when that of the tree itself does, and differs in the stored DTD offset only |
| `ShiftedBlock.ShiftedNeverParses` | src/EDID_class.cpp:334-372 | with the DTD offset a shifted tree stores no block with a DTD is accepted again |
| `EditSession.SessionReady` | src/grpar.cpp:600-747 | every run of guarded, fitting edits of a parsed block keeps the header and leaves only blocks that parse by themselves, or emptied ones; the tree is the rendering of the edited contents, shifted if the header ever stood alone before an edit |
| `AnySession.AnySessionReparse` | src/EDID_class.cpp:293-480 | parse with a DTD offset of 0 or 4..127, any guarded edits, those of sub-groups in blocks with a header part, assemble, any checksum, parse again: the same tree of types, indices, offsets, sizes, sub-groups and bytes comes back if and only if the header stands alone, or never stood alone before an edit and the condition of `EditRoundTrip.AssembledRereads` holds |
| `AnySession.EditAssembleReparse` | src/EDID_class.cpp:293-480 | for fitting edits the condition is that of `EditRoundTrip.AssembledReparses`: no audio or video block was emptied, and the DTDs are at least one, at least the native ones, and all have a pixel clock |
| `AnySession.ShortBlockLost` | src/EDID_shared.h:377-385 | after a sub-group was inserted into a block with a two-byte header or cut from it, that condition fails |
| `BaseBlock.ParseEdidBase` | src/EDID_class.cpp:482-583 | the parse with its two loops yields the 18 groups at their offsets, or fails on a bad header pattern |
| `BaseBlock.BaseAccepted` | src/EDID_class.cpp:489-498 | a base block is accepted exactly with its eight header bytes |
| `BaseBlock.BaseTable` | src/EDID_class.cpp:499-577 | place, size, type and bytes of the 18 groups |
| `BaseBlock.DescriptorType` | src/EDID_class.cpp:585-640 | the type of a descriptor: a timing if one of its clock bytes is not zero, else by its fourth byte |
| `BaseBlock.BaseAssemblesExact` | src/EDID_class.cpp:745-785 | base groups are assembled exactly if their last piece starts before byte 126 and their bytes reach it |
| `BaseBlock.AssemblesBase` | src/EDID_class.cpp:1389-1400 | any base groups that fill the block are assembled into their image, whatever the buffer held |
| `BaseBlock.BaseIdentity` | src/EDID_class.cpp:482-583 | every accepted base block is assembled into the bytes it was read from; used is 126 and free 0 |
| `Checksums.VerifyChksum` | src/EDID_class.cpp:648-658 | true exactly for an existing block whose bytes sum to 0 mod 256 |
| `Checksums.GenChksum` | src/EDID_class.cpp:660-672 | writes the checksum byte and nothing else; 0x100 is cut to 0 |
| `Checksums.VerifiesIffSealed` | src/EDID_class.cpp:648-672 | a block verifies exactly when its last byte is the generated checksum |
| `Checksums.AssembleEdidMain` | src/wxEDID_Main.cpp:2325-2397 | assembly, checksums of the base block and the declared extensions, refreshed copies in the header groups; CEA groups are needed only if an extension is declared |
| `Checksums.SecondPassIsIdle` | src/wxEDID_Main.cpp:2334-2378 | for every EDID, without extension too: the pass succeeds if and only if at most three extensions are declared and a valid CEA block fits; then every declared block verifies, and a second pass changes neither buffer nor groups |
| `Checksums.PassInFull` | src/wxEDID_Main.cpp:2325-2378 | what a successful pass leaves: both images, renewed checksums in the declared blocks only, everything else in the buffer as it was, and the checksum copies in the two header groups |
| `DtdCodec.FieldsPartition` | src/EDID.h:182-214 | every bit-field of the 18 bytes belongs to exactly one of the 19 fields |
| `DtdCodec.ReadHandler` | src/EDID_class.cpp:2133-2162 | the value of a field, split fields put together from their two bit-fields |
| `DtdCodec.WriteHandler` | src/EDID_class.cpp:2133-2162 | the record after an integer write of a field, in place |
| `DtdCodec.WriteThenRead` | src/EDID_class.cpp:2102-2433 | the written field reads its value cut to its width, every other field is untouched |
| `DtdCodec.RunReadsLast` | src/EDID_class.cpp:2102-2433 | after any run of writes every field reads its own last written value |
| `DtdCodec.FieldsDetermine` | src/EDID.h:182-214 | the 19 values determine the 18 bytes |
| `DtdCodec.Bijection` | src/EDID.h:182-214 | any in-range values are the fields of one record, and encoding the fields of a record gives it back |
| `DtdCodec.PlainClock` | src/EDID.h:182-184 | the pixel clock is bytes 0 and 1, low byte first |
| `DtdCodec.PlainPixels` | src/EDID.h:186-189 | active and blank pixels in bytes 2, 3 and the two halves of 4 |
| `DtdCodec.PlainLines` | src/EDID.h:191-194 | active and blank lines in bytes 5, 6 and the two halves of 7 |
| `DtdCodec.PlainHsync` | src/EDID.h:196-204 | horizontal sync offset and width in bytes 8, 9 and bits of 11 |
| `DtdCodec.PlainVsync` | src/EDID.h:198-202 | vertical sync offset and width in the halves of byte 10 and bits of 11 |
| `DtdCodec.PlainSize` | src/EDID.h:206-209 | the image size in bytes 12, 13 and the two halves of 14 |
| `DtdCodec.PlainBorders` | src/EDID.h:210-211 | the borders are bytes 15 and 16 |
| `DtdCodec.PlainModes` | src/EDID.h:162-177 | interlace, stereo mode and interleaving are bits 7, 6..5 and 0 of byte 17 |
| `DtdCodec.PlainSyncs` | src/EDID.h:162-177 | the sync types are bits 1, 2 and 4..3 of byte 17 |
| `DtdCodec.WriteExact` | src/EDID_class.cpp:2102-2433 | a write leaves exactly the record whose field holds the value cut to its width and whose other fields are as before |
| `HexText.RdByteStrLE` | src/EDID_class.cpp:1100-1111 | the string of a field: "0x", then its bytes from the highest down |
| `HexText.WrByteStrLE` | src/EDID_class.cpp:1139-1176 | the checks, the digit loop and the zero fill, in place |
| `HexText.ReadWriteIdentity` | src/EDID_class.cpp:1100-1176 | writing back what was read is the identity for every non-empty field |
| `HexText.WriteKeepsValue` | src/EDID_class.cpp:1139-1176 | any even-length hex string that fits is accepted and the field then holds its numeric value, high bytes zero |
| `HexText.ExportHex` | src/wxEDID_Main.cpp:2179-2184 | the export loop with its line feeds |
| `HexText.ImportHex` | src/wxEDID_Main.cpp:2282-2315 | the import loop over a cleared buffer stores what the scan reads and nothing else |
| `HexText.FileRoundTrip` | src/wxEDID_Main.cpp:2282-2315 | import recovers exported bytes through any junk before and between the pairs; exactly bytes 0..126 if byte 126 is zero |
| `HexText.DumpIsDecorated` | src/wxEDID_Main.cpp:2179-2184 | an exported file is such a text, and its length is accepted for one to four blocks |
| `HexText.DumpInFull` | src/wxEDID_Main.cpp:2179-2184 | byte k stands at character 2k + k/16 + k/128 in two upper-case digits, with line feeds only up to the next |
| `HexText.BadPairRefused` | src/wxEDID_Main.cpp:2282-2302 | behind any exported bytes a digit followed by neither a digit nor a NUL makes the import fail |
| `HexText.RefusedHasBadPair` | src/wxEDID_Main.cpp:2282-2302 | an import that fails has met such a digit |
| `HexText.WriteAccepts` | src/EDID_class.cpp:1139-1176 | which strings are accepted for a field, and that a wrong prefix or length leaves it alone |
| `RcodeSearch.BinSearch` | src/rcode/rcd_fn.tmp.c:36-67 | terminates, a hit has the wanted key, every index looked at is in the table or the one cell behind it, and within popcount(m) .. 2m - popcount(m) while the search halves |
| `RcodeSearch.FindsTarget` | src/rcode/rcd_fn.tmp.c:36-67 | the distance to a present key never exceeds jmp - popcount(jmp) + 2, so it is found, by looking at keys of the table only |
| `RcodeSearch.Completeness` | src/rcode/rcd_fn.tmp.c:36-67 | every present key is found without reading behind the table if and only if half the table size has at most two bits set |

## Left out

- Sub-group InsertInto and runs with sub-group Paste: Paste breaks the layout (its one-step effect is proved); InsertInto sets no back pointers.
- GroupRuns.RunRefines: leaves out parts added to VDDD blocks and insertion below a lone header, as do `GroupRuns.StepRefines` and `GroupRuns.RunKeepsLayout`; `GroupItems.AnyRunRefines`, `GroupCapacity.AnyRunLayoutExact` and `GroupCapacity.RunCapacityExact` say what every guarded run leaves.
- GroupEdits.SubInsertDnRenders: speaks of blocks with a header part; insertion into other blocks is covered by `GroupItems.StepItems` and `GroupCapacity.StepBooks`.
- GroupShift.RunShifts: leaves out parts added to VDDD blocks, as do `GroupShift.StepShifts` and `GroupShift.RunLayoutExact`; the same lemmas of `GroupItems` and `GroupCapacity` cover them.
- Assembly of trees in which a VDDD block has bytes in its parts.
- Parent pointers and array back pointers: the receiver of a method of `GroupArrays` stands for them, and an inserted sub-group array is taken to know its parent array.
- GroupArrays.CeaGrpAr.SubCut: it asks that the cached index of the block is its position, which `GroupRuns.RunKeepsLayout` proves of every run; so do the other sub-group edits.
- Insertion, cut and paste sources are arbitrary well-formed groups; Clone and the clipboard are not part of this model.
- Error-ignoring mode of ParseEDID_CEA; of the splitters it is modelled.
- RoundTrip.ParseThenAssemble: starts from DTD offsets 4..127; offset 0 is `RoundTrip.HeaderOnlyAssembles`, timings behind the block are `FarTimings.BehindNeverAssembles`, and data blocks that end behind the block without a timing there are parsed but not assembled again.
- CeaParser.ParseEdidCea: the size type of the division is taken to have 64 bits; with 32 bits the quotient is huge too.  What is read behind the whole buffer is not modelled: the parse is then said to leave the buffer.
- FlatSplit.FlatTiles: speaks of the byte ranges of field groups; where the fields of a group without flexible offsets point to is a constant table.
- The parsers build groups as values and not as objects of `GroupArrays`; allocation failures and object lifetimes are not modelled.
- Field tables of the groups (names, units, value ranges, layouts of audio descriptors beyond their acceptance) and the flags for unused standard timings.
- Insertion positions in the base block, whose guard ignores the target; only assembly of base groups that fill the block is proved.
- AssembleGroup, the copy of sub-groups into the parent's own buffer with its limit of 31 - hdr_sz bytes: only the clipboard and tree refresh use it.
- Reading of memory behind a one-byte block for its extended tag: such a block always fails in strict mode.
- Text forms of field values, floating point handlers, the pixel clock in MHz: the pixel clock is its raw 16-bit integer.
- Error message texts and logging; return codes are OK, TRUE, fault, and fault with message.
- All user interface code, configuration and file access.
