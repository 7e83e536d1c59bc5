# demu, the device emulator for virtual GPUs: a Dafny model

demu gives a virtual machine its VGA adapter, lends a vGPU plugin access to guest memory, and
carries both through a live migration. This project models the parts of it that hold state over
time, caches or bit-level transformations, and proves what they keep over every run:

* the **mapping cache** (`mapcache.c`): 32 buckets of 32 entries, stamped by an epoch counter, in
  front of the hypervisor's foreign mappings (`MapCache`, `MapCacheLru`);
* the **VGA device** (`device.c`): the register file behind its port masks, the memory window with
  its planar latch and packed raster operations, the VBE mode registers, the dump with two dirty
  flags and its reload (`VgaRegs`, `Ports`, `RasterOp`, `Window`, `Vbe`, `Device`, `VgaDump`,
  `DumpRuns`);
* the **renderer** (`surface.c`, `template.h`): table-driven conversion of scan lines and glyphs,
  and incremental redrawing of dirty lines and changed text cells, against a full redraw
  (`Grid`, `Pixels`, `Glyphs`, `Scanout`, `Graphic`, `Text`, `Surface`, `SurfaceRuns`, `TextRuns`,
  `Screen`), with the exact conditions under which it goes wrong and runs that reach them
  (`StaleLines`, `StaleCells`, `Unseen`, `UnseenText`, `UnseenVbe`);
* the **state stream** (`demu.c`): the writer with one request outstanding, records, the reader and
  the restore, end to end with the VGA dump (`Bytes`, `Stream`, `SavedState`);
* **live migration** (`control.c`): command handlers, the worker loop, the pause semaphore and
  aborts, as one step machine (`Migration`), and what its reports say about the stream (`Sessions`);
* **I/O dispatch** (`demu.c`): the range registry beside the hypervisor's, and the consumer of the
  buffered request ring (`IoRegistry`, `Ring`);
* the **plugin environment** (`vmiop-env.c`): the re-entrant monitor, the handle tables, and batched
  pinning and unpinning of guest pages (`Monitor`, `Handles`, `PagePins`).

A component that updates fields in place is a class whose methods are proved equal to functions on
values; the properties over runs are lemmas about those functions. Hypercalls, the kernel's answers
and the plugin are parameters: every lemma holds whatever they answer.

## Where the code does not do what one would expect

Each of these is proved, with the condition under which the expected behaviour does hold.

* The cache's scan takes the last match, so a page number left behind by an invalidate or a failed
  map can hide a fresh mapping: `MapCacheLru.LookupComplete` says exactly when. The first lookup of
  page 0 does (`MapCacheLru.PageZeroHidden`), and after an invalidate every page whose old entry comes
  after the oldest other entry of its bucket (`MapCacheLru.AfterInvalidate`). The first page ever
  looked up is stamped like an unused entry and is evicted at once: `MapCacheLru.FirstPageEvicted`.
* A status port read changes two dumped fields without marking the dump: one such read is lost
  (`DumpRuns.StatusNotReplayed`), and `DumpRuns.StatusReplayed` says by counting the reads exactly when
  the copy has each field. A dump that fails has already cleared its flag (`DumpRuns.FailedDumpClears`);
  the copy stays current exactly if what was lost was current in it (`DumpRuns.DumpKeepsStep`).
* An incremental refresh misses changes it has no trace of. In graphic modes these are the plane
  enable register, the row height, the interleaving bits, pixel doubling when the display width stays
  the same, and the VBE screen clear, which marks no page: one run each in `Unseen.PlanesMissed`,
  `Unseen.RowScansMissed`, `Unseen.InterleaveMissed`, `Unseen.DoublingMissed` and
  `UnseenVbe.VbeClearMissed`. In text they are the rule for the ninth column, font bytes the guest writes
  itself, and font bytes whose flag a refresh that gives up consumed: `UnseenText.NinthColumnMissed`,
  `UnseenText.GuestFontMissed` and `UnseenText.GivenUpFontMissed`. In every reachable state a refresh
  for which no full redraw is due goes wrong exactly if some pixel it does not redraw differs between
  the registers and memory its line or cell was last drawn from, at whichever refresh that was, and
  the present ones (`StaleLines.LinesExactly`, `StaleCells.CellsExactly`); it is right whenever a full
  redraw is due or everything that changed left a trace (`SurfaceRuns.IncrementalGraphic`,
  `TextRuns.IncrementalText`).
* The control block of the state writer is static and survives its session. A request the kernel
  refused stays in it, so every later session on a descriptor with the same number fails its first
  write (`Stream.RefusedForever`); any other session can succeed (`Stream.SessionCanSucceed`).
* Planar and odd/even writes reach beyond what the dirty bitmap covers: `Window.MarkableIff`.
* A live session begun while already paused loses the pause's post, and an abort then leaves its
  worker waiting: `Migration.PausedStartCanBlock`, and only such a session's:
  `Migration.BlockedMeansPausedStart`. A second abort, a pause or a failing wait ends the wait, and
  nothing else does: `Migration.BlockedUntilWoken`. A refused restore leaves the state file open for
  good, and nothing else does: `Migration.RefusedRestoreWedges`, `Migration.WedgedStays`.
* Registered ranges can nest, and a lookup reports the outermost: `IoRegistry.LookupIsOutermost`.
  Deregistration reads the flag of the range it finds, not of the one it removes:
  `IoRegistry.DeregisterAgrees` shows that this is harmless.
* Allocating a handle marks nothing, so an unmarked one is handed out again; the region table's free
  test finds nothing free, so each allocation takes a block of 128: `Handles.AllocateAgain`.
* A zero page count wraps and switches the limit on guest page numbers off:
  `PagePins.UnsetCountAdmitsAll`.

## Model

| member | source | states |
|---|---|---|
| MapCache.PageCache.Touch | mapcache.c:60-82 | the bucket scan stamps every matching entry with the next epoch and returns the last match, keeping the cache sound |
| MapCache.PageCache.Fault | mapcache.c:84-124 | the entry with the least stamp, first in bucket order, is unmapped and refilled, or left empty when the map fails |
| MapCache.PageCache.RefillEntry | mapcache.c:113-122 | one munmap of what the victim held, then the new mapping if the hypervisor grants one |
| MapCache.PageCache.Lookup | mapcache.c:126-156 | scan, fault, scan again: pointer plus page offset, or NULL |
| MapCache.PageCache.Invalidate | mapcache.c:158-171 | every held page is unmapped and its pointer forgotten; page numbers and stamps stay |
| MapCache.FaultSound | mapcache.c:84-124 | a fault keeps the accounting of mappings whether or not the map succeeds |
| MapCache.InvalidateClears | mapcache.c:158-171 | after an invalidate each entry is as before but for a NULL pointer |
| MapCache.LookupSound | mapcache.c:126-156 | from any sound state, a non-NULL result points into a live mapping of the page asked for, at the page offset |
| MapCache.ReachableSound | mapcache.c:60-171 | in every reachable state each mapping obtained is held by exactly one entry or was unmapped exactly once, and a non-NULL lookup is a live mapping of its page |
| MapCacheLru.VictimIff | mapcache.c:95-111 | a victim is found exactly when some entry of the bucket is stamped no later than the counter, and then it has the least stamp |
| MapCacheLru.FaultFindsVictim | mapcache.c:84-111 | every run too short to wrap the 64-bit counter leaves a victim of least stamp for the next fault |
| MapCacheLru.LookupComplete | mapcache.c:60-156 | a faulting lookup whose map succeeds returns NULL exactly when an entry above the victim still carries the page's number |
| MapCacheLru.PageZeroHidden | mapcache.c:60-156 | the very first lookup of page 0 maps it and returns NULL: every unused entry of its bucket carries its number, and the last of them is looked at |
| MapCacheLru.AfterInvalidate | mapcache.c:60-171 | after any run of served lookups and an invalidate, a page mapped again is not returned exactly if the least recently stamped other entry of its bucket comes before its old one; from the bucket's last entry it never is |
| MapCacheLru.EvictionCost | mapcache.c:95-111 | a page is evicted only after 32 other pages of its bucket were stamped later |
| MapCacheLru.RetainedFrom | mapcache.c:60-156 | from any clean cache whose counter has ticked, a page stays mapped and is found without a fault until 32 other pages of its bucket were looked up |
| MapCacheLru.LruRetention | mapcache.c:60-156 | the same after any run of served lookups of non-zero pages |
| MapCacheLru.FirstPageEvicted | mapcache.c:60-156 | the very first page, stamped 0, is unmapped by the next page of its bucket |
| VgaRegs.Mask16Planes | device.c:95-112 | entry i of the mask table is all ones in exactly the planes whose bit of i is set |
| VgaRegs.LookupMask | device.c:95-112 | indexing the table gives that mask |
| RasterOp.LatchedWrite | device.c:861-931 | the packed 32-bit write equals, in each plane, the byte-per-plane definition of write modes 0 to 3 with rotate, set/reset, logic, bit mask and plane mask |
| RasterOp.ModifiedValue | device.c:864-920 | modes 0, 2 and 3: rotated or expanded data combined with the latch and masked, plane by plane |
| RasterOp.SetResetData | device.c:867-878 | mode 0: the rotated byte in every plane, but the set/reset bit in those that enable it |
| RasterOp.ApplyLogic | device.c:897-915 | the four logical operations with the latch, plane by plane |
| RasterOp.ColourCompare | device.c:767-772 | read mode 1: bit j is set exactly when every selected plane agrees with the compare colour at pixel j |
| RasterOp.RotateIsRotate | device.c:868-870 | the shift-and-or rotation moves bit j + n of the byte to bit j, modulo eight |
| Ports.MaskedRegs | device.c:61-89 | registers as the masks leave them index the mask table below 16 and select one of four planes |
| Ports.WriteOk | device.c:580-699 | every port write keeps the registers masked and the VBE bounds |
| Ports.ReadOk | device.c:487-578 | every port read keeps them too |
| Ports.AttributeRoundTrip | device.c:560-566 | a status read makes the next two writes at 0x3c0 an index and its data, and 0x3c1 reads the data back masked |
| Ports.PaletteEntryWritten | device.c:645-659 | three writes at 0x3c9 store exactly those bytes in the entry chosen, move to the next entry and mark the palette dirty |
| Ports.PaletteEntryRead | device.c:531-539 | three reads from the start of an entry return its three bytes |
| Ports.PaletteRoundTrip | device.c:531-659 | whatever the state before, an index and three bytes written, the index set for reading and three reads return the three bytes |
| Vbe.ClearInside | device.c:1101-1114 | the screen clear on enabling a mode stays inside the frame buffer |
| Vbe.VirtFits | device.c:1149-1165 | a virtual height computed by dividing the frame buffer by the line offset gives a virtual screen that fits in it |
| Vbe.CrtcAgrees | device.c:1116-1141 | turning a mode on leaves the CRT controller describing the VBE mode's width, height, line compare and single scan; a width or height of zero wraps to 2048 or 1024 |
| Vbe.VbeWriteOk | device.c:1042-1184 | every VBE data write keeps the register bounds and the masks |
| Window.AccessInside | device.c:714-938 | every window access lands in the reserved memory, chain-4 ones in the actual frame buffer |
| Window.LatchedBoundTight | device.c:724-758 | a planar access touches the last reserved byte exactly with bank 63 mapped and the window's last byte addressed |
| Window.MarkableIff | device.c:779-931 | which window offsets the dirty bitmap covers in each of the three modes |
| Window.LaneRecorded | device.c:827-850 | a single-byte write is recorded against the plane it lands in, so a font byte always raises the plane-2 flag |
| Window.WriteWindow | device.c:788-938 | what a window write stores, which page it marks, and that nothing else changes |
| Window.ReadWindow | device.c:714-777 | what a window read returns and what it loads into the latch |
| Device.StepKeepsRegs | device.c:487-1184 | every guest access keeps the register bounds |
| Device.ResetOk | device.c:307-480 | the registers after reset and BIOS initialisation are within bounds |
| Device.ReachableBounds | device.c:580-1184 | in every reachable state: mask-table indices below 16, window accesses inside reserved memory (chain-4 inside the frame buffer), the VBE clear and the virtual screen inside the frame buffer |
| Device.Adapter.PortReadByte | device.c:487-578 | value returned and registers after a port read |
| Device.Adapter.PortWriteByte | device.c:580-699 | registers and dirty flags after a port write |
| Device.Adapter.MemoryReadByte | device.c:714-777 | a window read in place: value and latch |
| Device.Adapter.MemoryWriteByte | device.c:788-938 | a window write in place: bytes stored, page marked, planes recorded, nothing else |
| Device.Adapter.ClearScreen | device.c:1108-1114 | exactly the new screen's bytes are zeroed and no page is marked |
| Device.Adapter.VbeEnable | device.c:1087-1148 | the enable register: mode set or dropped, screen cleared unless bit 7 asks not to |
| Device.Adapter.VbeWriteData | device.c:1042-1184 | a VBE data write in place |
| Device.Adapter.UpdateLfbAddr | device.c:1023-1040 | the frame buffer's address registers, marked only when they change |
| Device.Adapter.DumpRegisters | device.c:201-255 | marked parts are sent in order and their flags cleared, also when sending fails; later parts wait |
| Device.Adapter.ReadRegisters | device.c:257-305 | the two record subtypes copy the registers or the palette; others and wrong lengths are refused |
| VgaDump.Part1RoundTrip | device.c:201-305 | reloading a dumped register record restores exactly its fields and leaves the palette and the rest alone |
| VgaDump.ReplayConcat | device.c:257-305 | replaying two runs of records is replaying them one after the other |
| DumpRuns.StepMarks | device.c:487-1184 | an access that leaves a dirty flag clear changed no field of that part, but for the status byte and the flip-flop |
| DumpRuns.DumpCopies | device.c:201-305 | replaying what a successful dump emits brings a copy up to date and leaves it so where nothing was marked |
| DumpRuns.DumpSends | device.c:201-255 | a successful dump sends exactly the marked parts and clears both flags |
| DumpRuns.ReplayedSession | device.c:195-305 | for any interleaving of accesses and dumps from vga_markdirty on, a clear flag means the replayed copy is current, and after a final dump it is the source in every saved field but the status byte and the flip-flop |
| DumpRuns.RestoredOk | device.c:257-305 | the copy satisfies the bounds every reachable source state does |
| DumpRuns.StatusReplayed | device.c:195-566 | for any interleaving of accesses and dumps, after a final dump the copy's status byte is the source's exactly if the status reads since the registers were last sent are even in number, and its flip-flop exactly if there were none or it was clear then |
| DumpRuns.StatusNotReplayed | device.c:560-566 | with both flags clear one status read makes the source differ from the copy, and the next dump sends nothing |
| DumpRuns.DumpKeepsStep | device.c:201-255 | whichever allocations and sends fail, after a dump a clear flag still means a current copy exactly if each part whose flag was cleared unsent was current in the copy already |
| DumpRuns.FailedDumpClears | device.c:222-232 | a dump that cannot send the registers leaves their flag clear, and the next dump leaves them out |
| Pixels.Tables.constructor | surface.c:592-617 | each entry of the three tables spreads its index's bits or bit pairs into nibbles, or doubles them |
| Pixels.PlanarIndices | template.h:228-251 | the expand table and the four shifts give, for pixel k, bit 7 - k of the four enabled planes |
| Pixels.PairIndices | template.h:155-186 | for the four-colour modes, pixel k is the pair of bits of its low and high plane |
| Pixels.PaintLineShows | template.h:155-336 | a painted line shows every group through the palette, and nothing outside it changes |
| Pixels.DrawLine | template.h:155-411 | for every mode and width the converter paints exactly the line of groups, each pixel twice in the doubled modes, reading only that many source bytes |
| Glyphs.PaintGlyphShows | template.h:44-150 | a painted glyph shows its font bits in every row and changes nothing outside its rectangle |
| Glyphs.DrawGlyph | template.h:44-150 | the exclusive-or trick and the table of doubled bits paint that glyph at eight, nine and sixteen columns |
| Text.NinthColumn | surface.c:805-832 | in a painted cell nine pixels wide the ninth column repeats the eighth in characters 0xb0 to 0xdf if ar[0x10] bit 2 is set and under the cursor, and is background everywhere else |
| Scanout.FrameFits | surface.c:914-967 | in every register state the groups a line draws stay inside the bytes tested for dirty pages and inside the display width |
| Graphic.IncrementalIsFull | surface.c:964-1025 | when clean lines are already shown, redrawing dirty lines gives the same destination as redrawing all |
| Graphic.FullShows | surface.c:964-1025 | a full redraw shows every scan line, for every height, multi-scan count and line compare |
| Graphic.CleanLineShown | surface.c:986-1003 | a line no dirty page touches still shows current memory |
| Graphic.LineColours | surface.c:914-959 | palettes that agree on the entries a mode's lines can show give the same line |
| Graphic.DrawFrame | surface.c:964-1025 | the line loop, with its address wrap-around, doubling and CGA interleave, draws exactly the dirty lines |
| Text.CellsDisjoint | surface.c:783-843 | two cells share no pixel |
| Text.PaintCellShows | surface.c:797-832 | a painted cell shows its character, and the cursor if it is the cursor's cell, and nothing else changes |
| Text.CellsCurrent | surface.c:783-843 | if remembered cells are shown, afterwards every cell shows what memory holds and is remembered so |
| Text.DrawScreen | surface.c:783-843 | the cell loop in place, attributes remembered and cells painted in order |
| SurfaceRuns.SameFrame | surface.c:292-310 | what is remembered and the untracked registers determine where each line starts and how it is converted |
| SurfaceRuns.GraphicCurrent | surface.c:847-1034 | one graphic refresh that redraws everything, or has a trace of all that changed since an exact picture, equals a full redraw and shows current memory through current registers |
| SurfaceRuns.IncrementalGraphic | surface.c:847-1034 | after any run from start-up of guest writes, emulated writes, VBE clears, register changes and refreshes in any mode, a graphic refresh leaves what redrawing every line would if a full redraw is due, and otherwise if at it and at each refresh since the last full one the registers it does not track were those of the refresh before and bytes cleared in between lay on marked pages or were zero |
| StaleLines.LinesExactly | surface.c:847-1034 | after any run from start-up, right or already wrong, a graphic refresh for which no full redraw is due differs from a full redraw exactly if some pixel of a line no dirty page touches differs between the registers and memory that line was last drawn from, or what the destination holds beyond the width painted then, and the present ones |
| Unseen.UntrackedMissed | surface.c:847-1034 | in every graphic mode a change of untracked registers after the first refresh is missed by the next as soon as it changes a pixel |
| Unseen.ClearMissed | device.c:1108-1114 | so is a VBE screen clear |
| Unseen.PlanesMissed | surface.c:1001 | a run from start-up on which a switched-off plane stays on the screen |
| Unseen.RowScansMissed | surface.c:863-869 | one on which a changed row height is not redrawn |
| Unseen.InterleaveMissed | surface.c:977-985 | one on which changed interleaving bits are not |
| Unseen.DoublingMissed | surface.c:883-918 | one on which pixels doubled at half the width are not |
| UnseenVbe.ModeToggleMissed | device.c:1087-1148 | in every graphic mode, writing 0 and then 1 to the VBE enable register between two refreshes clears the new screen's bytes, and the next refresh misses it as soon as it changes a pixel and leaves the registers a refresh compares as they were |
| UnseenVbe.VbeClearMissed | device.c:1087-1148 | a run from start-up on which an eight-bit mode turned off and on again clears its screen and a white pixel stays |
| TextRuns.CursorIndex | surface.c:760-774 | the cell drawn with the cursor is the one whose remembered attribute is invalidated |
| TextRuns.CursorMoved | surface.c:760-774 | after the cursor moved, with the old and the new cell forgotten, what is remembered is still what is shown |
| TextRuns.StillRemembered | surface.c:678-774 | an incremental text refresh starts with every remembered cell on the screen, the cursor's cells excepted |
| TextRuns.TextRefresh | surface.c:678-844 | a text refresh that redraws everything, or has a trace of all that changed since an exact picture, equals a full redraw, and every cell, the old and new cursor cells included, shows current memory |
| TextRuns.IncrementalText | surface.c:678-844 | after any run from start-up, in any mode, a text refresh of a screen not too big leaves what redrawing every cell would if a full redraw is due, and otherwise if at it and at each refresh since the last full one that drew the font bytes, font offsets, addresses and the ninth column's rule were those of the one before |
| StaleCells.CellsExactly | surface.c:678-844 | after any run from start-up, right or already wrong, a text refresh of a screen not too big for which no full redraw is due differs from a full redraw exactly if some pixel of a cell that keeps its attribute differs between the registers and fonts that cell was last drawn from, or what the destination holds where another mode drew over it, and the present ones |
| UnseenText.TextUntrackedMissed | surface.c:678-844 | on every text screen a change of registers not compared after the first refresh is missed by the next as soon as it changes a pixel |
| UnseenText.FontMissed | surface.c:707-711 | so is a font byte the guest writes through the frame buffer |
| UnseenText.GiveUpMissed | surface.c:707-738 | so is a flagged font byte, if the refresh that finds the flag gives up |
| UnseenText.NinthColumnMissed | surface.c:808-811 | a run from start-up on which a changed rule for the ninth column is not redrawn |
| UnseenText.GuestFontMissed | surface.c:707-711 | one on which a font byte written by the guest is not |
| UnseenText.GivenUpFontMissed | surface.c:707-738 | one on which a flagged font byte is not, after a refresh that gave up |
| TextRuns.GivenUpForgets | surface.c:685-738 | a refresh of a screen with too many cells draws nothing and leaves nothing for the next one to notice |
| Screen.Screen.UpdatePalette16 | surface.c:239-262 | the sixteen colours selected through the attribute registers, and whether one changed |
| Screen.Screen.UpdatePalette256 | surface.c:264-290 | the 256 DAC colours, and whether one changed |
| Screen.Screen.UpdateBasicParams | surface.c:292-310 | line offset, start address and line compare remembered, and whether one changed |
| Screen.Screen.TestAndClearPlane2 | surface.c:137-147 | whether plane 2 was written, forgetting all plane flags if it was |
| Screen.Screen.SyncDirty | demu.c:2651-2668 | pages the hypervisor reports become dirty; all do when the query fails |
| Screen.Screen.DrawGraphic | surface.c:847-1034 | the graphic path in place: what is remembered, the palette, the destination and the cleared bitmap |
| Screen.Screen.TrackCursor | surface.c:760-774 | the old and new cursor cells are forgotten when position or shape changes |
| Screen.Screen.DrawText | surface.c:678-844 | the text path in place, including the early return |
| Screen.Screen.DrawBlank | surface.c:1037-1058 | the blank path clears the visible pixels only on a full update |
| Screen.Screen.Refresh | surface.c:1061-1103 | one refresh in place: the path for the current mode, full when the mode changed |
| Bytes.WordsRoundTrip | device.c:201-305 | sixteen-bit registers survive their little-endian form |
| Bytes.Le32Inverse | demu.c:488-504 | four bytes are the little-endian form of the number they read as |
| Stream.ScanRoundTrip | demu.c:871-925 | reading an encoded session recovers types, subtypes, lengths and payloads, stops at the close and leaves exactly what follows |
| Stream.ParseEncode | demu.c:871-896 | a record written reads back, and the stream stands after its padding |
| Stream.WriteAppends | demu.c:308-359 | a successful write adds its bytes after those written before, whatever was still outstanding |
| Stream.FlushedSession | demu.c:308-359 | whatever an earlier session left in the control block, if all writes and the flush succeed the sink holds the chunks in order and a file's offset has advanced by their length |
| Stream.SessionCanSucceed | demu.c:308-359 | over whatever an earlier session left outstanding, some answers of the kernel let all writes and the flush of a session succeed exactly if it is not on a descriptor with the same number whose last request was refused |
| Stream.RefusedForever | demu.c:308-359 | a refused request is never cleared: writes and flushes on that descriptor number fail and change nothing |
| Stream.StateWriter.Restart | demu.c:679-818 | a later session starts at its own file's offset with the abort flag down, and keeps an outstanding or refused request exactly if its descriptor has the same number |
| Stream.StateWriter.DoWrite | demu.c:308-359 | settle the outstanding request, then issue the next; an abort or a short completion fails it |
| Stream.StateWriter.WriteRecord | demu.c:488-504 | padding the buffer in place and writing it issues exactly the record's encoding |
| Stream.StateReader.DoRead | demu.c:361-383 | short reads are gathered in order; without a device error it fails exactly at a premature end |
| Stream.HeadedIsHeader | demu.c:385-465 | the header read back is accepted exactly if it is the one a session writes |
| Stream.StateReader.ReadHeader | demu.c:430-467 | identification, version and options read in short pieces; without a device error it fails exactly if they are not those expected |
| Stream.StateReader.ReadRecord | demu.c:871-896 | without a device error it succeeds exactly when a record can be parsed, and the buffer holds that record |
| SavedState.RestoreEncoded | demu.c:836-925 | restoring an encoded session replays its VGA records, hands over its plugin payloads in order and stops at the close |
| SavedState.PassSplit | demu.c:506-661 | a pass emits the adapter's dump and the plugin's payload and nothing a restore would refuse |
| SavedState.SavingSplit | demu.c:506-785 | a session's VGA records are those of its dumps, its payloads those the plugin sent |
| SavedState.SavedIsRestored | demu.c:506-925 | whatever happened between the passes, restoring what they saved succeeds if the plugin takes the payloads it sent, stops at the close leaving what follows, hands over the payloads in order and leaves the adapter as at the last pass, the status byte right exactly if the status reads since the registers were last sent are even in number and the flip-flop exactly if there were none or it was clear |
| SavedState.SessionStream | demu.c:308-785 | with writes completed one at a time a successful session leaves exactly header, padded records and close; a file offset advances by the total |
| SavedState.ReadState | demu.c:898-925 | the restore loop over a stream of short reads does what restoring the whole stream would |
| SavedState.GetState | demu.c:963-991 | with the state file closed, header and records read in short pieces restore what the whole stream would |
| SavedState.SinkIsRestored | demu.c:308-991 | the bytes a successful session leaves in its socket or file, header included, restore the saved state, status byte and flip-flop as counted, and leave what the file held beyond them |
| SavedState.RestoreSaved | demu.c:308-991 | the whole way: passes and accesses, encoded, padded, written asynchronously, read back in short pieces and processed, the restore succeeds, the plugin gets its payloads in order and the adapter is as saved, status byte and flip-flop as counted |
| Sessions.ReportedIsSaved | control.c:112-165 | after any run of commands and calls, every reported success of a worker whose calls succeed only if their writes do has left in its socket or file header, padded records of all its passes and close, and those bytes restore the adapter as at its last pass and the payloads in order |
| Sessions.ReportedIsFinal | control.c:112-165 | that last pass found the plugin with nothing more to send, in a live session after the pause's post |
| Migration.OneWorker | control.c:83-230 | at most one worker exists, and one exists exactly when the state is live or paused |
| Migration.AbortIsReported | control.c:287-318 | an abort handled before the finishing call is reported as a failure |
| Migration.SuccessIsComplete | control.c:112-165 | every reported success started, had only successful passes, the last one empty and in a live session begun after the pause's post, and then finished once |
| Migration.AbortedEnds | control.c:112-165 | in a session begun unpaused an aborted worker is never blocked and each of its calls brings it closer to its end |
| Migration.OthersKeepRemaining | control.c:182-318 | no other step sets it back |
| Migration.AbortedRunEnds | control.c:112-318 | so after any run and any continuation such a worker is never blocked, and it is gone once it has made the calls that remained to it, at most five, whatever comes between them |
| Migration.PausedStartCanBlock | control.c:182-205 | from every initialised idle state that is paused, with the state file closed, a live start, three calls of its worker and an abort leave the worker waiting with nothing posted |
| Migration.BlockedMeansPausedStart | control.c:112-318 | an aborted worker that is blocked is in such a wait and was started paused |
| Migration.BlockedUntilWoken | control.c:232-318 | it stays blocked whatever happens until a second abort, a pause or a failure of its wait, and each of these ends the wait |
| Migration.RefusedRestoreWedges | control.c:344-363 | after any run from start-up the state file is held with no session in progress exactly if the run held a restore refused where one could have begun |
| Migration.WedgedStays | control.c:83-363 | and from then on no step gets a session initialised |
| Migration.Control.MigrateInit | control.c:83-110 | allowed only when nothing is in progress and the state file is closed |
| Migration.Control.MigrateLive | control.c:182-205 | one worker is started, the semaphore reinitialised to zero |
| Migration.Control.MigrateNonLive | control.c:207-230 | one worker is started without a semaphore |
| Migration.Control.MigratePause | control.c:232-253 | the post precedes stopping the I/O server and stays when that fails |
| Migration.Control.MigrateAbort | control.c:287-318 | state file closed past initialisation, a waiting live worker woken |
| Migration.Control.TrackDirty | control.c:263-285 | tracking starts only from an initialised, idle state |
| Migration.Control.Restore | control.c:344-363 | refused when anything but initialised, forgetting the initialisation |
| Monitor.TestIsExact | drivers/vgpu/xen/vmioplugin-xs-6.5/environment/vmiop-env.c:781-823 | for any number of threads and any interleaving of single accesses, the unlocked test says exactly whether the thread owns the mutex |
| Monitor.OwnLocksOnly | drivers/vgpu/xen/vmioplugin-xs-6.5/environment/vmiop-env.c:781-823 | no thread waits for its own mutex or releases another's |
| Monitor.MutualExclusion | drivers/vgpu/xen/vmioplugin-xs-6.5/environment/vmiop-env.c:781-823 | at most one thread is inside, and it owns the mutex |
| Monitor.ReportsAreTrue | drivers/vgpu/xen/vmioplugin-xs-6.5/environment/vmiop-env.c:781-823 | each call reports whether the caller was in the monitor when it began |
| Monitor.Lock.EnterMonitor | drivers/vgpu/xen/vmioplugin-xs-6.5/environment/vmiop-env.c:781-799 | on return the caller holds the mutex; the report says whether it did before |
| Monitor.Lock.LeaveMonitor | drivers/vgpu/xen/vmioplugin-xs-6.5/environment/vmiop-env.c:805-823 | the caller's mutex is released; a caller outside changes nothing |
| Ring.HandledInOrder | demu.c:2698-2753 | against any producer that respects the published read pointer: handled requests are the produced ones, each once, in order, with 64-bit data whole; no unread slot is overwritten; the inner loop comes closer to its target without passing it |
| Ring.TakesNext | demu.c:2712-2740 | the request put together at the cursor is the next one produced |
| Ring.Page.Poll | demu.c:2698-2753 | the consumer in place, with the producer publishing between any two of its accesses, returns having handled everything published |
| IoRegistry.EndpointsSuffice | demu.c:1236-1268 | testing the two endpoints keeps ranges pairwise disjoint or nested exactly |
| IoRegistry.LookupIsOutermost | demu.c:1211-1220 | every other range that holds the address lies strictly inside the one reported |
| IoRegistry.LatestWins | demu.c:1211-1268 | registering a range changes a lookup's answer exactly at the range's own addresses |
| IoRegistry.RegisterDeregister | demu.c:1236-1490 | a range registered and taken away again leaves lists and hypervisor as they were |
| IoRegistry.RegisterAgrees | demu.c:1293-1406 | accepted, refused and taken-back registrations leave the hypervisor mapping just what it was told of |
| IoRegistry.DeregisterAgrees | demu.c:1420-1490 | so does a deregistration, although the flag is read from the space that covers the start |
| IoRegistry.EnableAgrees | demu.c:2360-2413 | so does enabling I/O, also when it stops half way |
| IoRegistry.ReachableRegistry | demu.c:1211-1490 | in every reachable state starts are unique, ranges are disjoint or nested the later around the earlier, and the hypervisor maps just those it was told of |
| IoRegistry.MappedIsRegistered | demu.c:1293-2413 | once enable_io has succeeded, the mapped ranges are the registered ones across any registration, refusal and deregistration |
| IoRegistry.FindSpace | demu.c:1211-1220 | the first space in the list that covers an address |
| IoRegistry.SpaceList.Add | demu.c:1236-1406 | linked at the head, told to the hypervisor when I/O is up, unlinked if it refuses |
| IoRegistry.SpaceList.Remove | demu.c:1270-1490 | unlinked by start and unmapped as the flag found says |
| IoRegistry.SpaceList.EnableAll | demu.c:2367-2411 | one loop of enable_io: untold spaces told in list order up to the first refusal |
| IoRegistry.IoSpaces.EnableIo | demu.c:2360-2413 | success exactly when every space of all three lists has been told |
| Handles.LookupIsExact | drivers/vgpu/xen/vmioplugin-xs-6.5/environment/vmiop-env.c:322-354 | a handle gives its element exactly when it is in range and in use, else NULL |
| Handles.HandleOfElement | drivers/vgpu/xen/vmioplugin-xs-6.5/environment/vmiop-env.c:368-415 | any address inside an element gives the element's handle |
| Handles.OutsideHasNoHandle | drivers/vgpu/xen/vmioplugin-xs-6.5/environment/vmiop-env.c:393-415 | exactly the addresses outside every block have no handle |
| Handles.LookupsUndo | drivers/vgpu/xen/vmioplugin-xs-6.5/environment/vmiop-env.c:322-415 | the two lookups undo each other on live handles and their elements |
| Handles.LiveAreDistinct | drivers/vgpu/xen/vmioplugin-xs-6.5/environment/vmiop-env.c:322-354 | two live handles have different elements |
| Handles.AllocateIsSmallest | drivers/vgpu/xen/vmioplugin-xs-6.5/environment/vmiop-env.c:433-506 | allocation returns the smallest handle not live, or the first of a new block when all are; it fails only when all are live and memory is short |
| Handles.AllocatedThenMarked | drivers/vgpu/xen/vmioplugin-xs-6.5/environment/vmiop-env.c:433-506 | marking what was allocated adds exactly that handle to the live ones, and it leads to the element reported |
| Handles.AllocateAgain | drivers/vgpu/xen/vmioplugin-xs-6.5/environment/vmiop-env.c:433-506 | unmarked, the same handle comes back; with a free test that ignores the element every allocation takes a new block |
| Handles.HandleIsStable | drivers/vgpu/xen/vmioplugin-xs-6.5/environment/vmiop-env.c:322-506 | over any run a live handle keeps its element until it is itself given back |
| Handles.ObjectTable.ObjectOf | drivers/vgpu/xen/vmioplugin-xs-6.5/environment/vmiop-env.c:322-354 | the walk from a handle to its element |
| Handles.ObjectTable.HandleOf | drivers/vgpu/xen/vmioplugin-xs-6.5/environment/vmiop-env.c:393-415 | the walk from an element to its handle |
| Handles.ObjectTable.New | drivers/vgpu/xen/vmioplugin-xs-6.5/environment/vmiop-env.c:433-506 | the scan for a free element and the new block at the end of the chain |
| PagePins.ReachedIsFirstRefused | drivers/vgpu/xen/vmioplugin-xs-6.5/environment/vmiop-env.c:2938-2960 | trying batches before single pages translates up to the first page refused and no less |
| PagePins.AdmittedIsBelowLimits | drivers/vgpu/xen/vmioplugin-xs-6.5/environment/vmiop-env.c:2962-2991 | with a count cached, pages pass up to the first that is not below the cached or the reported count |
| PagePins.UnsetCountAdmitsAll | drivers/vgpu/xen/vmioplugin-xs-6.5/environment/vmiop-env.c:2962-2966 | a cached count of zero wraps and lets every 32-bit page number pass |
| PagePins.PinnedExactly | drivers/vgpu/xen/vmioplugin-xs-6.5/environment/vmiop-env.c:2918-3004 | a list is pinned exactly if no page of it is refused and each is below the cached or the reported count |
| PagePins.Pages.Check | drivers/vgpu/xen/vmioplugin-xs-6.5/environment/vmiop-env.c:2963-2990 | one page against the limit, fetching the limit again when it is exceeded |
| PagePins.Pages.Pin | drivers/vgpu/xen/vmioplugin-xs-6.5/environment/vmiop-env.c:2938-3004 | the loop ends, and each output is the translation of the original input up to the page it failed at, also when both lists are one array; the error says why it stopped |
| PagePins.Pages.PinGuestPages | drivers/vgpu/xen/vmioplugin-xs-6.5/environment/vmiop-env.c:2918-3004 | missing lists are refused untouched; on success every page is translated |
| PagePins.Unpin | drivers/vgpu/xen/vmioplugin-xs-6.5/environment/vmiop-env.c:2830-2899 | without its buffer nothing happens; with it every non-null page is released once, in order, in full batches of 128 but the last, every entry ends up null, and an error means some release failed |
| PagePins.VerdictIsAnyFailure | drivers/vgpu/xen/vmioplugin-xs-6.5/environment/vmiop-env.c:2866-2888 | the result reports a failed release wherever it came |

## Left out

* libxc, xenstore, event channels, timers, sockets and signals: their answers are parameters.
* The plugin itself: only that it returns no more than the buffer it is given holds.
* Configuration, start-up and teardown, EDID data, logging, statistics and progress events.
* The presentation plugin and destinations of other depths than 32 bits per pixel; surface_update's
  counter and rectangles.
* Depth-32 scan-out, where demu draws nothing, and source lines that overlap the destination; that
  source lines and the destination fit is a precondition of a refresh (`Graphic`, `Surface`).
* The dirty bitmap is one flag a page, not packed into 64-bit words.
* dac_8bit and plane_updated are not part of the saved record, so not of the copy either.
* Data races inside dump_vga between copying a part and clearing its flag: a dump is one step.
* The byte, word and long splitting of I/O accesses, and requests with pointer data.
* vmiope_buffer_pullup and vmiope_buffer_apply over several elements, which do not gather.
- Device.Adapter.MemoryWriteByte: requires the page it writes to be covered by the dirty bitmap, because marking any other page fails an assertion in the source; `Window.MarkableIff` says which those are.
- Device.Adapter.VbeWriteData: requires a non-zero line offset where the source divides by it.
- Device.ReachableBounds: its runs make the one VBE access that divides by the line offset only when that is not zero, and VBE reads, which change nothing, are not modelled.
- Stream.ParseEncode: `Parse` does not model the 32-bit wrap-around of the padded length; streams the writer emits never reach it.
- Stream.StateWriter.DoWrite: the aio control block is idle, one outstanding request of this session or an earlier one, or one the kernel refused; aio return codes beyond complete and incomplete are not told apart, so a request that came back short may still complete at a later call.
- Stream.StateWriter.Restart: a session on another descriptor number is taken to write at least once, which overwrites what the control block held.
- Migration.AbortIsReported: handlers run under one lock, each as one step, and an abort leaves the abort flag down again; the worker loop is cut at its calls.
- Migration.Control.Restore: the failing select of the resume path and its report are one outcome.
- Ring.HandledInOrder: pointers do not wrap at 32 bits, and request fields other than address, data, width and direction are not modelled.
- Monitor.TestIsExact: a thread identifier is not reused while its thread is in the monitor.
- IoRegistry.ReachableRegistry: ranges do not wrap, and what is deregistered is the start of a registered range, which the source asserts; a device's own PCI address is an ordinary range.
- Handles.HandleIsStable: handles are unbounded; 2^32 elements are not reached.
- PagePins.Pages.Pin: within one call the hypervisor answers the same batch the same way and reports one page limit.
- SurfaceRuns.IncrementalGraphic: refreshes find source lines and destination that fit and a depth other than 32; what goes wrong without a trace is `StaleLines.LinesExactly`.
- SavedState.GetState: waiting for the command that triggers the restore, and the check that a file descriptor was received, are not modelled.
