# A verified model of the BLE HID host

The module turns a Bluetooth LE dongle into the host of a mouse: it scans for a HID-over-GATT peer,
connects, discovers the peer's reports, reads its HID Report Map, and turns every notification into
input events. This project models the four components on that path and proves what they promise.

| component | in place | as functions | laws |
|---|---|---|---|
| Report Map parser (`hid_report_parser.c`) | `HidParser.Parser` | `HidItems`, `HidWalk` | `HidItemState`, `HidApps`, `HidWalkLaws`, `HidOffsets`, `HidPlaces`, `HidReportIds`, `HidDisjoint`, `HidApart`, `HidLimits` |
| report decoder (`hid_report_decode.c`) | methods of `HidDecode` | `HidDecode` | `HidDecodeLaws` |
| event publisher (`ble_hid_host.c`) | `PublishDevice.BleHidHost` | `Publishing` | `PublishingLaws`, `PublishingTrace` |
| HOGP central (`hog_central.c`) | `HogCentral.Hog` | `HogSteps`, `HogWorld` | `HogLaws`, `HogLink`, `HogMapLaws`, `HogDiscovery`, `HogLayout`, `HogIsolation`, `HogTags`, `HogRuns`, `HogTransient` |

`HogHost` joins the last two: what the host sees of the buttons over a run of the central. `HidMouse` and
`HidKeyboard` close the loop between the first two components: a descriptor is printed
for a device, parsed, and reports packed in its order are decoded back. `EndToEnd` carries that through
the central. `Bits`, `HidTypes`, `HidPack` and `HidBuild` hold what these share.

Each C function is a method or a function with the same branches; each method's `ensures` ties the
state it leaves to a function on values, and the laws are about those functions. The widths of the
source are explicit: `byte`, `uint16`, `uint32` and `int32` are bounded types, and every truncating
cast and every 32-bit addition that can wrap is written out (`U8`, `U16`, `U32`, `ToInt32`). The C
bitwise operators are the function `Bits.Bitwise`, so a bit loop is proved to compute arithmetic
instead of being replaced by it.

A run of the central (`HogWorld.IsRun`) is any sequence of atomic events: an advertisement, a retry, a
link coming up, failing or going down, a security result, an answer of the GATT stack to the procedure
that is outstanding, a notification, a subscription torn down, one turn of the publishing loop. The
results of all Bluetooth calls are chosen by the environment. Histories are kept beside the state: the
notifications, the published reports, and the faults of the running discovery (a pass broken off, a
read or subscribe that failed, a discovery call that did not start, a subscription torn down), recorded
from the events and not from what the code makes of them. What discovery arrives at is proved
to be a function of the peer's attribute table and those faults, in every run.

## Where a promise fails

The code is modelled as it is. Where a promise in a comment or an expected property does not hold,
a concrete input and an exact condition are proved instead.

- The fit checks of the parser add in 32 bits. The comment "ignore (no wraparound)" at
  `drivers/input/hid_report_parser.c:192-194` holds for every map of at most 66051 bytes
  (`HidOffsets.OffsetsExact`). Behind a saturated cursor the sum wraps: `HidLimits.SaturatedCursorRecords`
  gives, exactly from 66052 padding items on, a descriptor the parser accepts with X and Y both at bit
  0xFFFF. `HidLimits.FitChecksHonestIff` is the exact condition for each of the four checks.
- Recorded fields can share bits when a button run has report size 0 (`HidLimits.ZeroSizeButtonsOverlap`)
  or when the report id changes inside the mouse collection (`HidLimits.IdChangeOverlaps`). Exactly when
  they do not: `HidApart.ApartIff` leaves only pairs separated by one of these two to be compared, and
  with a stable id `HidApart.MadeUpWidthsIff` says what to compare. `HidDisjoint.FieldsDisjoint` is the
  case where neither occurs.
- "Lock to the report this pointer lives in" (`drivers/input/hid_report_parser.c:206`) locks to the first
  item that has a non-zero id, whatever it carries: `HidLimits.StrayIdLocks` is an accepted descriptor whose
  layout says report 5 while X and Y are in report 1. `HidReportIds.ReportIdIsFirstSettlers` says which id is
  taken, `HidReportIds.ReportIdIsTheFieldsIff` exactly when it is the one of a given field.
- A Push beyond eight entries is dropped while its Pop is not, so deep nesting does not restore. At the
  start of a descriptor, nine nested Pushes lose the outer report size, eight keep it
  (`HidLimits.NestingLimit`); `HidWalkLaws.PushPopRestoresIff` is the exact condition for any segment.
- A button release dropped by a reset is never retried. `PublishingLaws.LostReleaseExists` gives the
  run, `PublishingLaws.LostReleaseLatches` shows the button stays down. Over whole sessions memory and host
  agree exactly when no disconnect lost a release (`PublishingLaws.ExactIffDisconnectsClean`);
  `PublishingLaws.ResetExactIff` and `PublishingLaws.PublishReachesHost` are the conditions for one call.
- The descriptor window of a report ends before the next *notifiable report*, not before the next
  declaration as the comment at `drivers/input/hog_central.c:269-271` has it. An Input report without a
  Report Reference takes the id of an Output report behind it (`HogTags.TagLeaksFromOutputReport`), and
  one without a CCC is subscribed through that of the Boot Mouse report behind it
  (`HogTags.CccLeaksFromBootReport`). `HogTags.WindowFinds`, `HogTags.TagIsOwnIff` and `HogTags.SubIsOwnIff`
  say exactly when a report is wired with its own descriptors.
- The exception for peers with exactly one notifiable report also fires while discovery has subscribed
  only the first of several: `HogTransient.ForeignReportPublished` is a whole run from start-up that
  publishes a report that is not the pointer's. `HogIsolation.PublishesIff` and
  `HogIsolation.ForeignPublishedIff` say exactly when, in terms of the peer's table.
- `DISC_HIDS_PRIMARY` is the one state that can be left with no procedure outstanding.
  `HogRuns.StuckRun` ends there with nothing failed, `HogDiscovery.NeverWedged` says exactly when, and
  `HogDiscovery.StuckStays` that every run stays there until the link ends.

## Model

| member | source | states |
|---|---|---|
| HidItems.ItemsConcat | drivers/input/hid_report_parser.c:421-465 | at an item boundary, the items of a concatenation are the items of the parts |
| HidItems.ItemsOfPrint | drivers/input/hid_report_parser.c:425-464 | walking printed short items gives back exactly those items with no byte left over |
| HidItems.ItemsBound | drivers/input/hid_report_parser.c:421-465 | a map yields at most one item a byte, and every item is one a short prefix can announce |
| HidItems.LongItemsSkipped | drivers/input/hid_report_parser.c:429-437 | a long item is stepped over with all its data, whatever they are |
| HidItems.TruncatedTailIgnored | drivers/input/hid_report_parser.c:430-446 | a short or long item cut off by the end of the map is as if it were not there |
| HidBuild.ItemBytes | drivers/input/hid_report_parser.c:18-45 | the bytes of each kind of item the parser knows, prefix and data, with one, two and four data bytes |
| HidItemState.SignedItemIsTwosComplement | drivers/input/hid_report_parser.c:130-139 | an item's signed value is its bytes in two's complement of their own width, and is negative exactly when the last byte is 0x80 or more |
| HidItemState.GlobalsAreLastItems | drivers/input/hid_report_parser.c:352-376 | without Push and Pop each of the five globals is the value of the last item that sets it, cut to 8 or 16 bits or sign-extended |
| HidItemState.LocalsAreSinceMain | drivers/input/hid_report_parser.c:392-415 | the local state is what the Local items since the last Main item say: the first sixteen usages on the pages in force, and the last bounds |
| HidItemState.MainClearsLocals | drivers/input/hid_report_parser.c:349 | any Main item, known or not, leaves no local state |
| HidItemState.FourByteUsage | drivers/input/hid_report_parser.c:395-398 | a four-byte usage brings its own page in its high half |
| HidItemState.RangeNamesSlots | drivers/input/hid_report_parser.c:176-182 | a usage range names its ids slot by slot, its last id every slot after that |
| HidApps.LevelIff | drivers/input/hid_report_parser.c:315-344 | an application is open exactly when some Application collection opens it and, since the first that does, the nesting has stayed above what it was before; closed for good exactly when it has not |
| HidApps.DepthIsNesting | drivers/input/hid_report_parser.c:331-337 | the depth is the number of collections open, an End Collection with none open being ignored |
| HidParser.ItemU | drivers/input/hid_report_parser.c:121-127 | OR-ing the data bytes at their places is the little-endian number |
| HidParser.ItemS | drivers/input/hid_report_parser.c:130-139 | filling the high bits computes the bytes in two's complement of the item's own width, and 0 for no bytes |
| HidParser.Parser.SlotUsage | drivers/input/hid_report_parser.c:171-184 | the usage of a slot: explicit list first, last entry repeating, else the range in 32-bit arithmetic |
| HidParser.Parser.AssignSlots | drivers/input/hid_report_parser.c:228-244 | the slot loop leaves the layout the slots determine in order, and changes nothing else of the parser |
| HidParser.Parser.AssignInput | drivers/input/hid_report_parser.c:201-245 | one Variable, Data Input item: report id locked once, one button run, or the slots |
| HidParser.Parser.AssignKbdInput | drivers/input/hid_report_parser.c:250-288 | one Data Input item of the keyboard: modifiers if Variable, keycode array if not |
| HidParser.Parser.HandleMain | drivers/input/hid_report_parser.c:290-350 | the effect of every Main item; local state is cleared after each, Output and Feature included |
| HidParser.Parser.HandleGlobal | drivers/input/hid_report_parser.c:352-390 | the effect of every Global item, with 8- and 16-bit truncation, cursor reset on a new id, and the 8-entry stack |
| HidParser.Parser.HandleLocal | drivers/input/hid_report_parser.c:392-415 | the effect of every Local item; usages past 16 are dropped |
| HidParser.Parser.RunParser | drivers/input/hid_report_parser.c:421-465 | the byte loop leaves the state that walking the map's items one by one leaves, for any bytes, truncated or not |
| HidParser.ParseReportMap | drivers/input/hid_report_parser.c:467-489 | the result is the pointer layout of the walk; 0 exactly when it has X and Y and the walk ends at depth 0 (surplus End Collection items at depth 0 are ignored) |
| HidParser.ParseKeyboardReportMap | drivers/input/hid_report_parser.c:491-510 | the result is the keyboard layout of the walk; 0 exactly when it has a key array and the walk ends at depth 0 |
| HidWalkLaws.OpenLevelBelowDepth | drivers/input/hid_report_parser.c:315-344 | in every reachable state an open application's level is strictly below the depth, and the stack holds at most 8 |
| HidWalkLaws.RunKeeps | drivers/input/hid_report_parser.c:188-191 | no suffix changes a recorded field or a settled report id; once an application is closed its layout is frozen |
| HidWalkLaws.WalkConcat | drivers/input/hid_report_parser.c:421-465 | the walk over bytes is a homomorphism at item boundaries |
| HidWalkLaws.FirstMouseWins | drivers/input/hid_report_parser.c:325-344 | once the nesting is back at what it was where the first mouse application opened, any further bytes change only whether the walk ends with no collection open |
| HidWalkLaws.FirstKeyboardWins | drivers/input/hid_report_parser.c:328-344 | the same for the first keyboard application |
| HidWalkLaws.RecordedFieldsStay | drivers/input/hid_report_parser.c:188-191 | parsing more bytes keeps every field and report id already recorded, open application or not |
| HidWalkLaws.PushPopRestores | drivers/input/hid_report_parser.c:377-386 | a matched segment that fits the free slots, between Push and Pop, restores all five globals and the stack |
| HidWalkLaws.PushPopRestoresIff | drivers/input/hid_report_parser.c:377-386 | from any stack, before the closing Pop of a matched segment the frame's own entry is on top exactly when the nesting fits the eight slots; if it fits the five globals and the stack are restored, and if not it is said what is lost |
| HidWalkLaws.StripSame | drivers/input/hid_report_parser.c:311-314 | deleting Output and Feature items with their local items leaves every component of the final state unchanged |
| HidWalkLaws.OutputAndFeatureInvisible | drivers/input/hid_report_parser.c:311-349 | both layouts, with validity, of any byte string are those of its stripped form |
| HidOffsets.CursorExact | drivers/input/hid_report_parser.c:302-308 | without wrap-around, the cursor is the unbounded sum of size times count since the last id change |
| HidOffsets.ShortMapsDoNotWrap | drivers/input/hid_report_parser.c:302-308 | a map of at most 66051 bytes never wraps or saturates the cursor |
| HidOffsets.RecordedIsFirstPlace | drivers/input/hid_report_parser.c:188-288 | each of the seven targets is recorded exactly at the first slot in reading order that describes it and fits; none recorded means no such slot |
| HidOffsets.OffsetsExact | drivers/input/hid_report_parser.c:188-309 | for maps of at most 66051 bytes, offset, width, sign and count of each recorded field are those of unbounded arithmetic, and it ends at most at 0xFFFF |
| HidPlaces.PlacesAreItems | drivers/input/hid_report_parser.c:201-300 | the places the laws of offsets, ids and overlap speak of, read off the items: application open, Data and Variable flags, page, usage and sizes of each of the seven targets |
| HidReportIds.ReportIdIsFirstSettlers | drivers/input/hid_report_parser.c:205-207 | the id of a layout is the one in force at the first item of its application that has a non-zero id or a place for a settling field, and 0 if there is none |
| HidReportIds.ReportIdIsTheFieldsIff | drivers/input/hid_report_parser.c:253-255 | the layout has the id of the report its field is in exactly when that first settling item, which comes no later, is in the same report |
| HidReportIds.ReportIdExact | drivers/input/hid_report_parser.c:467-510 | which id both parses return, for every map of at most 66051 bytes |
| HidDisjoint.FieldsDisjoint | drivers/input/hid_report_parser.c:201-309 | with real sizes and a stable id, the fields of one application are pairwise disjoint and below the cursor while it is open |
| HidApart.ApartIff | drivers/input/hid_report_parser.c:201-309 | the fields of one application are pairwise disjoint exactly when, by unbounded arithmetic on the items, those places are that are separated by an id change or whose first was given a made-up width; all others always are |
| HidApart.MadeUpWidthsIff | drivers/input/hid_report_parser.c:216-223 | with a stable id, the fields are pairwise disjoint exactly when, by unbounded arithmetic on the items, every run of made-up width ends before whatever is first placed after it |
| HidLimits.ZeroSizeButtonsOverlap | drivers/input/hid_report_parser.c:216-223 | bytes the parser accepts in which a button run of size 0 is recorded on the bits of X |
| HidLimits.IdChangeOverlaps | drivers/input/hid_report_parser.c:369-375 | bytes the parser accepts in which X of one report and Y of another are recorded on the same bits |
| HidLimits.SaturatedCursorRecords | drivers/input/hid_report_parser.c:192-194 | n items of 65025 padding bits before X and Y: accepted exactly for n at most 1 or at least 66052, and from there on with X and Y on the same bits, past the 16-bit range |
| HidLimits.FitChecksHonestIff | drivers/input/hid_report_parser.c:188-286 | each of the four fit checks decides correctly exactly when its 32-bit sum does not wrap |
| HidLimits.NestingLimit | drivers/input/hid_report_parser.c:377-386 | around n matched pairs and a Report Size at the start of a descriptor, Push and Pop give the globals from before the Push when at most eight Pushes are ever open, and leave the segment's own when more are: for any new size other than 0, they restore exactly up to eight |
| HidLimits.StrayIdLocks | drivers/input/hid_report_parser.c:205-207 | bytes the parser accepts with report id 5 whose X and Y are in report 1 |
| HidDecode.ExtractBits | drivers/input/hid_report_decode.c:29-51 | the bit loop returns the slice of the payload's number, sign-filled; bits past the payload read as 0 |
| HidDecode.PayloadBitsOf | drivers/input/hid_report_decode.c:54-74 | the loop returns the maximum end over the four axes and the button run |
| HidDecode.ButtonsOf | drivers/input/hid_report_decode.c:97-111 | the nested loops return the mask of non-zero button fields, at most 16 |
| HidDecode.DecodeReport | drivers/input/hid_report_decode.c:76-114 | the whole decode, including its failures, is the function the decode laws are about |
| HidDecode.KeysOf | drivers/input/hid_report_decode.c:152-166 | the loop that stops at 16 keys returns the first 16 of all entries that are keys |
| HidDecode.DecodeKeyboardReport | drivers/input/hid_report_decode.c:134-169 | the whole keyboard decode, including its failures, is the function the decode laws are about |
| HidDecodeLaws.ExtractIsArithmetic | drivers/input/hid_report_decode.c:29-51 | for widths 1 to 32 a field is (N div 2^offset) mod 2^width of the little-endian payload N, two's complement when signed, in exactly that range; only an unsigned 32-bit value of 2^31 or more is changed, by the cast |
| HidDecodeLaws.ButtonMaskBits | drivers/input/hid_report_decode.c:97-111 | bit i of the mask is set exactly when button i exists and is pressed |
| HidDecodeLaws.ButtonMaskIsArithmetic | drivers/input/hid_report_decode.c:95-111 | for a run of width w at offset o, bit i of the decoded mask is set exactly when i is below the count and 16 and (N div 2^(o + i*w)) mod 2^w is not 0 |
| HidDecodeLaws.PressedBits | drivers/input/hid_report_decode.c:100-108 | a button is pressed exactly when some payload bit of its field is set |
| HidDecodeLaws.LengthGate | drivers/input/hid_report_decode.c:85-88 | success exactly when the layout is valid and the payload covers each axis that is present and the whole button run at its width; then every field lies inside |
| HidDecodeLaws.DecodeDependsOnLayoutBits | drivers/input/hid_report_decode.c:76-114 | payloads that agree below the layout's end decode to the same report |
| HidDecodeLaws.TrailingIgnored | drivers/input/hid_report_decode.c:85-88 | bytes appended to a payload that decodes change nothing |
| HidDecodeLaws.CutIsHarmless | drivers/input/hog_central.c:193-194 | cutting a notification to 32 bytes changes no report: it only fails, exactly when the layout needs more or the full payload fails |
| HidDecodeLaws.KeyboardDecodeIsFilterThenTake | drivers/input/hid_report_decode.c:134-168 | for every parsed keyboard layout with entries of at most 32 bits: success, modifiers and keys (low bytes of the first 16 entries other than 0 and 1, in order) as arithmetic on the payload; entries of at most 8 bits lose nothing |
| HidPack.SliceOfPack | drivers/input/hid_report_decode.c:26-43 | a value packed LSB-first is read back at the sum of the widths before it |
| HidMouse.MouseDescriptorParses | tests/parser/test_runner.c:213-241 | for every mouse shape (buttons of 1 to 32 bits, any signed minimum, X and Y by list or range, wheels inside the physical collection or after its end) the printed descriptor parses to exactly its layout and to no keyboard |
| HidMouse.MouseReportDecodes | drivers/input/hid_report_decode.c:76-114 | with that layout, in-range axis values and button fields packed LSB-first decode to the axis values and the mask of the fields that are not 0, whatever bytes follow |
| HidMouse.MouseRoundTrip | drivers/input/hid_report_parser.c:467-489 | print, parse, pack, decode gives back every in-range value on every shape |
| HidKeyboard.KeyboardDescriptorParses | tests/parser/test_runner.c:397-422 | for every id and array length the printed keyboard descriptor parses to exactly its layout and to no pointer |
| HidKeyboard.KeyboardReportDecodes | drivers/input/hid_report_decode.c:134-169 | with that layout a report decodes to its modifier byte and the first 16 codes that are keys |
| HidKeyboard.KeyboardRoundTrip | drivers/input/hid_report_parser.c:491-510 | print, parse, decode returns the modifiers and the held keys of any report |
| PublishDevice.BleHidHost.TapBtn | drivers/input/ble_hid_host.c:95-103 | a tap under any drop pattern: calls made and release remembered |
| PublishDevice.BleHidHost.FlushPendingDpadReleases | drivers/input/ble_hid_host.c:111-119 | the retry loop: one call a pending code, its bit cleared only if accepted |
| PublishDevice.BleHidHost.PublishEdges | drivers/input/ble_hid_host.c:154-165 | the edge loop and the merge of accepted edges into the memory |
| PublishDevice.BleHidHost.Publish | drivers/input/ble_hid_host.c:139-209 | the calls of one report in order, under both wheel configurations, and the memory it leaves |
| PublishDevice.BleHidHost.Reset | drivers/input/ble_hid_host.c:218-249 | the calls of one reset in order, and the memory it leaves |
| PublishingLaws.ButtonsView | drivers/input/ble_hid_host.c:154-165 | memory and host view of each button move together, exactly on the accepted edges |
| PublishingLaws.PublishView | drivers/input/ble_hid_host.c:139-209 | a publish under any drops keeps the memory in 8 bits and changes the host's buttons only by accepted edges, which alternate |
| PublishingLaws.ResetView | drivers/input/ble_hid_host.c:218-249 | a reset under any drops; it releases every remembered button exactly when none of its releases is dropped |
| PublishingLaws.AlwaysSound | drivers/input/ble_hid_host.c:95-249 | for every session and drop pattern: memory within 8 bits, remembered buttons held at the host, every latched DPAD code pending, nothing else pending |
| PublishingLaws.ExactIffDisconnectsClean | drivers/input/ble_hid_host.c:150-249 | over every session and drop pattern, the memory is the last accepted event of each button and accepted events alternate exactly when no reset lost a release |
| PublishingLaws.ResetExactIff | drivers/input/ble_hid_host.c:232-248 | a reset keeps memory and host equal exactly when none of its releases is dropped |
| PublishingLaws.PublishReachesHost | drivers/input/ble_hid_host.c:150-165 | a report with no dropped edge is the host view of a button exactly unless a lost release latches it |
| PublishingLaws.FullyAcceptedReportShows | drivers/input/ble_hid_host.c:150-165 | after any session with clean resets, a report with no dropped edge is the host view of all eight buttons |
| PublishingLaws.LostReleaseLatches | drivers/input/ble_hid_host.c:243-248 | a button whose release a reset lost stays down through every later report that has it up |
| PublishingLaws.LostReleaseExists | drivers/input/ble_hid_host.c:243-248 | a press and a disconnect whose release is dropped leave the button down |
| PublishingLaws.FullFlushReleasesAll | drivers/input/ble_hid_host.c:111-119 | a fully accepted flush leaves no DPAD code held and none pending |
| PublishingTrace.ReportMakesCalls | drivers/input/ble_hid_host.c:139-209 | the exact calls of a report, in order, under any drops: retried releases, button edges, motion, one tap a keyed wheel with its release exactly if its press was accepted, terminator |
| PublishingTrace.ResetMakesCalls | drivers/input/ble_hid_host.c:218-249 | the exact calls of a reset, in order: retried releases, then a release for each remembered button, the last with the sync flag |
| PublishingTrace.TapsHeal | drivers/input/ble_hid_host.c:111-147 | after any session with a keyed wheel, one report or disconnect whose DPAD calls are all accepted leaves no DPAD code down and none pending |
| PublishingLaws.OneReportOneUpdate | drivers/input/ble_hid_host.c:121-209 | one report makes exactly the calls it owes, motion, taps and terminator in order, with the sync flag on the last call only |
| PublishingLaws.OneUpdateIffLastAccepted | drivers/input/ble_hid_host.c:121-249 | a report, and a reset with a button down, is one update for the listener exactly when its last call is accepted, and none otherwise |
| PublishingLaws.ResetOneUpdate | drivers/input/ble_hid_host.c:232-247 | a reset with a button down has the sync flag on its last call only |
| HogCentral.Hog.StartReportDiscovery | drivers/input/hog_central.c:497-517 | forgets the reports and starts the report pass, or goes idle |
| HogCentral.Hog.CurReportEndHandle | drivers/input/hog_central.c:272-278 | the window of a pending report ends before the next pending value |
| HogCentral.Hog.SubscribePending | drivers/input/hog_central.c:442-475 | the next pending report, the fall-back when its reference cannot be sought, or the end |
| HogCentral.Hog.DiscoverCcc | drivers/input/hog_central.c:478-494 | looks for the CCC in the report's window, or goes idle |
| HogCentral.Hog.DiscoverFunc | drivers/input/hog_central.c:317-437 | the discovery callback in every state, with or without an attribute, and whether the pass goes on |
| HogCentral.Hog.Subscribe | drivers/input/hog_central.c:405-428 | the next slot is filled with value handle, CCC and id, and counts only if the subscribe went through |
| HogCentral.Hog.ReadReportMap | drivers/input/hog_central.c:249-265 | empties the buffer and starts the read, or goes on without a layout |
| HogCentral.Hog.ReportMapReadCb | drivers/input/hog_central.c:206-247 | error, chunk (appended up to 512 bytes) and end of the read; at the end the layout is the parse of the buffer |
| HogCentral.Hog.ReadReportRef | drivers/input/hog_central.c:298-314 | starts the reference read, or goes on with id 0 |
| HogCentral.Hog.ReportRefReadCb | drivers/input/hog_central.c:280-296 | the id is byte 0 of the value, 0 if there is none |
| HogCentral.Hog.StartDiscovery | drivers/input/hog_central.c:519-539 | invalidates the layout and starts from the HID service |
| HogCentral.Hog.NotifyCb | drivers/input/hog_central.c:178-203 | tags, cuts and queues a notification, drops it when 16 are queued, or clears the handle of any slot torn down, in use or not |
| HogCentral.Hog.DrainOne | drivers/input/hog_central.c:144-174 | one turn of the loop: what it takes from the queue and what it makes the device publish |
| HogCentral.Hog.ReportWorkHandler | drivers/input/hog_central.c:139-176 | the loop empties the queue, and the device's calls are those of the queued reports in order |
| HogCentral.Hog.StartScan | drivers/input/hog_central.c:700-732 | started, already running, or a retry scheduled |
| HogCentral.Hog.DeviceFound | drivers/input/hog_central.c:609-663 | scan stop and create, and what each failure leaves |
| HogCentral.Hog.ScanRetryHandler | drivers/input/hog_central.c:680-686 | restarts the scan only without a connection |
| HogCentral.Hog.Connected | drivers/input/hog_central.c:735-759 | a failed connection is dropped and the scan restarted |
| HogCentral.Hog.SecurityChanged | drivers/input/hog_central.c:761-773 | discovery starts exactly on a secured link |
| HogCentral.Hog.Disconnected | drivers/input/hog_central.c:775-808 | everything of the peer is forgotten, the buttons are released and the scan restarts; other links are ignored |
| HogLaws.NeverDeaf | drivers/input/hog_central.c:666-732 | in every world of every run exactly one of connection, running scanner, scheduled retry |
| HogLink.LinkAndScannerAreTheEvents | drivers/input/hog_central.c:609-759 | in every run a connection exists exactly when a candidate was connected and no link has ended since; without one the scanner runs exactly when the last scan start did not fail, and a retry is scheduled exactly when it did |
| HogLink.ConnectionHasCandidate | drivers/input/hog_central.c:616-662 | every connection goes back to an advert of a candidate, met without a connection, whose scan stop and create succeeded |
| HogLink.OtherAdvertsChangeNothing | drivers/input/hog_central.c:616-646 | an advert that is no candidate, meets a connection, or whose scan stop fails changes neither connection nor scanner nor retry |
| HogDiscovery.NeverWedged | drivers/input/hog_central.c:323-539 | outside Idle and HidsPrimary exactly one procedure is outstanding; sub_count <= pending_idx <= pending_count <= 12; no read past the pending list; an idle stack on a secured link means HidsPrimary exactly when the HID service could not be sought or the peer has none |
| HogDiscovery.StuckStays | drivers/input/hog_central.c:519-539 | from HidsPrimary without a procedure, every run stays there, with no layout and no subscription, until the link ends |
| HogRuns.StuckRun | drivers/input/hog_central.c:519-539 | a run from start-up, with nothing failed, that ends in HidsPrimary without a procedure |
| HogLaws.CallbacksSafe | drivers/input/hog_central.c:317-437 | every callback of every run gets the kind of attribute it casts to, valid indices, and a buffer with room |
| HogLaws.RunSane | drivers/input/hog_central.c:775-801 | without a secured link nothing of a peer is kept: no layout, no reports, no queue |
| HogMapLaws.DiscoveryAdvances | drivers/input/hog_central.c:317-517 | every answer of the GATT stack strictly decreases the measure of the discovery left |
| HogMapLaws.DiscoveryBounded | drivers/input/hog_central.c:317-517 | discovery takes at most map bytes + attributes + 41 answers, however they interleave with everything else |
| HogMapLaws.LayoutIsPeersOwn | drivers/input/hog_central.c:206-265 | for every chunking and interleaving, the buffer is the head of what was read, and a layout in force is a valid parse of the connected peer's own map |
| HogMapLaws.MapCompletes | drivers/input/hog_central.c:233-247 | when the read ends the buffer is the first min(512, total) bytes of the map |
| HogDiscovery.SubscriptionsAreTheTables | drivers/input/hog_central.c:272-517 | in every run, when discovery is over the subscriptions are, in table order, those of the first 12 notifiable reports whose window has a CCC, tagged with byte 0 of the window's first Report Reference or 0, less exactly what the faults took away; exactly those torn down have value handle 0 |
| HogDiscovery.FaultlessRefinesTable | drivers/input/hog_central.c:317-539 | from a successful security event on, if no pass, read, subscribe or call fails and nothing is torn down, the subscriptions of a finished discovery are exactly those the bare table calls for |
| HogDiscovery.MapReadIsTheTables | drivers/input/hog_central.c:352-381 | in every run the map that is read is the first Report Map of the peer's first HID service |
| HogDiscovery.RunTracks | drivers/input/hog_central.c:317-517 | at every point of every run the state of discovery is the one the table and the faults so far prescribe |
| HogTags.WindowsDisjoint | drivers/input/hog_central.c:269-278 | no handle lies in the descriptor windows of two notifiable reports |
| HogTags.TagIgnoresOtherWindows | drivers/input/hog_central.c:269-278 | changing the descriptors in one notifiable report's window changes neither tag nor subscription of another |
| HogTags.WindowFinds | drivers/input/hog_central.c:269-278 | for any UUID, a window finds the report's own descriptor if it has one, and else the first behind the next declaration that it still reaches |
| HogTags.TagIsOwnIff | drivers/input/hog_central.c:442-473 | a report is tagged as its own descriptors say exactly when one of them is a reference, or the rest of its window has none, or the first one there gives 0 |
| HogTags.SubIsOwnIff | drivers/input/hog_central.c:478-494 | a report is subscribed as its own descriptors say exactly when it has a CCC and its tag is safe, or neither it nor the rest of its window has one |
| HogTags.TagLeaksFromOutputReport | drivers/input/hog_central.c:269-278 | an Input report without a reference is subscribed with the id of the Output report behind it |
| HogTags.CccLeaksFromBootReport | drivers/input/hog_central.c:478-494 | an Input report without a CCC is subscribed through the CCC of the Boot Mouse report behind it |
| HogIsolation.NeverCrossesConnections | drivers/input/hog_central.c:139-203 | published reports are an ordered, duplicate-free subsequence of the notifications, each of the connection live at that moment, decoded with its own peer's layout, with the layout's id unless one report was subscribed |
| HogLayout.LayoutInForceIff | drivers/input/hog_central.c:206-265 | in every run a layout is in force exactly when discovery is past the map on a secured link, the first HID service has a Report Map that could be sought and read, and its first 512 bytes describe a pointer |
| HogIsolation.PublishesIff | drivers/input/hog_central.c:139-176 | in every run a turn of the loop publishes exactly when the connected peer's map gave a layout, the cut payload covers it, and the id is the layout's or the table calls for exactly one subscription so far |
| HogIsolation.ForeignPublishedIff | drivers/input/hog_central.c:153-167 | in every run a notification of another report that is long enough is published exactly when the table, less the faults, calls for one subscription: in all once discovery is over, up to the report reached while it is under way |
| HogIsolation.NothingCarriesOver | drivers/input/hog_central.c:519-808 | from any state, a discovery that starts publishes nothing until a map is parsed, and the own link's end leaves nothing queued, subscribed or publishable |
| HogTransient.ForeignReportPublished | drivers/input/hog_central.c:153-167 | a run from start-up in which, with one of two reports subscribed, a report that is not the pointer's is published |
| EndToEnd.PublishedIsWhatTheMouseSent | drivers/input/hog_central.c:139-203 | in every run, a published report whose notification packed values v by its peer's descriptor is exactly v |
| EndToEnd.PublishedIdIsTheMaps | drivers/input/hog_central.c:153-167 | in every run, with other than one subscription, a published report is the one whose id is in force at the item of its peer's map that settles the pointer's id |
| HogHost.ButtonsBelongToTheConnection | drivers/input/hog_central.c:775-806 | in every run and under every drop pattern, a remembered button was down in a report published on the present connection, and without a link none is remembered |
| HogHost.HostOverRuns | drivers/input/ble_hid_host.c:211-249 | in every run memory stays sound and latched DPAD codes pending; if no link-down lost a release, then without a link the host holds no button |

## Left out

- Null pointer arguments of the four public parse and decode functions.
- Field widths above 32 bits: the shifts of the source have no meaning there. The decode methods require
  at most 32; the functions keep 32 bits.
- HidReportIds.ReportIdIsFirstSettlers: assumes the unbounded arithmetic that every map of at most 66051 bytes has, as do the laws of offsets and disjointness.
- HidReportIds.ReportIdIsTheFieldsIff: the same assumption.
- HogCentral.Hog.DrainOne: requires that a layout in force has no field wider than 32 bits, where the decoder's shifts have no meaning.
- HogCentral.Hog.ReportWorkHandler: the same requirement.
- HogTags.WindowFinds: takes a table in the order GATT prescribes (a value between its declaration and the next attribute, no service ending between a characteristic and its descriptors); so do the other laws of that module.
- HogTags.WindowsDisjoint: a later report whose value is at handle 0xFFFF is excluded, because the start of its window wraps to 0 (`HogTags.WindowFinds` covers it).
- HogTags.TagIgnoresOtherWindows: the same exclusion.
- The central's stated assumptions: one turn of the drain loop is atomic with respect to Bluetooth callbacks
  (its memory fences order what the model takes as one step); security succeeds once a connection; after a
  disconnect no data notification arrives before a new subscription; outstanding procedures end with the
  link; a failed scan stop leaves the scanner running; "already" from a scan start means it runs.
- A peer that changes its attribute table during a connection, or answers a read with something other than the attribute's value.
- Advertisement parsing, the name filter, bonds and the pairing cooldown: an advertisement is a candidate or it is not.
- Pairing, connection parameters, PHY, settings, the start-up work item and its checks: outcomes are events of the run.
- The disconnect request after failed security: the link-down event that follows may happen at any time anyway.
- A missing input device (`host_dev` null) and the device's initialisation.
- The input queue itself: whether a call is accepted is an arbitrary function of the call's number, which covers every pattern.
- The fixed arrays of the results (`keys[16]`, the event buffer, the message queue's storage) are the sequences of their used parts.
- Logging, the heartbeat and its counters.
- `probe/src/main.c`, an earlier and smaller copy of the discovery machine.
