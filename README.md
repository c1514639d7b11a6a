# ImQuick viewer core in Dafny

ImQuick is a small desktop viewer for scientific images: TIFF stacks, PNG, JPEG and similar files. This project models the viewer logic behind its Tk window `ImQuick` and proves properties of that model:

- **Normalisation.** Samples are normalised to 8 bits (`rescale_data`).
- **Levels window.** The window has a global min/max pair held in two traced integer variables. It also has a per-channel bounds array. The contrast popup selects the channel (`DisplayPopup`).
- **Plane entry.** Entering a plane of a stack parses the text, clamps the value and rereads the data.
- **File series.** The files of the current directory form a series, with wrap-around prev/next navigation.
- **Drop payloads.** A drag-and-drop payload is parsed into paths.
- **Viewport geometry.** This covers:
  - the zoom guards with step 1.3
  - the fit scale
  - the centred initial rectangle
  - the scroll region and the tile `show_image` draws
  - the pixel under the cursor

Modules:

| module | file | contents |
|---|---|---|
| `Wrappers` | `wrappers.dfy` | `Option` |
| `Levels` | `levels.dfy` | images, `rescale_data`, the window map, the bound corrections as closed forms, the channel offset |
| `Numbers` | `numbers.dfy` | decimal labels and Python's `int()` on text |
| `Paths` | `paths.dfy` | `os.path.splitext`, the lower-cased extension test, order-preserving filtering |
| `Drop` | `drop.dfy` | the `on_drop` parser |
| `FileSeries` | `navigation.dfy` | next/previous index arithmetic |
| `Stack` | `stack.dfy` | the plane reader, plane entry, plane refresh, plane bookkeeping at load time |
| `Viewport` | `viewport.dfy` | zoom, fit, tile, scroll region, hover geometry |
| `ViewerState` | `viewer.dfy` | `class Viewer`: the window's state and its event handlers |

**Traced variables.** The two traced variables are modelled as explicit calls. Writing the min variable is `SetMinVar`, which assigns the field and runs `UpdateMinDisplay`. The handler calls `SetMaxVar` or `SetMinVar` again exactly where `update_min_display` writes a variable from inside its trace, and likewise for max. So the bound corrections, including the re-entrant edge cases, run as in the original. They are proved equal to the closed forms `Levels.AfterMinWrite` and `Levels.AfterMaxWrite`.

**Window invariant.** `Viewer.Valid()` holds between events:
- The bounds array has the right length for the image.
- Every pair in it is ordered.
- The offset indexes a pair.
- The drawn image is the contrast of the normalised data.
- The data is the plane the bookkeeping names, and the normalised data is `rescale_data` of it.
- The image rectangle is the image at the zoom.

Every handler preserves `Valid()`.

**Inputs and parameters.** External inputs become parameters:
- the directory listing (`listing`)
- the files that open and decode, each with its planes (`disk`, a map from path to reader); any other path fails to open
- canvas sizes, cursor positions and the integer bounding box the canvas reports

Two details of the code that are easy to get wrong:
- A plane number outside `[0, max_plane]` is clamped to that range, not rejected (`imquick.py:304-309`).
- `show_image` works from the bounding box shrunk by one pixel on each side (`imquick.py:542`). So a 100×100 image at zoom 2 in a 200×200 box, viewed through `(10, 10)–(50, 50)`, covers source columns 4.5 to 24.5 (`Viewport.ShowScenario`).

**Corrected plane bookkeeping.** The window uses the corrected load of the plane bookkeeping, `Stack.LoadZ`, in which the displayed plane is the plane just read. The code as written, `Stack.LoadZAsWritten`, keeps the previous displayed plane; see "## Findings". The rows marked (corrected) below rely on this.

## Model

| member | source | states |
|---|---|---|
| Levels.SampleMaxIsMax | imquick.py:811 | `data.max()` is at least every sample and equals one of them |
| Levels.SampleMinIsMin | imquick.py:364 | `data.min()` is at most every sample and equals one of them |
| Levels.SampleMax | imquick.py:811 | `data.max()` over the whole image: the larger of the maximum of all rows but the last and the maximum of the last pixel row (definition; its meaning is `SampleMaxIsMax`) |
| Levels.SampleMin | imquick.py:364 | `data.min()` over the whole image, built the same way with the minimum (definition; its meaning is `SampleMinIsMin`) |
| Levels.ToUint8 | imquick.py:821 | the `uint8` cast gives a value below 256 and keeps every value already below 256 |
| Levels.RescaleSample | imquick.py:811-821 | one normalised sample is below 256; for an image maximum above 1 it is the `uint8` of the sample divided by `Divisor` of the maximum, and for a maximum of at most 1 the `uint8` of the sample times 256 |
| Levels.Divisor | imquick.py:812-817 | the divisor is one of 1, 4, 16 and 265, and it is 1 exactly when the maximum is below 256 |
| Levels.Rescale | imquick.py:810-822 | normalisation keeps the image's height, width, channel count and number of pixels |
| Levels.RescaleAt | imquick.py:810-822 | each output sample is the normalisation of the sample at the same place, under the divisor chosen from the whole-image maximum |
| Levels.RescaleStep | imquick.py:810-822 | for 1 < max ≤ 65535 each output is `v / d`, with d chosen from the maximum only, and lies in 0..255 |
| Levels.DivisorBoundaries | imquick.py:812-817 | the divisor is 1 up to 255, 4 from 256, 16 from 1024 and 265 from 4096 |
| Levels.RescaleMonotone | imquick.py:810-822 | normalisation preserves the order of samples |
| Levels.RescaleUnitMaxIsZero | imquick.py:818-821 | for integer data with maximum ≤ 1, `* 256` then `uint8` gives 0 everywhere |
| Levels.RescaleShape | imquick.py:810-822 | normalised data is well shaped and 8-bit |
| Levels.WindowSample | imquick.py:329-335 | the global map sends v ≤ lo to 0 and v ≥ hi to 255, and every output lies in 0..255 |
| Levels.WindowSampleExact | imquick.py:331-335 | the clip, divide, clip, `* 255` and truncate chain equals integer arithmetic `(v' - lo) * 255 / (hi - lo)`, where v' is v clipped to [lo, hi] |
| Levels.WindowMonotone | imquick.py:329-335 | the window map is monotone non-decreasing |
| Levels.WindowIdentity | imquick.py:329-335 | the window (0, 255) maps every 8-bit value to itself |
| Levels.ApplyWindow | imquick.py:329-335 | the global window keeps the image's shape |
| Levels.ApplyWindowAt | imquick.py:329-335 | every sample of every pixel goes through the same global window |
| Levels.DefaultWindowIsIdentity | imquick.py:396-405 | after a load the default pair (0, 255) draws the normalised data unchanged |
| Levels.PixelPerChannel | imquick.py:318-327 | sample i of a pixel uses the pair at array slots 2+2i and 3+2i, and that pair is ordered |
| Levels.ApplyPerChannel | imquick.py:318-328 | the per-channel window keeps the image's shape |
| Levels.ApplyPerChannelAt | imquick.py:318-328 | channel i of every pixel is windowed with the pair at slots 2+2i and 3+2i, channel order kept |
| Levels.ChannelWindow | imquick.py:320-326 | windowing channel i of the image yields one value per pixel, each from that pixel's channel-i sample |
| Levels.Dstack | imquick.py:328 | `np.dstack` puts pool entry i back as channel i of every pixel |
| Levels.DstackIsPerChannel | imquick.py:318-328 | re-stacking the per-channel pool gives exactly the per-channel windowed image |
| Levels.AfterMinWrite | imquick.py:254-269 | the pair after writing min: min < max always; min 255 becomes 254; min ≥ max raises max to min+1; an ordered pair is kept |
| Levels.AfterMaxWrite | imquick.py:271-286 | the pair after writing max: min < max always; max 0 becomes 1; min ≥ max lowers min to max−1; an ordered pair is kept |
| Levels.ReachableOrdered | imquick.py:254-286 | every pair the corrections can leave in the array is strictly ordered |
| Levels.WritePair | imquick.py:263-267 | writing slots `offset` and `offset+1` sets that pair and leaves every other pair unchanged |
| Levels.RepeatPair | imquick.py:400-403 | the reset array holds n copies of the pair, 2n slots |
| Levels.InitialValuesReachable | imquick.py:400-403 | the reset array `[0, 255] * (C + 1)` consists of reachable pairs |
| Levels.SetMinFromSlider | imquick.py:254-269 | for a slider min m: m ≥ max gives (m, m+1); m < max keeps max; m = 255 ends at (254, 256) |
| Levels.SetMaxFromSlider | imquick.py:271-286 | for a slider max M: min ≥ M gives (M−1, M); min < M keeps min; M = 0 ends at (−1, 1) |
| Levels.RestorePair | imquick.py:777-779 | writing a stored pair's min then its max restores exactly that pair |
| Levels.AutoContrastBounds | imquick.py:362-366 | auto contrast sets (data min, data max) when they differ, and (v−1, v), or (−1, 1) for v = 0, when all samples are equal to v |
| Levels.Choices | imquick.py:762-763 | the selector offers 'All' followed by one entry per channel, in order |
| Levels.SelectionLabel | imquick.py:763 | the selector text is 'All' exactly for the 'All' entry; a channel entry shows 'Channel k' |
| Levels.ChannelOffset | imquick.py:769-776 | (corrected) the offset is even, 0 exactly for 'All', and 2(k+1) for channel k |
| Levels.OffsetInBounds | imquick.py:762-779 | every offered selection's offset+1 indexes the array of length 2(C+1) |
| Levels.LabelOffsetIsLastDigit | imquick.py:775-776 | (as written) 'Channel k' ends in a digit, and the offset read from it is 2(k mod 10 + 1); this is correct for k < 10 |
| Levels.OffsetFromLabel | imquick.py:769-776 | (as written) the offset `(int(label[-1]) + 1) * 2` is even, at most 20, and 0 exactly for 'All' |
| Levels.LabelOffsetWrongForChannelTen | imquick.py:775-776 | 'Channel 10' yields offset 2, channel 0's slot, instead of 22 |
| Numbers.Decimal | imquick.py:763 | the label digits are non-empty, all digits, without a leading zero, ending in k mod 10 |
| Numbers.DecimalValue | imquick.py:763 | the digits of a label read back to k |
| Numbers.StripLeftSuffix | imquick.py:302 | stripping leading whitespace leaves a suffix starting with a non-space |
| Numbers.StripRightPrefix | imquick.py:302 | stripping trailing whitespace leaves a prefix ending with a non-space |
| Numbers.ParseDecimal | imquick.py:302 | `int()` reads back both n and −n from their decimal text |
| Numbers.ParseInt | imquick.py:302 | `int(val)` on text: surrounding ASCII whitespace stripped, then an optional sign and one or more ASCII digits, anything else `ValueError` (definition; its meaning is `ParseDecimal`, `ParseNeedsDigit` and `ParseEmpty`) |
| Numbers.ParseNeedsDigit | imquick.py:302 | text without a digit raises `ValueError` |
| Numbers.ParseEmpty | imquick.py:302 | `int('')` raises `ValueError` |
| Paths.LastIndexFacts | imquick.py:216 | the `rfind` used by `splitext` returns an index holding the character, or −1, with no later occurrence |
| Paths.Lower | imquick.py:216 | `.lower()` keeps the length of the text |
| Paths.LowerFacts | imquick.py:216 | after `.lower()` no upper-case ASCII letter is left, and every other character stays where it was |
| Paths.Extension | imquick.py:216 | `os.path.splitext(file)[-1]` is no longer than the path, and is empty or starts with a dot |
| Paths.ExtensionSuffix | imquick.py:216 | the extension is a suffix of the path, starts with a dot and contains no '/' |
| Paths.SupportedExamples | imquick.py:216 | the extension test ignores case, rejects a dot-file name, and ignores a dot in a directory name |
| Paths.IsSupported | imquick.py:216 | a path passes when its lower-cased extension is one of the nine of `SUPPORTED_EXTENSIONS` (line 21) (definition) |
| Paths.SupportedHasExtension | imquick.py:216 | a path that passes has an extension of at least four characters that starts with a dot |
| Paths.Filter | imquick.py:593-594 | the `if` of a comprehension keeps at most as many elements as it is given |
| Paths.FilterMembers | imquick.py:592-593 | a name is kept exactly when it is in the listing and is supported |
| Paths.FilterAppend | imquick.py:215-216 | filtering a concatenation filters each part, in order |
| Paths.FilterSnoc | imquick.py:215-216 | one more path is appended to the kept paths exactly when it is supported |
| Paths.SupportedMembers | imquick.py:591-593 | the series from a listing holds exactly the listing's supported names |
| Paths.FilterSupported | imquick.py:593-594 | the series never holds more names than the listing |
| Drop.CloseFrom | imquick.py:211 | the lazy group closes at the first '}' with no line break before it |
| Drop.Spans | imquick.py:211 | the groups found are matches of `{.*?}`, in order, non-overlapping; that none is missed is `Drop.SpansComplete` |
| Drop.SpansComplete | imquick.py:211 | the scan skips no match: every '{' that the lazy pattern can close starts a span or lies inside one, as `re.findall` scans |
| Drop.Groups | imquick.py:211 | each group found is the text of its span |
| Drop.GroupContent | imquick.py:211-212 | an unbraced group contains neither '}' nor a line break |
| Drop.RemoveAbsent | imquick.py:213 | `replace` of a group that does not occur leaves the line unchanged |
| Drop.RemoveAll | imquick.py:213 | `line.replace(obj, "")` never makes the line longer |
| Drop.RemoveGroups | imquick.py:211-213 | replacing each group in turn never makes the line longer, and with no groups leaves it as it is |
| Drop.SplitSpaces | imquick.py:214 | `split(" ")` always yields at least one piece |
| Drop.PiecesHaveNoSpace | imquick.py:214 | no piece of `split(" ")` contains a space |
| Drop.SplitJoin | imquick.py:214 | joining the pieces with single spaces gives back the line, so empty pieces are kept |
| Drop.DropPaths | imquick.py:207-214 | the groups, without braces and in order, come first; after them come exactly the pieces of `split(" ")` of the line with every group removed, none holding a space |
| Drop.DropTailJoins | imquick.py:213-214 | the pieces after the groups join back, with single spaces, to the line with every group removed |
| Drop.ParseDrop | imquick.py:209-214 | the loop that appends groups while rewriting the line builds exactly `DropPaths` |
| Drop.FilesToOpen | imquick.py:215-216 | a path is opened exactly when it is in the payload and its extension is supported |
| Drop.FilesToOpenOrder | imquick.py:211-216 | the supported group paths come first, then the supported space pieces, each in order |
| FileSeries.NextIndex | imquick.py:613-616 | next adds 1 and wraps from the last index to 0, staying in range |
| FileSeries.PrevIndex | imquick.py:629-632 | previous subtracts 1 and wraps from 0 to the last index, staying in range |
| FileSeries.StepsAreModular | imquick.py:605-634 | next is `(i + 1) mod len` and previous is `(i − 1) mod len` |
| FileSeries.Navigate | imquick.py:605-634 | a series of one file does not move; otherwise one step next or previous |
| FileSeries.NavigateRoundTrip | imquick.py:605-634 | next then previous, or previous then next, restores the index |
| FileSeries.ForwardCycles | imquick.py:613-616 | n steps forward land on `(i + n) mod len` |
| FileSeries.ForwardFullCircle | imquick.py:613-616 | len steps forward come back to the start |
| FileSeries.IndexOf | imquick.py:595 | `list.index` gives the first position holding the file |
| Stack.ParsePlane | imquick.py:299-302 | '' is plane 0; a slider position is taken as is |
| Stack.ParseTypedPlane | imquick.py:299-302 | typing the decimal text of n selects n |
| Stack.ClampPlane | imquick.py:304-309 | an entry is clamped into [0, max_plane], unchanged when already inside |
| Stack.ClampIdempotent | imquick.py:304-309 | clamping twice equals clamping once |
| Stack.UpdateZ | imquick.py:289-296 | no change for a single plane or an unchanged control; otherwise the control's plane becomes displayed and is read |
| Stack.SelectPlane | imquick.py:298-313 | a `ValueError` returns False with no change; otherwise True, with the clamped value followed by the refresh |
| Stack.LoadZAsWritten | imquick.py:380-387 | (as written) a load sets the last plane but keeps the previous file's displayed plane |
| Stack.LoadZ | imquick.py:380-387 | (corrected) the same load, with the displayed plane being the plane read |
| Stack.LoadZInSync | imquick.py:380-387 | the corrected load leaves the control, the displayed plane and the data in step |
| Stack.SelectPlaneInSync | imquick.py:289-313 | plane entry keeps them in step, and on a stack the data then comes from the clamped plane |
| Stack.StalePlaneAfterLoad | imquick.py:380-387 | as written, after opening a nine-plane stack, typing 0 reads nothing: the control says 0 and the data is plane 4 |
| Stack.FreshPlaneAfterLoad | imquick.py:380-387 | corrected, the same input shows plane 0 |
| Viewport.Trunc | imquick.py:639-640 | `int()` truncates toward zero on both signs |
| Viewport.Ceil | imquick.py:570 | `math.ceil` is the least integer not below its argument |
| Viewport.ZoomOutFloor | imquick.py:453-456 | an allowed zoom-out starts with min(w, h) · zoom ≥ 30 |
| Viewport.ZoomInBlocked | imquick.py:444-446 | the zoom-in guard never stops a zoom of at most a fifth of both canvas sides, and on a canvas of non-negative size it stops only a positive zoom |
| Viewport.ZoomOutBlocked | imquick.py:454-456 | the zoom-out guard stops exactly when either image side times the zoom is below 30 |
| Viewport.Inside | imquick.py:467-468 | only a box with positive width and height has a point strictly inside it |
| Viewport.ZoomInUndone | imquick.py:441-458 | after an allowed zoom in about a point, from a zoom at which zooming out is allowed, zooming out is still allowed and gives back the zoom and the image rectangle |
| Viewport.ZoomOutUndone | imquick.py:441-458 | after a zoom out about a point, from a zoom at which zooming in is allowed, zooming in is still allowed and gives back the zoom and the image rectangle |
| Viewport.WheelScale | imquick.py:466-481 | wheel down divides by 1.3 unless the zoom-out guard stops it; wheel up multiplies by 1.3 unless the zoom-in guard stops it; zero delta scales by 1 |
| Viewport.ScaleAbout | imquick.py:487 | scaling about an anchor multiplies the size by s and keeps the anchor fixed |
| Viewport.ScaleRoundTrip | imquick.py:487 | scaling by s and then by 1/s about the same anchor restores the rectangle |
| Viewport.InitialOrigin | imquick.py:493-494 | the initial corner centres the image on the canvas to within one pixel |
| Viewport.InitialRect | imquick.py:493-501 | the initial rectangle has the image's size and the centring corner |
| Viewport.FitScale | imquick.py:523-524 | w · s ≤ cw − 4 and h · s ≤ ch − 4, with equality on one axis |
| Viewport.NeedsFit | imquick.py:495-496 | a fit happens only while loading, and an image that needs it is shown below 1:1 (fit scale under 1) |
| Viewport.ScrollAxis | imquick.py:547-554 | the scroll region contains the image, and equals it on an axis where the visible area covers it |
| Viewport.TileAxis | imquick.py:556-559 | the tile's start is ≥ 0 and its end is at most the image width, both as computed |
| Viewport.Show | imquick.py:540-588 | scroll region as above; a tile is drawn exactly when both truncated extents are positive, and then it lies inside the image and floor(des1) ≤ des1 < des2 ≤ ceil(des2), each output size is positive, and the anchor is the image corner plus the tile start |
| Viewport.AxisOf | imquick.py:562-582 | the crop box surrounds the desired source span, and the span times the zoom gives back the tile |
| Viewport.ShowScenario | imquick.py:536-588 | for bbox (0, 0, 200, 200), visible area (10, 10, 50, 50) and zoom 2: source span 4.5–24.5, crop 4–25, 40 output pixels, anchor (10, 10), scroll region (1, 1, 199, 199) |
| Viewport.HoverLookup | imquick.py:636-641 | a pixel is found exactly when both truncated coordinates are inside the image, and it is that pixel |
| Viewport.HoverCentre | imquick.py:636-641 | the centre of pixel (x, y) on the canvas is looked up as (x, y) |
| Viewport.HoverLeftOfBox | imquick.py:636-641 | a cursor less than one zoom step left of the box still finds column 0, because `int()` truncates toward zero |
| ViewerState.DispatchPrefix | imquick.py:215-220 | handling one more dropped path is one more step |
| ViewerState.Dispatch | imquick.py:215-220 | the `for file in to_open` loop as a left fold of `DropStep` over the paths (definition; its meaning is `DispatchWithFile` and `DispatchAllReadable`) |
| ViewerState.DropStep | imquick.py:216-220 | one path: skipped when unsupported, appended to the new windows when the window has a file, otherwise the window's file becomes the path if it opens (definition) |
| ViewerState.DispatchWithFile | imquick.py:215-220 | on a window with a file, every supported dropped path goes to a new window, in order |
| ViewerState.DispatchAllReadable | imquick.py:215-220 | on an empty window, when every file opens, the first supported path loads here and the rest go to new windows |
| ViewerState.Viewer.constructor | imquick.py:55-79 | a window without a file: no data, no popup, an empty series, bounds (0, 255), array [0, 255], zoom 1, plane 0 |
| ViewerState.Viewer.UpdateContrast | imquick.py:315-336 | the loop over channels, popping pairs and stacking the pool, draws exactly the specified contrast |
| ViewerState.Viewer.WriteCurrentPair | imquick.py:263-267 | the current pair is written at `offset` and `offset+1` |
| ViewerState.Viewer.SetMinVar | imquick.py:254-269 | writing min m ends with the closed-form pair, the array updated only at the popup's slots, and the contrast redrawn |
| ViewerState.Viewer.UpdateMinDisplay | imquick.py:254-269 | the min handler, re-entrant calls included, ends in the closed-form pair, with the array and the drawing in step |
| ViewerState.Viewer.CorrectMin | imquick.py:258-262 | `dirty` is set exactly when min ≥ max, and the corrections reach the closed-form pair |
| ViewerState.Viewer.SetMaxVar | imquick.py:271-286 | writing max M ends with the closed-form pair, the array updated only at the popup's slots, and the contrast redrawn |
| ViewerState.Viewer.UpdateMaxDisplay | imquick.py:271-286 | the max handler, re-entrant calls included, ends in the closed-form pair, with the array and the drawing in step |
| ViewerState.Viewer.CorrectMax | imquick.py:275-279 | `dirty` is set exactly when min ≥ max, and the corrections reach the closed-form pair |
| ViewerState.Viewer.Finish | imquick.py:263-269 | the array write and the redraw that end a handler |
| ViewerState.Viewer.MoveMinSlider | imquick.py:254-269 | moving the min slider keeps the window invariant and changes only the popup's two slots |
| ViewerState.Viewer.MoveMaxSlider | imquick.py:271-286 | moving the max slider keeps the window invariant and changes only the popup's two slots |
| ViewerState.Viewer.AutoContrast | imquick.py:362-366 | without a file, nothing changes; with one, the pair is the data's (min, max) after correction, the array holds that pair at the popup's slots while the popup is open and is unchanged otherwise, and the invariant keeps the drawing in step |
| ViewerState.Viewer.StretchLevels | imquick.py:364-366 | the two writes and the redraw of `auto_contrast`: the corrected pair, the array written only with the final pair, the drawing in step |
| ViewerState.Viewer.WriteBounds | imquick.py:364-365 | writing min then max ends at the closed-form pair, and the array holds only that final pair at the popup's slots |
| ViewerState.Viewer.SwitchImage | imquick.py:759-767 | the popup returns to 'All': offset 0, global mode |
| ViewerState.Viewer.AdjustContrast | imquick.py:352-358 | the popup opens only with a file, and a new popup starts on 'All' |
| ViewerState.Viewer.RecallPair | imquick.py:777-780 | while `working`, recalling the selected slots sets that pair and leaves the array unchanged |
| ViewerState.Viewer.ChannelModeSelect | imquick.py:769-780 | selecting sets the mode flag, reads the offset off the label's last character, restores the stored pair for the selection, and leaves the array unchanged; on the images the window shows (at most four channels) that offset is 2(k+1) |
| ViewerState.Viewer.SelectMode | imquick.py:769-780 | the body of `channel_mode_select`, with the offset read from the label as the code does, ending with `working` cleared |
| ViewerState.Viewer.ResetBounds | imquick.py:396-399 | the load resets the bounds to (0, 255) |
| ViewerState.Viewer.FitView | imquick.py:518-529 | zoom is the fit scale, and the rectangle is the initial one scaled about the canvas centre |
| ViewerState.Viewer.FitToWindow | imquick.py:518-529 | without a file, nothing changes; otherwise the fit as above, with the invariant kept |
| ViewerState.Viewer.FirstView | imquick.py:491-505 | a loaded image larger than the canvas is fitted; otherwise the zoom is 1 and the rectangle is the centred initial one |
| ViewerState.Viewer.FirstShowImage | imquick.py:491-505 | resetting the view gives zoom 1 and the centred initial rectangle |
| ViewerState.Viewer.ZoomBy | imquick.py:484-488 | the zoom and the rectangle scale together about the anchor |
| ViewerState.Viewer.ZoomIn | imquick.py:441-448 | blocked or without a file, nothing changes; otherwise zoom × 1.3 about the canvas centre |
| ViewerState.Viewer.ZoomOut | imquick.py:451-458 | blocked or without a file, nothing changes; otherwise zoom ÷ 1.3 about the canvas centre |
| ViewerState.Viewer.ZoomMouse | imquick.py:461-481 | nothing changes unless the cursor is strictly inside the box and the guard allows; otherwise the wheel scale about the cursor |
| ViewerState.Viewer.RescaledFits | imquick.py:487 | a rectangle that fits the image at zoom z fits it at z · s once scaled by s |
| ViewerState.Viewer.HoverPixel | imquick.py:636-648 | a pixel is reported exactly when a file is open, the box exists and the lookup is inside; then the value reported is the data at that row and column |
| ViewerState.Viewer.RowMajor | imquick.py:642 | row y, column x of a row-major image indexes its pixel sequence |
| ViewerState.Viewer.UpdateZDisplay | imquick.py:289-296 | the planes follow `UpdateZ`; the data is reread and normalised exactly when the displayed plane changes |
| ViewerState.Viewer.ReadPlane | imquick.py:293-295 | the data is plane p of the reader, normalised, and p becomes the displayed plane |
| ViewerState.Viewer.SetZPlane | imquick.py:298-313 | returns whether the entry parses; with a file the planes follow `SelectPlane`; when the displayed plane stays (a refused entry included) the data, normalised data and drawing are unchanged, and otherwise they are reread from that plane; the invariant is kept |
| ViewerState.Viewer.EnterPlane | imquick.py:298-313 | the body of `set_z_plane`, ending with the planes in step, with the same unchanged-or-reread promise |
| ViewerState.Viewer.LoadImage | imquick.py:368-415 | (corrected) a failed open leaves no file and no rectangle and everything else as it was; a successful one sets the file, reader, planes, data, normalised data, levels, array, popup state and drawing of the new file (`Loaded`) |
| ViewerState.Viewer.OpenPath | imquick.py:368-415 | (corrected) `load_image` of a path on the files of `disk`: the file loaded exactly when it is one of them, the failure branch otherwise |
| ViewerState.Viewer.OpenFailed | imquick.py:390-395 | the failure branch: no file, no rectangle, everything else as it was, the invariant kept |
| ViewerState.Viewer.Load | imquick.py:396-415 | (corrected) the successful load after the bounds reset |
| ViewerState.Viewer.Install | imquick.py:400-412 | (corrected) the array reset, normalisation, image size, file and view of a load |
| ViewerState.Viewer.LoadedCore | imquick.py:396-412 | the freshly loaded state satisfies the levels, popup and data invariant |
| ViewerState.Viewer.ReadFile | imquick.py:374-412 | (corrected) the reader and plane read, the array reset and the first view |
| ViewerState.Viewer.Opened | imquick.py:407-412 | the file is recorded, the popup returns to 'All', the first view is set |
| ViewerState.Viewer.ReadPlanes | imquick.py:380-387 | (corrected) a stack opens on its middle plane and a single image on plane 0, with the data read and normalised |
| ViewerState.Viewer.ResetLevels | imquick.py:400-405 | the array becomes `[0, 255] * (C + 1)` and the drawing is the normalised data |
| ViewerState.Viewer.MakeFileList | imquick.py:590-595 | the series is the listing's supported names, and the index is the file's position in it |
| ViewerState.Viewer.NextFile | imquick.py:605-618 | (corrected) without a file, nothing changes; otherwise the series is built when empty; a series of one file leaves the window as it was; otherwise one step forward is taken and the file there is loaded at zoom 1, with its reader from `disk` (`Shows`) |
| ViewerState.Viewer.PrevFile | imquick.py:621-634 | (corrected) the same with one step back |
| ViewerState.Viewer.Browse | imquick.py:605-634 | (corrected) the body shared by next and previous, with the same promise |
| ViewerState.Viewer.Step | imquick.py:613-618 | (corrected) on a series of two or more, the index moves one step and the file there is loaded at zoom 1 from `disk`, or the failure branch runs |
| ViewerState.Viewer.Advance | imquick.py:613-617 | the index moves one step through the series and the zoom goes back to 1; nothing else the load reads changes |
| ViewerState.Viewer.OpenFile | imquick.py:597-602 | (corrected) a cancelled dialog changes nothing at all; a chosen file clears the series and is loaded from `disk` (`Shows`) |
| ViewerState.Viewer.OnDrop | imquick.py:207-220 | (corrected) the paths sent to new windows and the final file are exactly those of `Dispatch` over the parsed payload; the invariant is kept |
| ViewerState.Viewer.DropOne | imquick.py:215-220 | (corrected) one dropped path: skipped, sent to a new window, or loaded here |
| ViewerState.Viewer.FitFacts | imquick.py:523-528 | the fit scale is positive, and the fitted rectangle is the image at that scale |

## Left out

- Tk itself is not modelled: widgets, menus, status labels, scroll bars, the popups' layout, and the `InfoPopup` and `AboutPopup` windows. The same goes for `close`, `docs`, `_load_tkdnd` and `resource_directory`, which are user-interface and environment plumbing.
- Closing the contrast popup (`DisplayPopup.destroy`, `imquick.py:752-757`) is not modelled; the popup is opened by `adjust_contrast` and then stays open. In the code, closing it leaves `per_channel_contrast` as it was. A later load with no popup open skips `switch_image` (line 411), so the window stays in per-channel mode. If the newly loaded image is 2-D, the next `update_contrast` raises at `temp_data[:, :, i]` (line 322). This is from reading the code only; nothing was executed. The invariant that a closed popup means global mode (`PopupOk` in `ViewerState.Viewer`) holds only because closing is not modelled.
- Decoding with `imageio` is not modelled. A file is a `Stack.Reader`: a sequence of decoded planes.
  - The TIFF/LZW reader switch is not modelled.
  - The broad `except` of `load_image` becomes "the path is not in `disk`".
- `os.listdir`, `os.path.abspath`, `os.path.normpath` and the file dialog are not modelled.
  - The listing is a parameter of the file-series handlers and is taken as paths already joined and normalised.
  - The dialog's answer is a parameter of `OpenFile`.
- ViewerState.Viewer.OnDrop: a supported path dropped on a window that already has a file opens a new `ImQuick` window. The model records the path; loading it in the new window is not modelled.
- ViewerState.Viewer.NextFile: the check that skips the key when the plane entry has focus is not modelled; it is a Tk focus query.
- ViewerState.Viewer.PrevFile: the same focus check is left out, for the same reason.
- ViewerState.Viewer.MakeFileList: `list.index` (`imquick.py:595`) raises when the file is not among the joined names, and the model requires the file to be there. In the code this can also happen to a file that is in the directory, when it was opened by a relative path: `load_image` only normalises the path (line 372), while the series joins each name to the absolute directory (lines 592-594). The raise comes after `file_list` is assigned, so the next key press steps from the old index (0 in a fresh window). This is from reading the code only; nothing was executed.
- ViewerState.Viewer.constructor: `ImQuick(master, filename)` with a filename is this constructor followed by `LoadImage`. The placeholder text is not modelled.
- ViewerState.Viewer.LoadImage: not modelled are the window title, the info popup refresh, and the final `show_image` drawing. `show_image` is modelled separately as `Viewport.Show`.
- ViewerState.Viewer.LoadImage: (corrected) uses `Stack.LoadZ`, which sets the displayed plane to the plane read; the code leaves it at the previous file's value (`Stack.LoadZAsWritten`, see "## Findings"). The same holds for `OpenPath`, `Load`, `Install`, `ReadFile` and `ReadPlanes`, and for the loads that `Step`, `Browse`, `NextFile`, `PrevFile`, `OpenFile`, `DropOne` and `OnDrop` make. The model does not capture the stale plane the code shows after a load.
- ViewerState.Viewer.Load: (corrected) the plane bookkeeping of the load is `Stack.LoadZ`, as for `LoadImage`.
- ViewerState.Viewer.Install: (corrected) the same.
- ViewerState.Viewer.ReadFile: (corrected) the same.
- ViewerState.Viewer.ReadPlanes: (corrected) sets the displayed plane to the plane read, which the code does not do.
- ViewerState.Viewer.OpenPath: (corrected) the same.
- ViewerState.Viewer.LoadImage: a file whose planes have 1 channel, or 5 or more, is outside the model (`Stack.GoodImage`, `Stack.ReaderOk`). For such data `Image.fromarray` (`imquick.py:405`) raises after lines 396-404 have already reset the bounds and replaced the array, the data and the normalised data, while the window keeps its previous file. That half-loaded window is not modelled.
- ViewerState.Viewer.LoadImage: a file larger than a canvas of 4 pixels or fewer on a side is outside the model (`Showable`). `fit_to_window` (`imquick.py:523`) then computes a zoom of zero or less, which the window invariant excludes. Smaller files load on any canvas.
- ViewerState.Viewer.OpenPath, ViewerState.Viewer.Step, ViewerState.Viewer.Browse, ViewerState.Viewer.NextFile, ViewerState.Viewer.PrevFile, ViewerState.Viewer.OpenFile, ViewerState.Viewer.OnDrop, ViewerState.Viewer.DropOne: every file of `disk` must meet the same two conditions (`DiskOk`).
- ViewerState.Viewer.FitView: requires a canvas of more than 4 pixels on each side. On a smaller canvas the fit scale of `imquick.py:523` is zero or negative, and the model does not follow the view there.
- ViewerState.Viewer.FitToWindow: the same canvas requirement, for the same reason.
- ViewerState.Viewer.OpenFailed: the code also sets `reader` to None (`imquick.py:393`). The model keeps the previous reader, which no handler reads while there is no file. A failure after the reader opened but before the plane was read is not told apart from a failure to open; both are paths missing from `disk`.
- Levels.Rescale: samples are non-negative integers, so there is no float data. The `max ≤ 1` branch on float data is not modelled, nor are negative or signed samples.
- The window map and the fit and tile geometry use exact reals. Bit-for-bit agreement with NumPy float64 division followed by `astype('uint8')` is not claimed.
- Viewport.Show: the resampling by PIL `crop`/`resize` and `ImageTk.PhotoImage` is not modelled, nor is the sub-pixel offset fed to the last crop. Only the boxes are modelled.
- Canvas services are inputs:
  - the integer `bbox` of the image rectangle
  - the visible area from `canvasx`/`canvasy`
  - the canvas size
  - `canvas.scale` is assumed to scale the rectangle's corners about the anchor (`Viewport.ScaleAbout`)

  Panning (`move_from`, `move_to`, `scroll_x`, `scroll_y`), `center_canvas` and `resize_window` are not modelled.
- ViewerState.Viewer.HoverPixel: returns the coordinates and the pixel value. The `"X: … Y: …"` and `"-"` status texts are not modelled.
- ViewerState.Viewer.SwitchImage: the file-name label and the selector's entries are not modelled. The entries are `Levels.Choices`.
- Numbers.ParseNeedsDigit: Python's `int()` also accepts `_` between digits and non-ASCII digits. The model accepts ASCII digits only, and strips only the six ASCII whitespace characters.
- Paths.Lower: lower-cases ASCII letters only. Python's `str.lower` also maps non-ASCII letters; no supported extension contains one.
- Paths.Extension: follows POSIX `os.path.splitext`, with '/' as the only separator. Windows separators and drive letters are not modelled.
- Paths.Filter: its contract states only the length bound. What it keeps is proved in `Paths.FilterMembers`, `Paths.FilterAppend` and `Paths.FilterSnoc`.

## Findings

| source | as written | input that shows it | evidently intended | confidence | as-written member | corrected member |
|---|---|---|---|---|---|---|
| imquick.py:775 | `channel_mode_select` reads the channel number from the last character of the label only | a window already showing a file, with no contrast popup open, loads an image with 11 channels; the load fails at `Image.fromarray` (line 405) after replacing the data and the array, and before `self.file` (line 407) and `switch_image` (line 411); since the window still has a file, `adjust_contrast` (lines 353-359) creates the popup from the new data, which then offers 'Channel 0' to 'Channel 10', and selecting 'Channel 10' uses offset 2, the slot of channel 0, before the redraw at line 335 fails as well | the offset of 'Channel k' is 2(k+1) for every k | not executed; reachable only through such a failed load, since the window shows images of at most four channels | Levels.LabelOffsetWrongForChannelTen | Levels.ChannelOffset |
| imquick.py:380-387 | `load_image` moves the plane control to the middle plane and reads it, but does not update `displayed_plane` | a fresh window opens a nine-plane stack, showing plane 4 with `displayed_plane` still 0; typing 0 then reads nothing, so the control says 0 while plane 4 is shown | the displayed plane after a load is the plane that was read | not executed | Stack.StalePlaneAfterLoad | Stack.LoadZInSync |
