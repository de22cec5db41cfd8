# Plate generator — a Dafny model of the layout, crop and plate-editing core

The plate generator lays a row of wall plates (each `id`, `width`, `height`
in cm) side by side on a canvas. A single background image is stretched over
the whole row with "cover" semantics and cut into one crop per plate. When
the row is wider than 300 cm, the image is mirrored into a stripe twice as
wide. The user adds, removes, resizes and reorders plates (1 to 10). The
width and height fields accept German or English decimals and revert to the
last valid value on blur. When a plate is resized or removed, an animation
is driven by a diff of the old and new lists and by a "ghost" of the removed
plate.

This project models that core in Dafny:

| file | module | models |
|---|---|---|
| `numbers.dfy` | `JsNumber` | JS numbers as `Fin(real) | NaN`; `Number(x) \|\| 0`, NaN-propagating arithmetic, `Math.round` |
| `plates.dfy` | `PlateTypes` | `Plate`, `CoverRect`, `CropRect`, the constants `PAD`, `GAP`, `MAX_STAGE_WIDTH`, the 300 cm mirror threshold, the default list |
| `layout.dfy` | `Layout` | `computeSizes` |
| `image.dfy` | `Image` | `getCoverSrcRect`, `makeMirroredStripe` (a pixel array filled by loops) |
| `crop.dfy` | `Crop` | `buildPlateCrop` |
| `animation.dfy` | `Animation` | `getResizeChanges` and `computeRemovedGhost` (loops, proved against specification functions) |
| `canvas.dfy` | `Canvas` | source choice and cover rectangle of `PlateCanvas`, the rectangle/seam loop, fit-to-container scaling, the inline per-plate crop |
| `array.dfy` | `ArrayMove` | `arrayMove` (two splices on a copy, as a buffer with shifting loops) |
| `validation.dfy` | `Validation` | the dimension rules, `parseDecimalInput`, `validateDimension`, `isValidPlateConfiguration` |
| `plate_list.dfy` | `PlateList` | the list operations of the plate hook as functions, `getTotalDimensions`, the storage filter |
| `plate_store.dfy` | `PlateStore` | both versions of the plate hook as classes with a `plates` field |
| `input_form.dfy` | `InputForm` | the input form's text rules and one dimension field as a class |

Numbers are exact reals. `parseFloat` is a parameter of type
`string -> Num`, and a fresh plate id (`Date.now()`) is a parameter too.
The stored JSON is an abstract `Stored` value.

Two facts of `computeSizes` (src/utils/helpers/layout.ts:6-7) shape the model:
- it rounds first and clamps to 1 afterwards (`max(1, round(sum))`), so a
  total width below 0.5 gives `pxW == 1`;
- the sum of the untrimmed plate widths equals `pxW` only when the total
  width is a whole number (`Layout.PxWExactForIntegralWidth`).

The part of src/types/plate.ts in this model defines only the `Plate` and
`PlateValidation` types, not `PAD`, `GAP` or `MAX_STAGE_WIDTH`. The model fixes them at 24, 4 and
12000 cm.

## Model

| member | source | states |
|---|---|---|
| JsNumber.Coerce | src/utils/helpers/layout.ts:4-5 | `Number(x) \|\| 0`: a number is kept, NaN (a missing value) becomes 0 |
| JsNumber.Round | src/utils/helpers/layout.ts:6-7 | `Math.round`: a whole number within half a unit, halves rounded up |
| Layout.MaxHeight | src/utils/helpers/layout.ts:5 | at least 1, at least every coerced height, and equal to 1 or to one of them |
| Layout.ComputeSizes | src/utils/helpers/layout.ts:3-11 | pxW, pxH ≥ 1 and whole; each within 0.5 of the total width / max height; a total below 0.5 gives pxW = 1; maxHeight is 1 or the coerced height of some plate; stage width capped at 12000; stage height is pxH + 2·PAD (also covers the copy in src/hooks/use-plates.ts:109-123) |
| Layout.EmptyListSizes | src/utils/helpers/layout.ts:3-11 | no plates still give a 1 × 1 canvas and a 49 × 49 stage |
| Layout.DefaultPlateSizes | src/utils/helpers/layout.ts:3-11 | the default 300 × 128 plate gives a 348 × 176 stage |
| Layout.PxWExactForIntegralWidth | src/utils/helpers/layout.ts:6 | a whole total width of at least 1 is pxW exactly |
| Layout.SumWidthsAppend | src/utils/helpers/layout.ts:4 | the total width of a concatenation is the sum of the totals |
| Layout.SumWidthsStep | src/utils/helpers/layout.ts:4 | each prefix sum grows by the next coerced width |
| Layout.SumWidthsPermutation | src/utils/helpers/layout.ts:4 | the total width does not depend on the plate order |
| Image.GetCoverSrcRect | src/utils/helpers/image.ts:4-21 | the rectangle is centred in the image, fits inside it, has the destination's aspect ratio, and spans the full width or the full height |
| Image.CoverOfSameAspectIsWholeImage | src/utils/helpers/image.ts:10-20 | equal aspect ratios give the whole image |
| Image.CoverIsLargest | src/utils/helpers/image.ts:10-20 | no rectangle of the destination's shape inside the image is larger than the cover |
| Image.CoverExample | src/utils/helpers/image.ts:4-21 | 100 × 100 into 60 × 30 gives the band (0, 25, 100, 50) |
| Image.MakeMirroredStripe | src/utils/helpers/image.ts:24-44 | the stripe is 2W × H, holds the image in columns [0, W) and its mirror in [W, 2W) |
| Image.StripeSeamIsContinuous | src/utils/helpers/image.ts:33-37 | the two columns either side of the seam are equal |
| Crop.CropScalesCanvas | src/utils/helpers/crop.ts:3-21 | `buildPlateCrop`: canvas lengths map to cover lengths by c.w / pxW and c.h / pxH: offset from the cover's left, crop size, and height above the cover's bottom |
| Crop.FullCanvasCropIsCover | src/utils/helpers/crop.ts:3-21 | a plate covering the whole canvas gets the whole cover rectangle |
| Crop.CropIsAdditive | src/utils/helpers/crop.ts:12-20 | the crop at cursor k widened by w ends where the crop at cursor k + w starts |
| Crop.CropIsBottomAnchored | src/utils/helpers/crop.ts:17-20 | a full-height plate's crop reaches the cover's bottom edge |
| Crop.CropIsContained | src/utils/helpers/crop.ts:3-21 | a plate inside the canvas has its crop inside the cover rectangle |
| Crop.CoverCropIsUndistorted | src/utils/helpers/crop.ts:12-13 | crops of a cover rectangle scale both axes by the same factor |
| Crop.UntrimmedCropsTile | src/utils/helpers/crop.ts:16-19 | untrimmed crops of consecutive plates meet without gap or overlap |
| Crop.RowCropEndsAtCoverEdge | src/utils/helpers/crop.ts:16-19 | when the row fills the canvas, the last crop ends at the cover's right edge |
| Animation.GetResizeChanges | src/utils/helpers/animation.ts:3-45 | the loop's output equals the specification `ResizeChanges` |
| Animation.ById_IsLastOccurrence | src/utils/helpers/animation.ts:9 | the id map holds exactly the ids of the list, each bound to its last plate |
| Animation.ById_Unique | src/utils/helpers/animation.ts:9 | with unique ids each plate is found under its own id |
| Animation.Classify | src/utils/helpers/animation.ts:16-39 | numeric sizes are skipped exactly when both moved by at most epsDim; a NaN size is always reported |
| Animation.ClassifySelf | src/utils/helpers/animation.ts:16-19 | a numeric plate compared with itself is not reported |
| Animation.ChangesFromSelfIsEmpty | src/utils/helpers/animation.ts:12-42 | every prefix of a list diffed against the whole list reports nothing |
| Animation.SelfDiffIsEmpty | src/utils/helpers/animation.ts:3-45 | a list diffed against itself reports nothing (unique ids, numeric sizes) |
| Animation.SelfDiffWithDuplicateIds | src/utils/helpers/animation.ts:9-41 | with a repeated id, the self-diff reports a change |
| Animation.SelfDiffWithNaN | src/utils/helpers/animation.ts:16-38 | a NaN width makes the self-diff report a growth |
| Animation.GrowingBothDimensionsIsGrow | src/utils/helpers/animation.ts:19-39 | growing both dimensions (one beyond epsilon) is labelled grow |
| Animation.ShrinkingBothDimensionsIsShrink | src/utils/helpers/animation.ts:19-39 | shrinking both dimensions (one beyond epsilon) is labelled shrink |
| Animation.ClassifyTieBreakExample | src/utils/helpers/animation.ts:31-38 | at equal area the larger change decides, the width on a tie |
| Animation.ResizeChangesExample | src/utils/helpers/animation.ts:3-45 | widening one of two plates reports only that plate as growing |
| Animation.ChangesFromAppend | src/utils/helpers/animation.ts:12-42 | the output follows the order of the new list, plate by plate |
| Animation.ResizeChangesShape | src/utils/helpers/animation.ts:12-42 | at most one entry per new plate, only for ids present in both lists |
| Animation.FractionalCropIsPlateCrop | src/utils/helpers/animation.ts:67-75 | the ghost's fractional crop equals the crop helper's plate crop |
| Animation.GhostAtFirstMatch | src/utils/helpers/animation.ts:57-86 | at the first plate with the id, the ghost is at the prefix sum, bottom-aligned, trimmed by GAP |
| Animation.ComputeRemovedGhost | src/utils/helpers/animation.ts:48-91 | the loop's result equals the specification `RemovedGhostSpec` |
| Animation.RemovedGhostSpec | src/utils/helpers/animation.ts:48-91 | a ghost exactly when the id was in the previous list; it has the id, a non-negative width, ends at the snapshot bottom, and has a crop exactly when a cover rectangle and an image were there |
| Animation.RemovedGhostExample | src/utils/helpers/animation.ts:48-91 | a concrete removal puts the ghost at (30, 10), 36 × 20 |
| Canvas.ChooseSource | src/components/Canvas/PlateCanvas.tsx:46-57 | mirrored exactly for a loaded image and a row wider than 300; the stripe is twice as wide; no image gives 0 × 0 |
| Canvas.GlobalSrc | src/components/Canvas/PlateCanvas.tsx:84-85 | a cover rectangle exactly when a buffer of positive size is present |
| Canvas.LoadedImageHasCover | src/components/Canvas/PlateCanvas.tsx:46-85 | a loaded image always yields a cover inside the sampled buffer with the canvas's shape |
| Canvas.BuildPlateRects | src/components/Canvas/PlateCanvas.tsx:115-142 | one rectangle per plate at the prefix-sum cursor, bottom-aligned and trimmed; seams at PAD plus each prefix sum |
| Canvas.ConsecutiveLeftsDifferByWidth | src/components/Canvas/PlateCanvas.tsx:129-140 | consecutive plates are one coerced width apart |
| Canvas.RectsShareBottomEdge | src/components/Canvas/PlateCanvas.tsx:130-141 | all plates end at PAD + pxH; the last seam is PAD + total width |
| Canvas.ScaleStage | src/components/Canvas/PlateCanvas.tsx:143-153 | stage, rectangles and seams are each multiplied by the fit scale |
| Canvas.ScalingKeepsBottomEdge | src/components/Canvas/PlateCanvas.tsx:143-153 | after scaling, every plate ends at (PAD + pxH) · scale |
| Canvas.ScaleOneIsIdentity | src/components/Canvas/PlateCanvas.tsx:143-153 | at scale 1 nothing moves |
| Canvas.FindRect | src/components/Canvas/PlateCanvas.tsx:211 | nothing is found exactly when no rectangle has the id; a found rectangle is the first one with the id |
| Canvas.FindRectById | src/components/Canvas/PlateCanvas.tsx:211 | the lookup finds the rectangle of the first plate with the id |
| Canvas.ScaledCropIsPlateCrop | src/components/Canvas/PlateCanvas.tsx:217-225 | the render loop's crop formula equals the crop helper |
| Canvas.FirstRectOf | src/components/Canvas/PlateCanvas.tsx:210-211 | the looked-up rectangle's left minus PAD is the prefix sum of the first plate with the id |
| Canvas.InlineCropAt | src/components/Canvas/PlateCanvas.tsx:207-225 | given the found rectangle, the inline crop is the plate crop at its cursor |
| Canvas.InlineCropIsPlateCrop | src/components/Canvas/PlateCanvas.tsx:207-225 | the inline crop is the plate crop at the cursor of the first plate sharing the id |
| Canvas.GhostMatchesDrawnPlate | src/utils/helpers/animation.ts:48-91 | with unique ids, the removal ghost sits where the plate was drawn and carries the crop it was drawn with |
| ArrayMove.SpliceStart | src/utils/helpers/array.ts:3-4 | splice's start: a negative index counts from the end, clamped to [0, len] |
| ArrayMove.MovedPointwise | src/utils/helpers/array.ts:1-6 | the moved element lands at `to`; the elements between shift by one; the rest stay |
| ArrayMove.ArrayMove | src/utils/helpers/array.ts:1-6 | the buffer algorithm's result equals the specification `Moved` |
| ArrayMove.MovedIsPermutation | src/utils/helpers/array.ts:1-6 | same length and same multiset of elements |
| ArrayMove.MovedKeepsOrderOfTheRest | src/utils/helpers/array.ts:3-4 | removing the moved element from the result gives the list without it, in order |
| ArrayMove.MoveInPlaceIsIdentity | src/utils/helpers/array.ts:1-6 | moving a non-negative index onto itself changes nothing |
| ArrayMove.MoveThereAndBack | src/utils/helpers/array.ts:1-6 | moving i to j and then j to i restores the list |
| ArrayMove.MoveExamples | src/utils/helpers/array.ts:1-6 | [a,b,c,d] with 0 → 2 is [b,c,a,d], and so is −10 → 2 (a start below −length is clamped to 0); with −1 → 0 it is [d,a,b,c] |
| Validation.RuleFor | src/utils/validation.ts:14-25 | each rule's minimum is at most its maximum |
| Validation.RulesMatchDimensionTable | src/constants/constants.ts:4-17 | the rules equal the dimension table's bounds and each default lies within them |
| Validation.FirstIndexOf | src/utils/validation.ts:29 | the first position of the character, or the length when it is absent |
| Validation.ReplaceFirst | src/utils/validation.ts:29 | only the first occurrence is replaced; everything else is unchanged |
| Validation.CountZeroIffAbsent | src/utils/validation.ts:29 | zero occurrences exactly when the character is absent |
| Validation.ReplaceFirstCommaCount | src/utils/validation.ts:29 | normalising removes exactly one comma when there is one |
| Validation.CountAppend | src/components/Controls/PlateInputForm.tsx:25-26 | occurrence counts add over concatenation |
| Validation.ParseDecimalInput | src/utils/validation.ts:27-31 | text without a comma is parsed as is |
| Validation.ParseReplacesOnlyFirstComma | src/utils/validation.ts:27-31 | "12,5" is parsed as "12.5" and "1,2,3" as "1.2,3" |
| Validation.ValidateDimension | src/utils/validation.ts:33-44 | valid exactly for a number within the inclusive bounds; a rejection carries the rule's message |
| Validation.WidthBoundsAreInclusive | src/utils/validation.ts:36 | 20 and 300 are valid widths; 19.9, 300.1 and NaN are not |
| Validation.ConfigurationBounds | src/utils/validation.ts:53-68 | valid exactly for 1 to 10 plates whose sizes are all numeric, widths within 20..300 and heights within 30..128 |
| Validation.DefaultsAreValid | src/utils/validation.ts:53-68 | the default list and a fresh 30 × 30 plate are valid |
| Validation.SumWidthsBounded | src/utils/validation.ts:58-67 | widths bounded by m give a total of at most m times the count |
| Validation.ValidConfigurationIsNotCapped | src/utils/validation.ts:53-68 | a valid configuration never reaches the stage-width cap |
| PlateList.FilterOut | src/hooks/use-plates.ts:63 | the filtered list is no longer, holds no plate with the id, and only plates of the list |
| PlateList.Updated | src/hooks/use-plates.ts:68-72 | same length; matching plates are merged with the update and the others are kept |
| PlateList.AddedSpec | src/hooks/use-plates.ts:47-57 | no-op at 10 plates; otherwise one 30 × 30 plate with the fresh id is appended after the others |
| PlateList.FlagsMatchOperations | src/hooks/use-plates.ts:145-146 | canAddPlate holds exactly when adding changes the list; without canRemovePlate removing changes nothing, with it (and unique ids) removing a present id does |
| PlateList.FilterOutAbsent | src/hooks/use-plates.ts:63 | filtering an absent id changes nothing |
| PlateList.FilterOutKeepsOthers | src/hooks/use-plates.ts:63 | every plate with another id survives the filter |
| PlateList.FilterOutSingle | src/hooks/use-plates.ts:63 | one plate is kept exactly when its id differs |
| PlateList.FilterOutAppend | src/hooks/use-plates.ts:63 | the filter distributes over concatenation, so the kept plates stay in order |
| PlateList.FilterOutCount | src/hooks/use-plates.ts:63 | each plate with another id is kept as many times as it occurs; plates with the id are dropped |
| PlateList.FilterOutUnique | src/hooks/use-plates.ts:63 | with unique ids, filtering drops exactly the plate with the id |
| PlateList.FilterOutHead | src/hooks/use-plates.ts:63 | with unique ids, filtering the first plate's id leaves the rest |
| PlateList.RemovedSpec | src/hooks/use-plates.ts:59-66 | no-op at one plate or for an absent id; otherwise no plate keeps the id, and with unique ids one plate fewer; every plate with another id keeps its multiplicity |
| PlateList.RemoveWithDuplicateIdsEmpties | src/hooks/use-plates.ts:61-63 | two plates sharing the removed id leave an empty list |
| PlateList.UpdatedSpec | src/hooks/use-plates.ts:68-72 | only plates with the id change; an absent id or an empty update changes nothing |
| PlateList.UpdatedDimensionSpec | src/hooks/use-plates.ts:74-90 | the validation is always returned; the list changes only when valid, and then only the dimension of the matching plates |
| PlateList.ReorderedSpec | src/hooks/use-plates.ts:125-134 | equal indices change nothing; otherwise the list is a permutation |
| PlateList.FilterOutKeepsUniqueIds | src/hooks/use-plates.ts:63 | filtering keeps ids unique |
| PlateList.MultisetIdsUnique | src/hooks/use-plates.ts:128-133 | a permutation of a list with unique ids has unique ids |
| PlateList.AddKeepsWellFormed | src/hooks/use-plates.ts:47-57 | adding with a fresh id keeps 1..10 plates with unique ids |
| PlateList.RemoveKeepsWellFormed | src/hooks/use-plates.ts:59-66 | removing keeps 1..10 plates with unique ids |
| PlateList.UpdateKeepsWellFormed | src/hooks/use-plates.ts:68-72 | an update that leaves ids alone keeps 1..10 plates with unique ids |
| PlateList.ReorderKeepsWellFormed | src/hooks/use-plates.ts:125-134 | reordering keeps 1..10 plates with unique ids |
| PlateList.GetTotalDimensions | src/hooks/use-plates.ts:92-107 | the plate count is the length; mirroring is needed exactly for a numeric total width above 300 |
| PlateList.RawTotalWidthFinite | src/hooks/use-plates.ts:93 | over numeric widths the raw total is the layout's total |
| PlateList.NeedsMirroringMatchesLayout | src/hooks/use-plates.ts:105 | over numeric widths, needsMirroring is the canvas's mirror threshold on the layout's total width |
| PlateList.NaNWidthDisablesMirroring | src/hooks/use-plates.ts:93-105 | one NaN width makes the total NaN and needsMirroring false |
| PlateList.RawTotalWidthNaN | src/hooks/use-plates.ts:93 | one NaN width makes the sum NaN |
| PlateList.RawMaxHeightFinite | src/hooks/use-plates.ts:94 | over numeric heights the maximum exists exactly for a non-empty list, is one of the heights and at least all of them |
| PlateList.EmptyTotals | src/hooks/use-plates.ts:92-107 | no plates give width 0, no maximum (−Infinity), area 0, no mirroring |
| PlateList.FilterEntries | src/hooks/use-plates.ts:16-20 | the result is no longer than the stored array |
| PlateList.FilterEntriesSingle | src/hooks/use-plates.ts:16-20 | one element is kept, as its plate, exactly when it passes |
| PlateList.FilterEntriesAppend | src/hooks/use-plates.ts:16-20 | the filter distributes over concatenation, so the kept plates stay in order and every passing element is kept |
| PlateList.FilterEntriesSpec | src/hooks/use-plates.ts:16-20 | every result plate comes from an entry that passes; empty exactly when none passes; all entries pass gives the same length |
| PlateList.StoredPlatesSpec | src/hooks/use-plates.ts:9-27 | the default when no non-empty array was stored or when it holds a null (the filter throws); otherwise no more plates than elements, and none when all fail |
| PlateList.StoredEmptyIdGivesNoPlates | src/hooks/use-plates.ts:16-20 | one entry with an empty id is read back as no plates |
| PlateList.StoredNullGivesDefault | src/hooks/use-plates.ts:16-26 | a valid plate followed by a null is read back as the default list |
| PlateStore.PlateStore.constructor | src/hooks/use-plates.ts:9-41 | the list starts from what storage holds |
| PlateStore.PlateStore.AddPlate | src/hooks/use-plates.ts:47-57 | the list becomes `Added`; a fresh id keeps it well formed |
| PlateStore.PlateStore.RemovePlate | src/hooks/use-plates.ts:59-66 | the list becomes `Removed` and stays well formed |
| PlateStore.PlateStore.UpdatePlate | src/hooks/use-plates.ts:68-72 | the list becomes `Updated`; without an id change it stays well formed |
| PlateStore.PlateStore.UpdatePlateDimension | src/hooks/use-plates.ts:74-90 | list and returned validation are `UpdatedDimension`; the list stays well formed |
| PlateStore.PlateStore.ReorderPlates | src/hooks/use-plates.ts:125-134 | the list becomes `Reordered` and stays well formed |
| PlateStore.LegacyPlateStore.constructor | src/hooks/use-paltes.ts:5-8 | the list starts as the default list, which is well formed |
| PlateStore.LegacyPlateStore.AddPlate | src/hooks/use-paltes.ts:10-20 | the list becomes `Added`; a fresh id keeps it well formed |
| PlateStore.LegacyPlateStore.RemovePlate | src/hooks/use-paltes.ts:22-29 | the list becomes `Removed` and stays well formed |
| PlateStore.LegacyPlateStore.UpdatePlate | src/hooks/use-paltes.ts:31-35 | the list becomes `Updated`; without an id change it stays well formed |
| PlateStore.LegacyPlateStore.UpdatePlateDimension | src/hooks/use-paltes.ts:37-53 | list and returned validation are `UpdatedDimension`; the list stays well formed |
| PlateStore.LegacyPlateStore.ReorderPlates | src/hooks/use-paltes.ts:72-81 | the list becomes `Reordered` and stays well formed |
| InputForm.Split | src/components/Controls/PlateInputForm.tsx:41-47 | at least one part |
| InputForm.SplitLength | src/components/Controls/PlateInputForm.tsx:41-43 | one part more than there are separators |
| InputForm.SplitCountAt | src/components/Controls/PlateInputForm.tsx:41-43 | the count is one plus the count after the first separator |
| InputForm.SplitOnce | src/components/Controls/PlateInputForm.tsx:41-43 | with one separator, the parts are the text before it and after it |
| InputForm.SingleDecimalIff | src/components/Controls/PlateInputForm.tsx:33-54 | passes exactly when the relevant separator occurs at most once with at most one character after it |
| InputForm.TwoSeparatorsCount | src/components/Controls/PlateInputForm.tsx:21-30 | two separators make the format count at least two |
| InputForm.PassingTextShape | src/components/Controls/PlateInputForm.tsx:21-54 | text passing both rules has at most one separator, at most one character from the end |
| InputForm.TrailingSeparatorPasses | src/components/Controls/PlateInputForm.tsx:33-54 | "5." passes the one-decimal rule |
| InputForm.TwoDecimalsFail | src/components/Controls/PlateInputForm.tsx:33-54 | "5.25" fails the one-decimal rule |
| InputForm.TwoSeparatorsFail | src/components/Controls/PlateInputForm.tsx:33-54 | "1.2.3" fails the one-decimal rule |
| InputForm.NatToString | src/components/Controls/PlateInputForm.tsx:87-92 | a whole bound is written as decimal digits, without a leading zero, whose decimal value is the bound |
| InputForm.MessageEmptyIffNoError | src/components/Controls/PlateInputForm.tsx:63-97 | the shown error text is empty exactly when there is no error |
| InputForm.NatToStringExamples | src/components/Controls/PlateInputForm.tsx:87-92 | the bounds 20, 30, 128 and 300 are written "20", "30", "128" and "300" |
| InputForm.BoundMessages | src/constants/constants.ts:62-73 | "Value must be at least 20 cm" and "Value must not exceed 128 cm" |
| InputForm.BoundaryMatchesDimensionRule | src/components/Controls/PlateInputForm.tsx:57-98 | the form accepts exactly non-blank text passing both format rules whose parsed value passes the store's dimension rule |
| InputForm.AcceptedText | src/components/Controls/PlateInputForm.tsx:57-98 | accepted text is non-empty, has one separator at most with at most one character (not necessarily a digit) after it, and parses within the bounds |
| InputForm.BlankIsRequired | src/components/Controls/PlateInputForm.tsx:63-66 | empty and whitespace-only text is reported as required |
| InputForm.TwoSeparatorsAreInvalidNumber | src/components/Controls/PlateInputForm.tsx:67-70 | "1.2.3" is reported as an invalid number, before the one-decimal rule |
| InputForm.TwoDecimalsAreReported | src/components/Controls/PlateInputForm.tsx:72-75 | "5.25" is reported as too many decimal places |
| InputForm.ConvertToMmWithinBounds | src/components/Controls/PlateInputForm.tsx:149-165 | when the shown text passes, the read-out is between 10·min and 10·max |
| InputForm.DimensionField.constructor | src/components/Controls/PlateInputForm.tsx:9-18 | the field starts at "30" with no error, and the invariant holds |
| InputForm.DimensionField.ValidateBoundary | src/components/Controls/PlateInputForm.tsx:57-98 | the error becomes the first failing rule; true exactly when none failed; value and last valid unchanged |
| InputForm.DimensionField.HandleNumberInput | src/components/Controls/PlateInputForm.tsx:100-125 | text outside [0-9.,]* changes nothing; otherwise it is shown with its error, and remembered when it passes |
| InputForm.DimensionField.HandleBlur | src/components/Controls/PlateInputForm.tsx:127-148 | the error is cleared; a failing text is replaced by the last valid one; the invariant is kept |
| InputForm.DimensionField.Millimetres | src/components/Controls/PlateInputForm.tsx:149-168 | the read-out under the field is always between 10·min and 10·max |

## Left out

- Infinities are not modelled: JSON cannot carry them and accepted inputs are at most 300.
- Numbers are exact reals, not IEEE doubles. The exact equalities (cover aspect, additivity, ghost crop equals drawn crop) hold only approximately in doubles.
- React machinery is not modelled: state batching, `useMemo`/`useEffect`, refs, and the stale-closure length guards. Each operation is one sequential step on the current list.
- The snapshot effect that keeps the previous list for the ghost is not modelled. `Canvas.GhostMatchesDrawnPlate` takes the snapshot to be the drawn canvas.
- DOM measurement is not modelled (`offsetWidth`, `fitScale`, resize listeners, `canScroll`). The fit scale is a parameter.
- Konva rendering and tweens, the preview card, the controls layout and the application shell are not modelled.
- Canvas 2D calls in `makeMirroredStripe` are not modelled. The stripe is an abstract pixel array.
- `localStorage`, `JSON.parse` and `JSON.stringify` are not modelled. Writing back to storage (`saveToStorage`) is not modelled. Reading is an abstract `Stored` value.
- Non-string stored ids are not modelled: a stored id is a string or absent.
- `Date.now()` is not modelled: the fresh id is a parameter.
- `setPlates`, which the plate hook also returns, is not modelled: it replaces the list with anything.
- `parseFloat` is a parameter. The model only assumes `parseFloat("30")` is 30, for the form's initial value.
- Number-to-text formatting is not modelled: `formatDimension` (`Intl.NumberFormat`) and the `"… mm"` text of `convertToMm`. Bound messages are formatted only for whole bounds.
- useImage loading (src/hooks/useImage.ts) is not part of this model. An image is either absent or has a known size.
- PNG export (src/utils/plates.ts) is not part of this model.
- `Image.GetCoverSrcRect` requires positive sizes. The code divides by them and is only reached with positive sizes.
- `Crop.BuildPlateCrop`, `Animation.RemovedGhostSpec`, `Animation.ComputeRemovedGhost` and `Canvas.InlineCrop` require a non-zero canvas size. The canvas is at least 1 × 1.
- PlateStore.PlateStore.ReorderPlates: requires `from < length` on a non-empty list (or `from == to`). Any negative `from` is allowed, because `splice` clamps it. For `from >= length`, `splice` removes nothing and inserts `undefined`; that is not modelled.
- PlateStore.LegacyPlateStore.ReorderPlates: the same requirement on `from` as `PlateStore.PlateStore.ReorderPlates`.
- ArrayMove.ArrayMove: requires `from < length` on a non-empty list, for the same reason; a negative `from` of any size is modelled.
- PlateList.PlateUpdate: an update field explicitly set to `undefined` is not modelled. A field is either absent or a value.
