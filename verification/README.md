# Verified models of the ECM reference software

Dafny models of the parts of the ECM codec repository with the most state and arithmetic, and proofs about
them. `dafny verify dfyconfig.toml` verifies everything.

| Modules | What they model |
|---|---|
| `AlfPicture` … `AlfArithmetic` | the adaptive loop filter for luma: in-place Laplacian sums, classification, fixed 13x13 filters, adaptive filters with transposed coefficient orders, virtual boundaries, 32-bit arithmetic |
| `GopCheck`, `GopRun`, `GopBuffer` | the encoder's simulation of the GOP structure and its reference picture lists |
| `DpbSizing`, `TileGrid`, `SliceWalker`, `SliceParameters` | the encoder's normalisation of buffer sizes, tile lists and rectangular slices |
| `AnnexB`, `AnnexBRoundTrip`, `StreamMerge`, `MergedStream` | the byte stream reader with four bytes of look-ahead, the NAL unit parser, and merging of streams (Annex B of Rec. ITU-T H.266) |
| `Bumping`, `BumpingRuns` | the decoder's output of pictures (section C.5.2 of Rec. ITU-T H.266) |
| `ParcatNal`, `ParcatField`, `ParcatFilter`, `ParcatRuns`, `ParcatHeaders`, `ParcatPayload`, `ParcatSplits`, `ParcatWitnesses` | concatenation of bitstreams with patched picture order counts, the reading of their headers, and what becomes of the result when it is read again |
| `SubPicTiles` | tiles and slices of an extracted sub-picture |
| `Multiples` | quotients of multiples, for the proofs |

Code that works on arrays or fields is modelled by methods over arrays and classes; the functions in their
contracts are what the lemmas are about.

Things to know when reading:

- A picture is a total function from row and column to a sample. Border replication makes it total, and the
  buffers and the result are arrays. The four direction planes of the Laplacian buffer are four fields of one
  array element.
- The numeric filter tables and input streams are parameters, so the results hold for all of them. What the
  concatenation reads in headers is a parameter too (`ParcatFilter.Headers`); `ParcatHeaders.ReadsAs` ties it to
  the bytes, `ParcatSplits.ParameterSets` the parameter sets to the files read before, and the results on reading
  the output again ask for that.
- The source unrolls the filter taps and the coefficient orders; here the taps are a loop over a table of
  positions and the orders are tabulated as in the source.
- `ALF_IMPROVEMENT`, `JVET_X0071_*`, `JVET_Z0105_*` and `JVET_S0076_ASPECT1` are taken as on. `JVET_Z0118_GDR` is 0 in
  `source/Lib/CommonLib/TypeDef.h:260`; both forms of the comparison are covered by a flag of `Bumping.Limits`.

Where the code does not do what one would expect, the lemma says so and the exact condition is proved:
`GopBuffer.UncoveredBufferIsNotKnown` with `GopBuffer.BufferIsAlwaysKnown`; `BumpingRuns.SecondLayerIsPassedOver`
with `BumpingRuns.NoCallPassesOverIff` and `BumpingRuns.SortedCallPassesOverIff`;
`AnnexBRoundTrip.ZeroDoesNotComeBack` with `AnnexBRoundTrip.RoundTripExactly`; `MergedStream.ParameterSetNeverEnds` with `StreamMerge.MergeEndsIff`;
`MergedStream.TypeIsLost` with `MergedStream.TypeIsKeptIff`; `MergedStream.ZeroRunsOn` with
`MergedStream.MergedKeepsNals` and `MergedStream.MergedWithoutVps`; `TileGrid.ZeroSizeNeverEnds` with `TileGrid.RasterEndsIff`;
`AlfArithmetic.CheckerboardOverflows` with `AlfArithmetic.TwelveBitsFit`; `ParcatWitnesses.MovedCountMakesAMark` and `ParcatWitnesses.ShortUnitIsLost` with
`ParcatSplits.ConcatenationSplits`; `ParcatPayload.PreventingByteIsLeft` with `ParcatPayload.MovedPayload`;
`SubPicTiles.CutTilesDoNotFit` with `SubPicTiles.ColumnsFit` and `SubPicTiles.RowsFit`;
`SubPicTiles.LowerHalfMovesWrong` with `SubPicTiles.TileMoves`.

## Model

| member | source | states |
|---|---|---|
| AlfLaplacian.CellOfSamples | source/Lib/CommonLib/AdaptiveLoopFilter.cpp:1687-1745 | the four absolute values per direction that are added for a 2x2 block are the direct 2x2 window sums of the Laplacians |
| AlfLaplacian.DeriveClassificationLaplacian | source/Lib/CommonLib/AdaptiveLoopFilter.cpp:1687-1745 | after the first pass, in place, every buffer cell a reader may use holds the direct 4x4 window sums of the picture, all four directions, any even block size |
| AlfLaplacian.DeriveClassificationLaplacianBig | source/Lib/CommonLib/AdaptiveLoopFilter.cpp:1658-1685 | one further pass over a buffer of 4x4 sums leaves the direct 12x12 window sums in every cell a reader may use |
| AlfLaplacian.NarrowRow | source/Lib/CommonLib/AdaptiveLoopFilter.cpp:1699-1744 | horizontal half of the first pass on one row, with the rows above and below in their own phases |
| AlfLaplacian.WidenRow | source/Lib/CommonLib/AdaptiveLoopFilter.cpp:1661-1671 | one row of 4x4 sums becomes 4x12 sums without disturbing any other row |
| AlfLaplacian.DeepenRow | source/Lib/CommonLib/AdaptiveLoopFilter.cpp:1672-1683 | three rows of 4x12 sums leave a row of 12x12 sums in the topmost, all other rows kept |
| AlfLaplacian.CellsNest | source/Lib/CommonLib/AdaptiveLoopFilter.cpp:1658-1744 | window sums nest: 2x2 to 4x4 to 12x12, by columns and then by rows, which is what makes the in-place passes right |
| AlfPicture.LaplacianWindowIsLocal | source/Lib/CommonLib/AdaptiveLoopFilter.cpp:1699-1744 | a window of Laplacians depends on one ring of samples around the window and on no others |
| AlfClassifier.InitMappingDir | source/Lib/CommonLib/AdaptiveLoopFilter.cpp:69-80 | the constructor fills the triangular direction table, zero above its diagonal |
| AlfClassifier.MappingIsABijection | source/Lib/CommonLib/AdaptiveLoopFilter.cpp:69-80 | the table numbers the 28 pairs of strengths without gap or collision |
| AlfClassifier.EdgeStrengthMonotone | source/Lib/CommonLib/AdaptiveLoopFilter.cpp:1406-1455 | a larger ratio never has a smaller edge strength: all six thresholds are monotone |
| AlfClassifier.LookupIsTriangular | source/Lib/CommonLib/AdaptiveLoopFilter.cpp:1457-1464 | the table is read on or below its diagonal, except exactly when both diagonal sums are zero and the horizontal and vertical ones have a strength |
| AlfClassifier.DirectionBounds | source/Lib/CommonLib/AdaptiveLoopFilter.cpp:1387-1465 | there are at most 56 directions for the fixed filters and 5 for the adaptive ones |
| AlfClassifier.CodeInRange | source/Lib/CommonLib/AdaptiveLoopFilter.cpp:1467-1494 | class index below its class count, transpose index below 4, the packed code fits 16 bits and unpacks to both |
| AlfClassifier.TransposeBits | source/Lib/CommonLib/AdaptiveLoopFilter.cpp:1330-1478 | whichever pair of directions is the main one, the transpose index has one bit for each pair of sums |
| AlfClassifier.ClassIsSymmetric | source/Lib/CommonLib/AdaptiveLoopFilter.cpp:1330-1478 | transposing or flipping the sums keeps the class; it toggles bit 0 exactly if vertical and horizontal sums differ, bit 1 exactly if the diagonal ones do |
| AlfBlock.SortDirections | source/Lib/CommonLib/AdaptiveLoopFilter.cpp:1330-1368 | the branches that order the sums and choose the main direction give maximum, minimum and the specified directions |
| AlfBlock.ClassifyCell | source/Lib/CommonLib/AdaptiveLoopFilter.cpp:1308-1478 | the code of a block, branch by branch with the table lookup, is the specified class code |
| AlfBlock.CalcClass | source/Lib/CommonLib/AdaptiveLoopFilter.cpp:1295-1499 | every sample of the block area gets the code of its 2x2 block, nothing outside changes |
| AlfBlock.CalcClassNew | source/Lib/CommonLib/AdaptiveLoopFilter.cpp:1249-1276 | the band classifier writes the band code of every 2x2 block |
| AlfTaps.TapIsListed | source/Lib/CommonLib/AdaptiveLoopFilter.cpp:1592-1639 | each tap of the four diamonds is a pair of opposite neighbours in the diamond, listed at its own place |
| AlfTaps.PairIsListed | source/Lib/CommonLib/AdaptiveLoopFilter.cpp:2329-2387 | every pair of opposite neighbours of a diamond is a tap |
| AlfTaps.OrderIsGeometry | source/Lib/CommonLib/AdaptiveLoopFilter.cpp:1546-1565 | for all four footprints, each tabulated coefficient order lists a tap's coefficient where the turned tap is listed |
| AlfTaps.OrdersCompose | source/Lib/CommonLib/AdaptiveLoopFilter.cpp:2208-2279 | the four orders compose like the bits of their indices: involutions that form a Klein four-group |
| AlfTaps.FilterOfTurned | source/Lib/CommonLib/AdaptiveLoopFilter.cpp:2184-2387 | filtering a turned neighbourhood with index u is filtering the original with u exclusive-or t |
| AlfTaps.TransposeIsGeometry | source/Lib/CommonLib/AdaptiveLoopFilter.cpp:2184-2387 | filtering with transpose index t equals filtering the t-transformed neighbourhood with index 0 |
| AlfBlock.SumTaps | source/Lib/CommonLib/AdaptiveLoopFilter.cpp:1591-1639 | the accumulation over the taps with reordered coefficients and clipping values is the filter sum |
| AlfBlock.FixedFiltering | source/Lib/CommonLib/AdaptiveLoopFilter.cpp:1501-1656 | the 13x13 filter writes, for every sample of the block, the clipped and rounded sum of the filter its class selects |
| AlfBlock.FilterBlk | source/Lib/CommonLib/AdaptiveLoopFilter.cpp:2088-2448 | the adaptive filter, all five types with the taps on the fixed results, writes the specified value to every sample of the block and to no other |
| AlfBlock.CopyFixedFilterResults | source/Lib/CommonLib/AdaptiveLoopFilter.cpp:1138-1152 | the stored fixed results of the block become the output |
| AlfDerive.SelectSets | source/Lib/CommonLib/AdaptiveLoopFilter.cpp:1759-1771 | for every QP, negative ones included, the two sets in use are neighbours among the eight |
| AlfDerive.ProcessSet | source/Lib/CommonLib/AdaptiveLoopFilter.cpp:1782-1843 | a set is filtered on classes of its own window: 4x4 sums for window 1, sums widened exactly once for window 5 |
| AlfDerive.ProcessWindow | source/Lib/CommonLib/AdaptiveLoopFilter.cpp:1776-1847 | both sets of a window: the buffer is widened at most once, the classes are computed once and reused, and each plane holds its set's results exactly if the set was wanted |
| AlfDerive.FinishClassifiers | source/Lib/CommonLib/AdaptiveLoopFilter.cpp:1848-1873 | the classes of the adaptive filters are taken from the sums of the wide window, and the bands from the samples |
| AlfDerive.DeriveClassificationAndFixFilterResultsBlk | source/Lib/CommonLib/AdaptiveLoopFilter.cpp:1748-1875 | for every QP, every fixed filter set index and classifier index -1, 0 or 1: which planes are written and with what, and both classifiers |
| AlfDerive.DeriveForSet | source/Lib/CommonLib/AdaptiveLoopFilter.cpp:1748-1875 | with a fixed filter set index of 0 or 1 every plane that may be read later was written for this block with the matching set |
| AlfDerive.FilterLumaBlock | source/Lib/CommonLib/AdaptiveLoopFilter.cpp:657-690 | one luma block: the output is the fixed result of its window, or the adaptive result with taps on the fixed results of the matching set, and nothing else changes |
| AlfDerive.FixedAtMeans | source/Lib/CommonLib/AdaptiveLoopFilter.cpp:1501-1656 | what a plane holds at a destination is the fixed filter applied to the picture at the source position |
| AlfDerive.AdaptiveAtMeans | source/Lib/CommonLib/AdaptiveLoopFilter.cpp:2389-2415 | the same for the adaptive filter, with the fixed results of both windows as extra taps |
| AlfSymmetry.TranspositionCommutes | source/Lib/CommonLib/AdaptiveLoopFilter.cpp:1295-1656 | Laplacians, classification, filtering together commute with transposing the picture: the fixed result of a window wherever its vertical and horizontal sums differ, any adaptive filter of the direction classifier wherever those of the windows it depends on do |
| AlfSymmetry.FlippingCommutes | source/Lib/CommonLib/AdaptiveLoopFilter.cpp:1295-1656 | and with turning a picture of even height upside down, wherever the diagonal sums of those windows differ |
| AlfSymmetry.PaddedTransposition | source/Lib/CommonLib/AdaptiveLoopFilter.cpp:461-467 | the same for the picture as given, border replication included |
| AlfSymmetry.PaddedFlipping | source/Lib/CommonLib/AdaptiveLoopFilter.cpp:461-467 | the same upside down, border replication included |
| AlfSymmetry.CodesOfTransposed | source/Lib/CommonLib/AdaptiveLoopFilter.cpp:1330-1478 | the codes of the transposed sums are the codes of the sums with bit 0 toggled |
| AlfSymmetry.CodesOfFlipped | source/Lib/CommonLib/AdaptiveLoopFilter.cpp:1330-1478 | the codes of the flipped sums are the codes with bit 1 toggled |
| AlfSymmetry.FilterTypeSumOfTurned | source/Lib/CommonLib/AdaptiveLoopFilter.cpp:2329-2402 | every filter type turns with its neighbourhood, the taps on fixed results included |
| AlfLocality.FilterIsLocal | source/Lib/CommonLib/AdaptiveLoopFilter.cpp:1576-1639 | no filter reads farther than six samples |
| AlfLocality.ResultIsLocal | source/Lib/CommonLib/AdaptiveLoopFilter.cpp:1687-1875 | pictures that agree up to six samples around a 2x2 block have the same results in the block, fixed and adaptive |
| AlfLocality.ResultMoves | source/Lib/CommonLib/AdaptiveLoopFilter.cpp:519-649 | moving a picture by even distances moves the results, so that a sub-block may be filtered in a buffer of its own |
| AlfBoundaries.CollectBoundaries | source/Lib/CommonLib/AdaptiveLoopFilter.cpp:121-153 | the boundaries strictly inside a unit in order, and whether one lies on either side |
| AlfBoundaries.CutsAreSubRanges | source/Lib/CommonLib/AdaptiveLoopFilter.cpp:519-532 | each sub-range lies between two neighbouring cuts and replicates exactly the sides that are boundaries or closed |
| AlfBoundaries.BufferIsRegion | source/Lib/CommonLib/AdaptiveLoopFilter.cpp:533-549 | the buffer of a sub-range stays in the picture and shows eight samples beyond every side that is not clipped |
| AlfBoundaries.BufferSuffices | source/Lib/CommonLib/AdaptiveLoopFilter.cpp:533-589 | filtering the sub-block's buffer gives the result of what the sample may see |
| AlfBoundaries.PaddedSuffices | source/Lib/CommonLib/AdaptiveLoopFilter.cpp:651-690 | a unit no boundary crosses is filtered right from the picture padded by six |
| AlfBoundaries.CellIsCell | source/Lib/CommonLib/AdaptiveLoopFilter.cpp:519-532 | the rows or columns between the two boundaries around a sample |
| AlfBoundaries.VisibleIsInCell | source/Lib/CommonLib/AdaptiveLoopFilter.cpp:519-589 | what a sample may see does not reach across a boundary |
| AlfBoundaries.Isolation | source/Lib/CommonLib/AdaptiveLoopFilter.cpp:519-649 | no filtered luma sample depends on any sample across a virtual boundary, rows or columns |
| AlfBoundaries.FilterSubBlock | source/Lib/CommonLib/AdaptiveLoopFilter.cpp:527-589 | one sub-block: exactly its samples are written, each from what it may see |
| AlfBoundaries.FilterStrip | source/Lib/CommonLib/AdaptiveLoopFilter.cpp:519-649 | one row of sub-blocks is written completely and nothing else |
| AlfBoundaries.FilterUnit | source/Lib/CommonLib/AdaptiveLoopFilter.cpp:505-690 | the loops over sub-blocks write every sample of the coding tree unit with its filtered value and no sample outside |
| AlfArithmetic.ActivityFits | source/Lib/CommonLib/AdaptiveLoopFilter.cpp:1297-1464 | up to 12 bits, all sums, threshold products and the scaled activity fit 32 bits and the ratio comparison fits 64 |
| AlfArithmetic.CheckerboardOverflows | source/Lib/CommonLib/AdaptiveLoopFilter.cpp:1370-1377 | from 13 bits on, a checkerboard picture makes the scaled activity of the wide window exceed 31 bits |
| AlfArithmetic.TwelveBitsFit | source/Lib/CommonLib/AdaptiveLoopFilter.cpp:1297-1464 | hence the 32-bit arithmetic of the classifier is right for all pictures exactly if the bit depth is at most 12 |
| AlfArithmetic.BandInRange | source/Lib/CommonLib/AdaptiveLoopFilter.cpp:1264-1272 | each band is one of the 25 classes, and its code has transpose index 0 |
| AlfArithmetic.InitClippingValues | source/Lib/CommonLib/AdaptiveLoopFilter.cpp:946-951 | the loop that fills the four clipping values, as powers of two by bit depth |
| AlfArithmetic.ClippingValuesFall | source/Lib/CommonLib/AdaptiveLoopFilter.cpp:946-951 | the values are positive and fall strictly, and exactly index 0 exceeds every difference of two samples |
| AlfArithmetic.WeightHasNoOrder | source/Lib/CommonLib/AdaptiveLoopFilter.cpp:2208-2276 | no coefficient order changes the weight of a filter |
| AlfArithmetic.FixedResultMovesLittle | source/Lib/CommonLib/AdaptiveLoopFilter.cpp:1591-1645 | a fixed result is in sample range and at most the rounded weight away from its sample |
| AlfArithmetic.AdaptiveResultMovesLittle | source/Lib/CommonLib/AdaptiveLoopFilter.cpp:2324-2415 | so is the final result: twice the clipping value for a pair, once for a fixed result, times the coefficients, plus 64, divided by 128 |
| AlfArithmetic.SumsFit | source/Lib/CommonLib/AdaptiveLoopFilter.cpp:2320-2404 | up to 12 bits no partial sum of any of the five filter types leaves 32 bits, the taps on the fixed results included, for coefficients up to 128 |
| AlfArithmetic.PartialSumEnds | source/Lib/CommonLib/AdaptiveLoopFilter.cpp:2320-2404 | the partial sums that are bounded end in the sum that is rounded |
| AlfArithmetic.FixedSumsFit | source/Lib/CommonLib/AdaptiveLoopFilter.cpp:1591-1645 | the same for the 13x13 fixed filters, with coefficients up to 2048 |
| AlfArithmetic.IndexZeroIsLinear | source/Lib/CommonLib/AdaptiveLoopFilter.cpp:869-872 | with clipping index 0 everywhere each of the five filter types is the unclipped linear one, with 128 shared between centre, neighbours and fixed results |
| AlfArithmetic.FixedIndexZeroIsLinear | source/Lib/CommonLib/AdaptiveLoopFilter.cpp:1591-1645 | so is the 13x13 filter, with 2048 shared between centre and taps |
| AlfArithmetic.AdaptiveResultIsLinear | source/Lib/CommonLib/AdaptiveLoopFilter.cpp:2389-2415 | over the whole filter: with index 0 in the taps of its class a sample becomes the rounded linear combination of its neighbours and of its two fixed results |
| GopCheck.CheckReferences | source/App/EncoderApp/EncAppCfg.cpp:3559-3594 | whether a reference lies before the first picture, and whether one is missing from the buffer |
| GopCheck.KeepAvailable | source/App/EncoderApp/EncAppCfg.cpp:3613-3634 | a copied list keeps exactly the deltas that do not point before the first picture |
| GopCheck.InsertDelta | source/App/EncoderApp/EncAppCfg.cpp:3661-3682 | the shifting loop puts a delta before the first larger one, or at the end |
| GopCheck.InsertKeeps | source/App/EncoderApp/EncAppCfg.cpp:3661-3682 | insertion adds one delta and loses none |
| GopCheck.InsertKeepsOrder | source/App/EncoderApp/EncAppCfg.cpp:3667-3681 | a positive delta inserted into an ascending list leaves it ascending |
| GopCheck.AddPictures | source/App/EncoderApp/EncAppCfg.cpp:3637-3689 | the backward search through earlier steps adds the pictures of the buffer, in its order, until there are enough |
| GopCheck.WalkStep | source/App/EncoderApp/EncAppCfg.cpp:3550-3751 | one step that is no error: whether its entry is complete, and the two lists it uses |
| GopCheck.Rebuild | source/App/EncoderApp/EncAppCfg.cpp:3752-3783 | the buffer after a step: the pictures of both lists, each written once, and the picture itself |
| GopRun.LateStepsAreInside | source/App/EncoderApp/EncAppCfg.cpp:3550-3568 | once the picture number has passed the longest distance no reference lies before the first picture |
| GopRun.MarksMean | source/App/EncoderApp/EncAppCfg.cpp:3598-3605 | the marks tell which entries have been found complete, and the counter is their number |
| GopRun.StepBoundBounds | source/App/EncoderApp/EncAppCfg.cpp:3548-3786 | after a number of steps known from the table every entry has been found complete, if no step failed |
| GopRun.CheckGop | source/App/EncoderApp/EncAppCfg.cpp:3548-3787 | the loop ends for every table within that bound: either all entries were found complete and no step failed, or exactly the last step failed |
| GopBuffer.ReplacedAdds | source/App/EncoderApp/EncAppCfg.cpp:3610-3751 | the copied lists hold the available deltas of their entry and otherwise only pictures of the buffer |
| GopBuffer.ExtrasAddOnce | source/App/EncoderApp/EncAppCfg.cpp:3652-3658 | no picture is added to a list twice |
| GopBuffer.BufferIsAlwaysKnown | source/App/EncoderApp/EncAppCfg.cpp:3548-3786 | as long as no step fails, every picture ever held is the start picture or was coded before, if and only if the second lists never ask for another; the tables alone tell |
| GopBuffer.CoveredBufferIsKnown | source/App/EncoderApp/EncAppCfg.cpp:3752-3783 | if list-1 deltas are among list-0 deltas the buffer holds only pictures coded before |
| GopBuffer.UncoveredBufferIsNotKnown | source/App/EncoderApp/EncAppCfg.cpp:3762-3781 | a table that is accepted though the buffer then holds a picture never coded: only list 0 is looked at for missing pictures |
| DpbSizing.RaiseLayer | source/App/EncoderApp/EncAppCfg.cpp:3843-3860 | one turn of the loop on two neighbouring layers |
| DpbSizing.Normalise | source/App/EncoderApp/EncAppCfg.cpp:3843-3866 | every layer ends with the largest numbers asked for up to it |
| DpbSizing.RaisedIsProper | source/App/EncoderApp/EncAppCfg.cpp:3843-3866 | the result is at least what was given, non-decreasing, and leaves room for the reordered pictures |
| DpbSizing.RaisedIsLeast | source/App/EncoderApp/EncAppCfg.cpp:3843-3866 | no other such sizes are smaller in any layer |
| TileGrid.Canonicalise | source/App/EncoderApp/EncAppCfg.cpp:3879-3921 | dropping repeated last sizes and clipping keeps what the list stands for; a zero is reported exactly if it would be met |
| TileGrid.LastSizeIsImplied | source/App/EncoderApp/EncAppCfg.cpp:3890-3899 | a repeated last size can be left out |
| TileGrid.RasterSlices | source/App/EncoderApp/EncAppCfg.cpp:4088-4115 | the loop for any sizes and any number of turns: it has ended exactly if the turns say so, and then the sizes fill the picture |
| TileGrid.RasterEndsIff | source/App/EncoderApp/EncAppCfg.cpp:4097-4113 | the loop ends if and only if the last size is not zero or the sizes given are enough; when it ends, the sizes are those given, cut off or repeated, and add up to the tiles |
| TileGrid.FillIsExpansion | source/App/EncoderApp/EncAppCfg.cpp:4097-4113 | positive slice sizes fill the tiles as positive tile sizes fill the picture |
| TileGrid.ZeroSizeNeverEnds | source/App/EncoderApp/EncAppCfg.cpp:4097-4113 | one size of zero and one tile: tiles are left after any number of turns |
| TileGrid.FillFills | source/App/EncoderApp/EncAppCfg.cpp:4097-4113 | the sizes as filled add up to the tiles exactly under the same condition |
| TileGrid.InitTiles | source/Lib/CommonLib/Slice.cpp:3877-3961 | tile sizes, boundaries and the tile of every position, from the explicit sizes |
| TileGrid.UniformTiles | source/Lib/CommonLib/Slice.cpp:3892-3900 | the last explicit size is repeated as far as the picture goes: positive sizes that add up to the picture |
| TileGrid.Positions | source/Lib/CommonLib/Slice.cpp:3941-3949 | the table over all positions gives the tile between whose boundaries a position lies |
| TileGrid.TileOfIs | source/Lib/CommonLib/Slice.cpp:3941-3949 | exactly one tile holds a position |
| SliceWalker.FixedSlice | source/App/EncoderApp/EncAppCfg.cpp:3943-3965 | one slice of the walk and the tile index to go on with |
| SliceWalker.FixedSlices | source/App/EncoderApp/EncAppCfg.cpp:3937-3967 | the walk ends for any grid and any positive slice size, and lists the addresses of its slices |
| SliceWalker.WalkCovers | source/App/EncoderApp/EncAppCfg.cpp:3941-3966 | from any tile on, the walk covers what is left of its row of slices and all below, once |
| SliceWalker.ExactCover | source/App/EncoderApp/EncAppCfg.cpp:3937-3967 | the listed slices cover every coding tree unit of the picture exactly once |
| SliceParameters.SlicesInTile | source/App/EncoderApp/EncAppCfg.cpp:4032-4064 | the slices that share one tile are counted, up to the first that does not |
| SliceParameters.SetSliceParameters | source/App/EncoderApp/EncAppCfg.cpp:3982-4067 | the pass over any list: sizes and tile indices as decoded, the counts in tiles, an error exactly if a slice that starts a tile is misplaced, the delta flag exactly if some such slice jumps |
| SliceParameters.RectComesBack | source/App/EncoderApp/EncAppCfg.cpp:3987-4016 | a slice of the grid comes back from its two addresses |
| SliceParameters.LinkedNeedsNoDelta | source/App/EncoderApp/EncAppCfg.cpp:4017-4029 | slices that follow one another need no tile index of their own |
| SliceParameters.FixedSliceParameters | source/App/EncoderApp/EncAppCfg.cpp:3937-4067 | for the fixed-size walk the pass finds no error, recovers every slice, and needTileIdxDelta stays false |
| AnnexB.SingleLayerStream.Fetch | source/App/StreamMergeApp/StreamMergeApp.h:123-127 | one byte moves from the input into the look-ahead word: the queue is unchanged |
| AnnexB.SingleLayerStream.EofBeforeNBytes | source/App/StreamMergeApp/StreamMergeApp.h:112-134 | tells exactly whether fewer than n bytes are left and loses nothing |
| AnnexB.SingleLayerStream.PeekBytes | source/App/StreamMergeApp/StreamMergeApp.h:136-153 | the big-endian word of the next n bytes, left in the queue; past the end the word is any, and nothing is lost |
| AnnexB.SingleLayerStream.ReadByte | source/App/StreamMergeApp/StreamMergeApp.h:160-171 | takes the first byte of the queue, from the word or from the input |
| AnnexB.SingleLayerStream.ReadBytes | source/App/StreamMergeApp/StreamMergeApp.h:178-186 | takes the first n bytes as one word |
| AnnexB.ShiftedOut | source/App/StreamMergeApp/StreamMergeApp.h:167-170 | shifting and masking the top byte out of the word leaves the other bytes |
| AnnexB.SkipZeros | source/App/StreamMergeApp/StreamMergeApp.cpp:104-113 | zero bytes are counted until a start code is next; another byte, or the end, throws |
| AnnexB.ReadBody | source/App/StreamMergeApp/StreamMergeApp.cpp:163-171 | the NAL unit up to three bytes 00 00 0x, x at most 2, or to the end, which throws |
| AnnexB.ReadCodedUnit | source/App/StreamMergeApp/StreamMergeApp.cpp:115-197 | start code, unit and trailing zero bytes |
| AnnexB.ByteStreamNalUnit | source/App/StreamMergeApp/StreamMergeApp.cpp:86-225 | one call on the look-ahead reader is the parse of the byte queue: unit, counters, bytes left, end of stream |
| AnnexBRoundTrip.Conserves | source/App/StreamMergeApp/StreamMergeApp.cpp:86-225 | the five counters add up to the bytes consumed, but for at most one byte, which is not zero, when the call ends in an exception |
| AnnexBRoundTrip.TakesApart | source/App/StreamMergeApp/StreamMergeApp.cpp:86-225 | a call that ends well has split the queue into leading zeros, zero byte, prefix, unit, trailing zeros and the rest, at a start code |
| AnnexBRoundTrip.WriteNalUnit | source/App/StreamMergeApp/StreamMergeApp.cpp:323-332 | a unit is written behind as many zero bytes as were counted before it |
| AnnexBRoundTrip.UnitComesBack | source/App/StreamMergeApp/StreamMergeApp.cpp:86-225 | a written unit comes back in one call, with the zero bytes to write again |
| AnnexBRoundTrip.RoundTrip | source/App/StreamMergeApp/StreamMergeApp.cpp:86-225 | writing a list of units and parsing returns exactly that list in order; only the last call meets the end, with nothing left |
| AnnexBRoundTrip.RoundTripExactly | source/App/StreamMergeApp/StreamMergeApp.cpp:163-197 | units written behind two zero bytes or more come back if and only if none has 00 00 0x inside and none but the last ends in zero |
| AnnexBRoundTrip.ZeroDoesNotComeBack | source/App/StreamMergeApp/StreamMergeApp.cpp:163-197 | a unit of two bytes that ends in zero, before another: other units come back |
| AnnexBRoundTrip.RewritingKeepsNals | source/App/StreamMergeApp/StreamMergeApp.cpp:297-335 | parsing any stream and writing its non-empty units keeps them all, in order |
| StreamMerge.MergeRound | source/App/StreamMergeApp/StreamMergeApp.cpp:288-339 | one round: one unit of each stream that has not ended, with the layer in its second byte, or a new parameter set in its place, up to the first unit too short for its header, which throws; and the number of streams counted as left, which a parameter set skips |
| StreamMerge.MergeStreams | source/App/StreamMergeApp/StreamMergeApp.cpp:285-340 | the loop over the rounds, as far as a given number of them: the rounds made, the unit it threw at, whether no stream is counted as left, and the output until then |
| StreamMerge.MergedInTurns | source/App/StreamMergeApp/StreamMergeApp.cpp:285-340 | when the loop has ended the output is all units of all streams in turns, rewritten; with rounds enough it throws exactly if a unit is too short for its header, and else ends exactly if no stream ends with a parameter set |
| StreamMerge.MergeEndsIff | source/App/StreamMergeApp/StreamMergeApp.cpp:313-338 | the rounds come to an end if and only if no stream ends with a parameter set, for which the count is skipped |
| MergedStream.ParameterSetNeverEnds | source/App/StreamMergeApp/StreamMergeApp.cpp:313-338 | a stream of one parameter set: it is counted as left after any number of rounds |
| MergedStream.TypeIsKeptIff | source/App/StreamMergeApp/StreamMergeApp.cpp:328-332 | the byte written for the layer overwrites the unit type too, which stays only where it is a quarter of the layer number |
| MergedStream.TypeIsLost | source/App/StreamMergeApp/StreamMergeApp.cpp:328-332 | a unit of type 1 in layer 0 comes out as one of type 0 |
| MergedStream.LayeredStaysWhole | source/App/StreamMergeApp/StreamMergeApp.cpp:328-332 | the byte written makes no unit look like a start code and none end in zero |
| MergedStream.OnlyLastEndsInZero | source/App/StreamMergeApp/StreamMergeApp.cpp:163-171 | only the last call of a stream can leave a unit that ends in zero |
| MergedStream.LaterIsBehind | source/App/StreamMergeApp/StreamMergeApp.cpp:285-340 | in the output a unit comes behind another exactly if its round is later, or its stream in the same round |
| MergedStream.TurnsComeBackIff | source/App/StreamMergeApp/StreamMergeApp.cpp:285-340 | streams written in turns and parsed come back if and only if there is a unit, none has 00 00 0x inside, and what ends in zero is the last unit of all |
| MergedStream.MergedWithoutVps | source/App/StreamMergeApp/StreamMergeApp.cpp:285-340 | without parameter sets, parsing the merged stream returns all units in turns if and only if there is one and no stream has a last unit, longer than two bytes, that ends in zero and is not last of all |
| MergedStream.ZeroRunsOn | source/App/StreamMergeApp/StreamMergeApp.cpp:163-171 | any unit of more than two bytes that ends in zero, before another stream of one unit: other units come back |
| MergedStream.SliceWithZeroIsLost | source/App/StreamMergeApp/StreamMergeApp.cpp:163-171 | such a slice, of four bytes |
| MergedStream.MergedKeepsNals | source/App/StreamMergeApp/StreamMergeApp.cpp:285-340 | parsing the merged stream returns the units of all streams in turns, as rewritten, if and only if the streams have a unit, every new parameter set is free of 00 00 0x, and each unit that ends in zero as written is last of all |
| Bumping.DecApp.CountPictures | source/App/DecoderApp/DecApp.cpp:603-620 | the pictures that wait and the pictures that take room |
| Bumping.DecApp.WriteOutput | source/App/DecoderApp/DecApp.cpp:574-747 | one call in frame mode: what is written, which flags change, the last picture order count |
| Bumping.DecApp.FlushOutput | source/App/DecoderApp/DecApp.cpp:751-894 | a flush of one layer or of all: what is written, what stays on the list, and the reset of the last count |
| BumpingRuns.CallWritesInOrder | source/App/DecoderApp/DecApp.cpp:687-746 | a call writes in order of picture order counts, after the last one before |
| BumpingRuns.CallWritesChanged | source/App/DecoderApp/DecApp.cpp:702-742 | a call writes exactly the pictures it marks as no longer needed, and changes nothing else |
| BumpingRuns.CallEndsWithinLimits | source/App/DecoderApp/DecApp.cpp:687-746 | a call ends within both limits or with nothing left that waits, whatever the order of the list |
| BumpingRuns.CallCountersStayNonNegative | source/App/DecoderApp/DecApp.cpp:703-707 | neither counter ever goes below zero |
| BumpingRuns.NoCallPassesOverIff | source/App/DecoderApp/DecApp.cpp:687-746 | no call passes a waiting picture over, whatever its limits, if and only if the pictures that wait when it begins follow one another in the list |
| BumpingRuns.SortPicList | source/Lib/CommonLib/Slice.cpp:532-570 | the sort of the picture list before every output: the same pictures, their counts ascending |
| BumpingRuns.SortedCallPassesOverIff | source/App/DecoderApp/DecApp.cpp:687-746 | on a sorted list none is passed over, whatever the limits, if and only if no two that wait have the same count, or equal counts may follow |
| BumpingRuns.SecondLayerIsPassedOver | source/App/DecoderApp/DecApp.cpp:698-700 | a run from the start, two decoded pictures of two layers with the same count and a call behind each, sorted lists and fixed limits: the second picture is not written and waits no more |
| BumpingRuns.RunsAreGood | source/App/DecoderApp/DecApp.cpp:574-894 | over whole runs of decoding, bumping and flushing no picture is written twice, and between flushes the counts never go back |
| BumpingRuns.FlushPicks | source/App/DecoderApp/DecApp.cpp:827-893 | a flush writes each picture of the layer that is still needed, once and in order, and leaves just the other layers |
| BumpingRuns.FullFlushEmpties | source/App/DecoderApp/DecApp.cpp:887-893 | a flush of all layers empties the list |
| ParcatNal.FindNalUnit | source/App/Parcat/parcat.cpp:109-155 | the two search loops compute the first unit |
| ParcatNal.FoundUnit | source/App/Parcat/parcat.cpp:109-155 | a unit found lies in the buffer behind the first start code and ends at the end or before the first 00 00 00 or 00 00 01 |
| ParcatNal.BeyondDoesNotMatter | source/App/Parcat/parcat.cpp:109-155 | what is found does not depend on the bytes beyond the buffer, and fewer than six bytes never hold a unit |
| ParcatField.PatchKeepsNeighbours | source/App/Parcat/parcat.cpp:317-333 | patching the eight bits at any bit offset sets the field and keeps every other bit |
| ParcatField.PatchOfSame | source/App/Parcat/parcat.cpp:317-333 | a field that keeps its value leaves the unit as it is |
| ParcatField.PocIsClosest | source/App/Parcat/parcat.cpp:195-219 | the full count is the one count with the given low bits closest to the previous count |
| ParcatFilter.SegmentationIsLossless | source/App/Parcat/parcat.cpp:236-373 | the units and the leftover make up the buffer, and nothing more is found in the leftover |
| ParcatFilter.FilterUnit | source/App/Parcat/parcat.cpp:249-369 | one unit: an exception of the parser, or the counter, the flags, the patch and whether it is written |
| ParcatFilter.FilterSegment | source/App/Parcat/parcat.cpp:218-377 | the loop with p and sz, which always add up to the end of the buffer, is the fold over the units, and throws exactly if the parser throws at one of them |
| ParcatRuns.FlagsAre | source/App/Parcat/parcat.cpp:282-369 | the three flags say: an IDR picture came; it came and no suffix message since; a picture header came and no IDR slice since |
| ParcatRuns.OutputIsKept | source/App/Parcat/parcat.cpp:350-369 | the output is the units that are not dropped, in order; which are dropped is told by the place in the segment alone |
| ParcatRuns.UnitOnlyMoves | source/App/Parcat/parcat.cpp:317-333 | moving a unit changes the eight bits of its count and no others |
| ParcatRuns.FirstSegmentIsLossless | source/App/Parcat/parcat.cpp:218-377 | the first segment comes out as its units, moved, and byte for byte as consumed if and only if no count moves |
| ParcatRuns.LaterSegmentsHaveNoIdr | source/App/Parcat/parcat.cpp:350-364 | from the second segment on no IDR picture is left |
| ParcatRuns.CountIsPictures | source/App/Parcat/parcat.cpp:282-348 | what is counted depends on the units alone and is never negative |
| ParcatRuns.Concatenate | source/App/Parcat/parcat.cpp:428-438 | the loop over the files: all outputs, with the counts moved by the pictures of the files before; an exception ends it, with the outputs of exactly the files before it handed over |
| ParcatRuns.CountsMoveByPicturesBefore | source/App/Parcat/parcat.cpp:319-333 | across files a count f becomes (f + pictures counted earlier) modulo 256 |
| ParcatSplits.UnitIsFound | source/App/Parcat/parcat.cpp:109-155 | a unit between its lead and what follows is found as it is exactly if no end mark starts in it and, at the end of the buffer, it has three bytes; otherwise it is cut short or missed |
| ParcatSplits.SegmentedAreProper | source/App/Parcat/parcat.cpp:236-373 | the units of a file that begins with a start code all stand behind exactly one start code |
| ParcatSplits.UnitsSplit | source/App/Parcat/parcat.cpp:236-373 | units put together are found again, all and as they are, if and only if all stay whole |
| ParcatHeaders.ConvertPayloadToRBSP | source/Lib/DecoderLib/NALread.cpp:59-107 | the loops that take out the bytes that prevent start codes, in place, and cut off zero words: what is left, where the bytes were, and exactly when it throws |
| ParcatHeaders.EndsInZeroThrows | source/Lib/DecoderLib/NALread.cpp:66-86 | a unit that ends in a zero byte, or holds 00 00 0x with x below 3, is thrown at |
| ParcatHeaders.CountLiesInPayload | source/App/Parcat/parcat.cpp:307-315 | behind parameter sets with small numbers no preventing byte comes before the count or inside it, so its offset is never corrected, and the count patched is the count of the payload |
| ParcatHeaders.StoredIsSmall | source/App/Parcat/parcat.cpp:266-280 | a picture parameter set found by its number has been read with six bits |
| ParcatSplits.CountsAreInPayload | source/App/Parcat/parcat.cpp:307-315 | so it is for every count in files read one after the other, with the parameter sets stored on the way |
| ParcatPayload.ChangedPayload | source/Lib/DecoderLib/NALread.cpp:59-107 | whatever two bytes before the first preventing one are changed, the unit converts to the same payload with the two bytes changed if and only if no two zero bytes before a small one come or go there and the last byte is not zero |
| ParcatPayload.MovedPayload | source/App/Parcat/parcat.cpp:317-333 | a moved unit reads as before but for the count, payload and place of the count, if and only if that holds at the patched bytes |
| ParcatPayload.PreventingByteIsLeft | source/App/Parcat/parcat.cpp:317-333 | a picture header for which it does not, wherever parameter set 0 is stored: moved from 0 to 1, its preventing byte is left as one of the payload |
| ParcatSplits.ConcatenationSplits | source/App/Parcat/parcat.cpp:428-438 | the concatenated stream, searched again, gives exactly the kept units with their counts moved, if and only if no count, the pictures of the files before added, makes an end mark with the bytes around it, and the last unit kept has three bytes |
| ParcatWitnesses.MovedCountMakesAMark | source/App/Parcat/parcat.cpp:317-333 | two files read one after the other, behind any two parameter sets that can be read, for which it does not: a count of 255 moved by one picture makes an end mark |
| ParcatWitnesses.SmallestFilesDoNotSplit | source/App/Parcat/parcat.cpp:317-333 | the same with the smallest parameter sets |
| ParcatWitnesses.ShortUnitIsLost | source/App/Parcat/parcat.cpp:350-364 | two more files: an end of sequence that is last because the IDR picture behind it is dropped is not found again |
| SubPicTiles.Collect | source/App/BitstreamExtractorApp/BitstreamExtractorApp.cpp:237-248 | the loop over the boundaries of one axis |
| SubPicTiles.ColumnsFit | source/App/BitstreamExtractorApp/BitstreamExtractorApp.cpp:237-256 | the collected columns run strictly from 0 to the sub-picture width if and only if both its borders are tile boundaries |
| SubPicTiles.RowsFit | source/App/BitstreamExtractorApp/BitstreamExtractorApp.cpp:260-305 | the completed rows run strictly from 0 to the height if and only if the sub-picture is made of whole tile rows or is a band of one |
| SubPicTiles.TargetFits | source/App/BitstreamExtractorApp/BitstreamExtractorApp.cpp:237-308 | the new boundaries are right if and only if the sub-picture is such; then all sizes are positive and add up to it |
| SubPicTiles.RewritePps | source/App/BitstreamExtractorApp/BitstreamExtractorApp.cpp:212-348 | the rewriting of columns, rows and slices, with the error when no tile is left |
| SubPicTiles.RowMoves | source/App/BitstreamExtractorApp/BitstreamExtractorApp.cpp:260-300 | the row offset of the remap is right if and only if the sub-picture starts on a tile row boundary |
| SubPicTiles.TileMoves | source/App/BitstreamExtractorApp/BitstreamExtractorApp.cpp:337-344 | the remapped index of every position's tile is its tile in the new grid, if and only if the sub-picture starts on a tile row boundary |
| SubPicTiles.LowerHalfMovesWrong | source/App/BitstreamExtractorApp/BitstreamExtractorApp.cpp:337-344 | the lower half of the only tile: the remapped index is not its index in the new grid |
| SubPicTiles.CutTilesDoNotFit | source/App/BitstreamExtractorApp/BitstreamExtractorApp.cpp:237-305 | borders inside tiles: columns, and rows of two tiles, that do not add up to the sub-picture |
| SubPicTiles.TileIndexInRange | source/App/BitstreamExtractorApp/BitstreamExtractorApp.cpp:337-344 | the index of a tile in the new grid is below the number of tiles |
| SubPicTiles.RemapKeepsOrder | source/App/BitstreamExtractorApp/BitstreamExtractorApp.cpp:337-344 | the remap keeps raster order, so it mixes no two tiles up |
| SubPicTiles.SlicesMove | source/App/BitstreamExtractorApp/BitstreamExtractorApp.cpp:312-344 | every slice that is left names the tile of the new grid that holds it |

## Left out

- Chroma, the cross-component filter `filterBlkCcAlf`, `applyCcAlfFilter`, and the SIMD variants: the same kind of sums with fewer classes.
- The classification of coding units with their own QP (`source/Lib/CommonLib/AdaptiveLoopFilter.cpp:1200-1211`), which passes picture positions to a local buffer; isolation is not claimed for it.
- `reconstructCoeff`: copies tables of coefficients and clipping indices.
- Raster slice corner padding (`rasterSliceAlfPad`): edges of slices, tiles and sub-pictures are modelled as closed sides of a unit, corners are not.
- The outer tiling of a unit into blocks of 256 samples (`source/Lib/CommonLib/AdaptiveLoopFilter.cpp:1212-1229`), which goes round once for the units the codec allows.
- The disabled branches of `ALF_IMPROVEMENT`, with their line-buffer boundaries.
- AlfBoundaries.FilterUnit: positions of boundaries and the picture size are multiples of 8, as the syntax requires; the fixed arrays of three positions are lists of any length.
- AlfSymmetry.TranspositionCommutes: only for the direction classifier; the band classifier never transposes its filters.
- GopRun.CheckGop: lists are unbounded where the source has MAX_GOP and MAX_NUM_REF_PICS; a list that is written past its length reads as zero, as the source's cleared array does. The `m_refPic` marks are not modelled, and on the step that ends in an error the lists copied last are not kept.
- The computation of the numbers that `DpbSizing.Normalise` starts from.
- SliceParameters.SetSliceParameters: positions beyond the picture and misaligned slices are one error, where the source prints one message each.
- StreamMerge.MergeStreams: the bytes of a new parameter set are a parameter, and its writer and parser are left out. The loop runs for at most a given number of rounds, since it need not end.
- Field output, GDR output suppression and frame skipping of the decoder, and the writing of files.
- Bumping.DecApp.WriteOutput: the two limits are parameters, however SPS and VPS give them; they are compared as signed numbers, which `BumpingRuns.CallCountersStayNonNegative` allows.
- ParcatFilter.FilterUnit: asks, like `ParcatFilter.FilterSegment`, that a count the parser finds lies in its unit; behind a unit that ends inside the count the source reads and writes one byte beyond its copy. `calc_poc` is modelled though its call is commented out.
- `ParcatHeaders`: of a parameter set its numbers are read, and whether the rest can be read is a parameter; a code with 32 zeros before its first one, whose value the source shifts out of an `int`, counts as one that throws.
- ParcatSplits.ConcatenationSplits: for files that begin with a start code or with zero bytes before one, as Annex B asks.
- SubPicTiles.SlicesMove: only for sub-pictures that start on a tile row boundary, the others being those for which `SubPicTiles.TileMoves` shows the index wrong. A slice belongs to the sub-picture that holds its first tree unit.
- Parameter sets, SEI messages, option parsing and all input and output.
