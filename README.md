# numcube axis matching, in Dafny

numcube wraps a numpy array in a `Cube` whose dimensions are named,
labeled axes. This project models the part of numcube that decides how
the axes of two or more cubes are matched:

- the two kinds of axis, `Index` (unique labels, with a label-to-position
  table) and `Series` (labels that may repeat);
- the `Axes` collection;
- the `Cube` constructor and its shape methods;
- elementwise `apply2`;
- `concatenate` and `join`;
- the grouping part of `groupby`;
- `combine_axes`.

The proofs are about the model.

- **Values and data.** Labels are `Labels.Value` (integers or strings).
  The labels of one axis share one kind, as one numpy dtype: a mix of
  integers and strings is turned into strings (`Labels.Coerce`), the way
  `np.atleast_1d`, `np.asarray` and `np.concatenate` promote such a mix.
  A cube's data is an `Arrays.NdArray<T>`: a shape plus a function from
  in-bounds positions to entries. The numpy operations the core relies on
  are specified by how they index their input:
  - `take`, `transpose`, `expand_dims`, `repeat` and `swapaxes`;
  - broadcasting and `concatenate`;
  - `apply_along_axis` and `reshape`.
- **Axes.** An axis is one datatype, `AxisTypes.Axis`. Its `kind` is
  either `IndexKind(table)` or `SeriesKind`. A valid Index has distinct
  values and the table its constructor builds.
- **Python arguments.** An argument that may be a position, a name or
  anything else is `Errors.Arg`. Every exception the code raises is a
  `Result` error: `TypeError`, `ValueError`, `IndexError`, `KeyError`,
  `AttributeError` or `AxisAlignError`.
- **Identity.** Python's `axis_a is axis_b` is modelled by an `id` field
  that each axis carries. An operation that builds a new axis takes the
  new id as a parameter. The predicates `Elementwise.Identified` and
  `Concatenation.IdsIdentify` state when equal ids (with equal names)
  mean the same axis.
- **State.** None of these modules keeps state between calls. Methods
  appear only where the source runs a loop; each one is proved equal to
  a function, or to a predicate about its result. Those loops are:
  - the `Axes` constructor's check;
  - the Index table;
  - the alignment loop of `apply2`;
  - the union of axes;
  - align-then-broadcast in concatenation;
  - the groupby loop;
  - the `combine_axes` counter.

  The counter increments a numpy array in place, so it is a method on a
  Dafny `array`.

The model follows the code in one place where a reader might expect otherwise, and departs from it in another:

- `Axes` lookups reject negative positions (numcube/axes.py:68-71); they do
  not count from the end.
- `Series` does not subclass `Axis` in numcube/series.py, so as written
  the `Axes` constructor rejects every Series with TypeError
  (numcube/axes.py:36-37) and no cube can hold one. The model takes the
  rule of numcube/utils.py:17-18 instead: a Series is an axis that is not
  an Index, as numcube/tests/test_cube.py:202-216 expects. Every Series
  path therefore models the intended behaviour, not the code as it runs:
  the Series cases of `apply2`'s alignment, the Series branch of
  `groupby`, `concatenate` with `as_index=False`, and the union's
  preference for a Series. The constructor as written is
  `AxisCollection.FromItemsAsWritten`, listed under Findings below.

## Model

| member | source | states |
|---|---|---|
| Labels.DistinctIffElementsCount | numcube/index.py:19-25 | a label sequence has as many distinct elements as entries exactly when it has no repeats; this is the duplicate check |
| Labels.LessTransitive | numcube/cube.py:212 | the order np.unique sorts labels by is transitive |
| Labels.LessTotal | numcube/cube.py:212 | any two different labels are ordered one way or the other |
| Labels.LessIrreflexive | numcube/cube.py:212 | no label is below itself |
| Labels.SortedUnique | numcube/cube.py:212 | np.unique returns strictly increasing labels with exactly the input's label set; for the labels of one axis, which share one kind, the order is numeric for integers and by code point for strings |
| Labels.StrictlyIncreasingIsDistinct | numcube/cube.py:212 | sorted unique labels have no repeats |
| Labels.Coerce | numcube/axis.py:17 | numpy's dtype promotion: the result has one kind of label; labels of one kind are kept as they are, and a mix becomes the decimal strings of its integers alongside its strings |
| Labels.HomogeneousSubset | numcube/axis.py:45 | labels taken from an axis of one kind are of that kind |
| Labels.MixedLabelsCoerced | numcube/axis.py:17 | the mix [1, "1"] becomes ["1", "1"], and [10, "9"] becomes ["10", "9"] |
| Labels.FirstSeenElements | numcube/cube.py:214-216 | the first-occurrence ordering holds exactly the input's labels |
| Labels.FirstSeenDistinct | numcube/cube.py:214-216 | the first-occurrence ordering has no repeats |
| Labels.FirstSeenOrder | numcube/cube.py:214-216 | labels appear in the order of their first occurrence in the input |
| AxisTypes.TableLookup | numcube/index.py:19 | the dict's keys are the axis values, and each key maps to the last position that holds it |
| AxisTypes.TableSizeIffDistinct | numcube/index.py:19-25 | the dict has one entry per value exactly when the values are distinct |
| AxisTypes.TableOfDistinct | numcube/index.py:19 | for distinct values the dict maps each value to its own position |
| AxisTypes.BuildTable | numcube/index.py:19 | the loop that fills the dict produces the table |
| AxisTypes.NewAxis | numcube/axis.py:9-19 | a non-str name is a TypeError; a matrix of values is a ValueError, and so, for an Index, are values that repeat once promoted to one dtype; otherwise a valid axis of the requested class holding the values made at least 1-d and promoted |
| AxisTypes.NewSeries | numcube/series.py:9-17 | a Series needs a str name (else TypeError) and accepts any values, repeats included, promoted to one dtype |
| AxisTypes.NewSeriesIsGenericAxis | numcube/series.py:9-17 | the Series constructor agrees with the generic constructor for the Series class on a vector of values |
| AxisTypes.DuplicatesOnlyRejectedByIndex | numcube/index.py:24-25 | values that repeat after promotion make an Index fail with ValueError, while a Series of the same values is built |
| AxisTypes.MixedLabelsCollide | numcube/index.py:24-25 | an Index of [1, "1"] is a ValueError, because promotion makes both labels "1"; a Series of them holds ["1", "1"] |
| AxisTypes.IndexOf | numcube/index.py:30-38 | the position of a label: KeyError exactly when absent, otherwise the one position that holds it; a Series has no `index` (AttributeError) |
| AxisTypes.IndexOfAll | numcube/index.py:30-38 | the vectorised form succeeds exactly when every label is present and returns the position of each |
| AxisTypes.Contains | numcube/index.py:40-47 | membership of one label; AttributeError on a Series |
| AxisTypes.ContainsAll | numcube/index.py:40-47 | the vectorised membership, one flag per label |
| AxisTypes.IndexOfRoundTrip | numcube/index.py:30-38 | looking up the label at position i gives i back |
| AxisTypes.IndexOfOwnValues | numcube/index.py:30-38 | looking up an Index's own values gives 0, 1, ..., n-1 |
| AxisTypes.NormalizePositions | numcube/axis.py:38-45 | numpy integer indexing: positions in [-n, n) are accepted, negative ones counted from the end; anything else is an IndexError |
| AxisTypes.Rebuild | numcube/axis.py:45 | `self.__class__(name, values)` keeps the class and name, and fails only when an Index would get repeated values after promotion |
| AxisTypes.PickKeepsDtype | numcube/axis.py:45 | values picked from labels of one kind need no further promotion |
| AxisTypes.Take | numcube/axis.py:38-45 | take on a valid axis: IndexError for a position out of range, ValueError when an Index would get repeats; otherwise the same class and name holding the picked values |
| AxisTypes.TakeIndexIffDistinctPositions | numcube/axis.py:38-45 | take on an Index succeeds exactly when the normalised positions are distinct |
| AxisTypes.PickDistinctIff | numcube/axis.py:45 | picking from distinct values gives distinct values exactly when the positions are distinct |
| AxisTypes.TakeSeriesAllowsRepeats | numcube/series.py:34-40 | take on a Series succeeds for any in-range positions, repeated ones included |
| AxisTypes.MaskPositions | numcube/axis.py:27-28 | a boolean mask selects exactly its true positions, in increasing order |
| AxisTypes.SlicePositions | numcube/axis.py:27-28 | a slice selects in-range positions, increasing for a positive step and decreasing for a negative one |
| AxisTypes.SelectPositions | numcube/axis.py:27-28 | every position a selector reads is in range |
| AxisTypes.GetItem | numcube/axis.py:27-28 | `axis[item]` rebuilds an axis of the same class and name from the selected values, or reports the selector's error |
| AxisTypes.IndexMaskAndSliceSucceed | numcube/axis.py:27-28 | masks and slices never repeat a position, so on an Index they always succeed |
| AxisTypes.Rename | numcube/axis.py:47-53 | rename keeps class and values, needs a str name (else TypeError) |
| AxisTypes.RenameRoundTrip | numcube/series.py:42-47 | renaming and renaming back gives the original axis |
| AxisCollection.ScanOk | numcube/axes.py:34-42 | the check loop passes exactly when every item is an axis and the names are distinct; it collects the names |
| AxisCollection.ScanErrorPersists | numcube/axes.py:35-41 | once the loop has raised, later items do not change the outcome |
| AxisCollection.ScanFirstFault | numcube/axes.py:35-41 | the error is that of the first offending item: TypeError for a non-axis, ValueError for a name already seen |
| AxisCollection.FromItems | numcube/axes.py:25-45 | a single axis becomes a one-axis collection; a list is accepted exactly when the check passes, keeping the axes in order |
| AxisCollection.Init | numcube/axes.py:25-45 | the constructor's loop computes the same result as FromItems |
| AxisCollection.ScanAsWritten | numcube/axes.py:35-41 | the check loop as written passes only lists of Index axes, and on those agrees with the loop that counts a Series as an axis |
| AxisCollection.FromItemsAsWritten | numcube/axes.py:25-45 | the constructor as written builds only collections of Index axes: a lone Series is a TypeError, and on Index-only arguments it agrees with FromItems |
| AxisCollection.SeriesRejectedAsWritten | numcube/axes.py:36-37 | as written, a Series alone or in a one-item list is a TypeError, while FromItems accepts both |
| AxisCollection.FromList | numcube/axes.py:143 | a list of axes becomes a collection exactly when the names are distinct, else ValueError |
| AxisCollection.NamePosition | numcube/axes.py:73-76 | the first axis carrying a name, or none |
| AxisCollection.FindName | numcube/axes.py:86-89 | the search loop finds the first axis of that name |
| AxisCollection.Resolve | numcube/axes.py:93-107 | an int in [0, n) is itself, another int an IndexError; a str is the position of that name or a KeyError; anything else a TypeError |
| AxisCollection.Index | numcube/axes.py:93-107 | `index` computes Resolve |
| AxisCollection.Get | numcube/axes.py:54-78 | `axes[item]` is the axis at the resolved position, with the same errors |
| AxisCollection.GetItem | numcube/axes.py:54-78 | the lookup loop computes Get |
| AxisCollection.AxisAndIndex | numcube/axes.py:80-91 | the axis and its position together, with the errors of the lookup |
| AxisCollection.NameLookup | numcube/axes.py:54-78 | in a valid collection the name of the k-th axis resolves to k and gets that axis |
| AxisCollection.IndexAgreesWithGet | numcube/axes.py:54-107 | looking up by the resolved position gives the same axis as looking up by the original id |
| AxisCollection.Contains | numcube/axes.py:109-117 | true exactly when the lookup succeeds; a TypeError is not a LookupError and escapes |
| AxisCollection.ResolveAll | numcube/axes.py:136 | resolving a list succeeds exactly when each id does, returns each position, and reports the first failure |
| AxisCollection.PickedNamesDistinct | numcube/axes.py:136-143 | axes picked at distinct positions have distinct names |
| AxisCollection.Transpose | numcube/axes.py:127-143 | wrong count is ValueError, an unknown id the lookup's error, a repeated axis ValueError; otherwise the axes in the requested order |
| AxisCollection.InsertPosition | numcube/axes.py:152-153 | where `list.insert` puts an item: the index, counted from the end when negative, clamped to [0, n] |
| AxisCollection.Insert | numcube/axes.py:145-154 | the new axis lands at the insertion position with the others in order; a name already present is a ValueError |
| AxisCollection.InsertedNamesDistinct | numcube/axes.py:152-154 | inserting a name keeps names unique exactly when it is new |
| AxisCollection.Replace | numcube/axes.py:156-168 | the resolved position gets the new axis; a clash with another axis's name is a ValueError; lengths are not checked |
| AxisCollection.ReplacedNamesDistinct | numcube/axes.py:166-168 | replacing a name keeps names unique exactly when no other axis has it |
| AxisCollection.Swap | numcube/axes.py:170-181 | the two resolved axes trade places; errors are the first failing lookup's |
| AxisCollection.SwappedNamesDistinct | numcube/axes.py:179-181 | swapping never breaks name uniqueness |
| AxisCollection.SwapPositionsTwice | numcube/axes.py:170-181 | swapping the same two positions twice restores the collection |
| AxisCollection.SwapNamesTwice | numcube/axes.py:170-181 | swapping the same two names twice restores the collection |
| Arrays.Take | numcube/cube.py:222 | ndarray.take along an axis: the length becomes the number of indices, and entry m reads the source at m with that coordinate mapped through the indices |
| Arrays.TakeOfGather | numcube/cube.py:409 | a take along an axis not yet reindexed extends the reindexing on that axis |
| Arrays.Transpose | numcube/cube.py:78 | ndarray.transpose: ValueError unless the order is a permutation; the shape is permuted and each entry reads the source at the unpermuted position |
| Arrays.ExpandDims | numcube/cube.py:265 | a length-1 dimension inserted at k; each entry reads the source with coordinate k dropped |
| Arrays.Repeat | numcube/cube.py:266 | dimension k is multiplied by count; entry m reads the source at m[k] / count |
| Arrays.RepeatExpanded | numcube/cube.py:265-266 | expand then repeat spreads the source along the new dimension |
| Arrays.SwapAxes | numcube/cube.py:254 | swapaxes exchanges two dimensions of the shape and of every position |
| Arrays.SwapAxesTwiceSame | numcube/cube.py:254 | swapping the same two dimensions twice gives the same data |
| Arrays.MapLeft | numcube/cube.py:385 | a scalar on the left is combined with every entry |
| Arrays.MapRight | numcube/cube.py:388 | a scalar on the right is combined with every entry |
| Arrays.BroadcastDim | numcube/cube.py:430 | two lengths broadcast exactly when they are equal or one is 1 |
| Arrays.BroadcastShape | numcube/cube.py:430 | two shapes of equal rank broadcast exactly when each dimension does |
| Arrays.Ufunc2 | numcube/cube.py:430 | a binary ufunc: ValueError unless the shapes broadcast; each entry combines the entries read with length-1 dimensions held at 0 |
| Arrays.CommonDim | numcube/cube.py:530 | lengths broadcast together exactly when all those other than 1 agree |
| Arrays.CommonShape | numcube/cube.py:530 | shapes broadcast together exactly when every column does |
| Arrays.BroadcastArrays | numcube/cube.py:530 | np.broadcast_arrays: ValueError unless the shapes broadcast; each result has the common shape and reads its source with length-1 dimensions held at 0 |
| Arrays.Concatenate | numcube/cube.py:230 | np.concatenate of equal-shaped arrays along k: ValueError for none; the length along k multiplies; entry m reads array m[k] / len at m[k] % len |
| Arrays.ApplyAlongAxis | numcube/cube.py:223 | ValueError exactly when a dimension other than k has length 0; otherwise dimension k is removed, and each entry is the reducer applied to the slice along k |
| Arrays.RowMajorIndex | numcube/cube.py:325 | the position reshape visits q-th (last coordinate fastest), in bounds for q below the size |
| Arrays.FlatOfRowMajor | numcube/cube.py:325 | the row-major position of q flattens back to q |
| Arrays.MergeLeading | numcube/cube.py:325 | reshape merging the leading j dimensions into one of their product length |
| Cubes.NewCube | numcube/cube.py:24-33 | a cube is built exactly when the data's shape lists the axes' lengths, else ValueError |
| Cubes.NewCubeFrom | numcube/cube.py:17-33 | a non-Axes argument is first made an Axes collection, whose errors come first |
| Cubes.NewCubeValid | numcube/cube.py:17-33 | a built cube is valid when its axes are |
| Cubes.Transpose | numcube/cube.py:67-79 | wrong count is ValueError, else the Axes errors; otherwise the axes reordered and the data transposed by the resolved positions, which form a permutation |
| Cubes.TransposeRoundTrip | numcube/cube.py:67-79 | transposing back by the inverse order restores axes and data |
| Cubes.SwapAxes | numcube/cube.py:245-255 | the two resolved axes and dimensions trade places; lookup errors first |
| Cubes.SwapAxesTwice | numcube/cube.py:245-255 | swapping twice restores axes and data |
| Cubes.ReplaceAxis | numcube/cube.py:233-243 | the new axis must not clash by name and must have the old axis's length (ValueError); the data is unchanged |
| Cubes.ExpandDimsPosition | numcube/cube.py:265 | np.expand_dims accepts an index in [-n-1, n], counted from the end when negative; otherwise numpy's AxisError |
| Cubes.InsertAxisAsWritten | numcube/cube.py:257-267 | the axes are placed by `list.insert`, the data by `expand_dims` and `repeat`; once the insertion and `expand_dims` succeed, the cube is built exactly when the new axes' lengths are the repeated data's shape; every failure is a ValueError |
| Cubes.InsertAxisNegativeIndexMislabels | numcube/cube.py:264-266 | with index -1 on a 2-d cube, the new axis label lands in the middle while the data is repeated along the last dimension |
| Cubes.InsertAxis | numcube/cube.py:257-267 | a new name is required (ValueError); the axes are inserted, and the data is spread along the same position |
| Cubes.AlignAxis | numcube/cube.py:269-279 | the named axis must be an Index containing every new label; the new axis replaces it and each entry reads the old entry at the looked-up position |
| Cubes.RenameAxis | numcube/cube.py:281-291 | lookup error, TypeError for a non-str name, ValueError on a clash; otherwise only that axis's name changes |
| Grouping.Positions | numcube/cube.py:219-221 | exactly the positions holding a label, in increasing order |
| Grouping.GroupLabels | numcube/cube.py:211-216 | distinct group labels with the axis's label set, sorted or in first-seen order |
| Grouping.GroupsPartition | numcube/cube.py:211-221 | every position lies in the group of its own label and only there |
| Grouping.CoercedLabelsSortAsStrings | numcube/cube.py:212 | the labels [10, "9"], promoted to strings, sort as "10" before "9" |
| Grouping.NoGroupsIffEmpty | numcube/cube.py:211-230 | there are no groups exactly when the axis is empty |
| Grouping.SubCubeReads | numcube/cube.py:222-224 | when no other dimension is empty, take, reduce along the axis, expand back succeeds, and each entry is the reducer applied to that group's entries along the row |
| Grouping.ReduceGroup | numcube/cube.py:222-224 | ValueError exactly when another dimension is empty; otherwise one group's sub-array is its reduced group |
| Grouping.ReduceGroups | numcube/cube.py:220-225 | with no labels, no sub-arrays; otherwise ValueError, raised on the first group, exactly when another dimension is empty, and else one reduced sub-array per label, in label order |
| Grouping.StackedGroups | numcube/cube.py:230 | concatenating the reduced groups gives, at coordinate j of the axis, group j's reduction |
| Grouping.GroupIndexValid | numcube/cube.py:228 | the group labels of an axis, with their table, make a valid Index of that axis's kind of label |
| Grouping.GroupedAxes | numcube/cube.py:228-229 | replacing the axis by a valid Index of the same name keeps the collection valid |
| Grouping.GroupedCube | numcube/cube.py:228-231 | the stacked groups under the new Index form a valid cube with the group reductions |
| Grouping.GroupBy | numcube/cube.py:195-231 | an Index axis returns the cube unchanged; a Series axis succeeds exactly when it is non-empty and no other dimension is empty (else ValueError), and becomes an Index of the group labels, with each entry the reduction of its group |
| Combining.FirstFastestIndex | numcube/cube.py:328-343 | the counter's q-th value, in bounds for q below the size |
| Combining.FirstFastestVisitsAll | numcube/cube.py:330-343 | every combination of positions is the counter's value at exactly one step |
| Combining.AdvanceFirstFastest | numcube/cube.py:335-343 | one increment moves the counter from step q to step q + 1 |
| Combining.ZerosAtStart | numcube/cube.py:328 | the counter starts at step 0 |
| Combining.AdvanceStopsAt | numcube/cube.py:336-343 | the increment zeroes the digits before the first digit that can grow and adds one to that digit |
| Combining.AdvanceWraps | numcube/cube.py:336-343 | when no digit can grow, the increment zeroes all of them |
| Combining.Increment | numcube/cube.py:335-343 | the in-place increment of the numpy counter |
| Combining.Odometer | numcube/cube.py:327-343 | the counter visits steps 0 to size-1 in order; with no axis names, `indices[0]` is an IndexError |
| Combining.AdvanceRowMajor | numcube/cube.py:325 | the corrected increment moves reshape's order from step q to q + 1 |
| Combining.RowMajorZerosAtStart | numcube/cube.py:325 | reshape's order starts at zeros |
| Combining.AdvanceLastStopsAt | numcube/cube.py:325 | the corrected increment zeroes the digits after the last digit that can grow |
| Combining.AdvanceLastWraps | numcube/cube.py:325 | when no digit can grow, the corrected increment zeroes all of them |
| Combining.IncrementLast | numcube/cube.py:336-343 | the in-place corrected increment |
| Combining.RowMajorOdometer | numcube/cube.py:327-343 | the corrected counter visits reshape's order |
| Combining.OdometerOrderDisagreesWithReshape | numcube/cube.py:325-343 | for two axes of length 2, step 1 of the counter is [1, 0], while reshape puts [0, 1] there and [1, 0] at step 2 |
| Combining.Others | numcube/cube.py:311-318 | the positions not combined, each once, in increasing order |
| Combining.CombinedOrderIsPermutation | numcube/cube.py:320-324 | combined positions followed by the others form a permutation for transpose |
| Combining.CombineCheck | numcube/cube.py:293-318 | the lookup errors, then ValueError for a repeated axis or for a remaining axis whose name equals the new name (never the case for a non-str new name) |
| Combining.MergedTransposeReads | numcube/cube.py:324-325 | transpose then reshape: entry m reads the source at the row-major split of m[0] and the rest, unpermuted |
| Combining.TransposedShape | numcube/cube.py:320-325 | the transposed shape lists the combined axes' lengths, then the others' lengths |
| Combining.Combined | numcube/cube.py:320-347 | the new Index's checks in order: TypeError for a non-str new name, then ValueError exactly when the labels repeat; otherwise a valid cube whose axes are the new Index then the remaining axes, reading the merged data |
| Combining.CombinedAxesValid | numcube/cube.py:345-347 | the new axis followed by the remaining axes is a valid collection |
| Combining.CounterLabels | numcube/cube.py:327-343 | label q is the string `format` makes of the combined axes' labels at the counter's q-th value |
| Combining.ReshapeLabels | numcube/cube.py:325-332 | label q is the string `format` makes of the combined axes' labels at reshape's q-th position |
| Combining.CombineAxesAsWritten | numcube/cube.py:293-347 | combine_axes as written: the check's errors, IndexError for no axis names, TypeError for a non-str new name, otherwise the merged data labelled in the order of the counter |
| Combining.CombineAxes | numcube/cube.py:293-347 | combine_axes with labels in reshape's order, with the same errors in the same order |
| Combining.CombinedLabelsMatchValues | numcube/cube.py:324-347 | with the corrected labels, every entry's new label formats the source labels of the entry it reads |
| Broadcasting.Sources | numcube/cube.py:356-358 | for each target axis, its position among the old axes, if present |
| Broadcasting.Indices | numcube/cube.py:356-363 | the transpose positions: the old position, or the next virtual dimension at the end |
| Broadcasting.TargetShape | numcube/cube.py:350-370 | the broadcast shape: the old length for an axis present, 1 for a virtual one |
| Broadcasting.Project | numcube/cube.py:350-370 | which old position a target position reads |
| Broadcasting.FoundCount | numcube/cube.py:356-367 | found positions plus virtual dimensions make one per target axis |
| Broadcasting.CoveredWhenPermutation | numcube/cube.py:366-370 | if the transpose succeeds, every old axis is named in the target |
| Broadcasting.PermutationWhenCovered | numcube/cube.py:366-370 | if every old axis is named in the target, the rank check passes and the transpose order is a permutation |
| Broadcasting.PadToTarget | numcube/cube.py:354-363 | the loop appends one length-1 dimension per missing axis and records the transpose positions |
| Broadcasting.BroadcastValues | numcube/cube.py:350-370 | ValueError exactly when an old axis is missing from the target; otherwise the target shape, each entry reading the projected old entry |
| Alignment.AlignIndexToIndex | numcube/cube.py:433-443 | AxisAlignError unless the lengths agree and every target label is in the source; otherwise positions that reorder the source onto the target |
| Alignment.AlignIndexToSeries | numcube/cube.py:446-453 | AxisAlignError unless every Series label is in the Index; otherwise positions reordering the Index onto the Series |
| Alignment.AssertAlignSeries | numcube/cube.py:456-462 | two Series align exactly when their values are equal in order |
| Alignment.IndexAlignmentIsPermutation | numcube/cube.py:433-443 | Index-to-Index alignment positions are a permutation |
| Alignment.RealignsUnique | numcube/cube.py:433-443 | over an Index's distinct labels, the positions that realign it onto another axis are unique |
| Alignment.AlignIndexToItself | numcube/cube.py:433-443 | aligning an Index to its own values gives 0, 1, ..., n-1 |
| Alignment.ExampleGather | numcube/tests/test_cube.py:167-169 | aligning [b, a, c, d] to [a, b, c, d] gives the gather [1, 0, 2, 3] |
| Alignment.GatherDirectionExample | numcube/tests/test_cube.py:167-169 | in apply2 that gather is applied to B's data |
| Alignment.AlignStep | numcube/cube.py:394-420 | for one axis of A: nothing when B lacks it, is the same axis, or both are equal Series; B reindexed for Index-Index and Series-Index; A reindexed, and B's Series taken, for Index-Series; AxisAlignError otherwise |
| Alignment.AlignSlot | numcube/cube.py:396-420 | one loop iteration applies that step's take to A or B and updates the axis list |
| Alignment.AlignCubes | numcube/cube.py:390-420 | the loop fails exactly when some axis of A does not align; otherwise both data arrays are reindexed by every step and the slots hold the chosen axes |
| Elementwise.BOnly | numcube/cube.py:423-425 | exactly B's axes whose names A lacks |
| Elementwise.BOnlyDistinct | numcube/cube.py:423-425 | the appended axes have distinct names |
| Elementwise.AppendBOnly | numcube/cube.py:423-425 | the loop appends BOnly to the slots |
| Elementwise.NothingAppended | numcube/cube.py:423-425 | when A names every axis of B, nothing is appended |
| Elementwise.ResultAxesFacts | numcube/cube.py:392-425 | the result axes are a valid collection covering A and B: A's names first, then axes of B that A lacks |
| Elementwise.SlotOwner | numcube/cube.py:406-420 | slot d holds B's axis exactly when A's is an Index and B's namesake a different Series; otherwise A's |
| Elementwise.BroadcastBoth | numcube/cube.py:427-430 | the broadcast operands meet in the result axes' lengths |
| Elementwise.AlignedLabels | numcube/cube.py:390-430 | the entries of A and B that an entry combines carry that entry's labels on every axis |
| Elementwise.ApplyCubes | numcube/cube.py:390-430 | AxisAlignError when an axis cannot be aligned; otherwise the result axes, and, when ids identify axes, a result combining the entries with matching labels |
| Elementwise.Apply2 | numcube/cube.py:373-430 | a non-cube operand combines with every entry of the other cube under its axes; two non-cubes are an AttributeError; two cubes are aligned as ApplyCubes states |
| Elementwise.ItselfAligned | numcube/cube.py:403-404 | a cube aligns with itself through the identity fast path, keeping its axes |
| Elementwise.ApplyToItself | numcube/cube.py:403-404 | combining a cube with itself pairs each entry with itself |
| Union.FirstSeries | numcube/cube.py:480-482 | the first Series of a name among the flattened axes, or the end |
| Union.PreferredKind | numcube/cube.py:480-482 | the union keeps a Series for a name exactly when one of that name occurs |
| Union.PreferredSnoc | numcube/cube.py:470-482 | one more axis changes the kept axis only when it is the first Series of an Index-only name; first-seen order is unchanged |
| Union.MergeKept | numcube/cube.py:478-482 | visiting a known name keeps the union correct |
| Union.MergeNew | numcube/cube.py:473-477 | visiting a new name appends it and keeps the union correct |
| Union.UniqueOfIsUnion | numcube/cube.py:465-484 | one axis per name, in first-seen order, Series preferred to Index |
| Union.OrderedIsDistinct | numcube/cube.py:465-484 | the union's names are distinct |
| Union.FlattenMembers | numcube/cube.py:470-471 | the visited axes are exactly the cubes' axes |
| Union.VisitIndexed | numcube/cube.py:472-476 | the dict maps each name to its slot in the list across one visit |
| Union.Visit | numcube/cube.py:472-482 | one inner iteration merges the axis and keeps the dict in step |
| Union.VisitAxes | numcube/cube.py:471-482 | the inner loop over one cube's axes extends the union |
| Union.UniqueAxes | numcube/cube.py:465-484 | `_unique_axes_from_cubes` computes the union of the cubes' axes |
| Concatenation.BaseStep | numcube/cube.py:492-516 | for one base axis and cube: nothing when absent, identical, or an equal Series; an Index is reindexed onto the base; AxisAlignError otherwise |
| Concatenation.AlignToBase | numcube/cube.py:492-519 | one inner iteration reindexes that cube's data for one base axis |
| Concatenation.AlignAll | numcube/cube.py:490-519 | the double loop fails exactly when some cube's axis does not fit its base; otherwise every array is reindexed onto the bases |
| Concatenation.BroadcastAll | numcube/cube.py:525-528 | each array is brought to the target axes; ValueError when a cube has an axis outside the target |
| Concatenation.AlignAndBroadcast | numcube/cube.py:488-528 | alignment errors first, then broadcast errors; the arrays' shapes are the laid-out shapes |
| Concatenation.StackShape | numcube/cube.py:530-531 | the shape after broadcasting together and concatenating along the main axis |
| Concatenation.BroadcastAndStack | numcube/cube.py:530-531 | ValueError unless there are arrays and their shapes broadcast; the result has the stacked shape |
| Concatenation.AlignBroadcastConcatenate | numcube/cube.py:487-532 | AxisAlignError when an axis cannot be aligned; otherwise it succeeds exactly when the arrays stack onto the main axis then the bases (else ValueError) |
| Concatenation.StackedMain | numcube/cube.py:522-532 | when the arrays stack, the main axis is as long as the number of cubes times their common main length |
| Concatenation.Without | numcube/cube.py:562 | the union without the main axis's name |
| Concatenation.WithoutNames | numcube/cube.py:562 | removing a name keeps names distinct and keeps every other name |
| Concatenation.MainValues | numcube/cube.py:543-552 | collecting the main axis values succeeds exactly when every cube has the axis |
| Concatenation.MainValuesLength | numcube/cube.py:543-552 | the collected values are as many as the main axes' lengths summed |
| Concatenation.MainValuesFirstError | numcube/cube.py:544-548 | the error is that of the first cube lacking the axis, with a KeyError reported as ValueError |
| Concatenation.MainValuesPrefixError | numcube/cube.py:544-548 | an error in a prefix of the cubes is the whole loop's error |
| Concatenation.CollectMainValues | numcube/cube.py:543-552 | the loop computes MainValues |
| Concatenation.MainAxis | numcube/cube.py:550-557 | the concatenated values promoted to one dtype: an Index of them when `as_index` (ValueError on repeats), else a Series |
| Concatenation.ConcatBasesFacts | numcube/cube.py:559-562 | the base axes are valid and uniquely named |
| Concatenation.ConcatenateCubes | numcube/cube.py:535-564 | errors in source order (missing axis, no cubes, bad main axis, alignment, stacking); otherwise the main axis followed by the bases as a valid cube |
| Concatenation.ConcatenatedLengthsAgree | numcube/cube.py:552-564 | when concatenate succeeds, all cubes have the same main length |
| Concatenation.ConcatSucceeds | numcube/cube.py:535-564 | when every cube's main axis has one length, the main axis has one label per collected label (mixed labels promoted included), the axes align and ids identify, the arrays stack |
| Concatenation.StackableWhen | numcube/cube.py:487-532 | aligned cubes whose axes all lie in the target stack onto it when their main lengths agree |
| Concatenation.Join | numcube/cube.py:567-584 | ValueError when a cube has the axis or the count differs from its length; then as AlignBroadcastConcatenate with the new axis first |
| Concatenation.JoinSucceeds | numcube/cube.py:567-584 | join of aligned cubes, one per label of a new axis, succeeds when ids identify |

## Left out

- Floating point and the numpy kernels: entries have a type parameter, and the function a binary operation applies is a parameter.
- The operator methods (`__add__` to `__ge__`, numcube/cube.py:84-193) only call `apply2` with a numpy function; they are not modelled one by one.
- `Cube.apply`, `ndim`, `values`, `axes` and the `__str__` methods are not modelled: they only forward to numpy or format text.
- Grouping.GroupBy: the reducer is an uninterpreted function of the group's entries, and the extra `*args` are not modelled.
- Combining.CombineAxes: `format.format(*values)` is an uninterpreted function from labels to a string.
- numpy version: the model follows numpy 1.18 to 1.23, where `np.int` and `np.bool` still exist (numcube/index.py:27-28), `np.apply_along_axis` raises ValueError when another dimension is empty, and `np.expand_dims` raises AxisError outside [-n-1, n]. Under numpy 1.24 or later numcube/index.py:27 fails with AttributeError, so no Index can be built.
- Combining.Odometer: the source counts with a float array (`np.zeros`, numcube/cube.py:328) and indexes with it at numcube/cube.py:331. From numpy 1.12 on, a float index raises IndexError, so `combine_axes` as written fails on its first label there. The model counts with integers, which is what numpy before 1.12 did with such an index (truncation).
- Labels.Value: numpy's float, bool, bytes and object dtypes are not representable; labels are integers or strings, and only numpy's promotion of a mix of the two to strings is modelled.
- Labels.SortedUnique: the order also ranks integers before strings, for mixed input; after promotion no axis holds a mix, so that case is never reached from an axis.
- Elementwise.Apply2: the scalar operand has the entry type. numpy's promotion of a scalar to an array is not modelled.
- Elementwise.ApplyCubes: Python's `is` test is modelled by axis ids. The data is stated only when equal ids with equal names mean the same axis (`Identified`).
- Concatenation.AlignBroadcastConcatenate: the `TypeError("unsupported axis type")` branches cannot be reached once every axis is an Index or a Series.
- Concatenation.AlignBroadcastConcatenate: the contents of the concatenated data are not stated. Its contract gives the errors, the axes and the shape.
- Concatenation.BroadcastAndStack: the contract gives shapes and errors only, not the entries of the stacked data.
- Concatenation.AlignBroadcastConcatenate: `axis_list.insert(0, main_axis)` also changes the caller's list in place. The model builds a new list; the change is invisible to `concatenate` and `join`, which pass a fresh list.
- Concatenation.MainValues: the contract states success and the length of the collected values; the values themselves are the body's concatenation.
- Concatenation.ConcatenateCubes: one call to `np.concatenate` would also accept main axes that are not 1-d; axis values are always 1-d here.
- Errors: numpy's AxisError is reported as ValueError, its base class.
- The Index flag that makes its values read-only (numcube/index.py:22) is not modelled: Dafny sequences are immutable.
- Series values of rank 0 or 2 are not representable: a Series holds a sequence of labels.
- numcube/table.py, numcube/experimental/ and numcube/utils.py are not part of this model.
- `Axes.names`, `Axes.__len__`, `Axes.__str__` and `Axis.values` are plain accessors and are not modelled.

## Findings

| source | as written | input that shows it | evidently intended | confidence | as-written member | corrected member |
|---|---|---|---|---|---|---|
| numcube/series.py:4 | `class Series(object)` does not derive from `Axis`, so the `isinstance(axis, Axis)` test of numcube/axes.py:36-37 refuses every Series | `Axes(Series("a", [10, 10]))`, or `Cube` built with that axis as in numcube/tests/test_cube.py:204: TypeError | a Series is an axis that is not an Index (numcube/utils.py:17-18), so collections and cubes may hold Series | not executed | AxisCollection.FromItemsAsWritten, AxisCollection.SeriesRejectedAsWritten | AxisCollection.FromItems, AxisCollection.ScanOk |
| numcube/cube.py:264-266 | `insert_axis` places the axis with `list.insert(index)` and the data with `np.expand_dims(index)`, which disagree for a negative index | a 2-d cube with axes a, b and index -1: the axes become a, x, b while the data is repeated along the last dimension | the new axis and the new data dimension at the same position | not executed | Cubes.InsertAxisAsWritten, Cubes.InsertAxisNegativeIndexMislabels | Cubes.InsertAxis |
| numcube/cube.py:325-343 | `combine_axes` labels entry q with the counter's q-th value, which advances the first combined axis fastest, while `reshape` flattens in row-major order | two combined axes of length 2: label 1 formats positions [1, 0], but the data at flat position 1 comes from [0, 1] | labels in the order reshape flattens the data | not executed | Combining.CombineAxesAsWritten, Combining.OdometerOrderDisagreesWithReshape | Combining.CombineAxes, Combining.CombinedLabelsMatchValues |
