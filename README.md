# TriDet+ detection-head bookkeeping and HACS annotation handling, in Dafny

This project models the parts of the TriDet+ temporal action localisation pipeline that can be stated exactly. Each part is a module, and each module is listed below with what it covers:

- **LabelAssign** (`label_assign.dfy`): target assignment for one video (`label_points_single_video`). Every point of the feature pyramid, given as `(t, range_min, range_max, stride)`, is matched against the ground-truth segments:
  - either by strict inclusion or by centre sampling clipped to the segment;
  - then by the regression-range check of its level;
  - ties are broken by the shortest duration, with a 1e-3 slack.

  The result is 0/1 class targets and stride-normalised distance targets:
  - in single-label mode, one pair per point;
  - in multi-label mode, one pair per point and class.
- **Trident** (`trident.dfy`): the boundary-bin windows that `F.pad` and `as_strided` build from the start and end logits. Also the expectation step of `decode_offset`, which turns a bin distribution into a distance.
- **Inference** (`inference.dfy`): candidate selection in `inference_single_video`. For each pyramid level:
  - threshold the masked probabilities;
  - sort them in descending order and keep the top k;
  - recover `(point, class)` from the flat index;
  - rebuild the segment;
  - apply the duration filter.

  The levels are then concatenated.
- **Losses** (`losses.dfy`), the bookkeeping of `losses`:
  - the positive count;
  - the loss normaliser, an exponential moving average kept in the field of a class;
  - label smoothing of the targets, in place on an array;
  - the combination of the classification and regression terms.
- **Preprocessing** (`preprocessing.dfy`): `max_div_factor` from the constructor. Also the inference branch of `preprocessing`: the padded length, the padding and the validity mask.
- **Postprocessing** (`postprocessing.dfy`): converting grid units to seconds, and truncating every boundary into `[0, duration]` in place.
- **HacsDb** (`hacs_db.dfy`): `_load_json_db` over an already parsed `database` object. It builds the label dictionary, selects the split, picks the fps, and maps the labels.
- **HacsItem** (`hacs_item.dfy`): the label-side work of `__getitem__`:
  - the choice of feature stride, frames per cell and feature length, for the three feature layouts;
  - the conversion of segments from seconds to grid units;
  - the training-time filter that drops actions outside the feature map and truncates the rest onto it.
- **Wrappers, Points, Arith** (`common.dfy`): `Option` and `Result`, the shared point and segment value types with `Min`, `Max`, `Duration` and `Sum`, and two multiplication lemmas.

Coordinates, probabilities and loss values are `real`. Probabilities and loss values are inputs; the model never computes them. Where the source loops or updates state, the model is a method proved equal to a specification function. The specification function's properties are then proved as lemmas. This applies to:
- the assigner;
- the level loop of inference;
- `max_div_factor`, after the per-level window sizes are built;
- the normaliser field;
- the smoothing and truncation updates on arrays;
- the loader loops;
- the training filter loop.

Two details of the code set the model's conventions:
- `arange(max_range_num - 1, -1, -1)` with `max_range_num = num_bins + 1` gives bin `b` the left weight `num_bins - b` (`LeftBins`, `BinsMirror`, `OneHotDecodes`).
- `decode_offset` masks the left distribution with the right distribution's NaN mask; see "Left out".

## Model

| member | source | states |
|---|---|---|
| LabelAssign.LabelPointsSingleVideo | libs/modeling/meta_archs.py:664-768 | The targets computed with in-place masking, the multi-label scatter and the division by strides equal the specification `AssignTargets` for every input, including the zero-ground-truth case |
| LabelAssign.FirstMinIndex | libs/modeling/meta_archs.py:748 | `min(dim=1)` returns an index whose masked length is minimal, and no earlier index has a length no greater than it (the first of equal minima) |
| LabelAssign.MinLenMeaning | libs/modeling/meta_archs.py:721-748 | The row minimum is infinite exactly when no segment qualifies; otherwise its index is a shortest qualifying segment |
| LabelAssign.TieMaskMeaning | libs/modeling/meta_archs.py:750-753 | `min_len_mask[j]` holds exactly when segment j qualifies and no qualifying segment is more than 1e-3 shorter |
| LabelAssign.VotesMeaning | libs/modeling/meta_archs.py:759-762 | The mask-times-one-hot count for class c is non-negative, and after clamping to [0, 1] it is 1 exactly when some selected segment has label c |
| LabelAssign.SingleLabelClassification | libs/modeling/meta_archs.py:746-762 | Single-label mode: every class target is 0 or 1, and it is 1 exactly when a segment of that class qualifies at the point (inside or centre-sampled, in regression range) and is within 1e-3 of the shortest qualifying length |
| LabelAssign.SingleRegMeaning | libs/modeling/meta_archs.py:763-766 | The regression pair of a point is its stride-normalised distance pair to the first shortest qualifying segment, or to the first segment when none qualifies |
| LabelAssign.SingleLabelRegression | libs/modeling/meta_archs.py:746-766 | Single-label mode: one regression pair per point, that of the first shortest qualifying segment, or of segment 0 when none qualifies, divided by the stride |
| LabelAssign.LastAssigned | libs/modeling/meta_archs.py:736-739 | The write that survives the row-major scatter for (point, class) is the last qualifying segment of that class; None exactly when no segment of that class qualifies |
| LabelAssign.MultiLabelTargets | libs/modeling/meta_archs.py:726-743 | Multi-label mode: the target at (point, class) is 1 exactly when some segment of that class qualifies, else 0; the per-class regression pair is zero when the target is 0, and otherwise the distances to a qualifying segment of that class divided by the stride |
| LabelAssign.BackgroundPoint | libs/modeling/meta_archs.py:688-762 | A point where no segment qualifies has an all-zero class row in both modes |
| LabelAssign.NoGroundTruth | libs/modeling/meta_archs.py:671-675 | With no ground truth the class targets are all zero over `num_pts x num_classes`, and the regression targets are one zero pair per point, in multi-label mode too |
| LabelAssign.OneSegmentScenario | libs/modeling/meta_archs.py:677-766 | One segment [10, 20], stride 1, range [0, 16]: a point is labelled with the segment's class exactly when 10 < t < 20; its regression pair is (t - 10, 20 - t) |
| LabelAssign.TieMarksTwoClasses | libs/modeling/meta_archs.py:750-766 | Two segments within 1e-3 of each other in length both mark their classes at a common point, while the regression pair follows only the strictly shortest one |
| Trident.StartWindow | libs/modeling/meta_archs.py:976-983 | The window at t has `num_bins + 1` entries; entry j is start logit `t - num_bins + j`, or 0 where that index is negative |
| Trident.EndWindow | libs/modeling/meta_archs.py:985-986 | The window at t has `num_bins + 1` entries; entry j is end logit `t + j`, or 0 where `t + j >= T` |
| Trident.StartWindows | libs/modeling/meta_archs.py:784-793 | One start window per position of the level, with the entries of `StartWindow` |
| Trident.EndWindows | libs/modeling/meta_archs.py:795-797 | One end window per position of the level, with the entries of `EndWindow` |
| Trident.BinsMirror | libs/modeling/meta_archs.py:487-489 | The left weight of bin j (`LeftBins`) is the right weight of bin `n - 1 - j` (`RightBins`). The left weights run from `n - 1` down to 0 and the right weights from 0 up to `n - 1` |
| Trident.DotBounds | libs/modeling/meta_archs.py:495-496 | When all weights lie in [lo, hi], the expectation of a non-negative vector lies between lo and hi times its mass |
| Trident.DecodeWithinBins | libs/modeling/meta_archs.py:494-496 | Any probability vector over `num_bins + 1` bins decodes to left and right distances in [0, num_bins] |
| Trident.DecodeOffset | libs/modeling/meta_archs.py:485-497 | The decoded pair of two probability vectors lies within [0, num_bins] on both sides |
| Trident.OneHotDecodes | libs/modeling/meta_archs.py:485-496 | A distribution concentrated on bin k decodes to left distance `num_bins - k` and right distance k |
| Trident.ZeroDecodes | libs/modeling/meta_archs.py:491-496 | All-zero (masked) distributions decode to the zero pair |
| Trident.WindowsMatchBins | libs/modeling/meta_archs.py:976-986 | Entry j of the start window is the logit as many positions before t as the left weight of j (or padding), and entry j of the end window the logit as many positions after t as the right weight of j (or padding) |
| Inference.FlatScoresAt | libs/modeling/meta_archs.py:954 | Cell (t, c) of the masked probability table sits at flat position `t * num_classes + c` and holds the probability times the mask |
| Inference.FlatIndexSplit | libs/modeling/meta_archs.py:969-972 | Floor division and remainder by `num_classes` split `t * num_classes + c` back into t and c |
| Inference.IndexRecovery | libs/modeling/meta_archs.py:969-972 | A flat index below `T * C` is `pt * C + cls` with `pt < T` and `cls < C` |
| Inference.PointIndex | libs/modeling/meta_archs.py:969-971 | The recovered point index is below the number of points |
| Inference.ClassIndex | libs/modeling/meta_archs.py:972 | The recovered class index is below `num_classes` |
| Inference.PassingUpTo | libs/modeling/meta_archs.py:958-960 | The kept candidates are exactly the flat positions whose score exceeds the threshold, each with its own score, in increasing index order |
| Inference.Insert | libs/modeling/meta_archs.py:964 | Inserting into a descending sequence gives a descending permutation of the sequence plus the new candidate |
| Inference.SortDescending | libs/modeling/meta_archs.py:964 | The sort returns a permutation of the candidates in non-increasing score order |
| Inference.TopK | libs/modeling/meta_archs.py:963-966 | The first `min(k, #candidates)` sorted candidates. They are descending, a sub-multiset of the input (no candidate repeated beyond its multiplicity), and no dropped candidate outscores a kept one |
| Inference.LevelTop | libs/modeling/meta_archs.py:958-966 | Every surviving flat index lies within the level's `T * C` table |
| Inference.TopCount | libs/modeling/meta_archs.py:958-966 | A level keeps `min(pre_nms_topk, #passing)` candidates, and every cell above the threshold is among the passing ones |
| Inference.SegmentAt | libs/modeling/meta_archs.py:1008-1012 | The segment is `(t - left * stride, t + right * stride)` and contains t for non-negative offsets and a positive stride |
| Inference.DecodeCandidate | libs/modeling/meta_archs.py:969-1012 | A decoded detection keeps the candidate's score and has a class below `num_classes` |
| Inference.DecodeCandidateMeaning | libs/modeling/meta_archs.py:969-1010 | The flat index is `pt_idx * num_classes + cls_idx`, and the segment is rebuilt from that point and the offsets of that (point, class) |
| Inference.DecodeAllOrigin | libs/modeling/meta_archs.py:969-1012 | Detection i of `DecodeAll` keeps candidate i's score. Its class is the candidate's `fmod` index, and its segment is built from the point given by the floor-division index and that (point, class)'s offsets |
| Inference.KeepLong | libs/modeling/meta_archs.py:1014-1019 | The kept detections are exactly those whose segment is longer than `duration_thresh` |
| Inference.LongIndices | libs/modeling/meta_archs.py:1015-1016 | The `True` positions of `keep_idxs2`: increasing, in range, each with a segment longer than `duration_thresh` |
| Inference.KeepLongAt | libs/modeling/meta_archs.py:1016-1021 | Mask indexing keeps order and repetitions: entry j of `KeepLong` is the detection at the j-th long position, and there are as many entries as long positions |
| Inference.LongComplete | libs/modeling/meta_archs.py:1015-1016 | Every position whose segment is longer than `duration_thresh` is kept |
| Inference.KeepLongSorted | libs/modeling/meta_archs.py:1014-1021 | The duration filter keeps descending scores descending |
| Inference.LevelDetectionsBounds | libs/modeling/meta_archs.py:954-1021 | A level yields at most `pre_nms_topk` detections, in descending score order, each scoring above `pre_nms_thresh`, longer than `duration_thresh` and with a class below `num_classes` |
| Inference.LevelDetectionOrigin | libs/modeling/meta_archs.py:954-1012 | Every detection of a level has the masked probability of some (point, class) cell as its score, and that point's segment for that class |
| Inference.AllLevelsSound | libs/modeling/meta_archs.py:1023-1026 | The concatenation across levels keeps every per-detection guarantee and has at most `#levels * pre_nms_topk` entries |
| Inference.InferenceSingleVideo | libs/modeling/meta_archs.py:936-1031 | The level loop's three appended columns are those of the concatenated detections; they have equal length, at most `#levels * pre_nms_topk`, and every row scores above the threshold, is longer than the duration threshold and has a valid class |
| Losses.PositiveClasses | libs/modeling/meta_archs.py:805-806 | The count of positive classes in a row is at most the row length, and 0 exactly when no entry is positive |
| Losses.PositivesUpTo | libs/modeling/meta_archs.py:804-824 | `num_pos` is 0 exactly when no valid point has a positive target: no positive class in multi-label mode, no positive row sum otherwise. In single-label mode it is at most the number of points |
| Losses.PositiveClassesCount | libs/modeling/meta_archs.py:805-823 | The per-row count is the size of the set of classes with a positive target |
| Losses.SingleLabelPositives | libs/modeling/meta_archs.py:805-823 | Single-label mode: `num_pos` is the size of the set of valid points whose target row sums to more than 0 |
| Losses.MultiLabelPositives | libs/modeling/meta_archs.py:805-823 | Multi-label mode: each valid point adds the size of its set of positive classes, so `num_pos` is at most `num_points * num_classes` |
| Losses.EmaStep | libs/modeling/meta_archs.py:825-827 | One update moves the normaliser one tenth of the way towards `max(num_pos, 1)`; it stays at least 1 once at least 1, and positive once positive |
| Losses.EmaRepeatClosedForm | libs/modeling/meta_archs.py:825-827 | After k updates with the same count, the distance to `max(num_pos, 1)` is the initial distance multiplied by 0.9 k times |
| Losses.ShrinkBounds | libs/modeling/meta_archs.py:825-827 | The shrunk distance keeps its sign and never grows, so repeated updates approach the target monotonically |
| Losses.LossNormalizer.constructor | libs/modeling/meta_archs.py:441-442 | The normaliser starts at `init_loss_norm` |
| Losses.LossNormalizer.Update | libs/modeling/meta_archs.py:823-827 | Returns `num_pos` and sets the field to `0.9 * old + 0.1 * max(num_pos, 1)` |
| Losses.Smooth | libs/modeling/meta_archs.py:832-834 | Label smoothing sends 0 to `eps / (C + 1)` and 1 to `1 - eps + eps / (C + 1)` |
| Losses.SmoothRange | libs/modeling/meta_archs.py:832-834 | For `0 <= eps <= 1` a target in [0, 1] stays in [0, 1] |
| Losses.RatedMaskMeansPositive | libs/modeling/meta_archs.py:850 | For `eps < 1` a smoothed target is above the smoothing floor exactly when the original target is positive |
| Losses.SmoothTargets | libs/modeling/meta_archs.py:829-834 | The two in-place passes leave every entry equal to its smoothed original value |
| Losses.LossWeight | libs/modeling/meta_archs.py:868-871 | The configured weight when positive; otherwise weight times `max(reg_loss, 0.01)` equals the classification loss |
| Losses.DynamicWeightBalances | libs/modeling/meta_archs.py:856-874 | With the dynamic weight and a regression loss of at least 0.01 the final loss is twice the classification loss; without positives it is the classification loss |
| Preprocessing.WindowSizes | libs/modeling/meta_archs.py:233-237 | An int window size is repeated once per level. A list is kept when it has one entry per level; otherwise the length assertion fails (None) |
| Preprocessing.MaxDivisorMeaning | libs/modeling/meta_archs.py:238-242 | The specification `MaxDivisor` is at least 1, at least every level's divisor (`s * w` when w > 1, else s, for any integer w), and equal to one of them unless it is 1 |
| Preprocessing.NoWindowsDivisor | libs/modeling/meta_archs.py:238-242 | With every window size at most 1 (the backbone default -1), the factor is the largest stride, or 1 when there are no levels |
| Preprocessing.MaxDivFactor | libs/modeling/meta_archs.py:238-243 | The loop over `zip(fpn_strides, sgp_win_size)` computes `MaxDivisor`. So the factor is at least 1, at least every level's divisor, and equal to one of them unless it is 1 |
| Preprocessing.ConfigureDivFactor | libs/modeling/meta_archs.py:233-243 | Configuration fails exactly when a list of window sizes has the wrong length. Otherwise the factor is `MaxDivisor` of the strides and the per-level window sizes |
| Preprocessing.RoundUp | libs/modeling/meta_archs.py:625 | `(n + d - 1) // d * d` is a multiple of d in `[n, n + d)` |
| Preprocessing.PaddedLength | libs/modeling/meta_archs.py:619-625 | The padded length is `max_seq_len` for inputs no longer than it, and otherwise a multiple of `max_div_factor` within `[len, len + max_div_factor)` |
| Preprocessing.PaddedLengthLeast | libs/modeling/meta_archs.py:622-625 | No multiple of `max_div_factor` that is at least the input length is smaller than the padded length |
| Preprocessing.PadForInference | libs/modeling/meta_archs.py:617-634 | Every channel is padded to the padded length with the padding value after the input, and `mask[i]` holds exactly when `i < len` |
| Postprocessing.TruncateBoundary | libs/modeling/meta_archs.py:1065-1066 | For a non-negative duration a boundary ends in [0, duration], equal to `min(max(x, 0), duration)`, and unchanged when strictly inside |
| Postprocessing.TruncateIdempotent | libs/modeling/meta_archs.py:1065-1066 | Truncating twice is truncating once |
| Postprocessing.TruncateInPlace | libs/modeling/meta_archs.py:1064-1066 | The two masked in-place assignments leave each boundary of the buffer truncated into [0, duration] |
| Postprocessing.ConvertToSeconds | libs/modeling/meta_archs.py:1061-1066 | A fresh buffer with, for each detection, both boundaries converted to seconds and then truncated |
| HacsDb.Lower | libs/datasets/hacs.py:109 | Lower-casing keeps the length and leaves no upper-case ASCII letter. It moves each upper-case letter 32 code points up and keeps every other character |
| HacsDb.LowerIdempotent | libs/datasets/hacs.py:109 | Lower-casing twice is lower-casing once |
| HacsDb.AddLabelsKeys | libs/datasets/hacs.py:101-103 | The inner loop adds exactly the action names as keys |
| HacsDb.AddLabelsLast | libs/datasets/hacs.py:102-103 | A name maps to the id of its last action in the loop (last write wins) |
| HacsDb.AddLabelsOrigin | libs/datasets/hacs.py:102-103 | Every key maps to the id of some action with that name, or keeps its earlier value |
| HacsDb.LabelDictError | libs/datasets/hacs.py:99-103 | Building the dictionary fails exactly when some video has no `annotations` key, whatever its subset, and then it fails with the first such video |
| HacsDb.LabelDictCovers | libs/datasets/hacs.py:99-103 | Every action name of every video is a key of the dictionary |
| HacsDb.LabelDictOrigin | libs/datasets/hacs.py:99-103 | Every key of the dictionary maps to the id of some action carrying that name |
| HacsDb.BuildLabelDict | libs/datasets/hacs.py:99-103 | The nested loop computes the specification `LabelDict` |
| HacsDb.MapLabelsMeaning | libs/datasets/hacs.py:127-133 | Label mapping fails exactly when there are several classes and a name is missing from the dictionary; otherwise every label is 0 for one class, else the dictionary entry of its action |
| HacsDb.RecordContents | libs/datasets/hacs.py:119-142 | A record carries the key, fps and duration; segments and labels are None exactly when annotations are absent or empty, and otherwise they are aligned with the actions |
| HacsDb.BuildRecord | libs/datasets/hacs.py:121-142 | The annotation loop computes the specification `MakeRecord` |
| HacsDb.RecordsMeaning | libs/datasets/hacs.py:106-142 | On success, record i is `MakeRecord` of the i-th video whose lower-cased subset is in the split, in database order. Its fps is the configured default, or the video's own fps when there is no default. The loop fails when no fps is configured and a video of the split has none |
| HacsDb.SplitIndices | libs/datasets/hacs.py:107-110 | The positions of the split's videos: increasing, in range, each with a lower-cased subset in the split |
| HacsDb.SplitComplete | libs/datasets/hacs.py:107-110 | No video of the split is skipped |
| HacsDb.BuildRecords | libs/datasets/hacs.py:106-142 | The record loop computes the specification `RecordsUpTo` |
| HacsDb.RecordsNoUnknownLabel | libs/datasets/hacs.py:121-133 | With a dictionary that covers every action name, record building never fails on an unknown label |
| HacsDb.NoUnknownLabel | libs/datasets/hacs.py:92-144 | Loading fails only on a missing `annotations` key or a missing fps, never on an unknown label |
| HacsDb.LoadJsonDb | libs/datasets/hacs.py:92-144 | The loader computes the specification `LoadSpec`: the dictionary first, then the records |
| HacsItem.StridedLength | libs/datasets/hacs.py:181-182 | `feats[::rate]` has `ceil(n / rate)` rows: `n <= r * rate < n + rate` |
| HacsItem.SelectGrid | libs/datasets/hacs.py:177-201 | Case 1: fps window kept, stride multiplied by the downsample rate, the features cover the input. Case 2: `max_seq_len` cells spanning `(T - 1) * stride + num_frames` frames, failing only for `max_seq_len = 0`. Case 3: cells spanning the record's `duration * fps`; `seq_len > max_seq_len` is the assertion error and a zero length the division error |
| HacsItem.GridSecondsInverse | libs/datasets/hacs.py:239-241 | The seconds-to-grid conversion and the grid-to-seconds conversion of `postprocessing` are inverse in both directions |
| HacsItem.TimeRoundTrip | libs/datasets/hacs.py:239-241 | A time in [0, duration] sent to the grid, back to seconds and truncated is unchanged |
| HacsItem.SegmentsRoundTrip | libs/datasets/hacs.py:239-241 | For a non-zero fps and stride, every segment converted by `SegmentsToGrid` maps back to the annotated one under the `postprocessing` conversion |
| HacsItem.ClampToMap | libs/datasets/hacs.py:253 | A clamped boundary lies in [0, feat_len] and is unchanged when already inside |
| HacsItem.KeptIndices | libs/datasets/hacs.py:248-251 | The kept positions are increasing, in range, and start inside the feature map |
| HacsItem.KeptAt | libs/datasets/hacs.py:247-255 | The collected segments and labels are the truncated segments and the labels at the kept positions, pairwise aligned |
| HacsItem.KeptComplete | libs/datasets/hacs.py:248-251 | Every position whose segment starts before `feat_len` is kept |
| HacsItem.TrainingFilterMeaning | libs/datasets/hacs.py:245-261 | Both outputs are None exactly when every segment starts at or beyond `feat_len`; otherwise they are equally long, no longer than the input, and every kept boundary lies in [0, feat_len] |
| HacsItem.TrainingFilterAligned | libs/datasets/hacs.py:248-261 | Each output pair is the truncation of some input segment that starts on the map, together with that segment's own label |
| HacsItem.TrainingFilterKeeps | libs/datasets/hacs.py:248-261 | Every input segment starting on the map appears in the output, truncated, with its own label |
| HacsItem.FilterTrainingSegments | libs/datasets/hacs.py:245-261 | The loop over `zip(segments, labels)` computes the specification `TrainingFilter` |
| HacsItem.EvalItemTargets | libs/datasets/hacs.py:238-242 | An evaluation item's `ItemTargets` holds one grid segment per annotation and the record's labels. Each segment, converted back with the record's fps, is its annotation |
| HacsItem.TrainingItemTargets | libs/datasets/hacs.py:238-261 | A training item's `ItemTargets` is None exactly when no annotation starts on the feature map. Otherwise the segments and labels are aligned and no longer than the input, every boundary lies in [0, feat_len], and each pair is the truncated grid segment of some annotation with that annotation's label |

## Left out

- Sigmoid, softmax, `sigmoid_focal_loss`, `ctr_giou_loss_1d`, `ctr_diou_loss_1d` and the IoU reweighting of the classification loss are transcendental floating-point computations. The repository's `losses.py`, where the last three are defined, is not part of this model. Probabilities, distributions and loss values are inputs.
- The NaN masking of `decode_offset` (`meta_archs.py:491-492`) is left out because NaN has no counterpart in `real`. The code masks the left distribution with the right distribution's NaN mask. The model covers the result of that masking only through `ZeroDecodes` (an all-zero distribution decodes to zero).
- Trident.DecodeOffset: the bounds are stated for probability vectors only. The code's offset logits, the softmax and the batched training shapes are not modelled.
- `batched_nms` from the utils package and the point generator are not part of this model. Points are an input sequence, and inference output is taken as what enters NMS.
- The backbone, the neck, the classification and regression heads, and their initialisation are neural network wiring.
- Preprocessing: the training branch, which copies into a preallocated batch, is left out, and so is input noise (`torch.randn`). The `batch_size == 1` assertion is left out because the model takes one video.
- Inference.SortDescending: `torch.sort` is not stable, so tie order is unspecified. The model uses one fixed insertion order and proves only the order and permutation properties.
- Float32 and float64 rounding are not modelled: coordinates are exact reals, and the 1e-3 slack and the comparisons are exact.
- HacsDb.Lower: `str.lower` is modelled on ASCII letters only.
- `remove_duplicate_annotations` is not part of this model. Every annotation is kept, as if no duplicates exist.
- JSON parsing, h5py and NumPy file loading, path checks and tensor conversions are I/O. The loader works on an already parsed `database`, and `__getitem__` works on a feature count.
- `F.interpolate` resizing of features and additional features (`hacs.py:210-232`) is left out. Only its effect on the feature length (`max_seq_len`) is modelled.
- The number-of-classes assertion in the dataset constructor is left out, and so is the dataset attribute table.
- HacsItem.SecondsToGrid: a zero feature stride (NumPy `inf`/`nan`) is excluded by a precondition. The feature stride is positive in case 1. It is positive in case 2 when `T >= 1` and `num_frames > 0`, and in case 3 when the duration and fps are positive.
- Postprocessing.GridToSeconds: a zero fps is excluded by a precondition. There torch divides to `inf`/`nan` rather than raising.
- `truncate_feats` (`hacs.py:279-282`), the random crop applied to training items after the filter, is not part of this model.
- LabelAssign.LabelPointsSingleVideo: `AssignPre` requires every label to lie in `[0, num_classes)`. A label outside that range makes `F.one_hot` raise (`meta_archs.py:730`, `756-758`). Label ids come straight from the annotation file, so this error path is real, but the model does not represent it.
- LabelAssign.LastAssigned: the multi-label scatter `multi_target[pos_t_idx, pos_cls_idx] = ...` (`meta_archs.py:739`) is an `index_put_` without accumulation. PyTorch leaves its result undefined when two qualifying segments of one class hit the same point. The model fixes last-write-wins in row-major order. `MultiLabelTargets` states the order-free property: the pair comes from some qualifying segment of that class.
- Postprocessing covers one video's results. The loop over the videos of a batch, and the repacking into dictionaries, are left out.
