# Sequence engine, job naming, post-FX parameters and storage naming

This project models the deterministic core of a Python audio sequencing back
end and proves properties of that model.

The back end turns a job (a stored JSON document naming an audio sample, a
BPM, a scale and a rhythm per channel) into a one-bar sequence:

- It builds a **Euclidean rhythm** of `n` onsets over `k` steps.
- It derives the **pulse length** and the **grid** (the usable part of the
  sample) from the BPM.
- It computes one **frame length** per onset and a **repetition count** per
  distinct frame length.
- It plans the **slice offsets** and **slices the (zero-padded) sample** into
  frames.
- It **selects** frames at random, draws one note per selected frame, may pass
  them through a **pitch-shift gate**, and pads or cuts the result to exactly
  **one bar** of samples.

Around that core the model covers:

- the job **path table** and the job type and channel validators;
- the selection of one channel's **parameters**;
- `sanitize_job_id`;
- the post-processing **request validators** (`FxParamsModel`), the
  **selective muting** of frames and the choice of a **pedalboard effect**;
- the storage **naming helpers**: filtering a listing, the path pair of each
  asset type, upload keys and the copy request.

How the model is laid out:

- One module per source file: `SequenceConfig`, `FrameSlicer` and
  `SequenceEngine` cover generator.py; `Utils`, `PostFx` and `Storage` cover
  the other three.
- Python built-ins are modelled in small helper modules: `Results`, `PyNum`
  (floor, ceil, `int()` truncation, `round` half-to-even), `PySeq` (slicing,
  flattening, counting) and `PyStr` (`str.replace`, `split`, `join`, `int()`,
  `str()`, `os.path.basename`, `os.path.join`).
- Code that works by updating state step by step becomes methods with loops
  and invariants:
  - the rhythm construction, the frame lengths and the repetition counts;
  - `filter_files` and the upload status;
  - the slicer, a class whose `audio` field the padding reassigns;
  - the in-place muting of an array of frames.
- Pure code becomes functions and lemmas.
- Randomness enters as parameters:
  - `random.random()` draws are a stream `rand: nat -> real` of values in
    [0, 1);
  - `random.choices` picks `population[floor(u * n)]` for each draw `u`;
  - `random.sample` in the muting step is the given list of chosen indices;
  - librosa's pitch shift is a function parameter.

Where the code disagrees with its own tests, or with what its names and
docstrings suggest, the model follows the code:

- The `fx_input` value `0_1_2_3_4_F`, which tests/test_post_fx.py:21 uses
  as valid data, holds five digits and is refused
  (`PostFx.FixtureFxInputRefused`).
- The pre-mixdown paths carry a double underscore before the channel, as
  app/utils/utils.py:126-127 writes them (`Utils.PreMixdownPathShapes`).
- Selection counts come from `Counter` (first-occurrence order,
  app/sequence_generator/generator.py:328) while the candidate frames come
  from `np.unique` (ascending order, app/sequence_generator/generator.py:168
  and :235), so counts can be paired with the wrong bucket. The model
  reproduces this pairing; `SequenceEngine.TallyOfTestLengths` and
  `SequenceEngine.UniqueOfTestLengths` show the two orders on the test
  lengths.
- A validated `fx_input` holds only digit characters, so the `'None'` "no
  effect" branch at app/post_fx/post_fx.py:174 can never be taken
  (`PostFx.ValidatedChannelFx`).

## Model

| member | source | states |
|---|---|---|
| SequenceConfig.GenerateEuclideanRhythm | app/sequence_generator/generator.py:82-100 | for every n and k the rhythm has k entries, all 0 or 1, with exactly n ones (n clamped to 0..k), and starts with an onset when n and k are positive; with no onsets it stops with k rests (corrected loop, see Findings) |
| SequenceConfig.EuclidPass | app/sequence_generator/generator.py:91-96 | one pass of the loop as written breaks exactly when k - n <= 1, and otherwise leaves the new (n, k) either kept or swapped with n <= k |
| SequenceConfig.NoOnsetsNeverStop | app/sequence_generator/generator.py:91-99 | as written, with n <= 0 and k - n > 1 no number of passes ever breaks and n never changes, so no bucket is merged; with n = 0 a pass leaves (n, k) as it was |
| SequenceConfig.InitialPatternCounts | app/sequence_generator/generator.py:90 | the initial buckets hold min(n, k) ones and the rest zeros |
| SequenceConfig.MergeLastBuckets | app/sequence_generator/generator.py:97-99 | the inner loop removes exactly n buckets, keeps the multiset of the flattened rhythm, and leaves the first bucket's first step in place |
| SequenceConfig.MoveLastBucket | app/sequence_generator/generator.py:97-99 | appending the last bucket to bucket i and deleting it keeps the multiset of the flattened rhythm |
| SequenceConfig.OnsetsFacts | app/sequence_generator/generator.py:150 | the onset list holds exactly the indices of the ones, strictly increasing |
| SequenceConfig.CalculateAudioFramesLength | app/sequence_generator/generator.py:142-158 | one frame length per onset: the distance to the next onset (or to the end) times the pulse length |
| SequenceConfig.GapsPositive | app/sequence_generator/generator.py:150-157 | every onset's gap is at least one step |
| SequenceConfig.GapsSum | app/sequence_generator/generator.py:150-157 | the gaps add up to the pattern length minus the first onset's index |
| SequenceConfig.GapsFillPattern | app/sequence_generator/generator.py:150-157 | for a rhythm starting with an onset the gaps add up to the pattern length |
| SequenceConfig.PulseLength | app/sequence_generator/generator.py:136-137 | the pulse length is 44100 * (60 / bpm * 4) / k, non-zero, and positive for positive bpm and k |
| SequenceConfig.PulsesMakeOneBar | app/sequence_generator/generator.py:136-137 | k pulses make exactly one bar of samples |
| SequenceConfig.FramesFillOneBar | app/sequence_generator/generator.py:136-157 | the frame lengths of a rhythm starting with an onset add up to one bar of samples |
| SequenceConfig.ScaledStepsFillBar | app/sequence_generator/generator.py:136-157 | any step counts adding up to k, scaled by the pulse length, add up to one bar |
| SequenceConfig.GridBounds | app/sequence_generator/generator.py:136-139 | 0 <= grid <= len(audio); the grid is the whole audio iff at most one pulse fits, and otherwise grid + pulse <= len(audio) < grid + 2 * pulse |
| SequenceConfig.SortedUnique | app/sequence_generator/generator.py:168 | np.unique: strictly increasing and holding exactly the input's values |
| SequenceConfig.RepCountBounds | app/sequence_generator/generator.py:172-176 | the repetition count is at least 1 for a positive grid, 1 below one frame length, and reps * L <= grid < (reps + 1) * L otherwise |
| SequenceConfig.RepCounts | app/sequence_generator/generator.py:172-177 | one repetition count per distinct frame length, in ascending order of length, each the count of that length in the grid |
| SequenceConfig.CalculateAudioFramesReps | app/sequence_generator/generator.py:160-179 | the loop computes exactly the counts RepCounts states, for every grid and every list of non-zero lengths |
| SequenceConfig.OctaveNotes | app/sequence_generator/generator.py:114-115 | the note list is the notes an octave down followed by the notes: twice as long, each first-half entry 12 below its partner |
| SequenceConfig.OctaveNotesExample | app/sequence_generator/generator.py:114-115 | [0, 4, 7] becomes [-12, -8, -5, 0, 4, 7] |
| FrameSlicer.Arange | app/sequence_generator/generator.py:208 | np.arange(0, stop, step): ceil(stop / step) entries j * step, all below the stop for a positive step |
| FrameSlicer.AudioFrameSequenceList | app/sequence_generator/generator.py:195-209 | one offset list per distinct length, zipped with the repetition counts |
| FrameSlicer.SingleRepOffsets | app/sequence_generator/generator.py:207-208 | one repetition always yields exactly the offset 0 |
| FrameSlicer.NoRepOffsets | app/sequence_generator/generator.py:207-208 | zero repetitions yield no offsets |
| FrameSlicer.MultiRepOffsets | app/sequence_generator/generator.py:207-208 | with two or more repetitions the offsets are j * int(L), strictly below L * (reps - 1), and reach its truncation |
| FrameSlicer.OffsetsOfTestLengths | tests/test_generator.py:119-133 | the frame lengths 5512.5 and 11025.0 at their repetition counts give exactly the 22 and 10 offsets the test expects |
| FrameSlicer.PlannedFramesFit | app/sequence_generator/generator.py:195-209 | every planned offset f has f + int(L) within the padded audio |
| FrameSlicer.Padded | app/sequence_generator/generator.py:221-222 | padding keeps the audio as a prefix, adds zeros only, and reaches length max(len, int(L)) |
| FrameSlicer.PaddedTwice | app/sequence_generator/generator.py:221-222 | padding to a shorter length and then to a longer one equals padding to the longer one |
| FrameSlicer.Frames | app/sequence_generator/generator.py:224-225 | one frame per offset, each the slice audio[f : f + int(L)] |
| FrameSlicer.FrameExactLength | app/sequence_generator/generator.py:224-225 | a slice whose end lies within the audio has exactly int(L) samples |
| FrameSlicer.FramesOfTestAudio | tests/test_generator.py:135-139 | `frames_list([0, 44100], 44100)` on three seconds of audio gives two frames of exactly 44100 samples each |
| FrameSlicer.AudioFrameSlicer.FramesList | app/sequence_generator/generator.py:211-226 | the stored audio becomes its padding to int(L) and the frames are the slices of the padded audio |
| FrameSlicer.AudioFrameSlicer.GetAudioFrames | app/sequence_generator/generator.py:228-236 | the banks are FrameBanks of the original audio: one per distinct length, each sliced from the audio padded to that length; the stored audio ends padded to the last length |
| FrameSlicer.FrameBanksExact | app/sequence_generator/generator.py:195-236 | when the repetition counts come from a grid no longer than the audio, every frame of bank b has exactly int(L) samples for its length L |
| SequenceEngine.OneBarSamples | app/sequence_generator/generator.py:266-267 | one bar is round(44100 * 60 / bpm * 4) samples, rounding half to even |
| SequenceEngine.OneBarSamplesExamples | app/sequence_generator/generator.py:266-267 | 120, 100 and 90 bpm give 88200, 105840 and 117600 samples |
| SequenceEngine.FitToLength | app/sequence_generator/generator.py:273-279 | the result has the target length, keeps the input as a prefix and adds only zeros, or cuts it to its first target samples |
| SequenceEngine.FitToLengthIdempotent | app/sequence_generator/generator.py:273-279 | fitting twice is fitting once |
| SequenceEngine.ValidateSequence | app/sequence_generator/generator.py:257-280 | empty input fails; otherwise exactly one bar of samples: the flattened input as prefix and a zero tail |
| SequenceEngine.ValidateSequenceIdempotent | app/sequence_generator/generator.py:266-279 | validating a validated sequence returns it unchanged |
| SequenceEngine.ValidateSequenceAsWritten | app/sequence_generator/generator.py:269-279 | as written: plain and nested lists are handled as the corrected version does; a list of numpy frames is not flattened |
| SequenceEngine.AsWrittenArraysLength | app/sequence_generator/generator.py:275-277 | as written, m frames of w samples (m below one bar) come out m * w + target - m samples long |
| SequenceEngine.AsWrittenQuarterBars | app/sequence_generator/generator.py:269-277 | four quarter-bar frames at 100 bpm come out 211676 samples long as written, while the corrected version returns exactly the frames |
| SequenceEngine.ApplyPitchShift | app/sequence_generator/generator.py:302-317 | temperature 0 and temperature >= 100 pass the frames through; an open gate shifts frame i by note i over the zipped length |
| SequenceEngine.TallyFacts | app/sequence_generator/generator.py:328 | Counter: keys in first-occurrence order, distinct, each count the number of occurrences, adding up to the number of lengths |
| SequenceEngine.TallyOfTestLengths | tests/test_generator.py:253 | the test lengths tally to [(11025, 2), (5512, 4)] while np.unique orders them [5512.5, 11025.0] |
| SequenceEngine.UniqueOfTestLengths | app/sequence_generator/generator.py:168 | np.unique of the test lengths is [5512.5, 11025.0] |
| SequenceEngine.Choices | app/sequence_generator/generator.py:331 | random.choices fails exactly on an empty population with k > 0 and otherwise draws k members |
| PySeq.FlattenLength | app/sequence_generator/generator.py:282-290 | the flattened list is as long as all the sublists together |
| PySeq.FlattenConcat | app/sequence_generator/generator.py:282-290 | flattening distributes over concatenation of the lists of lists |
| PySeq.FlattenMembership | app/sequence_generator/generator.py:282-290 | an element is in the flattened list exactly when it is in one of the sublists |
| SequenceEngine.ChoicesFromPopulation | app/sequence_generator/generator.py:331 | every chosen element is a member of the population |
| SequenceEngine.SelectFrames | app/sequence_generator/generator.py:330-333 | fails exactly when some count needs a missing or empty bank; otherwise one group per count, as many frames in total as the counts add up to, each from its bank |
| SequenceEngine.SelectionCounts | app/sequence_generator/generator.py:328 | the Counter values over the truncated lengths add up to the number of frame lengths |
| SequenceEngine.SelectedFrames | app/sequence_generator/generator.py:330-335 | fails exactly when a count meets no bucket or an empty one; otherwise one frame per frame length |
| SequenceEngine.NoteDraw | app/sequence_generator/generator.py:337-338 | each drawn note is a note of the octave-doubled scale |
| SequenceEngine.DrawNotes | app/sequence_generator/generator.py:337-338 | fails exactly when frames need notes from an empty scale; otherwise n notes, note i taken by draw n + i |
| SequenceEngine.ShiftedFrames | app/sequence_generator/generator.py:337-342 | fails exactly when frames need notes from an empty scale; with the gate closed the frames come back exactly as given, with it open frame i is shifted by its own drawn note |
| SequenceEngine.GenerateAudioSequence | app/sequence_generator/generator.py:319-345 | MissingFrames exactly when a count meets no bucket or an empty one, NoNotes exactly when frames were selected from an empty scale, EmptySequence exactly when there are no frame lengths; otherwise the frames are the selected frames through ShiftedFrames, one per frame length, and the validated result is their one-bar normalisation (corrected flattening, see Findings) |
| SequenceEngine.SelectedFramesHavePlannedLengths | app/sequence_generator/generator.py:325-335 | with the banks get_audio_frames slices for the same frame lengths from a grid within the audio, every selected frame has exactly int(L) samples for one of the frame lengths L |
| SequenceEngine.UnshiftedFramesAreCandidates | app/sequence_generator/generator.py:312-317 | with the gate closed every output frame is one of the sliced candidate frames |
| Utils.ValidateJobType | app/utils/utils.py:12-44 | accepts exactly the six job type literals, each to its own type |
| Utils.InvalidJobTypeExample | app/utils/utils.py:33-43 | "invalid_job_type" is refused |
| Utils.ValidateIndex | app/utils/utils.py:47-54 | accepts exactly the indices 0..5 |
| Utils.SegmentId | app/utils/utils.py:108 | fails exactly when the job id holds no '/'; the value never holds '/' |
| Utils.SegmentIdOfJobId | app/utils/utils.py:108 | for a job id a/b or a/b/... the value is b, the second '/'-segment, with every ".json" removed |
| Utils.PathResolver | app/utils/utils.py:98-165 | fails exactly when the job id has no '/'; cloud_path is the job id and the sanitized id is its segment |
| Utils.LocalPathBasename | app/utils/utils.py:108-109 | local_path is temp/<id>.json, a direct child of temp named after the sanitized id |
| Utils.ProcessedPklFromMp3 | app/utils/utils.py:111-121 | replacing ".mp3" by ".pkl" in the processed mp3 paths gives the pkl paths when the id holds no ".mp3" |
| Utils.LocalMixdownPathShapes | app/utils/utils.py:123-142 | every local mixdown path starts with temp/mixdown_<rid>_<id> and ends with its channel or master suffix |
| Utils.CloudMixdownPathShapes | app/utils/utils.py:123-142 | every cloud mixdown path starts with mixdown/mixdown_<rid>_<id> and ends with its channel or master suffix |
| Utils.PreMixdownPathShapes | app/utils/utils.py:126-127 | the pre-mixdown paths start with temp/pre_mixdown_<rid>_<id> and end with a double underscore before the channel |
| Utils.SegmentOfJobFile | app/utils/utils.py:108 | job_ids/<stem>.json has the stem as its segment |
| Utils.GetJobParams | app/utils/utils.py:189-214 | an index outside 0..5 fails; otherwise per-channel entries at the index and bpm, scale and key at index 0, failing on any missing entry |
| Utils.ChannelParamsIndependent | app/utils/utils.py:200-212 | a channel's parameters depend only on that channel's entries and the global values |
| Utils.SanitizeJobFileName | app/utils/utils.py:243 | job_ids/<stem>.json sanitizes to the stem |
| Utils.SanitizeJobIdExample | tests/test_utils.py:58-61 | job_ids/test.json sanitizes to test |
| Utils.SanitizersAgree | app/utils/utils.py:358 | sanitize_job_id and the path table's sanitized id agree on job file names |
| PostFx.ValidateJobId | app/post_fx/post_fx.py:48-52 | accepted iff the value contains "job_ids" |
| PostFx.DigitChars | app/post_fx/post_fx.py:56 | only digits are kept, each digit as often as in the input |
| PostFx.ValidateFxInput | app/post_fx/post_fx.py:54-59 | accepted iff exactly six digits remain, giving those digits |
| PostFx.FiveDigitFxInputRefused | app/post_fx/post_fx.py:54-59 | five digits with separators and a letter are refused |
| PostFx.FixtureFxInputRefused | tests/test_post_fx.py:19-30 | the fixture value 0_1_2_3_4_F is refused |
| PostFx.ValidateChannelIndex | app/post_fx/post_fx.py:61-66 | accepted iff the text parses as an integer within 0..5 |
| PostFx.ParseInts | app/post_fx/post_fx.py:71 | fails iff some part is not an integer; otherwise one integer per part |
| PostFx.ValidateVol | app/post_fx/post_fx.py:68-74 | accepted iff every '_'-part is an integer and none exceeds 100 |
| PostFx.VolRoundTrip | app/post_fx/post_fx.py:68-74 | '_'-joined integers validate back to themselves iff none exceeds 100 |
| PostFx.ValidateChannelMuteParams | app/post_fx/post_fx.py:76-81 | refused iff the part count is not 6 and no part is "T" |
| PostFx.LoneTPasses | app/post_fx/post_fx.py:79 | a lone "T" passes although it is one part, not six |
| PostFx.AllOffWrongCountRefused | app/post_fx/post_fx.py:79 | any non-empty list of "F" parts other than six of them, joined with '_', is refused |
| PostFx.ValidateSwitch | app/post_fx/post_fx.py:84-88 | accepted iff "T" or "F" |
| PostFx.ValidateMutismValue | app/post_fx/post_fx.py:90-95 | accepted iff within [0, 1] |
| PostFx.FailingFields | app/post_fx/post_fx.py:39-95 | a field is reported iff its validator refuses it |
| PostFx.ValidateFxParams | app/post_fx/post_fx.py:39-95 | fails iff some field fails, reporting all failing fields; a valid request has six digits, an index within 0..5, volumes at most 100 and a mutism value in [0, 1], and its fields are what the validators make of the raw ones: the job id, switch and mutism value unchanged, the digits of fx_input, the parsed index, the parsed '_'-parts of vol and the '_'-parts of channel_mute_params |
| PostFx.PercToPulseMapper | app/post_fx/post_fx.py:102-113 | value 0 leaves the frames unchanged; otherwise exactly the sampled frames become zeros of their own length in place |
| PostFx.MutedFacts | app/post_fx/post_fx.py:107-112 | frames not chosen are untouched, chosen frames are all zero, and as many frames are muted as indices were sampled |
| PostFx.MuteThirtyPercentOfThree | tests/test_post_fx.py:81-92 | 30% of three frames mutes ceil(0.9) = 1 frame, the count the test expects |
| PostFx.MappingAt | app/post_fx/post_fx.py:179 | fx_mapping indexing with Python's negative indices; out of range fails |
| PostFx.ResolveFx | app/post_fx/post_fx.py:174-183 | the corrected effect resolution (name check by keyword): "None" gives no effect; any effect returned is in the admitted set |
| PostFx.ResolveFxAsWritten | app/post_fx/post_fx.py:174-183 | as written only "None" succeeds, with no effect; every entry the name check would admit raises the TypeError of the positional `FxPedalBoardConfig(fx)` |
| PostFx.AsWrittenNeverApplies | app/post_fx/post_fx.py:179-181 | as written no entry yields an effect: "0", which the corrected resolution maps to Bitcrush, raises the TypeError |
| PostFx.ResolveFxDigit | app/post_fx/post_fx.py:169-181 | under the corrected resolution, digits 0..5 select the admitted effects in mapping order, 6 (Distortion) is always refused, 7..9 are out of range |
| PostFx.AllowedIsMappingPrefix | app/post_fx/post_fx.py:156 | the admitted effects are the mapping without its last entry, Distortion |
| PostFx.ChannelFx | app/post_fx/post_fx.py:172-179 | the channel's entry of fx_input is resolved; an index outside the list fails |
| PostFx.ValidatedChannelFx | app/post_fx/post_fx.py:174-181 | on validated input the no-effect branch is never taken; under the corrected resolution the result is an effect iff the digit is 0..5 |
| Storage.AnyIdIn | app/storage/storage.py:250 | true iff some id occurs in the name |
| Storage.FilterFiles | app/storage/storage.py:246-252 | the result is the order-preserving filter of the listing |
| Storage.FilteredMembership | app/storage/storage.py:248-251 | a name is kept iff it is listed, ends with the suffix and holds some id |
| Storage.FilteredCount | app/storage/storage.py:246-252 | a kept name appears as often as in the listing; others never |
| Storage.FilteredConcat | app/storage/storage.py:246-252 | filtering distributes over concatenation, so relative order is kept |
| Storage.FilteredIdempotent | app/storage/storage.py:246-252 | filtering twice is filtering once |
| Storage.FilteredEmpty | app/storage/storage.py:247-252 | no ids or no names keep nothing |
| Storage.ResolveType | app/storage/storage.py:50-89 | a job id without '/' fails first, then an unknown type; asset_path gives the channel's cloud and local paths or their failure; the five path types always succeed |
| Storage.ResolveKnown | app/storage/storage.py:50-82 | for a job id holding '/', each of the five named path types, given by its own name, resolves to its fixed pair of paths from the path table |
| Storage.JobFilePairKeepsName | app/storage/storage.py:55-58 | job_ids/<stem>.json is moved to temp/<stem>.json under the same name |
| Storage.ProcessedPairNames | app/storage/storage.py:59-64 | the processed pair is sequences/<name> and temp/sequences_<name> |
| Storage.MixdownMp3KeepsName | app/storage/storage.py:65-70 | the mp3 mixdown pair lies under temp/ and mixdown/ with one basename |
| Storage.MixdownMasterKeepsName | app/storage/storage.py:71-76 | the wav master pair lies under temp/ and mixdown/ with one basename |
| Storage.MixdownPklKeepsName | app/storage/storage.py:77-82 | the pkl mixdown pair lies under temp/ and mixdown/ with one basename |
| Storage.UploadKeysKeepNames | app/storage/storage.py:140-144 | one key per file, each under the bucket path with the file's basename |
| Storage.UploadKeyOfFile | tests/test_storage.py:169-189 | dir/<name> uploaded under a bucket path is stored as <bucket path>/<name> |
| Storage.UploadListOfObjects | app/storage/storage.py:139-162 | the keys are the upload keys and the status holds iff the client started and every upload succeeded |
| Storage.CopyObjects | app/storage/storage.py:194-198 | the copy goes to the destination key of the same bucket, and its source splits at the first '/' into the bucket and the source key |
| Storage.CopyObjectsExample | tests/test_storage.py:248-255 | the test's copy request has CopySource bucket-test/source_key |

## Left out

- Audio I/O and DSP are not modelled: `librosa.load`, the pitch shift itself (a parameter here), `AudioEngine` export and pickling, pedalboard effects and the ffmpeg commands. They are foreign calls over floating-point audio.
- Floating point is modelled as exact reals. `int()`, `math.floor`, `math.ceil` and `round` are modelled exactly on those reals, so rounding error in `60 / bpm * 4` and in the pulse length is not captured.
- The pandas notes table lookup is not modelled; `SequenceConfig.OctaveNotes` starts from the parsed note integers.
- `generate_audio_sequence_auto` is not modelled: it samples without replacement through numpy and the job flow does not use it.
- `VolEngine`, the mixer's averaging and the int16 conversion are not modelled; they are float sample arithmetic.
- The pseudo-JSON `undefined` rewrite, the file reads behind `get_job_params` and the file deletion and glob helpers of utils.py are not modelled. `Utils.GetJobParams` takes the already parsed document.
- `apply_selective_mutism` loads a pickle and then calls the mapper; only the mapper is modelled.
- boto3 clients, buckets and transfers are not modelled. `Storage.UploadListOfObjects` takes the outcome of the client start and of each upload as parameters.
- PostFx.ValidateMutismValue: the `float()` parse is not modelled; the validator receives the parsed value.
- PostFx.ValidateFxInput: only ASCII digits count as digits; `str.isdigit` also accepts other Unicode digits.
- PostFx.ParseInts: Python's `int()` also accepts surrounding whitespace, underscores between digits and non-ASCII digits; the model accepts an optional sign followed by ASCII digits. The same holds for PostFx.ValidateChannelIndex.
- PostFx.ResolveFx, PostFx.ResolveFxDigit, PostFx.ValidatedChannelFx, PostFx.ChannelFx: these use the corrected resolution. As written, app/post_fx/post_fx.py:181 passes the effect name positionally to the pydantic model `FxPedalBoardConfig`, which raises a TypeError for every entry other than 'None', so `apply_pedalboard_fx` never applies an effect (`PostFx.ResolveFxAsWritten`, Findings). The `getattr` on the model object at :183 is not modelled either.
- PostFx.PercToPulseMapper: `random.sample` is the given `chosen` list; the model does not capture which indices are sampled.
- SequenceEngine.ValidateSequenceAsWritten: a ragged list of numpy frames that np.append cannot combine is modelled as a failure (`None`); numpy's behaviour there depends on its version.
- SequenceConfig.GenerateEuclideanRhythm: it is the corrected loop, which also stops when there are no onsets. As written, n <= 0 with k - n > 1 never terminates (Findings); there the model returns k rests.
- SequenceEngine.GenerateAudioSequence: it composes the corrected `SequenceEngine.ValidateSequence`, which flattens the numpy frames first. As written, app/sequence_generator/generator.py:343 hands the frame list to `validate_sequence`, which does not flatten it (Findings), so the one-bar result is the intended one, not the source's.
- Several `requires` stand for crashes of the source, which raises instead of returning: `bpm != 0` (ZeroDivisionError at app/sequence_generator/generator.py:136 and :266; SequenceConfig.OneBar, SequenceConfig.PulseLength, SequenceConfig.ValidateGrid, SequenceEngine.OneBarSamples, SequenceEngine.ValidateSequence, SequenceEngine.GenerateAudioSequence), `k != 0` (ZeroDivisionError at :137; SequenceConfig.PulseLength, SequenceConfig.ValidateGrid), `int(L) != 0` (the zero step np.arange refuses at :208; FrameSlicer.Offsets, FrameSlicer.AudioFrameSequenceList, FrameSlicer.FrameBanks, FrameSlicer.AudioFrameSlicer.GetAudioFrames) and `L != 0` (SequenceConfig.RepCount, SequenceConfig.RepCounts, SequenceConfig.CalculateAudioFramesReps): the divisor at :172 is an element of `np.unique`, a numpy float, so a zero length gives inf or nan with a RuntimeWarning rather than a ZeroDivisionError, and the crash is the OverflowError or ValueError of `math.floor` at :176; the lengths the planner produces are a positive gap times the pulse length, which is never zero, so this case does not arise from :157.
- bpm is a real number, as `60 / bpm * 4` takes it; a bpm stored in the job document as a string or another JSON type is not modelled.

## Findings

| source | as written | input that shows it | evidently intended | confidence | as-written member | corrected member |
|---|---|---|---|---|---|---|
| app/sequence_generator/generator.py:269-277 | a list of numpy frames, which generate_audio_sequence, the mixer (app/mixer/mixer.py:44) and VolEngine pass in, is not flattened: `isinstance(new_sequence[0], list)` is false, so its length is taken as the number of frames and np.append then pads a flattened copy by (target - frames) zeros | four frames of 26460 samples at 100 bpm: the result has 211676 samples instead of one bar of 105840 | flatten the frames first, so the result is exactly one bar | medium, not executed | SequenceEngine.AsWrittenQuarterBars | SequenceEngine.ValidateSequence |
| app/post_fx/post_fx.py:181 | `FxPedalBoardConfig(fx)` passes the effect name positionally to a pydantic model, which accepts its fields by keyword only and raises a TypeError | fx_input entry "0": the name check admits Bitcrush, but the constructor call raises before any effect is applied | validate the name as `FxPedalBoardConfig(audio_fx=fx)` and look up `getattr(pedalboard, validated_fx.audio_fx)` | high, not executed | PostFx.AsWrittenNeverApplies | PostFx.ResolveFx |
| app/sequence_generator/generator.py:91-99 | with no onsets the while loop never breaks: `k - n` stays k (or grows for n < 0), so `k <= 1` never holds, and `range(n)` is empty, so nothing changes | n = 0, k = 8: every pass leaves n = 0, k = 8 and the buckets as they were, and the job hangs | stop when there are no onsets to distribute, giving k rests | medium, not executed | SequenceConfig.NoOnsetsNeverStop | SequenceConfig.GenerateEuclideanRhythm |
