/** The sequence engine of one channel (SequenceEngine): it draws frames from
    the sliced candidates, one per onset, draws a note offset per frame,
    pitch-shifts the frames when the temperature gate opens and normalises
    the result to exactly one bar of samples. */
module SequenceEngine {
  import opened Results
  import opened PyNum
  import opened PySeq
  import opened SequenceConfig
  import FrameSlicer

  // ---------------------------------------------------------------------
  // One-bar length normalisation (validate_sequence)
  // ---------------------------------------------------------------------

  /** What validate_sequence is handed: a flat list of samples, a list of
      Python lists of samples, or a list of numpy frames. The code tells them
      apart by `isinstance(new_sequence[0], list)`, which holds only for Lists. */
  datatype Sequence = Samples(samples: seq<real>) | Lists(lists: seq<seq<real>>) | Arrays(frames: seq<seq<real>>)

  predicate IsEmpty(s: Sequence)
  {
    match s
    case Samples(x) => x == []
    case Lists(x) => x == []
    case Arrays(x) => x == []
  }

  /** round(44100 * (60 / bpm * 4)): the number of samples in one bar. */
  function OneBarSamples(bpm: real): (n: int)
    requires bpm != 0.0
    ensures bpm > 0.0 ==> n >= 0
    ensures n as real - 0.5 <= SampleRate as real * OneBar(bpm) <= n as real + 0.5
  {
    RoundHalfEven(SampleRate as real * OneBar(bpm))
  }

  lemma OneBarSamplesExamples()
    ensures OneBarSamples(120.0) == 88200
    ensures OneBarSamples(100.0) == 105840
    ensures OneBarSamples(90.0) == 117600
  {
    assert OneBar(120.0) == 2.0;
    assert OneBar(100.0) == 2.4;
    assert SampleRate as real * OneBar(90.0) == 117600.0;
  }

  /** Zero-pad up to `target` samples, or keep only the first `target`. */
  function FitToLength(s: seq<real>, target: int): (r: seq<real>)
    ensures target >= 0 ==> |r| == target
    ensures |s| < target ==> r[..|s|] == s && forall i :: |s| <= i < |r| ==> r[i] == 0.0
    ensures 0 <= target <= |s| ==> r == s[..target]
    ensures target < 0 ==> r == Prefix(s, target)
  {
    if |s| < target then s + Zeros(target - |s|) else Prefix(s, target)
  }

  /** Normalising a normalised sequence changes nothing. */
  lemma FitToLengthIdempotent(s: seq<real>, target: int)
    requires target >= 0
    ensures FitToLength(FitToLength(s, target), target) == FitToLength(s, target)
  {
    var r := FitToLength(s, target);
    assert r[..target] == r;
  }

  /** The samples of a sequence once its frames are flattened. */
  function Unpacked(s: Sequence): seq<real>
  {
    match s
    case Samples(x) => x
    case Lists(x) => Flatten(x)
    case Arrays(x) => Flatten(x)
  }

  /** validate_sequence with every kind of frame list flattened: the length
      the code evidently intends for the lists of numpy frames it is given. An
      empty input fails at `new_sequence[0]`. */
  function ValidateSequence(bpm: real, s: Sequence): (r: Option<seq<real>>)
    requires bpm != 0.0
    ensures r.None? <==> IsEmpty(s)
    ensures r.Some? && bpm > 0.0 ==> |r.value| == OneBarSamples(bpm)
    ensures r.Some? ==> var u := Unpacked(s);
      var n := Min(|u|, |r.value|);
      r.value[..n] == u[..n] && forall i :: |u| <= i < |r.value| ==> r.value[i] == 0.0
  {
    if IsEmpty(s) then None else Some(FitToLength(Unpacked(s), OneBarSamples(bpm)))
  }

  /** A sequence that is already one bar long comes back unchanged. */
  lemma ValidateSequenceIdempotent(bpm: real, s: Sequence)
    requires bpm > 0.0 && ValidateSequence(bpm, s).Some?
    ensures var r := ValidateSequence(bpm, s).value;
      r != [] ==> ValidateSequence(bpm, Samples(r)) == Some(r)
  {
    FitToLengthIdempotent(Unpacked(s), OneBarSamples(bpm));
  }

  /** Frames all of one length. */
  predicate Uniform(frames: seq<seq<real>>)
  {
    forall i :: 0 <= i < |frames| ==> |frames[i]| == |frames[0]|
  }

  /** validate_sequence as written. A list of numpy frames is not flattened:
      its length is the number of frames, and np.append then flattens the
      frames and appends (target - frame count) zeros. Frames of different
      lengths make np.append fail (None); a list that is long enough is
      cut to its first `target` frames and stays a list of frames. */
  function ValidateSequenceAsWritten(bpm: real, s: Sequence): (r: Option<Sequence>)
    requires bpm != 0.0
    ensures r.None? <==> IsEmpty(s) || (s.Arrays? && |s.frames| < OneBarSamples(bpm) && !Uniform(s.frames))
    ensures r.Some? && !s.Arrays? ==> r == Some(Samples(ValidateSequence(bpm, s).value))
  {
    var target := OneBarSamples(bpm);
    if IsEmpty(s) then None
    else match s
      case Samples(x) => Some(Samples(FitToLength(x, target)))
      case Lists(x) => Some(Samples(FitToLength(Flatten(x), target)))
      case Arrays(x) =>
        if |x| < target then
          if Uniform(x) then Some(Samples(Flatten(x) + Zeros(target - |x|))) else None
        else Some(Arrays(Prefix(x, target)))
  }

  lemma {:induction false} UniformTotalLength(frames: seq<seq<real>>, w: nat)
    requires forall i :: 0 <= i < |frames| ==> |frames[i]| == w
    ensures |Flatten(frames)| == |frames| * w
  {
    if frames != [] {
      UniformTotalLength(frames[1..], w);
    }
  }

  /** As written, m numpy frames of w samples each (fewer frames than one bar
      has samples) come out m * w + target - m samples long. */
  lemma AsWrittenArraysLength(bpm: real, frames: seq<seq<real>>, w: nat)
    requires bpm != 0.0 && frames != [] && |frames| < OneBarSamples(bpm)
    requires forall i :: 0 <= i < |frames| ==> |frames[i]| == w
    ensures var r := ValidateSequenceAsWritten(bpm, Arrays(frames));
      r.Some? && r.value.Samples? &&
      |r.value.samples| == |frames| * w + OneBarSamples(bpm) - |frames|
  {
    UniformTotalLength(frames, w);
  }

  /** Four frames of a quarter bar each at 100 bpm already fill the bar, yet
      as written the result is 211676 samples instead of 105840; flattening
      first returns exactly the frames. */
  lemma AsWrittenQuarterBars(frames: seq<seq<real>>)
    requires |frames| == 4 && forall i :: 0 <= i < 4 ==> |frames[i]| == 26460
    ensures var r := ValidateSequenceAsWritten(100.0, Arrays(frames));
      r.Some? && r.value.Samples? && |r.value.samples| == 211676 && |r.value.samples| != OneBarSamples(100.0)
    ensures ValidateSequence(100.0, Arrays(frames)) == Some(Flatten(frames))
  {
    OneBarSamplesExamples();
    AsWrittenArraysLength(100.0, frames, 26460);
    UniformTotalLength(frames, 26460);
    assert Flatten(frames)[..105840] == Flatten(frames);
  }

  // ---------------------------------------------------------------------
  // Pitch gate (__apply_pitch_shift)
  // ---------------------------------------------------------------------

  /** `pitch_temperature and random.random() > pitch_temperature / 100`; the
      draw is taken only when the temperature is non-zero. */
  predicate ShiftGate(temperature: real, draw: real)
  {
    temperature != 0.0 && draw > temperature / 100.0
  }

  /** __apply_pitch_shift: when the gate opens every frame is shifted by its
      note (librosa's pitch shift is the parameter `shift`); otherwise the
      frames pass through. */
  function ApplyPitchShift(frames: seq<seq<real>>, notes: seq<int>, temperature: real, draw: real,
                           shift: (seq<real>, int) -> seq<real>): (r: seq<seq<real>>)
    ensures temperature == 0.0 ==> r == frames
    ensures 0.0 <= draw < 1.0 && temperature >= 100.0 ==> r == frames
    ensures ShiftGate(temperature, draw) ==>
      |r| == Min(|frames|, |notes|) && forall i :: 0 <= i < |r| ==> r[i] == shift(frames[i], notes[i])
    ensures !ShiftGate(temperature, draw) ==> r == frames
  {
    if ShiftGate(temperature, draw) then
      seq(Min(|frames|, |notes|), i requires 0 <= i < Min(|frames|, |notes|) => shift(frames[i], notes[i]))
    else frames
  }

  // ---------------------------------------------------------------------
  // Selection counts (Counter) and random.choices
  // ---------------------------------------------------------------------

  /** The distinct values of xs in order of first appearance. */
  function FirstOccurrences(xs: seq<int>): (r: seq<int>)
    ensures forall x :: x in r <==> x in xs
  {
    if xs == [] then []
    else
      var init := xs[..|xs| - 1];
      var last := xs[|xs| - 1];
      assert xs == init + [last];
      FirstOccurrences(init) + (if last in init then [] else [last])
  }

  function Keys(t: seq<(int, nat)>): (r: seq<int>)
    ensures |r| == |t| && forall i :: 0 <= i < |t| ==> r[i] == t[i].0
  {
    seq(|t|, i requires 0 <= i < |t| => t[i].0)
  }

  function Values(t: seq<(int, nat)>): (r: seq<nat>)
    ensures |r| == |t| && forall i :: 0 <= i < |t| ==> r[i] == t[i].1
  {
    seq(|t|, i requires 0 <= i < |t| => t[i].1)
  }

  /** One more occurrence of x: its count goes up, or it is appended with count 1. */
  function Bump(t: seq<(int, nat)>, x: int): (r: seq<(int, nat)>)
  {
    if x in Keys(t) then
      var i := IndexOf(Keys(t), x);
      t[i := (x, t[i].1 + 1)]
    else t + [(x, 1)]
  }

  /** Counter(xs): every distinct value with its count, in first-appearance order. */
  function Tally(xs: seq<int>): seq<(int, nat)>
  {
    if xs == [] then [] else Bump(Tally(xs[..|xs| - 1]), xs[|xs| - 1])
  }

  lemma {:induction false} SumBump(s: seq<nat>, i: nat)
    requires i < |s|
    ensures Sum(s[i := s[i] + 1]) == Sum(s) + 1
  {
    if i > 0 {
      assert s[i := s[i] + 1][1..] == s[1..][i - 1 := s[i] + 1];
      SumBump(s[1..], i - 1);
    }
  }

  lemma BumpFacts(t: seq<(int, nat)>, x: int)
    requires Distinct(Keys(t))
    ensures var r := Bump(t, x);
      Keys(r) == (if x in Keys(t) then Keys(t) else Keys(t) + [x]) &&
      Distinct(Keys(r)) &&
      (forall i :: 0 <= i < |t| ==> r[i].1 == t[i].1 + (if t[i].0 == x then 1 else 0)) &&
      (x !in Keys(t) ==> r[|t|] == (x, 1)) &&
      Sum(Values(r)) == Sum(Values(t)) + 1
  {
    var r := Bump(t, x);
    if x in Keys(t) {
      var i := IndexOf(Keys(t), x);
      assert Values(r) == Values(t)[i := Values(t)[i] + 1];
      SumBump(Values(t), i);
    } else {
      assert Values(r) == Values(t) + [1];
      SumAppend(Values(t), 1);
    }
  }

  /** t is Counter(xs): distinct keys in first-appearance order, each with its
      number of occurrences, the counts adding up to the input length. */
  ghost predicate IsTally(t: seq<(int, nat)>, xs: seq<int>)
  {
    Keys(t) == FirstOccurrences(xs) &&
    Distinct(Keys(t)) &&
    (forall i :: 0 <= i < |t| ==> t[i].1 == Count(xs, t[i].0)) &&
    Sum(Values(t)) == |xs|
  }

  /** Counting one more element keeps the table a tally. */
  lemma TallyStep(t: seq<(int, nat)>, init: seq<int>, last: int)
    requires IsTally(t, init)
    ensures IsTally(Bump(t, last), init + [last])
  {
    var xs := init + [last];
    assert xs[..|xs| - 1] == init;
    BumpFacts(t, last);
    var r := Bump(t, last);
    forall i | 0 <= i < |r|
      ensures r[i].1 == Count(xs, r[i].0)
    {
      CountAppend(init, last, r[i].0);
      if i == |t| {
        CountAbsent(init, last);
      }
    }
  }

  /** Counter's contents: distinct keys in first-appearance order, each with
      its number of occurrences, the counts adding up to the input length. */
  lemma {:induction false} TallyFacts(xs: seq<int>)
    ensures var t := Tally(xs);
      Keys(t) == FirstOccurrences(xs) &&
      Distinct(Keys(t)) &&
      (forall i :: 0 <= i < |t| ==> t[i].1 == Count(xs, t[i].0)) &&
      Sum(Values(t)) == |xs|
  {
    TallyIs(xs);
  }

  lemma {:induction false} TallyIs(xs: seq<int>)
    ensures IsTally(Tally(xs), xs)
  {
    if xs != [] {
      var init := xs[..|xs| - 1];
      var last := xs[|xs| - 1];
      TallyIs(init);
      TallyStep(Tally(init), init, last);
      assert init + [last] == xs;
    }
  }

  /** The counts of the test's frame lengths: 11025 first with two, then 5512
      with four, while the candidate buckets ascend (5512.5 before 11025). */
  lemma TallyOfTestLengths()
    ensures Tally([11025, 5512, 5512, 11025, 5512, 5512]) == [(11025, 2), (5512, 4)]
    ensures SortedUnique([11025.0, 5512.5, 5512.5, 11025.0, 5512.5, 5512.5]) == [5512.5, 11025.0]
  {
    var xs := [11025, 5512, 5512, 11025, 5512, 5512];
    TallyFacts(xs);
    FirstOccurrencesOfTestLengths();
    var t := Tally(xs);
    assert t[0].1 == Count(xs, 11025) == 2;
    assert t[1].1 == Count(xs, 5512) == 4;
    UniqueOfTestLengths();
  }

  lemma FirstOccurrencesOfTestLengths()
    ensures FirstOccurrences([11025, 5512, 5512, 11025, 5512, 5512]) == [11025, 5512]
  {
    var xs := [11025, 5512, 5512, 11025, 5512, 5512];
    assert xs[..1][..0] == [];
    assert FirstOccurrences(xs[..1]) == [11025];
    assert xs[..2][..1] == xs[..1];
    assert FirstOccurrences(xs[..2]) == [11025, 5512];
    assert xs[..3][..2] == xs[..2];
    assert FirstOccurrences(xs[..3]) == [11025, 5512];
    assert xs[..4][..3] == xs[..3];
    assert FirstOccurrences(xs[..4]) == [11025, 5512];
    assert xs[..5][..4] == xs[..4];
    assert FirstOccurrences(xs[..5]) == [11025, 5512];
    assert xs[..5] == xs[..|xs| - 1];
  }

  lemma UniqueOfTestLengths()
    ensures SortedUnique([11025.0, 5512.5, 5512.5, 11025.0, 5512.5, 5512.5]) == [5512.5, 11025.0]
  {
    var ls := [11025.0, 5512.5, 5512.5, 11025.0, 5512.5, 5512.5];
    assert ls[..1][..0] == [];
    assert SortedUnique(ls[..1]) == [11025.0];
    assert ls[..2][..1] == ls[..1];
    assert SortedUnique(ls[..2]) == [5512.5, 11025.0];
    assert ls[..3][..2] == ls[..2];
    assert SortedUnique(ls[..3]) == [5512.5, 11025.0];
    assert ls[..4][..3] == ls[..3];
    assert [5512.5, 11025.0][1..] == [11025.0];
    assert SortedUnique(ls[..4]) == [5512.5, 11025.0];
    assert ls[..5][..4] == ls[..4];
    assert SortedUnique(ls[..5]) == [5512.5, 11025.0];
    assert ls[..5] == ls[..|ls| - 1];
  }

  /** A stream of random.random() draws, each in [0, 1). */
  ghost predicate UnitDraws(rand: nat -> real)
  {
    forall i :: 0.0 <= rand(i) < 1.0
  }

  /** floor(random() * n): the index random.choices picks from n elements. */
  function PickIndex(u: real, n: nat): (i: nat)
    requires 0.0 <= u < 1.0 && n > 0
    ensures i < n
  {
    FloorUnitScaled(u, n);
    Floor(u * n as real)
  }

  /** random.choices(population, k=k) using the draws rand(start), ...,
      rand(start + k - 1). An empty population with k > 0 is an IndexError. */
  function Choices<T>(population: seq<T>, k: nat, rand: nat -> real, start: nat): (r: Option<seq<T>>)
    requires UnitDraws(rand)
    ensures r.None? <==> population == [] && k > 0
    ensures r.Some? ==> |r.value| == k &&
                        forall j :: 0 <= j < k ==> r.value[j] == population[PickIndex(rand(start + j), |population|)]
  {
    if population == [] then (if k == 0 then Some([]) else None)
    else Some(seq(k, j requires 0 <= j < k => population[PickIndex(rand(start + j), |population|)]))
  }

  lemma ChoicesFromPopulation<T>(population: seq<T>, k: nat, rand: nat -> real, start: nat)
    requires UnitDraws(rand) && Choices(population, k, rand, start).Some?
    ensures forall x :: x in Choices(population, k, rand, start).value ==> x in population
  {
  }

  /** Count i asks for frames that bucket i cannot give: there is no bucket i,
      or it is empty and the count positive. */
  predicate Unservable(bank: seq<seq<seq<real>>>, counts: seq<nat>, i: int)
  {
    0 <= i < |counts| && (i >= |bank| || (bank[i] == [] && counts[i] > 0))
  }

  /** `[random.choices(bank[i], k=counts[i]) for i ...]`: the draws are taken
      bucket after bucket starting at rand(start). A count with no bucket is an
      IndexError and an empty bucket with a positive count another. */
  function SelectFrames(bank: seq<seq<seq<real>>>, counts: seq<nat>, rand: nat -> real, start: nat)
    : (r: Option<seq<seq<seq<real>>>>)
    requires UnitDraws(rand)
    ensures r.None? <==> exists i :: Unservable(bank, counts, i)
    ensures r.Some? ==> |r.value| == |counts| <= |bank| && TotalLength(r.value) == Sum(counts) &&
                        forall i :: 0 <= i < |counts| ==> forall f :: f in r.value[i] ==> f in bank[i]
    decreases |counts|
  {
    if counts == [] then Some([])
    else if bank == [] then
      assert Unservable(bank, counts, 0);
      None
    else
      match Choices(bank[0], counts[0], rand, start)
      case None =>
        assert Unservable(bank, counts, 0);
        None
      case Some(picked) =>
        ChoicesFromPopulation(bank[0], counts[0], rand, start);
        var rest := SelectFrames(bank[1..], counts[1..], rand, start + counts[0]);
        if rest.None? then
          var i :| Unservable(bank[1..], counts[1..], i);
          assert Unservable(bank, counts, i + 1);
          None
        else
          var r := [picked] + rest.value;
          assert r[1..] == rest.value;
          assert forall i :: 1 <= i < |counts| ==> counts[i] == counts[1..][i - 1] && bank[i] == bank[1..][i - 1];
          assert forall i :: !Unservable(bank, counts, i) by {
            forall i | 1 <= i < |counts|
              ensures !Unservable(bank, counts, i)
            {
              assert !Unservable(bank[1..], counts[1..], i - 1);
            }
          }
          Some(r)
  }

  // ---------------------------------------------------------------------
  // generate_audio_sequence
  // ---------------------------------------------------------------------

  datatype EngineError = MissingFrames | NoNotes | EmptySequence

  /** The one-bar sequence and the (possibly shifted) frames it was built from. */
  datatype Generated = Generated(validated: seq<real>, shifted: seq<seq<real>>)

  function TruncAll(xs: seq<real>): (r: seq<int>)
    ensures |r| == |xs| && forall i :: 0 <= i < |xs| ==> r[i] == Trunc(xs[i])
  {
    seq(|xs|, i requires 0 <= i < |xs| => Trunc(xs[i]))
  }

  /** The selection counts: Counter over the truncated frame lengths, one count
      per distinct length in first-occurrence order. Every frame length is
      counted once. */
  function SelectionCounts(lengths: seq<real>): (c: seq<nat>)
    ensures Sum(c) == |lengths|
  {
    TallyFacts(TruncAll(lengths));
    Values(Tally(TruncAll(lengths)))
  }

  /** The note random.choices draws from the octave-doubled scale with the
      draw rand(j). */
  function NoteDraw(scaleNotes: seq<int>, rand: nat -> real, j: nat): (note: int)
    requires UnitDraws(rand) && scaleNotes != []
    ensures note in OctaveNotes(scaleNotes)
  {
    var notes := OctaveNotes(scaleNotes);
    notes[PickIndex(rand(j), |notes|)]
  }

  /** The selected frames, unpacked: `random.choices` per bucket with the
      selection counts, then flattened. Fails exactly when a count meets no
      bucket or an empty one; otherwise one frame per frame length, each a
      candidate of some bucket. */
  function SelectedFrames(lengths: seq<real>, bank: seq<seq<seq<real>>>, rand: nat -> real)
    : (r: Option<seq<seq<real>>>)
    requires UnitDraws(rand)
    ensures r.None? <==> exists i :: Unservable(bank, SelectionCounts(lengths), i)
    ensures r.Some? ==> |r.value| == |lengths|
  {
    var counts := SelectionCounts(lengths);
    match SelectFrames(bank, counts, rand, 0)
    case None => None
    case Some(selected) =>
      FlattenLength(selected);
      Some(Flatten(selected))
  }

  /** `random.choices(note_sequence, k=n)` over the octave-doubled scale with
      the draws rand(n .. 2n-1): fails exactly when n frames need notes from
      an empty scale; otherwise note i is NoteDraw of draw n + i. */
  function DrawNotes(scaleNotes: seq<int>, n: nat, rand: nat -> real): (r: Option<seq<int>>)
    requires UnitDraws(rand)
    ensures r.None? <==> scaleNotes == [] && n > 0
    ensures r.Some? ==> (|r.value| == n &&
      (n > 0 ==> scaleNotes != [] && forall i :: 0 <= i < n ==> r.value[i] == NoteDraw(scaleNotes, rand, n + i)))
  {
    Choices(OctaveNotes(scaleNotes), n, rand, n)
  }

  /** The notes drawn for the frames, then `__apply_pitch_shift`. Fails
      exactly when frames need notes from an empty scale. Otherwise with the
      gate closed (in particular at temperature 0) the frames come back
      exactly as given; with it open frame i is shifted by the note of draw
      n + i, n the number of frames. */
  function ShiftedFrames(frames: seq<seq<real>>, scaleNotes: seq<int>, temperature: real, rand: nat -> real,
                         shift: (seq<real>, int) -> seq<real>): (r: Option<seq<seq<real>>>)
    requires UnitDraws(rand)
    ensures r.None? <==> scaleNotes == [] && frames != []
    ensures r.Some? ==> |r.value| == |frames|
    ensures r.Some? && !ShiftGate(temperature, rand(2 * |frames|)) ==> r.value == frames
    ensures r.Some? && ShiftGate(temperature, rand(2 * |frames|)) ==>
      forall i :: 0 <= i < |frames| ==>
        scaleNotes != [] && r.value[i] == shift(frames[i], NoteDraw(scaleNotes, rand, |frames| + i))
  {
    var n := |frames|;
    match DrawNotes(scaleNotes, n, rand)
    case None => None
    case Some(notes) =>
      GateCases(frames, notes, scaleNotes, temperature, rand, shift);
      Some(ApplyPitchShift(frames, notes, temperature, rand(2 * n), shift))
  }

  /** generate_audio_sequence: counts of the truncated frame lengths select
      frames bucket by bucket (the buckets in ascending length order), a note
      of the octave-doubled scale is drawn per frame, the gate decides the
      pitch shift and the result is normalised to one bar. The draws are
      rand(0 .. N-1) for the frames, rand(N .. 2N-1) for the notes and rand(2N)
      for the gate, N the number of frame lengths.
      The selection fails exactly when a count meets no bucket or an empty
      one; the notes fail exactly when frames were selected from an empty
      scale; the validation fails exactly when there are no frame lengths.
      Otherwise the frames are the selected ones passed through the notes and
      the gate, one per frame length, and the validated sequence is the
      one-bar normalisation of those frames. */
  function GenerateAudioSequence(lengths: seq<real>, bank: seq<seq<seq<real>>>, scaleNotes: seq<int>,
                                 bpm: real, temperature: real, rand: nat -> real,
                                 shift: (seq<real>, int) -> seq<real>): (r: Result<Generated, EngineError>)
    requires bpm != 0.0 && UnitDraws(rand)
    ensures r == Err(MissingFrames) <==> exists i :: Unservable(bank, SelectionCounts(lengths), i)
    ensures r == Err(NoNotes) <==>
      (forall i :: !Unservable(bank, SelectionCounts(lengths), i)) && scaleNotes == [] && lengths != []
    ensures r == Err(EmptySequence) <==> lengths == []
    ensures r.Ok? ==> (|r.value.shifted| == |lengths| &&
      Some(r.value.validated) == ValidateSequence(bpm, Arrays(r.value.shifted)))
    ensures r.Ok? && bpm > 0.0 ==> |r.value.validated| == OneBarSamples(bpm)
    ensures r.Ok? ==> (SelectedFrames(lengths, bank, rand).Some? &&
      Some(r.value.shifted) == ShiftedFrames(SelectedFrames(lengths, bank, rand).value, scaleNotes, temperature, rand, shift))
  {
    match SelectedFrames(lengths, bank, rand)
    case None => Err(MissingFrames)
    case Some(frames) =>
      match ShiftedFrames(frames, scaleNotes, temperature, rand, shift)
      case None => Err(NoNotes)
      case Some(shifted) =>
        match ValidateSequence(bpm, Arrays(shifted))
        case None => Err(EmptySequence)
        case Some(validated) =>
          assert bpm > 0.0 ==> |validated| == OneBarSamples(bpm);
          Ok(Generated(validated, shifted))
  }

  /** The gate over frames whose notes are the draws n .. 2n-1. */
  lemma GateCases(frames: seq<seq<real>>, notes: seq<int>, scaleNotes: seq<int>,
                  temperature: real, rand: nat -> real, shift: (seq<real>, int) -> seq<real>)
    requires UnitDraws(rand) && (frames != [] ==> scaleNotes != []) && |notes| == |frames|
    requires forall i :: 0 <= i < |frames| ==> notes[i] == NoteDraw(scaleNotes, rand, |frames| + i)
    ensures var n := |frames|;
      var shifted := ApplyPitchShift(frames, notes, temperature, rand(2 * n), shift);
      (!ShiftGate(temperature, rand(2 * n)) ==> shifted == frames) &&
      (ShiftGate(temperature, rand(2 * n)) ==>
        |shifted| == n && forall i :: 0 <= i < n ==> shifted[i] == shift(frames[i], NoteDraw(scaleNotes, rand, n + i)))
  {
  }

  /** With the gate closed (in particular at temperature 0) every output frame
      is one of the sliced candidates of some bucket, untouched. */
  lemma UnshiftedFramesAreCandidates(lengths: seq<real>, bank: seq<seq<seq<real>>>, scaleNotes: seq<int>,
                                     bpm: real, temperature: real, rand: nat -> real,
                                     shift: (seq<real>, int) -> seq<real>)
    requires bpm != 0.0 && UnitDraws(rand)
    requires !ShiftGate(temperature, rand(2 * |lengths|))
    ensures var r := GenerateAudioSequence(lengths, bank, scaleNotes, bpm, temperature, rand, shift);
      r.Ok? ==> forall f :: f in r.value.shifted ==> exists b :: 0 <= b < |bank| && f in bank[b]
  {
    var counts := SelectionCounts(lengths);
    var sel := SelectFrames(bank, counts, rand, 0);
    if sel.Some? {
      var selected := sel.value;
      FlattenLength(selected);
      forall f | f in Flatten(selected)
        ensures exists b :: 0 <= b < |bank| && f in bank[b]
      {
        FlattenMembership(selected, f);
        var b :| 0 <= b < |selected| && f in selected[b];
        assert f in bank[b];
      }
    }
  }

  /** With the banks get_audio_frames slices from loaded audio a0 for the same
      frame lengths and a grid no longer than the audio, every selected frame
      has exactly int(L) samples for one of the planned frame lengths L. */
  lemma SelectedFramesHavePlannedLengths(lengths: seq<real>, a0: seq<real>, grid: real, rand: nat -> real)
    requires forall x :: x in lengths ==> x >= 1.0
    requires 0.0 <= grid <= |a0| as real && UnitDraws(rand)
    ensures var bank := FrameSlicer.FrameBanks(a0, lengths, RepCounts(grid, lengths));
      var sel := SelectedFrames(lengths, bank, rand);
      sel.Some? ==> forall f :: f in sel.value ==> exists x :: x in lengths && |f| == Trunc(x)
  {
    var bank := FrameSlicer.FrameBanks(a0, lengths, RepCounts(grid, lengths));
    var u := SortedUnique(lengths);
    FrameSlicer.FrameBanksExact(a0, lengths, grid);
    var sel := SelectFrames(bank, SelectionCounts(lengths), rand, 0);
    if sel.Some? {
      SelectedWidths(sel.value, bank, u);
      forall f | f in Flatten(sel.value)
        ensures exists x :: x in lengths && |f| == Trunc(x)
      {
        var b :| 0 <= b < |u| && |f| == Trunc(u[b]);
        assert u[b] in lengths;
      }
    }
  }

  /** Frames drawn group by group from banks whose frames of bank b have
      int(u[b]) samples have int(u[b]) samples for some b. */
  lemma SelectedWidths(groups: seq<seq<seq<real>>>, bank: seq<seq<seq<real>>>, u: seq<real>)
    requires |groups| <= |bank| <= |u|
    requires forall i :: 0 <= i < |groups| ==> forall f :: f in groups[i] ==> f in bank[i]
    requires forall b, f :: 0 <= b < |bank| && f in bank[b] ==> |f| == Trunc(u[b])
    ensures forall f :: f in Flatten(groups) ==> exists b :: 0 <= b < |u| && |f| == Trunc(u[b])
  {
    forall f | f in Flatten(groups)
      ensures exists b :: 0 <= b < |u| && |f| == Trunc(u[b])
    {
      FlattenMembership(groups, f);
      var i :| 0 <= i < |groups| && f in groups[i];
      assert f in bank[i];
      assert |f| == Trunc(u[i]);
    }
  }
}
