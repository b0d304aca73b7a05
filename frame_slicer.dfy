/** The frame slicer of one channel (SequenceAudioFrameSlicer): for every
    distinct frame length it plans start offsets across the loop and cuts
    frames of that length out of the loaded audio, zero-padding the stored
    audio when a frame is longer than it. */
module FrameSlicer {
  import opened PyNum
  import opened PySeq
  import opened SequenceConfig

  /** `np.arange(0, stop, step)`: ceil(stop / step) values 0, step, 2*step, ... */
  function Arange(stop: int, step: int): (r: seq<int>)
    requires step != 0
    ensures forall j :: 0 <= j < |r| ==> r[j] == j * step
    ensures step > 0 ==> (forall j :: 0 <= j < |r| ==> r[j] < stop) && |r| * step >= stop
    ensures step < 0 ==> (forall j :: 0 <= j < |r| ==> r[j] > stop) && |r| * step <= stop
  {
    var n := Ceil(stop as real / step as real);
    var r := seq(Max(n, 0), j => j * step);
    ArangeBounds(stop, step, n);
    r
  }

  lemma ArangeBounds(stop: int, step: int, n: int)
    requires step != 0 && n == Ceil(stop as real / step as real)
    ensures step > 0 ==> (forall j: int :: 0 <= j < n ==> j * step < stop) && Max(n, 0) * step >= stop
    ensures step < 0 ==> (forall j: int :: 0 <= j < n ==> j * step > stop) && Max(n, 0) * step <= stop
  {
    var q := stop as real / step as real;
    DivMulCancel(stop as real, step as real);
    if step > 0 {
      forall j: int | 0 <= j < n
        ensures j * step < stop
      {
        MulLtRight(j as real, q, step as real);
      }
      MulLeRight(q, n as real, step as real);
    } else {
      forall j: int | 0 <= j < n
        ensures j * step > stop
      {
        MulLtRight(j as real, q, -step as real);
      }
      MulLeRight(q, n as real, -step as real);
    }
  }

  /** The end of the offset range for frame length L repeated R times:
      int(L * (1 if L*R - L == 0 else R - 1)). */
  function StopRange(frameLen: real, reps: int): int
  {
    Trunc(frameLen * (if frameLen * reps as real - frameLen == 0.0 then 1.0 else (reps - 1) as real))
  }

  /** Start offsets for one distinct frame length: steps of int(L) below the stop. */
  function Offsets(frameLen: real, reps: int): seq<int>
    requires Trunc(frameLen) != 0
  {
    Arange(StopRange(frameLen, reps), Trunc(frameLen))
  }

  /** `get_audio_frame_sequence_list`: offsets for each distinct length (ascending)
      paired with its repetition count. */
  function AudioFrameSequenceList(lengths: seq<real>, reps: seq<int>): (r: seq<seq<int>>)
    requires forall x :: x in lengths ==> Trunc(x) != 0
    ensures var u := SortedUnique(lengths);
      |r| == Min(|u|, |reps|) && forall b :: 0 <= b < |r| ==> r[b] == Offsets(u[b], reps[b])
  {
    var u := SortedUnique(lengths);
    seq(Min(|u|, |reps|), b requires 0 <= b < Min(|u|, |reps|) => assert u[b] in lengths; Offsets(u[b], reps[b]))
  }

  /** A single repetition yields exactly the offset 0. */
  lemma SingleRepOffsets(frameLen: real)
    requires frameLen >= 1.0
    ensures Offsets(frameLen, 1) == [0]
  {
    var t := Trunc(frameLen);
    assert StopRange(frameLen, 1) == t;
    assert t as real / t as real == 1.0;
  }

  /** With R >= 2 repetitions the offsets are the multiples of int(L) below L * (R - 1). */
  lemma MultiRepOffsets(frameLen: real, reps: int)
    requires frameLen >= 1.0 && reps >= 2
    ensures var o := Offsets(frameLen, reps);
      (forall j :: 0 <= j < |o| ==> o[j] == j * Trunc(frameLen) && (o[j] as real) < frameLen * (reps - 1) as real) &&
      |o| * Trunc(frameLen) >= Trunc(frameLen * (reps - 1) as real)
  {
    var stop := StopRange(frameLen, reps);
    MulLeRight(1.0, reps as real, frameLen);
    assert frameLen * reps as real - frameLen != 0.0;
    assert stop == Trunc(frameLen * (reps - 1) as real);
  }

  /** The offsets that the test suite lists for frame lengths 5512.5 (22
      repetitions: the step is 5512 while the stop is int(5512.5 * 21)) and
      11025 (11 repetitions). */
  lemma OffsetsOfTestLengths()
    ensures Offsets(5512.5, 22) == [0, 5512, 11024, 16536, 22048, 27560, 33072, 38584,
                                    44096, 49608, 55120, 60632, 66144, 71656, 77168, 82680,
                                    88192, 93704, 99216, 104728, 110240, 115752]
    ensures Offsets(11025.0, 11) == [0, 11025, 22050, 33075, 44100, 55125, 66150, 77175, 88200, 99225]
  {
    assert Trunc(5512.5) == 5512;
    assert StopRange(5512.5, 22) == 115762;
    assert Ceil(115762.0 / 5512.0) == 22;
    assert Trunc(11025.0) == 11025;
    assert StopRange(11025.0, 11) == 110250;
    assert Ceil(110250.0 / 11025.0) == 10;
  }

  /** Offsets planned from a repetition count that fits the grid leave room for a
      full frame in audio at least as long as the grid. */
  lemma PlannedFramesFit(audioLen: nat, grid: real, frameLen: real)
    requires frameLen >= 1.0 && 0.0 <= grid <= audioLen as real
    ensures forall f :: f in Offsets(frameLen, RepCount(grid, frameLen)) ==>
      0 <= f && f + Trunc(frameLen) <= Max(audioLen, Trunc(frameLen))
  {
    var reps := RepCount(grid, frameLen);
    RepCountBounds(grid, frameLen);
    if reps == 0 {
      NoRepOffsets(frameLen);
    } else if reps == 1 {
      SingleRepOffsets(frameLen);
    } else {
      assert grid >= frameLen;
      MultiRepFit(audioLen, grid, frameLen, reps);
    }
  }

  /** No repetition plans no offset. */
  lemma NoRepOffsets(frameLen: real)
    requires frameLen >= 1.0
    ensures Offsets(frameLen, 0) == []
  {
    var o := Offsets(frameLen, 0);
    assert StopRange(frameLen, 0) == Trunc(-frameLen);
    assert Trunc(-frameLen) <= -1;
  }

  lemma MultiRepFit(audioLen: nat, grid: real, frameLen: real, reps: int)
    requires frameLen >= 1.0 && reps >= 2 && grid <= audioLen as real
    requires reps as real * frameLen <= grid
    ensures forall f :: f in Offsets(frameLen, reps) ==> 0 <= f && f + Trunc(frameLen) <= audioLen
  {
    var t := Trunc(frameLen);
    var o := Offsets(frameLen, reps);
    MultiRepOffsets(frameLen, reps);
    forall f | f in o
      ensures 0 <= f && f + t <= audioLen
    {
      var j :| 0 <= j < |o| && o[j] == f;
      OffsetFits(f, t, frameLen, reps, audioLen as real);
    }
  }

  lemma OffsetFits(f: int, t: int, frameLen: real, reps: int, audioLen: real)
    requires f as real < frameLen * (reps - 1) as real && t as real <= frameLen
    requires reps as real * frameLen <= audioLen
    ensures (f + t) as real < audioLen
  {
    assert frameLen * (reps - 1) as real + frameLen == reps as real * frameLen;
  }

  /** The stored audio after padding it for a frame of length L: zeros appended
      up to int(L) when L exceeds it. */
  function Padded(audio: seq<real>, frameLen: real): (r: seq<real>)
    ensures |audio| <= |r|
    ensures r[..|audio|] == audio
    ensures forall i :: |audio| <= i < |r| ==> r[i] == 0.0
    ensures frameLen >= 0.0 ==> |r| == Max(|audio|, Trunc(frameLen))
  {
    if frameLen > |audio| as real then audio + Zeros(Trunc(frameLen) - |audio|) else audio
  }

  /** Padding twice is padding once to the longer length. */
  lemma PaddedTwice(audio: seq<real>, first: int, second: int)
    requires first <= second
    ensures Padded(Padded(audio, first as real), second as real) == Padded(audio, second as real)
  {
    var once := Padded(audio, first as real);
    if first > |audio| {
      if second > first {
        assert Padded(once, second as real) == audio + Zeros(first - |audio|) + Zeros(second - first);
        assert Zeros(first - |audio|) + Zeros(second - first) == Zeros(second - |audio|);
      }
    }
  }

  /** `[audio[int(f) : int(f) + int(L)] for f in offsets]` */
  function Frames(audio: seq<real>, offsets: seq<int>, frameLen: int): (r: seq<seq<real>>)
    ensures |r| == |offsets|
    ensures forall j :: 0 <= j < |r| ==> r[j] == Slice(audio, offsets[j], offsets[j] + frameLen)
  {
    seq(|offsets|, j requires 0 <= j < |offsets| => Slice(audio, offsets[j], offsets[j] + frameLen))
  }

  /** A frame starting inside the padded audio with room for L samples has exactly L samples. */
  lemma FrameExactLength(audio: seq<real>, frameLen: int, f: int)
    requires frameLen >= 0 && 0 <= f && f + frameLen <= Max(|audio|, frameLen)
    ensures |Slice(Padded(audio, frameLen as real), f, f + frameLen)| == frameLen
  {
  }

  /** frames_list([0, 44100], 44100) on three seconds of audio: two frames of
      one second each. */
  lemma FramesOfTestAudio(audio: seq<real>)
    requires |audio| == 44100 * 3
    ensures |Frames(Padded(audio, 44100.0), [0, 44100], 44100)| == 2
    ensures forall frame :: frame in Frames(Padded(audio, 44100.0), [0, 44100], 44100) ==> |frame| == 44100
  {
  }

  class AudioFrameSlicer {
    /** The loaded audio; padding reassigns it. */
    var audio: seq<real>

    constructor(loaded: seq<real>)
      ensures audio == loaded
    {
      audio := loaded;
    }

    /** `frames_list(individual_frames, unique_frame_length)` */
    method FramesList(offsets: seq<int>, frameLen: real) returns (frames: seq<seq<real>>)
      modifies this
      ensures audio == Padded(old(audio), frameLen)
      ensures frames == Frames(audio, offsets, Trunc(frameLen))
    {
      if frameLen > |audio| as real {
        audio := audio + Zeros(Trunc(frameLen) - |audio|);
      }
      frames := [];
      for j := 0 to |offsets|
        invariant |frames| == j
        invariant forall l :: 0 <= l < j ==> frames[l] == Slice(audio, offsets[l], offsets[l] + Trunc(frameLen))
      {
        frames := frames + [Slice(audio, offsets[j], offsets[j] + Trunc(frameLen))];
      }
    }

    /** `get_audio_frames`: one list of frames per distinct length, slicing
        with int(L) from audio padded for every length so far. */
    method GetAudioFrames(lengths: seq<real>, reps: seq<int>) returns (bank: seq<seq<seq<real>>>)
      requires forall x :: x in lengths ==> Trunc(x) != 0
      modifies this
      ensures bank == FrameBanks(old(audio), lengths, reps)
      ensures var u := SortedUnique(lengths);
        audio == (if bank == [] then old(audio) else Padded(old(audio), Trunc(u[|bank| - 1]) as real))
    {
      var u := SortedUnique(lengths);
      var offsets := AudioFrameSequenceList(lengths, reps);
      ghost var spec := FrameBanks(old(audio), lengths, reps);
      bank := [];
      for b := 0 to |offsets|
        invariant bank == spec[..b]
        invariant audio == (if b == 0 then old(audio) else Padded(old(audio), Trunc(u[b - 1]) as real))
      {
        var t := Trunc(u[b]);
        if b > 0 {
          TruncMonotone(u[b - 1], u[b]);
          PaddedTwice(old(audio), Trunc(u[b - 1]), t);
        }
        assert Trunc(t as real) == t;
        var frames := FramesList(offsets[b], t as real);
        BankEntry(old(audio), lengths, reps, b);
        TakeOneMore(spec, b);
        bank := bank + [frames];
      }
    }
  }

  /** The frame banks get_audio_frames returns for loaded audio a0: bank b holds
      the frames at the planned offsets of the b-th distinct length, sliced
      from a0 padded to that length. */
  function FrameBanks(a0: seq<real>, lengths: seq<real>, reps: seq<int>): (r: seq<seq<seq<real>>>)
    requires forall x :: x in lengths ==> Trunc(x) != 0
    ensures |r| == |AudioFrameSequenceList(lengths, reps)|
  {
    var u := SortedUnique(lengths);
    var offsets := AudioFrameSequenceList(lengths, reps);
    seq(|offsets|, b requires 0 <= b < |offsets| =>
      Frames(Padded(a0, Trunc(u[b]) as real), offsets[b], Trunc(u[b])))
  }

  /** With repetition counts computed from a grid no longer than the audio,
      every frame of bank b has exactly int(L) samples, L the b-th distinct
      length: the planned offsets fit, and padding covers a frame longer than
      the audio. */
  lemma FrameBanksExact(a0: seq<real>, lengths: seq<real>, grid: real)
    requires forall x :: x in lengths ==> x >= 1.0
    requires 0.0 <= grid <= |a0| as real
    ensures var u := SortedUnique(lengths);
      var banks := FrameBanks(a0, lengths, RepCounts(grid, lengths));
      forall b, f :: 0 <= b < |banks| && f in banks[b] ==> |f| == Trunc(u[b])
  {
    var reps := RepCounts(grid, lengths);
    var u := SortedUnique(lengths);
    var offsets := AudioFrameSequenceList(lengths, reps);
    var banks := FrameBanks(a0, lengths, reps);
    forall b, f | 0 <= b < |banks| && f in banks[b]
      ensures |f| == Trunc(u[b])
    {
      assert u[b] in lengths;
      var t := Trunc(u[b]);
      var frames := Frames(Padded(a0, t as real), offsets[b], t);
      assert banks[b] == frames;
      var j :| 0 <= j < |frames| && frames[j] == f;
      var start := offsets[b][j];
      PlannedFramesFit(|a0|, grid, u[b]);
      assert offsets[b] == Offsets(u[b], RepCount(grid, u[b]));
      assert start in offsets[b];
      FrameExactLength(a0, t, start);
    }
  }

  /** Bank b of FrameBanks, spelled out. */
  lemma BankEntry(a0: seq<real>, lengths: seq<real>, reps: seq<int>, b: nat)
    requires forall x :: x in lengths ==> Trunc(x) != 0
    requires b < |AudioFrameSequenceList(lengths, reps)|
    ensures var u := SortedUnique(lengths);
      FrameBanks(a0, lengths, reps)[b]
        == Frames(Padded(a0, Trunc(u[b]) as real), AudioFrameSequenceList(lengths, reps)[b], Trunc(u[b]))
  {
  }

  lemma TakeOneMore<T>(s: seq<T>, b: nat)
    requires b < |s|
    ensures s[..b + 1] == s[..b] + [s[b]]
  {
  }
}
