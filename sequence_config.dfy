/** The rhythm and timing configuration of one channel (SequenceConfigRefactor):
    the Euclidean onset pattern, the one-bar grid, the frame length that each
    onset owns, how many candidate frames of each distinct length fit in the
    loop, and the note list that pitch offsets are drawn from.
    Audio enters only through its length; the sample rate is fixed at 44100. */
module SequenceConfig {
  import opened Results
  import opened PyNum
  import opened PySeq

  const SampleRate: int := 44100

  // ---------------------------------------------------------------------------
  // Euclidean rhythm
  // ---------------------------------------------------------------------------

  /** Step i of the starting pattern: the first n steps are onsets. */
  function InitialStep(n: int, i: int): int
  {
    if i < n then 1 else 0
  }

  /** The pattern the buckets start from: k one-step buckets, n of them onsets. */
  function InitialPattern(n: int, k: int): (p: seq<int>)
    ensures |p| == Max(k, 0)
    ensures forall i :: 0 <= i < |p| ==> p[i] == InitialStep(n, i)
  {
    seq(Max(k, 0), i => InitialStep(n, i))
  }

  /** Number of onsets the rhythm must end up with: n, clamped to 0..k. */
  function OnsetTarget(n: int, k: int): nat
  {
    Max(0, Min(n, Max(k, 0)))
  }

  lemma {:induction false} InitialPatternCounts(n: int, m: nat)
    ensures multiset(InitialPattern(n, m))[1] == Max(0, Min(n, m))
    ensures multiset(InitialPattern(n, m))[0] == m - Max(0, Min(n, m))
  {
    if m > 0 {
      InitialPatternCounts(n, m - 1);
      var prev := InitialPattern(n, m - 1);
      var x := InitialStep(n, m - 1);
      assert InitialPattern(n, m) == prev + [x];
      AppendCount(prev, x, 1);
      AppendCount(prev, x, 0);
      if m - 1 < n {
        assert Max(0, Min(n, m)) == Max(0, Min(n, m - 1)) + 1;
      } else {
        assert Max(0, Min(n, m)) == Max(0, Min(n, m - 1));
      }
    }
  }

  lemma AppendCount(s: seq<int>, x: int, v: int)
    ensures multiset(s + [x])[v] == multiset(s)[v] + (if x == v then 1 else 0)
  {
    assert multiset(s + [x]) == multiset(s) + multiset{x};
  }

  /** Every element of a sequence with the starting pattern's multiset is 0 or 1. */
  lemma ZeroOneByMultiset(r: seq<int>, p: seq<int>)
    requires multiset(r) == multiset(p)
    requires forall i :: 0 <= i < |p| ==> p[i] == 0 || p[i] == 1
    ensures forall i :: 0 <= i < |r| ==> r[i] == 0 || r[i] == 1
  {
    forall i | 0 <= i < |r|
      ensures r[i] == 0 || r[i] == 1
    {
      assert r[i] in multiset(r);
      assert r[i] in multiset(p);
      var j :| 0 <= j < |p| && p[j] == r[i];
    }
  }

  /** The one-step buckets of a pattern flatten back to the pattern. */
  lemma {:induction false} FlattenSingletons(p: seq<int>)
    ensures Flatten(seq(|p|, i requires 0 <= i < |p| => [p[i]])) == p
  {
    if p != [] {
      var b := seq(|p|, i requires 0 <= i < |p| => [p[i]]);
      var rest := seq(|p| - 1, i requires 0 <= i < |p| - 1 => [p[1..][i]]);
      assert b[1..] == rest;
      FlattenSingletons(p[1..]);
      assert p == [p[0]] + p[1..];
    }
  }

  /** Flattening around one middle bucket. */
  lemma FlattenAround(a: seq<seq<int>>, y: seq<int>, b: seq<seq<int>>)
    ensures Flatten(a + [y] + b) == Flatten(a) + y + Flatten(b)
  {
    FlattenConcat(a + [y], b);
    FlattenConcat(a, [y]);
    FlattenSingleton(y);
  }

  /** The buckets around position i and the last bucket. */
  lemma SplitForMove(data: seq<seq<int>>, i: nat)
    requires i < |data| - 1
    ensures data == data[..i] + [data[i]] + data[i + 1..|data| - 1] + [data[|data| - 1]]
    ensures data[i := data[i] + data[|data| - 1]][..|data| - 1]
         == data[..i] + [data[i] + data[|data| - 1]] + data[i + 1..|data| - 1]
  {
  }

  /** Moving `last` onto `x` keeps the flattened multiset. */
  lemma MoveParts(a: seq<seq<int>>, x: seq<int>, b: seq<seq<int>>, last: seq<int>)
    ensures multiset(Flatten(a + [x + last] + b)) == multiset(Flatten(a + [x] + b + [last]))
  {
    FlattenAround(a, x + last, b);
    FlattenConcat(a + [x] + b, [last]);
    FlattenSingleton(last);
    FlattenAround(a, x, b);
    var fa, fb := Flatten(a), Flatten(b);
    calc {
      multiset(fa + (x + last) + fb);
      multiset(fa) + multiset(x) + multiset(last) + multiset(fb);
      multiset(fa + x + fb + last);
    }
  }

  /** Appending the last bucket to bucket i and deleting the last bucket keeps
      every element: the flattened multiset is unchanged. */
  lemma MoveLastBucket(data: seq<seq<int>>, i: nat)
    requires i < |data| - 1
    ensures multiset(Flatten(data[i := data[i] + data[|data| - 1]][..|data| - 1]))
         == multiset(Flatten(data))
  {
    SplitForMove(data, i);
    MoveParts(data[..i], data[i], data[i + 1..|data| - 1], data[|data| - 1]);
  }

  /** `_generate_euclidean_rhythm(n, k)`: k buckets start as [1] (the first n)
      or [0]; while more than one bucket is left over, the last bucket is
      appended to each of the first n buckets in turn and deleted. The result
      is a 0/1 list of k steps with exactly n onsets (n clamped to 0..k),
      starting on an onset. The loop also stops when there are no onsets to
      distribute (n <= 0), leaving k rests; as written it never stops there
      once k - n > 1 (EuclidPass). */
  method GenerateEuclideanRhythm(n0: int, k0: int) returns (r: seq<int>)
    ensures |r| == Max(k0, 0)
    ensures forall i :: 0 <= i < |r| ==> r[i] == 0 || r[i] == 1
    ensures multiset(r)[1] == OnsetTarget(n0, k0)
    ensures n0 >= 1 && k0 >= 1 ==> r[0] == 1
  {
    var p := InitialPattern(n0, k0);
    var data := seq(|p|, i requires 0 <= i < |p| => [p[i]]);
    FlattenSingletons(p);
    var n, k := n0, k0;
    while true
      invariant |data| == Max(k, 0)
      invariant multiset(Flatten(data)) == multiset(p)
      invariant |data| > 0 ==> |p| > 0 && data[0] != [] && data[0][0] == p[0]
      decreases Max(k, 0)
    {
      k := k - n;
      if k <= 1 || n <= 0 {
        break;
      } else if k < n {
        n, k := k, n;
      }
      assert |data| >= 2 * n && |data| - n == k;
      data := MergeLastBuckets(data, n);
    }
    r := Flatten(data);
    RhythmOfBuckets(data, n0, k0);
  }

  /** One pass of the while loop on the counters, as written: None when the
      pass breaks, otherwise the new (n, k) with n <= k. The pass then merges
      the last n buckets into the first n, which for n <= 0 is none. */
  function EuclidPass(n: int, k: int): (r: Option<(int, int)>)
    ensures r.None? <==> k - n <= 1
    ensures r.Some? ==> (r.value == (n, k - n) || r.value == (k - n, n)) && r.value.0 <= r.value.1
  {
    var k' := k - n;
    if k' <= 1 then None
    else if k' < n then Some((k', n))
    else Some((n, k'))
  }

  /** m passes of the while loop as written: None when one of them breaks. */
  function EuclidPasses(n: int, k: int, m: nat): Option<(int, int)>
    decreases m
  {
    if m == 0 then Some((n, k))
    else match EuclidPass(n, k)
      case None => None
      case Some((n', k')) => EuclidPasses(n', k', m - 1)
  }

  /** As written, with no onsets and more than one step left the loop never
      breaks: n stays put, so no bucket is ever merged, and with n = 0 a pass
      leaves (n, k) exactly as it was. */
  lemma {:induction false} NoOnsetsNeverStop(n: int, k: int, m: nat)
    requires n <= 0 && k - n > 1
    ensures EuclidPasses(n, k, m).Some? && EuclidPasses(n, k, m).value.0 == n
    ensures n == 0 ==> EuclidPass(n, k) == Some((n, k))
    decreases m
  {
    if m > 0 {
      assert EuclidPass(n, k) == Some((n, k - n));
      NoOnsetsNeverStop(n, k - n, m - 1);
    }
  }

  /** The inner `for i in range(n)` loop: the last bucket is appended to
      bucket i and deleted, for i = 0 .. n - 1. The buckets lose n entries
      and keep every element, and the first bucket keeps its first step. */
  method MergeLastBuckets(data0: seq<seq<int>>, n: int) returns (data: seq<seq<int>>)
    requires 0 <= n && 2 * n <= |data0|
    ensures |data| == |data0| - n
    ensures multiset(Flatten(data)) == multiset(Flatten(data0))
    ensures |data0| > 0 && data0[0] != [] ==> |data| > 0 && data[0] != [] && data[0][0] == data0[0][0]
  {
    data := data0;
    for i := 0 to n
      invariant |data| == |data0| - i
      invariant multiset(Flatten(data)) == multiset(Flatten(data0))
      invariant |data0| > 0 && data0[0] != [] ==> |data| > 0 && data[0] != [] && data[0][0] == data0[0][0]
    {
      MoveLastBucket(data, i);
      data := data[i := data[i] + data[|data| - 1]][..|data| - 1];
    }
  }

  /** Buckets holding the starting pattern's elements, the first bucket led by
      an onset when there is one, flatten to a rhythm of k0 steps with the
      target number of onsets. */
  lemma RhythmOfBuckets(data: seq<seq<int>>, n0: int, k0: int)
    requires multiset(Flatten(data)) == multiset(InitialPattern(n0, k0))
    requires n0 >= 1 && k0 >= 1 ==> data != [] && data[0] != [] && data[0][0] == 1
    ensures var r := Flatten(data);
      |r| == Max(k0, 0) &&
      (forall i :: 0 <= i < |r| ==> r[i] == 0 || r[i] == 1) &&
      multiset(r)[1] == OnsetTarget(n0, k0) &&
      (n0 >= 1 && k0 >= 1 ==> r[0] == 1)
  {
    var p := InitialPattern(n0, k0);
    var r := Flatten(data);
    InitialPatternCounts(n0, Max(k0, 0));
    ZeroOneByMultiset(r, p);
    assert |r| == |multiset(r)| == |multiset(p)| == |p|;
    if n0 >= 1 && k0 >= 1 {
      FlattenHead(data, 0);
    }
  }

  // ---------------------------------------------------------------------------
  // Onsets and frame lengths
  // ---------------------------------------------------------------------------

  /** The positions from `start` on whose step is 1, ascending. */
  function OnsetsFrom(p: seq<int>, start: nat): (o: seq<int>)
    decreases |p| - start
  {
    if start >= |p| then []
    else (if p[start] == 1 then [start] else []) + OnsetsFrom(p, start + 1)
  }

  /** `[i for i, e in enumerate(pulse_sequence) if e == 1]` */
  function Onsets(p: seq<int>): seq<int>
  {
    OnsetsFrom(p, 0)
  }

  /** o lists 1 steps of p at or after `start`, ascending. */
  ghost predicate AscendingOnsets(o: seq<int>, p: seq<int>, start: nat)
  {
    (forall j :: 0 <= j < |o| ==> start <= o[j] < |p| && p[o[j]] == 1) &&
    (forall j, l :: 0 <= j < l < |o| ==> o[j] < o[l])
  }

  /** The onsets from `start` on are 1 steps at or after `start`, ascending. */
  lemma {:induction false} OnsetsFromSorted(p: seq<int>, start: nat)
    requires start <= |p|
    ensures AscendingOnsets(OnsetsFrom(p, start), p, start)
    decreases |p| - start
  {
    if start < |p| {
      OnsetsFromSorted(p, start + 1);
      var rest := OnsetsFrom(p, start + 1);
      var o := OnsetsFrom(p, start);
      if p[start] == 1 {
        assert o == [start] + rest;
        assert forall j :: 1 <= j < |o| ==> o[j] == rest[j - 1];
      } else {
        assert o == rest;
      }
    }
  }

  /** Every 1 step from `start` on is an onset, and there is one onset per 1 step. */
  lemma {:induction false} OnsetsFromComplete(p: seq<int>, start: nat)
    requires start <= |p|
    ensures var o := OnsetsFrom(p, start);
      (forall i :: start <= i < |p| && p[i] == 1 ==> i in o) &&
      |o| == multiset(p[start..])[1]
    decreases |p| - start
  {
    if start < |p| {
      OnsetsFromComplete(p, start + 1);
      assert p[start..] == [p[start]] + p[start + 1..];
    }
  }

  /** The onsets are exactly the positions of the 1 steps, ascending, one per 1. */
  lemma OnsetsFacts(p: seq<int>)
    ensures var o := Onsets(p);
      (forall j :: 0 <= j < |o| ==> 0 <= o[j] < |p| && p[o[j]] == 1) &&
      (forall j, l :: 0 <= j < l < |o| ==> o[j] < o[l]) &&
      (forall i :: 0 <= i < |p| && p[i] == 1 ==> i in o) &&
      |o| == multiset(p)[1]
  {
    OnsetsFromSorted(p, 0);
    OnsetsFromComplete(p, 0);
    assert p[0..] == p;
  }

  /** The numpy silence positions: each next onset minus one, then the last step. */
  function Silences(o: seq<int>, len: int): (s: seq<int>)
    ensures |s| == if o == [] then 1 else |o|
  {
    (if o == [] then [] else seq(|o| - 1, j requires 0 <= j < |o| - 1 => o[j + 1] - 1)) + [len - 1]
  }

  /** Reference definition of the steps each onset owns: up to the next onset,
      the last one up to the end of the pattern. */
  function Gaps(o: seq<int>, len: int): (g: seq<int>)
    ensures |g| == |o|
    ensures forall j {:trigger g[j]} :: 0 <= j < |o| ==> g[j] == (if j + 1 < |o| then o[j + 1] else len) - o[j]
  {
    if o == [] then []
    else if |o| == 1 then [len - o[0]]
    else
      [o[1] - o[0]] + Gaps(o[1..], len)
  }

  /** Each step count as a number of samples. */
  function Scale(g: seq<int>, pulse: real): (r: seq<real>)
    ensures |r| == |g| && forall j {:trigger r[j]} :: 0 <= j < |g| ==> r[j] == g[j] as real * pulse
  {
    seq(|g|, j requires 0 <= j < |g| => g[j] as real * pulse)
  }

  /** The numpy formula silence - onset + 1 is the gap of that onset. */
  lemma SilenceGap(o: seq<int>, len: int, j: nat)
    requires j < |o|
    ensures Silences(o, len)[j] - o[j] + 1 == Gaps(o, len)[j]
  {
    var s := Silences(o, len);
    if j + 1 < |o| {
      var front := seq(|o| - 1, l requires 0 <= l < |o| - 1 => o[l + 1] - 1);
      assert s == front + [len - 1];
      assert s[j] == front[j] == o[j + 1] - 1;
    } else {
      assert s[j] == len - 1;
    }
  }

  /** `_calculate_audio_frames_length`: zips onsets with silence positions and
      appends (silence - onset + 1) * pulse for each pair. This is the gap
      from each onset to the next (or to the end) in pulses. */
  method CalculateAudioFramesLength(p: seq<int>, pulse: real) returns (lengths: seq<real>)
    ensures lengths == Scale(Gaps(Onsets(p), |p|), pulse)
  {
    var o := Onsets(p);
    var s := Silences(o, |p|);
    var g := Gaps(o, |p|);
    lengths := [];
    for j := 0 to Min(|o|, |s|)
      invariant j <= |g|
      invariant lengths == Scale(g[..j], pulse)
    {
      SilenceGap(o, |p|, j);
      ScaleStep(g, j, pulse);
      var x := (s[j] - o[j] + 1) as real * pulse;
      assert x == g[j] as real * pulse;
      lengths := lengths + [x];
      assert lengths == Scale(g[..j + 1], pulse);
    }
    assert g[..|g|] == g;
  }

  lemma ScaleStep(g: seq<int>, j: nat, pulse: real)
    requires j < |g|
    ensures Scale(g[..j + 1], pulse) == Scale(g[..j], pulse) + [g[j] as real * pulse]
  {
    var a := Scale(g[..j + 1], pulse);
    var b := Scale(g[..j], pulse) + [g[j] as real * pulse];
    assert |a| == |b|;
    forall l | 0 <= l < |a|
      ensures a[l] == b[l]
    {
      if l < j {
        assert a[l] == g[l] as real * pulse == b[l];
      }
    }
  }

  /** Every onset owns at least one step. */
  lemma GapsPositive(p: seq<int>)
    ensures forall j :: 0 <= j < |Onsets(p)| ==> Gaps(Onsets(p), |p|)[j] >= 1
  {
    OnsetsFacts(p);
    var o := Onsets(p);
    forall j | 0 <= j < |o|
      ensures Gaps(o, |p|)[j] >= 1
    {
      if j + 1 < |o| {
        assert o[j] < o[j + 1];
      } else {
        assert o[j] < |p|;
      }
    }
  }

  /** The steps owned by the onsets add up to the pattern from the first onset on. */
  lemma {:induction false} GapsSum(o: seq<int>, len: int)
    requires o != []
    ensures Sum(Gaps(o, len)) == len - o[0]
  {
    if |o| > 1 {
      GapsSum(o[1..], len);
      assert Gaps(o, len) == [o[1] - o[0]] + Gaps(o[1..], len);
    }
  }

  lemma {:induction false} SumScale(g: seq<int>, pulse: real)
    ensures SumReal(Scale(g, pulse)) == Sum(g) as real * pulse
  {
    if g != [] {
      assert forall j :: 0 <= j < |g| - 1 ==> Scale(g, pulse)[1..][j] == Scale(g[1..], pulse)[j];
      assert Scale(g, pulse)[1..] == Scale(g[1..], pulse);
      SumScale(g[1..], pulse);
      Distribute(g[0] as real, Sum(g[1..]) as real, pulse);
    }
  }

  lemma Distribute(x: real, y: real, pulse: real)
    ensures (x + y) * pulse == x * pulse + y * pulse
  {
  }

  /** A pattern that starts on an onset has its first onset at step 0. */
  lemma FirstOnsetAtZero(p: seq<int>)
    requires p != [] && p[0] == 1
    ensures Onsets(p) != [] && Onsets(p)[0] == 0
  {
  }

  /** A pattern that starts on an onset (as every Euclidean rhythm with n >= 1
      does) gives its onsets all of its steps. */
  lemma GapsFillPattern(p: seq<int>)
    requires p != [] && p[0] == 1
    ensures Sum(Gaps(Onsets(p), |p|)) == |p|
  {
    FirstOnsetAtZero(p);
    GapsSum(Onsets(p), |p|);
  }

  // ---------------------------------------------------------------------------
  // Grid and pulse length
  // ---------------------------------------------------------------------------

  /** One bar of four beats, in seconds. */
  function OneBar(bpm: real): real
    requires bpm != 0.0
  {
    60.0 / bpm * 4.0
  }

  /** Samples in one of the k steps of a bar. */
  function PulseLength(bpm: real, k: int): (pulse: real)
    requires bpm != 0.0 && k != 0
    ensures pulse != 0.0
    ensures bpm > 0.0 && k > 0 ==> pulse > 0.0
  {
    SampleRate as real * OneBar(bpm) / k as real
  }

  /** k pulses make one bar. */
  lemma PulsesMakeOneBar(bpm: real, k: int)
    requires bpm != 0.0 && k != 0
    ensures k as real * PulseLength(bpm, k) == SampleRate as real * OneBar(bpm)
  {
  }

  /** Frames cut at the onsets of a pattern of k steps fill one bar exactly. */
  lemma FramesFillOneBar(p: seq<int>, bpm: real)
    requires p != [] && p[0] == 1 && bpm != 0.0
    ensures SumReal(Scale(Gaps(Onsets(p), |p|), PulseLength(bpm, |p|)))
         == SampleRate as real * OneBar(bpm)
  {
    GapsFillPattern(p);
    ScaledStepsFillBar(Gaps(Onsets(p), |p|), |p|, bpm);
  }

  /** Steps adding up to k, each k-th of a bar long, last one bar. */
  lemma ScaledStepsFillBar(g: seq<int>, k: int, bpm: real)
    requires bpm != 0.0 && k != 0 && Sum(g) == k
    ensures SumReal(Scale(g, PulseLength(bpm, k))) == SampleRate as real * OneBar(bpm)
  {
    var pulse := PulseLength(bpm, k);
    SumScale(g, pulse);
    PulsesMakeOneBar(bpm, k);
  }

  datatype Grid = Grid(gridValue: real, pulseLength: real)

  /** `_validate_grid(audio, bpm, k)`, given len(audio). */
  function ValidateGrid(audioLen: nat, bpm: real, k: int): (g: Grid)
    requires bpm != 0.0 && k != 0
    ensures g.pulseLength == PulseLength(bpm, k)
  {
    var pulse := PulseLength(bpm, k);
    var pulses := Floor(audioLen as real / pulse);
    var equalToTotal := pulses <= 1;
    Grid(if equalToTotal then audioLen as real else pulses as real * pulse - pulse, pulse)
  }

  /** The grid never exceeds the audio. When it is not the whole audio, it
      is the audio rounded down to whole pulses, less one more pulse. */
  lemma GridBounds(audioLen: nat, bpm: real, k: int)
    requires bpm != 0.0 && k != 0
    ensures var g := ValidateGrid(audioLen, bpm, k);
      0.0 <= g.gridValue <= audioLen as real &&
      (g.gridValue != audioLen as real ==>
        g.pulseLength > 0.0 &&
        g.gridValue + g.pulseLength <= audioLen as real < g.gridValue + 2.0 * g.pulseLength)
    ensures var g := ValidateGrid(audioLen, bpm, k);
      Floor(audioLen as real / g.pulseLength) <= 1 <==> g.gridValue == audioLen as real
  {
    var pulse := PulseLength(bpm, k);
    var x := audioLen as real / pulse;
    var m := Floor(x);
    if pulse < 0.0 {
      assert x <= 0.0;
    } else if m > 1 {
      assert m as real * pulse <= x * pulse == audioLen as real;
      assert audioLen as real < (m + 1) as real * pulse;
      assert (m as real - 1.0) * pulse >= pulse;
    }
  }

  // ---------------------------------------------------------------------------
  // Repetition counts
  // ---------------------------------------------------------------------------

  ghost predicate StrictlyIncreasing(s: seq<real>)
  {
    forall i, j :: 0 <= i < j < |s| ==> s[i] < s[j]
  }

  /** Inserts x into an ascending duplicate-free list. */
  function InsertSorted(t: seq<real>, x: real): (r: seq<real>)
    requires StrictlyIncreasing(t)
    ensures StrictlyIncreasing(r)
    ensures forall y :: y in r <==> y in t || y == x
  {
    if t == [] then [x]
    else if x < t[0] then [x] + t
    else if x == t[0] then t
    else
      var rest := InsertSorted(t[1..], x);
      assert forall y :: y in t[1..] ==> t[0] < y by {
        forall y | y in t[1..]
          ensures t[0] < y
        {
          var j :| 0 <= j < |t[1..]| && t[1..][j] == y;
          assert t[j + 1] == y;
        }
      }
      ConsIncreasing(t[0], rest);
      [t[0]] + rest
  }

  /** A head below every element of an ascending list keeps it ascending. */
  lemma ConsIncreasing(h: real, rest: seq<real>)
    requires StrictlyIncreasing(rest) && forall y :: y in rest ==> h < y
    ensures StrictlyIncreasing([h] + rest)
  {
    var r := [h] + rest;
    forall i, j | 0 <= i < j < |r|
      ensures r[i] < r[j]
    {
      assert r[j] == rest[j - 1];
      if i > 0 {
        assert r[i] == rest[i - 1];
      } else {
        assert rest[j - 1] in rest;
      }
    }
  }

  /** `np.unique`: the distinct values, ascending. */
  function SortedUnique(s: seq<real>): (u: seq<real>)
    ensures StrictlyIncreasing(u)
    ensures forall y :: y in u <==> y in s
  {
    if s == [] then []
    else
      assert s == s[..|s| - 1] + [s[|s| - 1]];
      InsertSorted(SortedUnique(s[..|s| - 1]), s[|s| - 1])
  }

  /** One repetition count: grid / L rounded up when below one, down otherwise. */
  function RepCount(grid: real, frameLen: real): int
    requires frameLen != 0.0
  {
    var ratio := grid / frameLen;
    if ratio < 1.0 then Ceil(ratio) else Floor(ratio)
  }

  /** Whole frames that fit: floor(grid / L) * L <= grid < (floor(grid / L) + 1) * L. */
  lemma FloorTimes(grid: real, frameLen: real)
    requires frameLen > 0.0
    ensures Floor(grid / frameLen) as real * frameLen <= grid < (Floor(grid / frameLen) + 1) as real * frameLen
  {
    var ratio := grid / frameLen;
    var f := Floor(ratio);
    MulLeRight(f as real, ratio, frameLen);
    MulLtRight(ratio, (f + 1) as real, frameLen);
    DivMulCancel(grid, frameLen);
    calc {
      f as real * frameLen;
    <= ratio * frameLen;
    == grid;
    }
    calc {
      grid;
    == ratio * frameLen;
    < (f + 1) as real * frameLen;
    }
  }

  lemma RatioBelowOne(grid: real, frameLen: real)
    requires frameLen > 0.0
    ensures grid / frameLen < 1.0 <==> grid < frameLen
  {
    var ratio := grid / frameLen;
    assert ratio * frameLen == grid;
    if ratio < 1.0 {
      assert (1.0 - ratio) * frameLen > 0.0;
    } else {
      assert (ratio - 1.0) * frameLen >= 0.0;
    }
  }

  /** A non-empty grid always has room for at least one frame; a grid shorter
      than the frame gets exactly one; otherwise the count is the number of
      whole frames that fit in the grid. */
  lemma RepCountBounds(grid: real, frameLen: real)
    requires frameLen > 0.0 && grid >= 0.0
    ensures grid > 0.0 ==> RepCount(grid, frameLen) >= 1
    ensures grid < frameLen ==> RepCount(grid, frameLen) == (if grid > 0.0 then 1 else 0)
    ensures grid >= frameLen ==>
      RepCount(grid, frameLen) as real * frameLen <= grid < (RepCount(grid, frameLen) + 1) as real * frameLen
  {
    var ratio := grid / frameLen;
    var r := RepCount(grid, frameLen);
    assert ratio * frameLen == grid;
    RatioBelowOne(grid, frameLen);
    if grid >= frameLen {
      FloorTimes(grid, frameLen);
    }
  }

  /** The repetition count of every distinct frame length, ascending by length. */
  function RepCounts(grid: real, lens: seq<real>): (r: seq<int>)
    requires 0.0 !in lens
    ensures var u := SortedUnique(lens);
      |r| == |u| && forall j :: 0 <= j < |u| ==> r[j] == RepCount(grid, u[j])
  {
    var u := SortedUnique(lens);
    seq(|u|, j requires 0 <= j < |u| => assert u[j] in lens; RepCount(grid, u[j]))
  }

  /** `_calculate_audio_frames_reps`: one count per distinct frame length, in
      ascending order of length. */
  method CalculateAudioFramesReps(grid: real, lens: seq<real>) returns (reps: seq<int>)
    requires 0.0 !in lens
    ensures reps == RepCounts(grid, lens)
  {
    var u := SortedUnique(lens);
    reps := [];
    for i := 0 to |u|
      invariant |reps| == i
      invariant forall j :: 0 <= j < i ==> reps[j] == RepCount(grid, u[j])
    {
      assert u[i] in lens;
      var ratio := grid / u[i];
      var myReps;
      if ratio < 1.0 {
        myReps := Ceil(ratio);
      } else {
        myReps := Floor(ratio);
      }
      reps := reps + [myReps];
    }
  }

  // ---------------------------------------------------------------------------
  // Notes
  // ---------------------------------------------------------------------------

  /** The scale's notes an octave down, followed by the notes themselves. */
  function OctaveNotes(notes: seq<int>): (r: seq<int>)
    ensures |r| == 2 * |notes|
    ensures r[|notes|..] == notes
    ensures forall i :: 0 <= i < |notes| ==> r[i] + 12 == r[i + |notes|]
  {
    seq(|notes|, i requires 0 <= i < |notes| => notes[i] - 12) + notes
  }

  lemma OctaveNotesExample()
    ensures OctaveNotes([0, 4, 7]) == [-12, -8, -5, 0, 4, 7]
  {
  }
}
