/** Job naming and configuration: the job type and channel index validators,
    the table of local and cloud paths derived from a job id, the selection of
    one channel's parameters from a parsed job document, and job id
    sanitising. */
module Utils {
  import opened Results
  import opened PySeq
  import opened PyStr

  datatype JobError = InvalidJobType | InvalidIndex | MissingSegment | MissingEntry

  // ---------------------------------------------------------------------
  // Validators
  // ---------------------------------------------------------------------

  datatype JobType =
    | JobIdPath | ProcessedJobPath | AssetPath
    | MixdownJobPath | MixdownJobPathMaster | MixdownJobPathPkl

  /** The literal a job type is written as. */
  function JobTypeName(t: JobType): string
  {
    match t
    case JobIdPath => "job_id_path"
    case ProcessedJobPath => "processed_job_path"
    case AssetPath => "asset_path"
    case MixdownJobPath => "mixdown_job_path"
    case MixdownJobPathMaster => "mixdown_job_path_master"
    case MixdownJobPathPkl => "mixdown_job_path_pkl"
  }

  /** JobTypeValidator: exactly the six literals are accepted. */
  function ValidateJobType(v: string): (r: Result<JobType, JobError>)
    ensures r.Ok? ==> JobTypeName(r.value) == v
    ensures r.Err? ==> r.error == InvalidJobType && forall t :: JobTypeName(t) != v
  {
    if v == "job_id_path" then Ok(JobIdPath)
    else if v == "processed_job_path" then Ok(ProcessedJobPath)
    else if v == "asset_path" then Ok(AssetPath)
    else if v == "mixdown_job_path" then Ok(MixdownJobPath)
    else if v == "mixdown_job_path_master" then Ok(MixdownJobPathMaster)
    else if v == "mixdown_job_path_pkl" then Ok(MixdownJobPathPkl)
    else Err(InvalidJobType)
  }

  /** Every job type's literal validates to that job type. */
  lemma JobTypeRoundTrip(t: JobType)
    ensures ValidateJobType(JobTypeName(t)) == Ok(t)
  {
  }

  lemma InvalidJobTypeExample()
    ensures ValidateJobType("invalid_job_type") == Err(InvalidJobType)
  {
  }

  /** JobConfigValidator: a channel index between 0 and 5. */
  function ValidateIndex(v: int): (r: Result<nat, JobError>)
    ensures r.Ok? <==> 0 <= v <= 5
    ensures r.Ok? ==> r.value == v
    ensures r.Err? ==> r.error == InvalidIndex
  {
    if v in [0, 1, 2, 3, 4, 5] then Ok(v) else Err(InvalidIndex)
  }

  // ---------------------------------------------------------------------
  // Path table
  // ---------------------------------------------------------------------

  /** The dictionary path_resolver returns, one field per key. */
  datatype JobPaths = JobPaths(
    cloudPath: string,
    localPath: string,
    localPathProcessed: string,
    cloudPathProcessed: string,
    localPathProcessedPkl: string,
    cloudPathProcessedPkl: string,
    localPathPreMixdownMp3: string,
    localPathPreMixdownPkl: string,
    localPathMixdownPkl: string,
    cloudPathMixdownPkl: string,
    localPathMixdownWav: string,
    cloudPathMixdownWav: string,
    localPathMixdownMp3: string,
    cloudPathMixdownMp3: string,
    localPathMixdownMp3Master: string,
    cloudPathMixdownMp3Master: string,
    localPathMixdownWavMaster: string,
    cloudPathMixdownWavMaster: string,
    sanitizedJobId: string)

  /** The job id's second '/'-segment with every ".json" removed. A job id
      without '/' has no second segment (IndexError). */
  function SegmentId(jobId: string): (r: Result<string, JobError>)
    ensures r.Err? <==> '/' !in jobId
    ensures r.Ok? ==> '/' !in r.value
  {
    var parts := Split(jobId, '/');
    if |parts| < 2 then
      SplitWithoutSep(jobId, '/');
      Err(MissingSegment)
    else
      ReplaceAllKeepsOut(parts[1], ".json", "", '/');
      Ok(ReplaceAll(parts[1], ".json", ""))
  }

  /** For a job id a/b/... (or a/b) whose first two segments are a and b,
      the segment is b with every ".json" removed. */
  lemma SegmentIdOfJobId(a: string, b: string, c: string)
    requires '/' !in a && '/' !in b && (c == [] || c[0] == '/')
    ensures SegmentId(a + "/" + b + c) == Ok(ReplaceAll(b, ".json", ""))
  {
    SecondSegment(a, b, c);
  }

  lemma SecondSegment(a: string, b: string, c: string)
    requires '/' !in a && '/' !in b && (c == [] || c[0] == '/')
    ensures var parts := Split(a + "/" + b + c, '/');
      |parts| >= 2 && parts[1] == b
  {
    if c == [] {
      assert a + "/" + b + c == a + ['/'] + b;
      SplitTwo(a, b, '/');
    } else {
      var t := c[1..];
      assert c == ['/'] + t;
      assert a + "/" + b + c == a + ['/'] + (b + ['/'] + t);
      SplitThree(a, b, t, '/');
    }
  }

  /** JobConfig.path_resolver */
  function PathResolver(jobId: string, channelIndex: int, randomId: string): (r: Result<JobPaths, JobError>)
    ensures r.Err? <==> '/' !in jobId
    ensures r.Ok? ==> r.value.cloudPath == jobId && Ok(r.value.sanitizedJobId) == SegmentId(jobId)
  {
    var seg :- SegmentId(jobId);
    var ch := IntToString(channelIndex);
    var localMixdown := "temp/mixdown_" + randomId + "_" + seg;
    var cloudMixdown := "mixdown/mixdown_" + randomId + "_" + seg;
    Ok(JobPaths(
      cloudPath := jobId,
      localPath := "temp/" + seg + ".json",
      localPathProcessed := "temp/sequences_" + seg + "_" + ch + ".mp3",
      cloudPathProcessed := "sequences/" + seg + "_" + ch + ".mp3",
      localPathProcessedPkl := "temp/sequences_" + seg + "_" + ch + ".pkl",
      cloudPathProcessedPkl := "sequences/" + seg + "_" + ch + ".pkl",
      localPathPreMixdownMp3 := "temp/pre_mixdown_" + randomId + "_" + seg + "__" + ch + ".mp3",
      localPathPreMixdownPkl := "temp/pre_mixdown_" + randomId + "_" + seg + "__" + ch + ".pkl",
      localPathMixdownPkl := localMixdown + "_" + ch + ".pkl",
      cloudPathMixdownPkl := cloudMixdown + "_" + ch + ".pkl",
      localPathMixdownWav := localMixdown + "_" + ch + ".wav",
      cloudPathMixdownWav := cloudMixdown + "_" + ch + ".wav",
      localPathMixdownMp3 := localMixdown + "_" + ch + ".mp3",
      cloudPathMixdownMp3 := cloudMixdown + "_" + ch + ".mp3",
      localPathMixdownMp3Master := localMixdown + "_master.mp3",
      cloudPathMixdownMp3Master := cloudMixdown + "_master.mp3",
      localPathMixdownWavMaster := localMixdown + "_master.wav",
      cloudPathMixdownWavMaster := cloudMixdown + "_master.wav",
      sanitizedJobId := seg))
  }

  lemma SplitWithoutSep(s: string, sep: char)
    ensures |Split(s, sep)| < 2 <==> sep !in s
  {
  }

  /** Removing or replacing a pattern introduces no character that neither the
      text nor the replacement holds. */
  lemma {:induction false} ReplaceAllKeepsOut(s: string, pat: string, rep: string, c: char)
    requires pat != [] && c !in s && c !in rep
    ensures c !in ReplaceAll(s, pat, rep)
    decreases |s|
  {
    if |s| >= |pat| {
      if s[..|pat|] == pat {
        ReplaceAllKeepsOut(s[|pat|..], pat, rep, c);
      } else {
        ReplaceAllKeepsOut(s[1..], pat, rep, c);
      }
    }
  }

  /** The local job file is named after the sanitized id: its basename is
      "<id>.json" and it lives directly under temp/. */
  lemma LocalPathBasename(jobId: string, channelIndex: int, randomId: string)
    requires '/' in jobId
    ensures var p := PathResolver(jobId, channelIndex, randomId).value;
      Basename(p.localPath) == p.sanitizedJobId + ".json" &&
      p.localPath == PathJoin("temp", Basename(p.localPath))
  {
    var p := PathResolver(jobId, channelIndex, randomId).value;
    TempChild(p.sanitizedJobId, ".json");
  }

  /** temp/<stem><ext> is named <stem><ext> and is temp joined with that name. */
  lemma TempChild(stem: string, ext: string)
    requires '/' !in stem && '/' !in ext
    ensures Basename("temp/" + stem + ext) == stem + ext
    ensures PathJoin("temp", stem + ext) == "temp/" + stem + ext
  {
    var name := stem + ext;
    assert '/' !in name;
    assert "temp/" + stem + ext == "temp/" + name;
    BasenameOfJoin("temp/", name);
    TempJoin(name);
  }

  lemma TempJoin(name: string)
    requires '/' !in name
    ensures PathJoin("temp", name) == "temp/" + name
  {
    NotRooted(name);
  }

  /** Every local mixdown path starts with temp/mixdown_<rid>_<id> and ends in
      the channel or master suffix. */
  lemma LocalMixdownPathShapes(jobId: string, channelIndex: int, randomId: string)
    requires '/' in jobId
    ensures var p := PathResolver(jobId, channelIndex, randomId).value;
      var ch := IntToString(channelIndex);
      var stem := "temp/mixdown_" + randomId + "_" + p.sanitizedJobId;
      StartsWith(p.localPathMixdownMp3, stem) && EndsWith(p.localPathMixdownMp3, "_" + ch + ".mp3") &&
      StartsWith(p.localPathMixdownWav, stem) && EndsWith(p.localPathMixdownWav, "_" + ch + ".wav") &&
      StartsWith(p.localPathMixdownPkl, stem) && EndsWith(p.localPathMixdownPkl, "_" + ch + ".pkl") &&
      StartsWith(p.localPathMixdownMp3Master, stem) && EndsWith(p.localPathMixdownMp3Master, "_master.mp3") &&
      StartsWith(p.localPathMixdownWavMaster, stem) && EndsWith(p.localPathMixdownWavMaster, "_master.wav")
  {
    var p := PathResolver(jobId, channelIndex, randomId).value;
    var ch := IntToString(channelIndex);
    var stem := "temp/mixdown_" + randomId + "_" + p.sanitizedJobId;
    StemSuffixes(stem, ch);
  }

  /** Every cloud mixdown path starts with mixdown/mixdown_<rid>_<id> and ends
      in the channel or master suffix. */
  lemma CloudMixdownPathShapes(jobId: string, channelIndex: int, randomId: string)
    requires '/' in jobId
    ensures var p := PathResolver(jobId, channelIndex, randomId).value;
      var ch := IntToString(channelIndex);
      var stem := "mixdown/mixdown_" + randomId + "_" + p.sanitizedJobId;
      StartsWith(p.cloudPathMixdownMp3, stem) && EndsWith(p.cloudPathMixdownMp3, "_" + ch + ".mp3") &&
      StartsWith(p.cloudPathMixdownWav, stem) && EndsWith(p.cloudPathMixdownWav, "_" + ch + ".wav") &&
      StartsWith(p.cloudPathMixdownPkl, stem) && EndsWith(p.cloudPathMixdownPkl, "_" + ch + ".pkl") &&
      StartsWith(p.cloudPathMixdownMp3Master, stem) && EndsWith(p.cloudPathMixdownMp3Master, "_master.mp3") &&
      StartsWith(p.cloudPathMixdownWavMaster, stem) && EndsWith(p.cloudPathMixdownWavMaster, "_master.wav")
  {
    var p := PathResolver(jobId, channelIndex, randomId).value;
    var ch := IntToString(channelIndex);
    var stem := "mixdown/mixdown_" + randomId + "_" + p.sanitizedJobId;
    StemSuffixes(stem, ch);
  }

  /** The pre-mixdown paths start with temp/pre_mixdown_<rid>_<id> and end in
      a double underscore before the channel. */
  lemma PreMixdownPathShapes(jobId: string, channelIndex: int, randomId: string)
    requires '/' in jobId
    ensures var p := PathResolver(jobId, channelIndex, randomId).value;
      var ch := IntToString(channelIndex);
      var stem := "temp/pre_mixdown_" + randomId + "_" + p.sanitizedJobId;
      StartsWith(p.localPathPreMixdownMp3, stem) && EndsWith(p.localPathPreMixdownMp3, "__" + ch + ".mp3") &&
      StartsWith(p.localPathPreMixdownPkl, stem) && EndsWith(p.localPathPreMixdownPkl, "__" + ch + ".pkl")
  {
    var p := PathResolver(jobId, channelIndex, randomId).value;
    var ch := IntToString(channelIndex);
    var stem := "temp/pre_mixdown_" + randomId + "_" + p.sanitizedJobId;
    assert p.localPathPreMixdownMp3 == stem + ("__" + ch + ".mp3");
    assert p.localPathPreMixdownPkl == stem + ("__" + ch + ".pkl");
    PrefixSuffix(stem, "__" + ch + ".mp3");
    PrefixSuffix(stem, "__" + ch + ".pkl");
  }

  lemma StemSuffixes(stem: string, ch: string)
    ensures StartsWith(stem + "_" + ch + ".mp3", stem) && EndsWith(stem + "_" + ch + ".mp3", "_" + ch + ".mp3")
    ensures StartsWith(stem + "_" + ch + ".wav", stem) && EndsWith(stem + "_" + ch + ".wav", "_" + ch + ".wav")
    ensures StartsWith(stem + "_" + ch + ".pkl", stem) && EndsWith(stem + "_" + ch + ".pkl", "_" + ch + ".pkl")
    ensures StartsWith(stem + "_master.mp3", stem) && EndsWith(stem + "_master.mp3", "_master.mp3")
    ensures StartsWith(stem + "_master.wav", stem) && EndsWith(stem + "_master.wav", "_master.wav")
  {
    assert stem + "_" + ch + ".mp3" == stem + ("_" + ch + ".mp3");
    assert stem + "_" + ch + ".wav" == stem + ("_" + ch + ".wav");
    assert stem + "_" + ch + ".pkl" == stem + ("_" + ch + ".pkl");
    PrefixSuffix(stem, "_" + ch + ".mp3");
    PrefixSuffix(stem, "_" + ch + ".wav");
    PrefixSuffix(stem, "_" + ch + ".pkl");
    PrefixSuffix(stem, "_master.mp3");
    PrefixSuffix(stem, "_master.wav");
  }

  lemma PrefixSuffix(a: string, b: string)
    ensures StartsWith(a + b, a) && EndsWith(a + b, b)
  {
    assert (a + b)[..|a|] == a;
    assert (a + b)[|a|..] == b;
  }

  /** Replacing ".mp3" by ".pkl" in a processed mp3 path gives the matching
      pkl path, provided the sanitized id does not itself hold ".mp3". */
  lemma ProcessedPklFromMp3(jobId: string, channelIndex: int, randomId: string)
    requires '/' in jobId
    requires !Contains(PathResolver(jobId, channelIndex, randomId).value.sanitizedJobId, ".mp3")
    ensures var p := PathResolver(jobId, channelIndex, randomId).value;
      ReplaceAll(p.localPathProcessed, ".mp3", ".pkl") == p.localPathProcessedPkl &&
      ReplaceAll(p.cloudPathProcessed, ".mp3", ".pkl") == p.cloudPathProcessedPkl
  {
    var p := PathResolver(jobId, channelIndex, randomId).value;
    var id := p.sanitizedJobId;
    var ch := IntToString(channelIndex);
    NoDotInChannel(channelIndex);
    LiteralFacts();
    ExtensionSwap("temp/sequences_", id, "_", ch, ".mp3", ".pkl");
    ExtensionSwap("sequences/", id, "_", ch, ".mp3", ".pkl");
  }

  /** A rendered channel number holds no '.'. */
  lemma NoDotInChannel(channelIndex: int)
    ensures '.' !in IntToString(channelIndex)
  {
  }

  lemma LiteralFacts()
    ensures ".mp3"[0] == '.' && '_' !in ".mp3" && '.' !in "_"
    ensures '.' !in "temp/sequences_" && '.' !in "sequences/"
  {
  }

  /** dir + id + sep + ch + pat becomes dir + id + sep + ch + rep when no match
      can start in dir, sep or ch and id holds no match. */
  lemma ExtensionSwap(dir: string, id: string, sep: string, ch: string, pat: string, rep: string)
    requires pat != [] && pat[0] !in dir && pat[0] !in sep && pat[0] !in ch && sep != [] && sep[0] !in pat
    requires !Contains(id, pat)
    ensures ReplaceAll(dir + id + sep + ch + pat, pat, rep) == dir + id + sep + ch + rep
  {
    var rest := (sep + ch) + pat;
    TailSwap(sep + ch, pat, rep);
    assert rest[0] == sep[0];
    ReplaceAllNoStraddle(id, rest, pat, rep);
    ReplaceAllInertPrefix(dir, id + rest, pat, rep);
    Regroup(dir, id, sep, ch, pat);
    Regroup(dir, id, sep, ch, rep);
  }

  /** Five pieces joined left to right, grouped the way ExtensionSwap peels them. */
  lemma Regroup(dir: string, id: string, sep: string, ch: string, x: string)
    ensures dir + id + sep + ch + x == dir + (id + ((sep + ch) + x))
  {
  }

  /** A tail free of the pattern's first character, then the pattern. */
  lemma TailSwap(tail: string, pat: string, rep: string)
    requires pat != [] && pat[0] !in tail
    ensures ReplaceAll(tail + pat, pat, rep) == tail + rep
  {
    ReplaceAllInertPrefix(tail, pat, pat, rep);
    PatternAlone(pat, rep);
  }

  /** The pattern on its own becomes the replacement. */
  lemma PatternAlone(pat: string, rep: string)
    requires pat != []
    ensures ReplaceAll(pat, pat, rep) == rep
  {
    assert pat[..|pat|] == pat;
    assert pat[|pat|..] == [];
    assert rep + [] == rep;
  }

  /** The second segment of job_ids/<stem>.json is the stem, when the stem
      holds neither '.' nor '/'. */
  lemma SegmentOfJobFile(stem: string)
    requires '.' !in stem && '/' !in stem
    ensures SegmentId("job_ids/" + stem + ".json") == Ok(stem)
  {
    var jobId := "job_ids/" + stem + ".json";
    assert jobId == "job_ids" + ['/'] + (stem + ".json");
    IndexOfAfter("job_ids", '/', stem + ".json");
    assert jobId[..7] == "job_ids";
    assert jobId[8..] == stem + ".json";
    assert '/' !in stem + ".json";
    assert Split(jobId, '/') == ["job_ids", stem + ".json"];
    ReplaceAllInertPrefix(stem, ".json", ".json", "");
    assert ".json" == ".json" + [];
    ReplaceAllLeading([], ".json", "");
    assert stem + [] == stem;
  }

  // ---------------------------------------------------------------------
  // Channel parameters
  // ---------------------------------------------------------------------

  /** The parsed job document: one entry per channel for paths, rhythm
      configuration and temperature knobs, and the global values at index 0. */
  datatype JobDocument = JobDocument(
    localPaths: seq<string>,
    cloudPaths: seq<string>,
    bpm: seq<real>,
    scaleValue: seq<string>,
    keyValue: seq<string>,
    rythmConfigList: seq<seq<int>>,
    pitchTemperatureKnobList: seq<seq<real>>)

  datatype JobParams = JobParams(
    localPaths: string,
    cloudPaths: string,
    bpm: real,
    scaleValue: string,
    keyValue: string,
    rythmConfig: seq<int>,
    pitchTemperatureKnobs: seq<real>)

  /** Every list of the document has an entry at index i. */
  predicate HasChannel(doc: JobDocument, i: nat)
  {
    i < |doc.localPaths| && i < |doc.cloudPaths| && i < |doc.rythmConfigList| &&
    i < |doc.pitchTemperatureKnobList| && doc.bpm != [] && doc.scaleValue != [] && doc.keyValue != []
  }

  /** JobConfig.get_job_params on an already parsed document: the channel's
      entries at the validated index, the global values at index 0. */
  function GetJobParams(doc: JobDocument, channelIndex: int): (r: Result<JobParams, JobError>)
    ensures !(0 <= channelIndex <= 5) ==> r == Err(InvalidIndex)
    ensures 0 <= channelIndex <= 5 ==> (r.Ok? <==> HasChannel(doc, channelIndex))
    ensures r.Ok? ==>
      var i := channelIndex;
      r.value.localPaths == doc.localPaths[i] && r.value.cloudPaths == doc.cloudPaths[i] &&
      r.value.rythmConfig == doc.rythmConfigList[i] &&
      r.value.pitchTemperatureKnobs == doc.pitchTemperatureKnobList[i] &&
      r.value.bpm == doc.bpm[0] && r.value.scaleValue == doc.scaleValue[0] && r.value.keyValue == doc.keyValue[0]
  {
    var i :- ValidateIndex(channelIndex);
    if !HasChannel(doc, i) then Err(MissingEntry)
    else
      Ok(JobParams(doc.localPaths[i], doc.cloudPaths[i], doc.bpm[0], doc.scaleValue[0], doc.keyValue[0],
                   doc.rythmConfigList[i], doc.pitchTemperatureKnobList[i]))
  }

  /** Two documents that agree on channel i and on the global values give
      channel i the same parameters, whatever the other channels hold. */
  lemma ChannelParamsIndependent(a: JobDocument, b: JobDocument, i: nat)
    requires i <= 5 && HasChannel(a, i) && HasChannel(b, i)
    requires a.localPaths[i] == b.localPaths[i] && a.cloudPaths[i] == b.cloudPaths[i]
    requires a.rythmConfigList[i] == b.rythmConfigList[i]
    requires a.pitchTemperatureKnobList[i] == b.pitchTemperatureKnobList[i]
    requires a.bpm[0] == b.bpm[0] && a.scaleValue[0] == b.scaleValue[0] && a.keyValue[0] == b.keyValue[0]
    ensures GetJobParams(a, i) == GetJobParams(b, i)
  {
  }

  // ---------------------------------------------------------------------
  // sanitize_job_id
  // ---------------------------------------------------------------------

  /** JobUtils.sanitize_job_id and JobCleanUp.sanitize_job_id: every ".json"
      removed, then every "job_ids/". */
  function SanitizeJobId(jobId: string): string
  {
    ReplaceAll(ReplaceAll(jobId, ".json", ""), "job_ids/", "")
  }

  /** A job file name under job_ids/ sanitizes to its stem, when the stem
      holds neither '.' nor '/'. */
  lemma SanitizeJobFileName(stem: string)
    requires '.' !in stem && '/' !in stem
    ensures SanitizeJobId("job_ids/" + stem + ".json") == stem
  {
    var dir := "job_ids/";
    ReplaceAllInertPrefix(dir + stem, ".json", ".json", "");
    assert ".json" == ".json" + [];
    ReplaceAllLeading([], ".json", "");
    assert dir + stem + [] == dir + stem;
    ReplaceAllLeading(stem, dir, "");
    MissingCharNotContained(stem, dir, 7);
    ReplaceAllAbsent(stem, dir, "");
  }

  lemma SanitizeJobIdExample()
    ensures SanitizeJobId("job_ids/test.json") == "test"
  {
    var jobId := "job_ids/test.json";
    assert jobId == "job_ids/" + "test" + ".json";
    SanitizeJobFileName("test");
  }

  /** On such a job file name the path table's sanitized id and
      sanitize_job_id agree. */
  lemma SanitizersAgree(stem: string, channelIndex: int, randomId: string)
    requires '.' !in stem && '/' !in stem
    ensures var r := PathResolver("job_ids/" + stem + ".json", channelIndex, randomId);
      r.Ok? && r.value.sanitizedJobId == SanitizeJobId("job_ids/" + stem + ".json")
  {
    SegmentOfJobFile(stem);
    SanitizeJobFileName(stem);
  }
}
