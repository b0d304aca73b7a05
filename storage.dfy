/** Object storage naming: which stored names a mixdown listing keeps, which
    local and cloud path pair a job asset type moves between, the keys a batch
    upload writes, and the request a server-side copy sends. */
module Storage {
  import opened Results
  import opened PySeq
  import opened PyStr
  import opened Utils

  // ---------------------------------------------------------------------
  // StorageEngineDownloader.filter_files
  // ---------------------------------------------------------------------

  /** `any(id_str in file for id_str in ids)` */
  function AnyIdIn(file: string, ids: seq<string>): (r: bool)
    ensures r <==> exists i :: 0 <= i < |ids| && Contains(file, ids[i])
  {
    if ids == [] then false
    else if Contains(file, ids[0]) then true
    else
      assert forall i :: 1 <= i < |ids| ==> ids[i] == ids[1..][i - 1];
      AnyIdIn(file, ids[1..])
  }

  /** Whether filter_files keeps a name. */
  predicate Keep(file: string, suffix: string, ids: seq<string>)
  {
    EndsWith(file, suffix) && AnyIdIn(file, ids)
  }

  /** The names filter_files keeps, in their original order. */
  function Filtered(files: seq<string>, suffix: string, ids: seq<string>): seq<string>
  {
    if files == [] then []
    else
      var last := files[|files| - 1];
      Filtered(files[..|files| - 1], suffix, ids) + (if Keep(last, suffix, ids) then [last] else [])
  }

  /** filter_files: one pass over the listing, appending every name that ends
      with the suffix and holds one of the ids. */
  method FilterFiles(fileList: seq<string>, suffix: string, mixdownIds: seq<string>) returns (filteredList: seq<string>)
    ensures filteredList == Filtered(fileList, suffix, mixdownIds)
  {
    filteredList := [];
    for i := 0 to |fileList|
      invariant filteredList == Filtered(fileList[..i], suffix, mixdownIds)
    {
      var file := fileList[i];
      assert fileList[..i + 1][..i] == fileList[..i];
      if EndsWith(file, suffix) {
        if AnyIdIn(file, mixdownIds) {
          filteredList := filteredList + [file];
        }
      }
    }
    assert fileList[..|fileList|] == fileList;
  }

  /** A name is kept exactly when it is listed and passes both tests. */
  lemma {:induction false} FilteredMembership(files: seq<string>, suffix: string, ids: seq<string>, x: string)
    ensures x in Filtered(files, suffix, ids) <==> x in files && Keep(x, suffix, ids)
  {
    if files != [] {
      var init := files[..|files| - 1];
      assert files == init + [files[|files| - 1]];
      FilteredMembership(init, suffix, ids, x);
    }
  }

  /** Every kept name appears as often as in the listing; the others never. */
  lemma {:induction false} FilteredCount(files: seq<string>, suffix: string, ids: seq<string>, x: string)
    ensures Count(Filtered(files, suffix, ids), x) == if Keep(x, suffix, ids) then Count(files, x) else 0
  {
    if files == [] {
    } else {
      var init := files[..|files| - 1];
      var last := files[|files| - 1];
      assert files == init + [last];
      FilteredCount(init, suffix, ids, x);
      CountAppend(init, last, x);
      if Keep(last, suffix, ids) {
        CountAppend(Filtered(init, suffix, ids), last, x);
      } else {
        assert Filtered(files, suffix, ids) == Filtered(init, suffix, ids) + [];
        assert Filtered(init, suffix, ids) + [] == Filtered(init, suffix, ids);
      }
    }
  }

  /** Filtering a listing in two parts and concatenating gives the filtered
      listing: the kept names keep their relative order. */
  lemma {:induction false} FilteredConcat(a: seq<string>, b: seq<string>, suffix: string, ids: seq<string>)
    ensures Filtered(a + b, suffix, ids) == Filtered(a, suffix, ids) + Filtered(b, suffix, ids)
  {
    if b == [] {
      assert a + b == a;
    } else {
      var init := b[..|b| - 1];
      var last := b[|b| - 1];
      assert (a + b)[..|a + b| - 1] == a + init;
      assert (a + b)[|a + b| - 1] == last;
      FilteredConcat(a, init, suffix, ids);
    }
  }

  /** Filtering an already filtered listing changes nothing. */
  lemma {:induction false} FilteredIdempotent(files: seq<string>, suffix: string, ids: seq<string>)
    ensures Filtered(Filtered(files, suffix, ids), suffix, ids) == Filtered(files, suffix, ids)
  {
    if files != [] {
      var init := files[..|files| - 1];
      var last := files[|files| - 1];
      FilteredIdempotent(init, suffix, ids);
      var k := if Keep(last, suffix, ids) then [last] else [];
      FilteredConcat(Filtered(init, suffix, ids), k, suffix, ids);
      if Keep(last, suffix, ids) {
        assert Filtered([last], suffix, ids) == Filtered([], suffix, ids) + [last];
      }
    }
  }

  /** Without ids nothing is kept, and an empty listing keeps nothing. */
  lemma {:induction false} FilteredEmpty(files: seq<string>, suffix: string, ids: seq<string>)
    ensures Filtered(files, suffix, []) == []
    ensures Filtered([], suffix, ids) == []
  {
    if files != [] {
      FilteredEmpty(files[..|files| - 1], suffix, ids);
    }
  }

  // ---------------------------------------------------------------------
  // StorageEngine.__resolve_type
  // ---------------------------------------------------------------------

  /** The {cloud_path, local_path} pair a transfer moves between. */
  datatype PathPair = PathPair(cloudPath: string, localPath: string)

  /** __resolve_type: the path table is built first, then the asset type is
      validated; the five path types read the table and asset_path reads the
      channel's parameters. */
  function ResolveType(jobId: string, channelIndex: int, randomId: string, doc: JobDocument, assetType: string)
    : (r: Result<PathPair, JobError>)
    ensures '/' !in jobId ==> r == Err(MissingSegment)
    ensures '/' in jobId && ValidateJobType(assetType).Err? ==> r == Err(InvalidJobType)
    ensures r.Ok? ==> ValidateJobType(assetType).Ok? && PathResolver(jobId, channelIndex, randomId).Ok?
    ensures '/' in jobId && ValidateJobType(assetType) == Ok(AssetPath) ==>
      match GetJobParams(doc, channelIndex)
      case Err(e) => r == Err(e)
      case Ok(p) => r == Ok(PathPair(p.cloudPaths, p.localPaths))
    ensures '/' in jobId && ValidateJobType(assetType).Ok? && ValidateJobType(assetType).value != AssetPath ==> r.Ok?
  {
    var paths :- PathResolver(jobId, channelIndex, randomId);
    var t :- ValidateJobType(assetType);
    if t == AssetPath then
      var p :- GetJobParams(doc, channelIndex);
      Ok(PathPair(p.cloudPaths, p.localPaths))
    else Ok(TablePair(paths, t))
  }

  /** The entries of the path table that a path type transfers between. */
  function TablePair(paths: JobPaths, t: JobType): PathPair
    requires t != AssetPath
  {
    match t
    case JobIdPath => PathPair(paths.cloudPath, paths.localPath)
    case ProcessedJobPath => PathPair(paths.cloudPathProcessed, paths.localPathProcessed)
    case MixdownJobPath => PathPair(paths.cloudPathMixdownMp3, paths.localPathMixdownMp3)
    case MixdownJobPathMaster => PathPair(paths.cloudPathMixdownWavMaster, paths.localPathMixdownWavMaster)
    case MixdownJobPathPkl => PathPair(paths.cloudPathMixdownPkl, paths.localPathMixdownPkl)
  }

  /** A path type written as its own literal reads its pair from the table. */
  lemma ResolveKnown(jobId: string, channelIndex: int, randomId: string, doc: JobDocument, t: JobType)
    requires '/' in jobId && t != AssetPath
    ensures ResolveType(jobId, channelIndex, randomId, doc, JobTypeName(t))
         == Ok(TablePair(PathResolver(jobId, channelIndex, randomId).value, t))
  {
    JobTypeRoundTrip(t);
  }

  /** A local copy temp/<name> of an object dir/<name> keeps its basename. */
  lemma SharedName(local: string, cloud: string, dir: string, name: string)
    requires '/' !in name && dir != [] && dir[|dir| - 1] == '/'
    requires local == "temp/" + name && cloud == dir + name
    ensures StartsWith(local, "temp/") && StartsWith(cloud, dir) && Basename(local) == Basename(cloud)
  {
    BasenameOfJoin("temp/", name);
    BasenameOfJoin(dir, name);
    PrefixSuffix("temp/", name);
    PrefixSuffix(dir, name);
  }

  /** A mixdown transfer keeps the file name: the local copy under temp/ and
      the object under mixdown/ share their basename. */
  predicate KeepsMixdownName(r: Result<PathPair, JobError>)
  {
    r.Ok? && StartsWith(r.value.localPath, "temp/") && StartsWith(r.value.cloudPath, "mixdown/") &&
    Basename(r.value.localPath) == Basename(r.value.cloudPath)
  }

  /** A channel mixdown written as temp/mixdown_<rid>_<id>_<ch><ext> locally
      and mixdown/mixdown_<rid>_<id>_<ch><ext> in the bucket keeps its name. */
  lemma ChannelMixdownName(rid: string, seg: string, ch: string, ext: string)
    requires '/' !in rid && '/' !in seg && '/' !in ch && '/' !in ext
    ensures KeepsMixdownName(Ok(PathPair("mixdown/mixdown_" + rid + "_" + seg + "_" + ch + ext,
                                         "temp/mixdown_" + rid + "_" + seg + "_" + ch + ext)))
  {
    var name := "mixdown_" + rid + "_" + seg + "_" + ch + ext;
    assert '/' !in name;
    assert "temp/mixdown_" == "temp/" + "mixdown_";
    assert "mixdown/mixdown_" == "mixdown/" + "mixdown_";
    Regroup("temp/", "mixdown_", rid, "_", seg, "_", ch, ext);
    Regroup("mixdown/", "mixdown_", rid, "_", seg, "_", ch, ext);
    SharedName("temp/" + name, "mixdown/" + name, "mixdown/", name);
  }

  /** A directory prefix split off a file name built from seven pieces. */
  lemma Regroup(dir: string, x: string, a: string, b: string, c: string, d: string, e: string, f: string)
    ensures (dir + x) + a + b + c + d + e + f == dir + (x + a + b + c + d + e + f)
  {
  }

  /** The same for a master mixdown temp/mixdown_<rid>_<id><tail>. */
  lemma MasterMixdownName(rid: string, seg: string, tail: string)
    requires '/' !in rid && '/' !in seg && '/' !in tail
    ensures KeepsMixdownName(Ok(PathPair("mixdown/mixdown_" + rid + "_" + seg + tail,
                                         "temp/mixdown_" + rid + "_" + seg + tail)))
  {
    var name := "mixdown_" + rid + "_" + seg + tail;
    assert '/' !in name;
    assert "temp/mixdown_" + rid + "_" + seg + tail == "temp/" + name;
    assert "mixdown/mixdown_" + rid + "_" + seg + tail == "mixdown/" + name;
    SharedName("temp/" + name, "mixdown/" + name, "mixdown/", name);
  }

  /** mixdown_job_path moves the channel's mp3 mixdown under its own name. */
  lemma MixdownMp3KeepsName(jobId: string, channelIndex: int, randomId: string, doc: JobDocument)
    requires '/' in jobId && '/' !in randomId
    ensures KeepsMixdownName(ResolveType(jobId, channelIndex, randomId, doc, "mixdown_job_path"))
  {
    ResolveKnown(jobId, channelIndex, randomId, doc, MixdownJobPath);
    assert JobTypeName(MixdownJobPath) == "mixdown_job_path";
    var p := PathResolver(jobId, channelIndex, randomId).value;
    assert '/' !in IntToString(channelIndex);
    ChannelMixdownName(randomId, p.sanitizedJobId, IntToString(channelIndex), ".mp3");
  }

  /** mixdown_job_path_master moves the wav master under its own name. */
  lemma MixdownMasterKeepsName(jobId: string, channelIndex: int, randomId: string, doc: JobDocument)
    requires '/' in jobId && '/' !in randomId
    ensures KeepsMixdownName(ResolveType(jobId, channelIndex, randomId, doc, "mixdown_job_path_master"))
  {
    ResolveKnown(jobId, channelIndex, randomId, doc, MixdownJobPathMaster);
    assert JobTypeName(MixdownJobPathMaster) == "mixdown_job_path_master";
    var p := PathResolver(jobId, channelIndex, randomId).value;
    MasterMixdownName(randomId, p.sanitizedJobId, "_master.wav");
  }

  /** mixdown_job_path_pkl moves the channel's pickled mixdown under its own
      name. */
  lemma MixdownPklKeepsName(jobId: string, channelIndex: int, randomId: string, doc: JobDocument)
    requires '/' in jobId && '/' !in randomId
    ensures KeepsMixdownName(ResolveType(jobId, channelIndex, randomId, doc, "mixdown_job_path_pkl"))
  {
    ResolveKnown(jobId, channelIndex, randomId, doc, MixdownJobPathPkl);
    assert JobTypeName(MixdownJobPathPkl) == "mixdown_job_path_pkl";
    var p := PathResolver(jobId, channelIndex, randomId).value;
    assert '/' !in IntToString(channelIndex);
    ChannelMixdownName(randomId, p.sanitizedJobId, IntToString(channelIndex), ".pkl");
  }

  /** The processed transfer stores sequences/<name> locally as
      temp/sequences_<name>. */
  lemma ProcessedPairNames(jobId: string, channelIndex: int, randomId: string, doc: JobDocument)
    requires '/' in jobId
    ensures var r := ResolveType(jobId, channelIndex, randomId, doc, "processed_job_path");
      r.Ok? && r.value.cloudPath == PathJoin("sequences", Basename(r.value.cloudPath)) &&
      r.value.localPath == "temp/sequences_" + Basename(r.value.cloudPath)
  {
    ResolveKnown(jobId, channelIndex, randomId, doc, ProcessedJobPath);
    assert JobTypeName(ProcessedJobPath) == "processed_job_path";
    var p := PathResolver(jobId, channelIndex, randomId).value;
    var r := ResolveType(jobId, channelIndex, randomId, doc, "processed_job_path");
    assert r == Ok(PathPair(p.cloudPathProcessed, p.localPathProcessed));
    var ch := IntToString(channelIndex);
    var name := p.sanitizedJobId + "_" + ch + ".mp3";
    assert '/' !in ch;
    SequencesGroup(p.sanitizedJobId, ch);
    SequencesNames(p.cloudPathProcessed, p.localPathProcessed, name);
  }

  lemma SequencesGroup(seg: string, ch: string)
    ensures "sequences/" + seg + "_" + ch + ".mp3" == "sequences/" + (seg + "_" + ch + ".mp3")
    ensures "temp/sequences_" + seg + "_" + ch + ".mp3" == "temp/sequences_" + (seg + "_" + ch + ".mp3")
  {
  }

  lemma SequencesNames(cloud: string, local: string, name: string)
    requires '/' !in name && cloud == "sequences/" + name && local == "temp/sequences_" + name
    ensures cloud == PathJoin("sequences", Basename(cloud)) && local == "temp/sequences_" + Basename(cloud)
  {
    BasenameOfJoin("sequences/", name);
    NotRooted(name);
    assert "sequences" + "/" + name == cloud;
  }

  /** For a job file job_ids/<stem>.json the job transfer keeps the file name:
      it is downloaded to temp/<stem>.json. */
  lemma JobFilePairKeepsName(stem: string, channelIndex: int, randomId: string, doc: JobDocument)
    requires '.' !in stem && '/' !in stem
    ensures var r := ResolveType("job_ids/" + stem + ".json", channelIndex, randomId, doc, "job_id_path");
      r == Ok(PathPair("job_ids/" + stem + ".json", "temp/" + stem + ".json")) &&
      Basename(r.value.localPath) == Basename(r.value.cloudPath)
  {
    JobTypeRoundTrip(JobIdPath);
    var jobId := "job_ids/" + stem + ".json";
    SegmentOfJobFile(stem);
    assert '/' in jobId by { assert jobId[7] == '/'; }
    assert '/' !in stem + ".json";
    assert jobId == "job_ids/" + (stem + ".json");
    assert "temp/" + stem + ".json" == "temp/" + (stem + ".json");
    BasenameOfJoin("job_ids/", stem + ".json");
    BasenameOfJoin("temp/", stem + ".json");
  }

  // ---------------------------------------------------------------------
  // StoreEngineMultiFile.upload_list_of_objects
  // ---------------------------------------------------------------------

  /** The cloud key of each file: the bucket path joined with its basename. */
  function UploadKeys(files: seq<string>, bucketPath: string): (keys: seq<string>)
    ensures |keys| == |files|
  {
    seq(|files|, i requires 0 <= i < |files| => PathJoin(bucketPath, Basename(files[i])))
  }

  /** Each key keeps its file's basename and lies under the bucket path. */
  lemma UploadKeysKeepNames(files: seq<string>, bucketPath: string)
    ensures var keys := UploadKeys(files, bucketPath);
      forall i :: 0 <= i < |files| ==> Basename(keys[i]) == Basename(files[i]) && StartsWith(keys[i], bucketPath)
  {
    forall i | 0 <= i < |files|
      ensures Basename(UploadKeys(files, bucketPath)[i]) == Basename(files[i])
      ensures StartsWith(UploadKeys(files, bucketPath)[i], bucketPath)
    {
      var name := Basename(files[i]);
      NotRooted(name);
      JoinedBasename(bucketPath, name);
    }
  }

  /** A file dir/<name> uploaded under a bucket path without a trailing '/'
      is stored as <bucket path>/<name>. */
  lemma UploadKeyOfFile(dir: string, name: string, bucketPath: string)
    requires '/' !in name && name != [] && bucketPath != [] && bucketPath[|bucketPath| - 1] != '/'
    ensures UploadKeys([dir + "/" + name], bucketPath) == [bucketPath + "/" + name]
  {
    assert dir + "/" + name == (dir + "/") + name;
    BasenameOfJoin(dir + "/", name);
    assert name[0] != '/';
  }

  /** upload_list_of_objects: the keys of the files, and a status that holds
      exactly when the client started and every single upload succeeded.
      The outcome of the client start and of each upload is given. */
  method UploadListOfObjects(files: seq<string>, bucketPath: string, clientOk: bool, uploadOk: seq<bool>)
    returns (status: bool, cloudPaths: seq<string>)
    requires |uploadOk| == |files|
    ensures cloudPaths == UploadKeys(files, bucketPath)
    ensures status <==> clientOk && forall i :: 0 <= i < |files| ==> uploadOk[i]
  {
    cloudPaths := UploadKeys(files, bucketPath);
    status := true;
    if !clientOk {
      status := false;
    } else {
      for i := 0 to |files|
        invariant status <==> forall j :: 0 <= j < i ==> uploadOk[j]
      {
        if !uploadOk[i] {
          status := false;
        }
      }
    }
  }

  // ---------------------------------------------------------------------
  // StorageEngineDownloader.copy_objects
  // ---------------------------------------------------------------------

  /** The arguments of the server-side copy. */
  datatype CopyRequest = CopyRequest(bucket: string, key: string, copySource: string)

  /** copy_objects: copy <bucket>/<source key> to the destination key of the
      same bucket. */
  function CopyObjects(bucket: string, sourceKey: string, destinationKey: string): (r: CopyRequest)
    ensures r.bucket == bucket && r.key == destinationKey
    ensures '/' !in bucket ==>
      '/' in r.copySource && IndexOf(r.copySource, '/') == |bucket| &&
      r.copySource[..|bucket|] == bucket && r.copySource[|bucket| + 1..] == sourceKey
  {
    var source := bucket + "/" + sourceKey;
    assert source[|bucket|] == '/';
    assert source[..|bucket|] == bucket;
    CopyRequest(bucket, destinationKey, source)
  }

  lemma CopyObjectsExample()
    ensures CopyObjects("bucket-test", "source_key", "destination_key")
      == CopyRequest("bucket-test", "destination_key", "bucket-test/source_key")
  {
  }
}
