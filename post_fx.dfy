/** Post-processing parameters and selective muting: the validators of the
    effect request, the muting of a chosen set of frames in place, and the
    choice of a pedalboard effect from a channel's effect digit. */
module PostFx {
  import opened Results
  import opened PyNum
  import opened PySeq
  import opened PyStr

  // ---------------------------------------------------------------------
  // FxParamsModel validators
  // ---------------------------------------------------------------------

  /** The fields of the request, in declaration order. */
  datatype FxField =
    | JobIdField | FxInputField | ChannelIndexField | SelectiveMutismSwitchField
    | VolField | ChannelMuteParamsField | SelectiveMutismValueField

  /** `'job_ids' in v` */
  function ValidateJobId(v: string): (r: Option<string>)
    ensures r.Some? <==> exists i :: OccursAt(v, "job_ids", i)
    ensures r.Some? ==> r.value == v
  {
    if Contains(v, "job_ids") then Some(v) else None
  }

  /** `[x for x in v if x.isdigit()]` */
  function DigitChars(v: string): (r: seq<char>)
    ensures forall i :: 0 <= i < |r| ==> IsDigit(r[i])
    ensures forall c :: IsDigit(c) ==> multiset(r)[c] == multiset(v)[c]
  {
    if v == [] then []
    else
      assert v == [v[0]] + v[1..];
      (if IsDigit(v[0]) then [v[0]] else []) + DigitChars(v[1..])
  }

  /** The digits of fx_input; exactly six are required. */
  function ValidateFxInput(v: string): (r: Option<seq<char>>)
    ensures r.Some? <==> |DigitChars(v)| == 6
    ensures r.Some? ==> r.value == DigitChars(v)
  {
    var digits := DigitChars(v);
    if |digits| != 6 then None else Some(digits)
  }

  /** `int(v)` within 0..5. */
  function ValidateChannelIndex(v: string): (r: Option<int>)
    ensures r.Some? <==> ParseInt(v).Some? && 0 <= ParseInt(v).value <= 5
    ensures r.Some? ==> r == ParseInt(v)
  {
    match ParseInt(v)
    case None => None
    case Some(i) => if i < 0 || i > 5 then None else Some(i)
  }

  /** `[int(x) for x in parts]`; a part that is not an integer is a ValueError. */
  function ParseInts(parts: seq<string>): (r: Option<seq<int>>)
    ensures r.None? <==> exists i :: 0 <= i < |parts| && ParseInt(parts[i]).None?
    ensures r.Some? ==> |r.value| == |parts| && forall i :: 0 <= i < |parts| ==> ParseInt(parts[i]) == Some(r.value[i])
  {
    if parts == [] then Some([])
    else match ParseInt(parts[0])
      case None => None
      case Some(x) =>
        var rest := ParseInts(parts[1..]);
        if rest.None? then
          var i :| 0 <= i < |parts[1..]| && ParseInt(parts[1..][i]).None?;
          assert ParseInt(parts[i + 1]).None?;
          None
        else
          assert forall i :: 1 <= i < |parts| ==> parts[i] == parts[1..][i - 1];
          Some([x] + rest.value)
  }

  /** Python's max() of a non-empty list. */
  function MaxOf(xs: seq<int>): (m: int)
    requires xs != []
    ensures m in xs && forall x :: x in xs ==> x <= m
  {
    if |xs| == 1 then xs[0]
    else
      var rest := MaxOf(xs[1..]);
      assert forall x :: x in xs ==> x == xs[0] || x in xs[1..];
      if xs[0] >= rest then xs[0] else rest
  }

  /** vol: '_'-separated integers, none above 100 (split always yields a part,
      so `len(v)` is never 0). */
  function ValidateVol(v: string): (r: Option<seq<int>>)
    ensures r.Some? <==> ParseInts(Split(v, '_')).Some? && forall x :: x in ParseInts(Split(v, '_')).value ==> x <= 100
    ensures r.Some? ==> r == ParseInts(Split(v, '_'))
  {
    var parts := Split(v, '_');
    match ParseInts(parts)
    case None => None
    case Some(xs) => if MaxOf(xs) > 100 then None else Some(xs)
  }

  /** channel_mute_params: rejected only when there are not six parts and
      none of them is "T" (`('T' or 'F')` evaluates to 'T'). */
  function ValidateChannelMuteParams(v: string): (r: Option<seq<string>>)
    ensures r.None? <==> |Split(v, '_')| != 6 && forall p :: p in Split(v, '_') ==> p != "T"
    ensures r.Some? ==> r.value == Split(v, '_')
  {
    var parts := Split(v, '_');
    if |parts| != 6 && "T" !in parts then None else Some(parts)
  }

  /** selective_mutism_switch: "T" or "F". */
  function ValidateSwitch(v: string): (r: Option<string>)
    ensures r.Some? <==> v == "T" || v == "F"
    ensures r.Some? ==> r.value == v
  {
    if v in ["T", "F"] then Some(v) else None
  }

  /** selective_mutism_value, once parsed as a float: within [0, 1]. */
  function ValidateMutismValue(x: real): (r: Option<real>)
    ensures r.Some? <==> 0.0 <= x <= 1.0
    ensures r.Some? ==> r.value == x
  {
    if x > 1.0 || x < 0.0 then None else Some(x)
  }

  /** The request as received: every field a string, except the mutism value,
      which is given already parsed. */
  datatype RawFxParams = RawFxParams(
    jobId: string, fxInput: string, channelIndex: string, selectiveMutismSwitch: string,
    vol: string, channelMuteParams: string, selectiveMutismValue: real)

  datatype FxParams = FxParams(
    jobId: string, fxInput: seq<char>, channelIndex: int, selectiveMutismSwitch: string,
    vol: seq<int>, channelMuteParams: seq<string>, selectiveMutismValue: real)

  /** Whether the validator of field f refuses the request. */
  predicate FieldFails(raw: RawFxParams, f: FxField)
  {
    match f
    case JobIdField => ValidateJobId(raw.jobId).None?
    case FxInputField => ValidateFxInput(raw.fxInput).None?
    case ChannelIndexField => ValidateChannelIndex(raw.channelIndex).None?
    case SelectiveMutismSwitchField => ValidateSwitch(raw.selectiveMutismSwitch).None?
    case VolField => ValidateVol(raw.vol).None?
    case ChannelMuteParamsField => ValidateChannelMuteParams(raw.channelMuteParams).None?
    case SelectiveMutismValueField => ValidateMutismValue(raw.selectiveMutismValue).None?
  }

  const AllFields: seq<FxField> := [JobIdField, FxInputField, ChannelIndexField,
    SelectiveMutismSwitchField, VolField, ChannelMuteParamsField, SelectiveMutismValueField]

  /** Every field appears in the declaration list. */
  lemma AllFieldsListed()
    ensures forall f: FxField :: f in AllFields
  {
    forall f: FxField
      ensures f in AllFields
    {
      match f
      case JobIdField =>
      case FxInputField =>
      case ChannelIndexField =>
      case SelectiveMutismSwitchField =>
      case VolField =>
      case ChannelMuteParamsField =>
      case SelectiveMutismValueField =>
    }
  }

  /** The fields of fs whose validator fails, in the order of fs. */
  function FailingAmong(raw: RawFxParams, fs: seq<FxField>): (r: seq<FxField>)
    ensures forall f :: f in r <==> f in fs && FieldFails(raw, f)
    ensures |r| <= |fs|
  {
    if fs == [] then []
    else (if FieldFails(raw, fs[0]) then [fs[0]] else []) + FailingAmong(raw, fs[1..])
  }

  /** The fields whose validator fails, in declaration order. */
  function FailingFields(raw: RawFxParams): (r: seq<FxField>)
    ensures forall f :: f in r <==> FieldFails(raw, f)
  {
    AllFieldsListed();
    FailingAmong(raw, AllFields)
  }

  /** FxParamsModel(**raw): the validated request, or every failing field. */
  function ValidateFxParams(raw: RawFxParams): (r: Result<FxParams, seq<FxField>>)
    ensures r.Err? <==> FailingFields(raw) != []
    ensures r.Err? ==> r.error == FailingFields(raw)
    ensures r.Ok? ==> |r.value.fxInput| == 6 && 0 <= r.value.channelIndex <= 5 &&
                      (forall x :: x in r.value.vol ==> x <= 100) &&
                      0.0 <= r.value.selectiveMutismValue <= 1.0
    ensures r.Ok? ==> (r.value.jobId == raw.jobId && r.value.fxInput == DigitChars(raw.fxInput) &&
                       Some(r.value.channelIndex) == ParseInt(raw.channelIndex) &&
                       r.value.selectiveMutismSwitch == raw.selectiveMutismSwitch &&
                       Some(r.value.vol) == ParseInts(Split(raw.vol, '_')) &&
                       r.value.channelMuteParams == Split(raw.channelMuteParams, '_') &&
                       r.value.selectiveMutismValue == raw.selectiveMutismValue)
  {
    var failing := FailingFields(raw);
    if failing != [] then Err(failing)
    else
      assert !FieldFails(raw, FxInputField) && !FieldFails(raw, ChannelIndexField);
      assert !FieldFails(raw, SelectiveMutismSwitchField) && !FieldFails(raw, VolField);
      assert !FieldFails(raw, JobIdField) && !FieldFails(raw, ChannelMuteParamsField);
      assert !FieldFails(raw, SelectiveMutismValueField);
      Ok(FxParams(
        ValidateJobId(raw.jobId).value,
        ValidateFxInput(raw.fxInput).value,
        ValidateChannelIndex(raw.channelIndex).value,
        ValidateSwitch(raw.selectiveMutismSwitch).value,
        ValidateVol(raw.vol).value,
        ValidateChannelMuteParams(raw.channelMuteParams).value,
        ValidateMutismValue(raw.selectiveMutismValue).value))
  }

  /** Rendering volumes as '_'-joined integers and validating them gives the
      volumes back exactly when none is above 100. */
  lemma VolRoundTrip(xs: seq<int>)
    requires xs != []
    ensures var text := Join(seq(|xs|, i requires 0 <= i < |xs| => IntToString(xs[i])), '_');
      ValidateVol(text) == if forall x :: x in xs ==> x <= 100 then Some(xs) else None
  {
    var parts := seq(|xs|, i requires 0 <= i < |xs| => IntToString(xs[i]));
    RenderedPartsHaveNoSeparator(xs, parts);
    SplitJoin(parts, '_');
    RenderedPartsParse(xs, parts);
  }

  /** No rendered integer contains the '_' separator. */
  lemma RenderedPartsHaveNoSeparator(xs: seq<int>, parts: seq<string>)
    requires parts == seq(|xs|, i requires 0 <= i < |xs| => IntToString(xs[i]))
    ensures forall i :: 0 <= i < |parts| ==> '_' !in parts[i]
  {
    forall i | 0 <= i < |parts|
      ensures '_' !in parts[i]
    {
      assert parts[i] == IntToString(xs[i]);
    }
  }

  /** Parsing the rendered integers gives the integers back. */
  lemma RenderedPartsParse(xs: seq<int>, parts: seq<string>)
    requires parts == seq(|xs|, i requires 0 <= i < |xs| => IntToString(xs[i]))
    ensures ParseInts(parts) == Some(xs)
  {
    forall i | 0 <= i < |parts|
      ensures ParseInt(parts[i]) == Some(xs[i])
    {
      ParseIntOfIntToString(xs[i]);
    }
    var r := ParseInts(parts);
    assert r.Some?;
    assert r.value == xs;
  }

  /** A single "T" passes although it is one part, not six. */
  lemma LoneTPasses()
    ensures ValidateChannelMuteParams("T").Some?
  {
    assert Split("T", '_') == ["T"];
  }

  /** Parts that are all "F" are refused when there are not six of them. */
  lemma AllOffWrongCountRefused(parts: seq<string>)
    requires parts != [] && |parts| != 6
    requires forall i :: 0 <= i < |parts| ==> parts[i] == "F"
    ensures ValidateChannelMuteParams(Join(parts, '_')).None?
  {
    forall i | 0 <= i < |parts|
      ensures '_' !in parts[i]
    {
      assert parts[i] == "F";
    }
    SplitJoin(parts, '_');
    assert "T" !in parts;
  }

  /** The digits of a concatenation are the digits of each part. */
  lemma {:induction false} DigitCharsAppend(a: string, b: string)
    ensures DigitChars(a + b) == DigitChars(a) + DigitChars(b)
  {
    if a == [] {
      assert a + b == b;
    } else {
      assert (a + b)[0] == a[0] && (a + b)[1..] == a[1..] + b;
      DigitCharsAppend(a[1..], b);
    }
  }

  /** A digit followed by a non-digit contributes the digit alone. */
  lemma DigitThenSeparator(p: string)
    requires |p| == 2 && IsDigit(p[0]) && !IsDigit(p[1])
    ensures DigitChars(p) == [p[0]]
  {
    assert p[1..][1..] == [];
  }

  /** Five digit-and-separator pairs and a final non-digit leave five digits:
      one short of what fx_input requires. */
  lemma FiveDigitFxInputRefused(p0: string, p1: string, p2: string, p3: string, p4: string, last: string)
    requires |p0| == 2 && IsDigit(p0[0]) && !IsDigit(p0[1])
    requires |p1| == 2 && IsDigit(p1[0]) && !IsDigit(p1[1])
    requires |p2| == 2 && IsDigit(p2[0]) && !IsDigit(p2[1])
    requires |p3| == 2 && IsDigit(p3[0]) && !IsDigit(p3[1])
    requires |p4| == 2 && IsDigit(p4[0]) && !IsDigit(p4[1])
    requires |last| == 1 && !IsDigit(last[0])
    ensures ValidateFxInput(p0 + p1 + p2 + p3 + p4 + last).None?
  {
    DigitThenSeparator(p0);
    DigitThenSeparator(p1);
    DigitThenSeparator(p2);
    DigitThenSeparator(p3);
    DigitThenSeparator(p4);
    assert last[1..] == [];
    DigitCharsAppend(p0 + p1 + p2 + p3 + p4, last);
    DigitCharsAppend(p0 + p1 + p2 + p3, p4);
    DigitCharsAppend(p0 + p1 + p2, p3);
    DigitCharsAppend(p0 + p1, p2);
    DigitCharsAppend(p0, p1);
  }

  /** The fixture value 0_1_2_3_4_F holds five digits and is refused. */
  lemma FixtureFxInputRefused()
    ensures ValidateFxInput("0_1_2_3_4_F").None?
  {
    assert "0_1_2_3_4_F" == "0_" + "1_" + "2_" + "3_" + "4_" + "F";
    FiveDigitFxInputRefused("0_", "1_", "2_", "3_", "4_", "F");
  }

  // ---------------------------------------------------------------------
  // Selective muting (MuteEngine.__perc_to_pulse_mapper)
  // ---------------------------------------------------------------------

  /** The frames with every chosen one replaced by zeros of its own length. */
  function Muted(frames: seq<seq<real>>, chosen: seq<int>): (r: seq<seq<real>>)
    ensures |r| == |frames|
    ensures forall i :: 0 <= i < |frames| ==> |r[i]| == |frames[i]|
  {
    seq(|frames|, i requires 0 <= i < |frames| => if i in chosen then Zeros(|frames[i]|) else frames[i])
  }

  /** What random.sample(range(n), k) returns: k distinct indices below n. */
  ghost predicate SampleOf(chosen: seq<int>, n: int, k: int)
  {
    |chosen| == k && Distinct(chosen) && forall j :: 0 <= j < |chosen| ==> 0 <= chosen[j] < n
  }

  /** __perc_to_pulse_mapper: a value of 0 leaves the frames alone; otherwise
      ceil(value * n) sampled frames are overwritten with zeros in place. */
  method PercToPulseMapper(frames: array<seq<real>>, value: real, chosen: seq<int>)
    requires value != 0.0 ==> SampleOf(chosen, frames.Length, Ceil(value * frames.Length as real))
    modifies frames
    ensures value == 0.0 ==> frames[..] == old(frames[..])
    ensures value != 0.0 ==> frames[..] == Muted(old(frames[..]), chosen)
  {
    if value == 0.0 {
      return;
    }
    ghost var original := frames[..];
    for j := 0 to |chosen|
      invariant forall i :: 0 <= i < frames.Length ==>
        frames[i] == if i in chosen[..j] then Zeros(|original[i]|) else original[i]
    {
      var i := chosen[j];
      frames[i] := Zeros(|frames[i]|);
    }
    assert chosen[..|chosen|] == chosen;
  }

  /** Exactly the chosen frames are muted, each to zeros of its own length,
      and the others are untouched; there are as many muted frames as
      chosen indices. */
  lemma MutedFacts(frames: seq<seq<real>>, chosen: seq<int>)
    requires Distinct(chosen) && forall j :: 0 <= j < |chosen| ==> 0 <= chosen[j] < |frames|
    ensures var r := Muted(frames, chosen);
      (forall i :: 0 <= i < |frames| && i !in chosen ==> r[i] == frames[i]) &&
      (forall i :: 0 <= i < |frames| && i in chosen ==> forall k :: 0 <= k < |r[i]| ==> r[i][k] == 0.0) &&
      |set i | 0 <= i < |frames| && i in chosen| == |chosen|
  {
    var s := set i | 0 <= i < |frames| && i in chosen;
    assert s == set x | x in chosen;
    DistinctCardinality(chosen);
  }

  /** Muting 30% of three frames mutes ceil(0.9) = 1 of them. */
  lemma MuteThirtyPercentOfThree()
    ensures Ceil(0.3 * 3.0) == 1
  {
  }

  // ---------------------------------------------------------------------
  // Pedalboard effect choice
  // ---------------------------------------------------------------------

  /** fx_mapping in apply_pedalboard_fx. */
  const FxMapping: seq<string> := ["Bitcrush", "Chorus", "Delay", "Flanger", "Phaser", "Reverb", "Distortion"]

  /** The effects FxPedalBoardConfig admits. */
  const FxAllowed: seq<string> := ["Bitcrush", "Chorus", "Delay", "Flanger", "Phaser", "Reverb"]

  /** ConfigTypeError: the TypeError a pydantic model raises when its field
      is passed positionally. */
  datatype FxError = BadFxEntry | FxIndexOutOfRange | NotAllowedFx | ConfigTypeError

  datatype FxChoice = NoFx | Effect(name: string)

  /** `fx_mapping[i]` with Python's negative indexing. */
  function MappingAt(i: int): (r: Option<string>)
    ensures r.Some? <==> -|FxMapping| <= i < |FxMapping|
    ensures r.Some? ==> r.value in FxMapping
  {
    if 0 <= i < |FxMapping| then Some(FxMapping[i])
    else if -|FxMapping| <= i < 0 then Some(FxMapping[|FxMapping| + i])
    else None
  }

  /** One channel's effect entry: "None" applies no effect; otherwise the
      entry is an index into fx_mapping and the effect must be admitted. */
  function ResolveFx(entry: string): (r: Result<FxChoice, FxError>)
    ensures r.Ok? && r.value.Effect? ==> r.value.name in FxAllowed
    ensures entry == "None" ==> r == Ok(NoFx)
  {
    if entry == "None" then Ok(NoFx)
    else match ParseInt(entry)
      case None => Err(BadFxEntry)
      case Some(i) =>
        match MappingAt(i)
        case None => Err(FxIndexOutOfRange)
        case Some(name) => if name in FxAllowed then Ok(Effect(name)) else Err(NotAllowedFx)
  }

  /** The effect entry as app/post_fx/post_fx.py:174-183 writes it: after the
      index lookup the name goes positionally into `FxPedalBoardConfig(fx)`,
      which a pydantic model refuses with a TypeError whatever the name. */
  function ResolveFxAsWritten(entry: string): (r: Result<FxChoice, FxError>)
    ensures r.Ok? <==> entry == "None"
    ensures r.Ok? ==> r.value == NoFx
    ensures entry != "None" && ResolveFx(entry).Ok? ==> r == Err(ConfigTypeError)
  {
    if entry == "None" then Ok(NoFx)
    else match ParseInt(entry)
      case None => Err(BadFxEntry)
      case Some(i) =>
        match MappingAt(i)
        case None => Err(FxIndexOutOfRange)
        case Some(name) => Err(ConfigTypeError)
  }

  /** As written, no entry ever applies an effect: the digit 0, which the name
      check admits as Bitcrush, raises the TypeError instead. */
  lemma AsWrittenNeverApplies(entry: string)
    ensures forall e :: ResolveFxAsWritten(entry) != Ok(Effect(e))
    ensures ResolveFx("0") == Ok(Effect("Bitcrush")) && ResolveFxAsWritten("0") == Err(ConfigTypeError)
  {
    ResolveFxDigit(0);
    assert NatToString(0) == "0";
  }

  /** For an entry of one digit: 0..5 select the six admitted effects in
      mapping order, 6 (Distortion) is always refused, 7..9 are out of range. */
  lemma ResolveFxDigit(d: nat)
    requires d < 10
    ensures var r := ResolveFx(NatToString(d));
      (d < 6 ==> r == Ok(Effect(FxAllowed[d])) && FxAllowed[d] == FxMapping[d]) &&
      (d == 6 ==> r == Err(NotAllowedFx)) &&
      (d > 6 ==> r == Err(FxIndexOutOfRange))
  {
    ParseIntOfIntToString(d);
    assert IntToString(d) == NatToString(d);
    assert NatToString(d) != "None";
  }

  /** The admitted effects are the mapping without its last entry. */
  lemma AllowedIsMappingPrefix()
    ensures FxAllowed == FxMapping[..6] && FxMapping[6] == "Distortion" && "Distortion" !in FxAllowed
  {
  }

  /** `fx_mapping[int(fx_input[channel_index])]` for one channel, with
      Python's negative indexing into the entries. */
  function ChannelFx(fxInput: seq<char>, channelIndex: int): (r: Result<FxChoice, FxError>)
    ensures 0 <= channelIndex < |fxInput| ==> r == ResolveFx([fxInput[channelIndex]])
    ensures !(-|fxInput| <= channelIndex < |fxInput|) ==> r == Err(FxIndexOutOfRange)
  {
    if 0 <= channelIndex < |fxInput| then ResolveFx([fxInput[channelIndex]])
    else if -|fxInput| <= channelIndex < 0 then ResolveFx([fxInput[|fxInput| + channelIndex]])
    else Err(FxIndexOutOfRange)
  }

  /** On a validated fx_input every entry is one digit, so the "None" branch
      is never taken: the channel gets an admitted effect for 0..5 and an
      error for 6..9. */
  lemma ValidatedChannelFx(fxInput: seq<char>, channelIndex: int)
    requires forall i :: 0 <= i < |fxInput| ==> IsDigit(fxInput[i])
    requires 0 <= channelIndex < |fxInput|
    ensures var c := fxInput[channelIndex];
      var r := ChannelFx(fxInput, channelIndex);
      r != Ok(NoFx) &&
      (r.Ok? <==> '0' <= c <= '5') &&
      (r.Ok? ==> r == Ok(Effect(FxAllowed[c as int - '0' as int]))) &&
      (c == '6' ==> r == Err(NotAllowedFx))
  {
    var c := fxInput[channelIndex];
    var d := c as int - '0' as int;
    assert DigitChar(d) == c;
    assert NatToString(d) == [c];
    ResolveFxDigit(d);
  }
}
