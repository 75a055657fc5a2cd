/**
  Close validations: how they are built, serialised, decoded with self-consistency checks, and
  aggregated recursively.
 */
module CloseValidation {
  import opened Common
  import opened Sequences

  // ---------------------------------------------------------------- JSON values

  /** The strings the decoder recognises; any other string is `Plain`. */
  datatype Text =
    | StrictText | ApproximateText | EligibleText | RefusedText | UnknownText | IncompleteText | UnverifiedText
    | InvalidComparisonMode | InvalidCloseReference | UnknownCloseStrategy | UnclassifiedCloseCapability
    | LiveOnlyClose | UnsupportedLiveContext | UnsupportedReplayCapability | InvalidCapabilityContext
    | MissingStopInput | UnsupportedStopOwner | UnverifiedMarginLeverage
    | ResearchOnlyCloseContext
    | Plain(spelling: string)

  /** The object keys the decoder reads; any other key is `OtherKey`. */
  datatype Key =
    | SchemaVersion | ModeKey | CloseEligibility | Approximations | IncompleteParity | ParityStatus | Refusals
    | AggregateKey | Children | Modes | UnknownChildren | RequestedSetComplete
    | ReasonCode | Feature | CloseRefIndex | RequiredInputs | Details
    | OtherKey(name: string)

  datatype Json =
    | Null
    | Bool(flag: bool)
    | Int(number: int)
    | Str(text: Text)
    | List(items: seq<Json>)
    | Object(fields: map<Key, Json>)

  const SCHEMA_VERSION := 1

  const SINGLE_FIELDS: set<Key> :=
    {SchemaVersion, ModeKey, CloseEligibility, Approximations, IncompleteParity, ParityStatus, Refusals}

  const AGGREGATE_FIELDS: set<Key> :=
    {SchemaVersion, AggregateKey, Children, Modes, CloseEligibility, Approximations, Refusals, UnknownChildren,
     IncompleteParity, ParityStatus, RequestedSetComplete}

  const RECORD_FIELDS: set<Key> := {ReasonCode, Feature, CloseRefIndex, RequiredInputs, Details}

  predicate IsRefusalCode(t: Text) {
    || t.InvalidComparisonMode? || t.InvalidCloseReference? || t.UnknownCloseStrategy?
    || t.UnclassifiedCloseCapability? || t.LiveOnlyClose? || t.UnsupportedLiveContext?
    || t.UnsupportedReplayCapability? || t.InvalidCapabilityContext? || t.MissingStopInput?
    || t.UnsupportedStopOwner? || t.UnverifiedMarginLeverage?
  }

  predicate IsApproximationCode(t: Text) { t.ResearchOnlyCloseContext? }

  // ---------------------------------------------------------------- sorted strings

  function Spelling(t: Text): string {
    match t
    case StrictText => "strict"
    case ApproximateText => "approximate"
    case EligibleText => "eligible"
    case RefusedText => "refused"
    case UnknownText => "unknown"
    case IncompleteText => "incomplete"
    case UnverifiedText => "unverified"
    case InvalidComparisonMode => "INVALID_COMPARISON_MODE"
    case InvalidCloseReference => "INVALID_CLOSE_REFERENCE"
    case UnknownCloseStrategy => "UNKNOWN_CLOSE_STRATEGY"
    case UnclassifiedCloseCapability => "UNCLASSIFIED_CLOSE_CAPABILITY"
    case LiveOnlyClose => "LIVE_ONLY_CLOSE"
    case UnsupportedLiveContext => "UNSUPPORTED_LIVE_CONTEXT"
    case UnsupportedReplayCapability => "UNSUPPORTED_REPLAY_CAPABILITY"
    case InvalidCapabilityContext => "INVALID_CAPABILITY_CONTEXT"
    case MissingStopInput => "MISSING_STOP_INPUT"
    case UnsupportedStopOwner => "UNSUPPORTED_STOP_OWNER"
    case UnverifiedMarginLeverage => "UNVERIFIED_MARGIN_LEVERAGE"
    case ResearchOnlyCloseContext => "RESEARCH_ONLY_CLOSE_CONTEXT"
    case Plain(s) => s
  }

  predicate Before(a: string, b: string) {
    if a == [] then true
    else if b == [] then false
    else if a[0] != b[0] then a[0] < b[0]
    else Before(a[1..], b[1..])
  }

  predicate TextBefore(a: Text, b: Text) { Before(Spelling(a), Spelling(b)) }

  lemma {:induction false} BeforeIsTotal(a: string, b: string)
    ensures Before(a, b) || Before(b, a)
  {
    if a != [] && b != [] && a[0] == b[0] {
      BeforeIsTotal(a[1..], b[1..]);
    }
  }

  lemma {:induction false} BeforeIsTransitive(a: string, b: string, c: string)
    requires Before(a, b) && Before(b, c)
    ensures Before(a, c)
  {
    if a != [] && b != [] && c != [] && a[0] == b[0] == c[0] {
      BeforeIsTransitive(a[1..], b[1..], c[1..]);
    }
  }

  lemma TextOrder()
    ensures TotalPreorder(TextBefore)
  {
    hide Before, Spelling;
    forall a, b
      ensures TextBefore(a, b) || TextBefore(b, a)
    {
      BeforeIsTotal(Spelling(a), Spelling(b));
    }
    forall a, b, c | TextBefore(a, b) && TextBefore(b, c)
      ensures TextBefore(a, c)
    {
      BeforeIsTransitive(Spelling(a), Spelling(b), Spelling(c));
    }
  }

  function Sorted(xs: seq<Text>): seq<Text> { SortBy(TextBefore, xs) }

  ghost predicate Ordered(xs: seq<Text>) { SortedBy(TextBefore, xs) }

  lemma SortedIsOrdered(xs: seq<Text>)
    ensures Ordered(Sorted(xs))
  {
    TextOrder();
    SortBySorts(TextBefore, xs);
  }

  lemma OrderedSorts(xs: seq<Text>)
    requires Ordered(xs)
    ensures Sorted(xs) == xs
  {
    SortedStays(TextBefore, xs);
  }

  // ---------------------------------------------------------------- findings and validations

  datatype Mode = Strict | Approximate

  datatype Kind = Refusal | Approximation

  /** A finding: the feature it concerns, and why. */
  datatype Finding = Finding(kind: Kind, code: Text, feature: Text, closeRef: Option<nat>, inputs: seq<Text>,
                             details: map<Key, Json>)

  datatype Validation = Validation(mode: Option<Mode>, approximations: seq<Finding>, refusals: seq<Finding>)

  /** What a validation or an aggregate claims about parity with the live engine. */
  datatype Status = Status(eligibility: Text, incomplete: bool, parity: Text)

  function ModeText(m: Mode): Text { if m == Strict then StrictText else ApproximateText }

  function ModeJson(mode: Option<Mode>): Json { if mode.None? then Null else Str(ModeText(mode.value)) }

  function FindingJson(f: Finding): Json {
    Object(map[
      ReasonCode := Str(f.code),
      Feature := Str(f.feature),
      CloseRefIndex := if f.closeRef.None? then Null else Int(f.closeRef.value),
      RequiredInputs := List(Texts(Sorted(f.inputs))),
      Details := Object(f.details)])
  }

  function Texts(ts: seq<Text>): seq<Json> { seq(|ts|, i requires 0 <= i < |ts| => Str(ts[i])) }

  function FindingsJson(fs: seq<Finding>): seq<Json> { seq(|fs|, i requires 0 <= i < |fs| => FindingJson(fs[i])) }

  /** The parity claim of one validation. */
  function SingleStatus(mode: Option<Mode>, approximated: bool, refused: bool): Status {
    var approximate := mode == Some(Approximate);
    Status(
      if refused then RefusedText else if approximated then ApproximateText else EligibleText,
      refused || approximate,
      if refused then RefusedText else if approximate then IncompleteText else UnverifiedText)
  }

  function ValidationJson(v: Validation): Json {
    var s := SingleStatus(v.mode, v.approximations != [], v.refusals != []);
    Object(map[
      SchemaVersion := Int(SCHEMA_VERSION),
      ModeKey := ModeJson(v.mode),
      CloseEligibility := Str(s.eligibility),
      Approximations := List(FindingsJson(v.approximations)),
      IncompleteParity := Bool(s.incomplete),
      ParityStatus := Str(s.parity),
      Refusals := List(FindingsJson(v.refusals))])
  }

  // ---------------------------------------------------------------- decoding

  datatype DecodeStatus = Missing | Inconsistent | UnknownSchema

  datatype Decoded =
    | Undecoded(status: DecodeStatus)
    | Single(mode: Option<Mode>, claim: Status, approximations: seq<Json>, refusals: seq<Json>)
    | Whole(children: nat, modes: seq<Mode>, unknown: nat, claim: Status, complete: bool,
            approximations: seq<Json>, refusals: seq<Json>)

  function ModeOf(j: Json): Option<Mode> {
    if j == Str(StrictText) then Some(Strict) else if j == Str(ApproximateText) then Some(Approximate) else None
  }

  predicate AllTexts(js: seq<Json>) { forall i :: 0 <= i < |js| ==> js[i].Str? }

  function TextsOf(js: seq<Json>): seq<Text>
    requires AllTexts(js)
  {
    seq(|js|, i requires 0 <= i < |js| => js[i].text)
  }

  predicate RecordIsValid(rec: Json, refusal: bool) {
    && rec.Object? && rec.fields.Keys == RECORD_FIELDS
    && var code := rec.fields[ReasonCode];
    && code.Str? && (if refusal then IsRefusalCode(code.text) else IsApproximationCode(code.text))
    && rec.fields[Feature].Str?
    && var index := rec.fields[CloseRefIndex];
    && (index.Null? || (index.Int? && index.number >= 0))
    && var inputs := rec.fields[RequiredInputs];
    && inputs.List? && AllTexts(inputs.items) && TextsOf(inputs.items) == Sorted(TextsOf(inputs.items))
    && rec.fields[Details].Object?
  }

  predicate RecordsAreValid(list: Json, refusal: bool) {
    list.List? && forall i :: 0 <= i < |list.items| ==> RecordIsValid(list.items[i], refusal)
  }

  predicate Claims(f: map<Key, Json>, s: Status) {
    && CloseEligibility in f && IncompleteParity in f && ParityStatus in f
    && f[CloseEligibility] == Str(s.eligibility)
    && f[IncompleteParity] == Bool(s.incomplete)
    && f[ParityStatus] == Str(s.parity)
  }

  function Decode(j: Json): Decoded {
    if j == Null then Undecoded(Missing)
    else if !j.Object? then Undecoded(Inconsistent)
    else if SchemaVersion !in j.fields || j.fields[SchemaVersion] != Int(SCHEMA_VERSION) then Undecoded(UnknownSchema)
    else if AggregateKey in j.fields && j.fields[AggregateKey] == Bool(true) then DecodeAggregate(j.fields)
    else DecodeSingle(j.fields)
  }

  function DecodeSingle(f: map<Key, Json>): Decoded {
    if !(SINGLE_FIELDS <= f.Keys) then Undecoded(Inconsistent)
    else if !RecordsAreValid(f[Refusals], true) || !RecordsAreValid(f[Approximations], false) then
      Undecoded(Inconsistent)
    else
      var mode := ModeOf(f[ModeKey]);
      var refusals := f[Refusals].items;
      var approximations := f[Approximations].items;
      var claim := SingleStatus(mode, approximations != [], refusals != []);
      var ok := if refusals != [] then f[ModeKey].Null? || mode.Some?
                else mode.Some? && (approximations != [] ==> mode.value == Approximate);
      if ok && Claims(f, claim) then Single(mode, claim, approximations, refusals) else Undecoded(Inconsistent)
  }

  predicate AllModes(js: seq<Json>) { forall i :: 0 <= i < |js| ==> ModeOf(js[i]).Some? }

  function ModesOf(js: seq<Json>): seq<Mode>
    requires AllModes(js)
  {
    seq(|js|, i requires 0 <= i < |js| => ModeOf(js[i]).value)
  }

  predicate AggregateIsTyped(f: map<Key, Json>) {
    && AGGREGATE_FIELDS <= f.Keys
    && f[Children].Int? && f[UnknownChildren].Int? && f[UnknownChildren].number >= 0 && f[Children].number >= 0
    && f[Modes].List? && AllModes(f[Modes].items)
    && RecordsAreValid(f[Refusals], true) && RecordsAreValid(f[Approximations], false)
    && f[RequestedSetComplete].Bool?
  }

  function DecodeAggregate(f: map<Key, Json>): Decoded {
    if !AggregateIsTyped(f) then Undecoded(Inconsistent)
    else
      var children := f[Children].number;
      var unknown := f[UnknownChildren].number;
      var modes := ModesOf(f[Modes].items);
      var refusals := f[Refusals].items;
      var approximations := f[Approximations].items;
      var claim := AggregateStatus(children, unknown, Elems(modes), approximations, refusals);
      var complete := SetIsComplete(children, unknown, refusals);
      if Claims(f, claim) && f[RequestedSetComplete].flag == complete
      then Whole(children, modes, unknown, claim, complete, approximations, refusals)
      else Undecoded(Inconsistent)
  }

  function AggregateStatus(children: nat, unknown: nat, modes: set<Mode>, approximations: seq<Json>,
                           refusals: seq<Json>): Status {
    var incomplete := refusals != [] || unknown > 0 || children == 0 || Approximate in modes;
    if refusals != [] then Status(RefusedText, incomplete, RefusedText)
    else if unknown > 0 || children == 0 then Status(UnknownText, incomplete, IncompleteText)
    else Status(if approximations != [] then ApproximateText else EligibleText, incomplete,
                if incomplete then IncompleteText else UnverifiedText)
  }

  predicate SetIsComplete(children: nat, unknown: nat, refusals: seq<Json>) {
    children > 0 && unknown == 0 && refusals == []
  }

  // ---------------------------------------------------------------- emitted validations decode

  /** A finding of a kind with a code registered for that kind. */
  predicate Registered(f: Finding) { if f.kind == Refusal then IsRefusalCode(f.code) else IsApproximationCode(f.code) }

  ghost predicate WellFiled(v: Validation) {
    && (forall f :: f in v.refusals ==> f.kind == Refusal && Registered(f))
    && (forall f :: f in v.approximations ==> f.kind == Approximation && Registered(f))
  }

  lemma FindingIsValid(f: Finding)
    requires Registered(f)
    ensures RecordIsValid(FindingJson(f), f.kind == Refusal)
  {
    hide IsRefusalCode, IsApproximationCode;
    var inputs := Texts(Sorted(f.inputs));
    assert FindingJson(f).fields.Keys == RECORD_FIELDS;
    assert TextsOf(inputs) == Sorted(f.inputs);
    SortedIsOrdered(f.inputs);
    OrderedSorts(Sorted(f.inputs));
  }

  /** The mode an emitted validation must have for the decoder to believe it. */
  predicate ModeIsCoherent(v: Validation) {
    v.refusals == [] ==> v.mode.Some? && (v.approximations != [] ==> v.mode.value == Approximate)
  }

  /** Round trip: serialising and decoding gives the validation back, exactly when its mode is coherent. */
  lemma ValidationRoundTrip(v: Validation)
    requires WellFiled(v)
    ensures ModeIsCoherent(v) ==>
      Decode(ValidationJson(v))
      == Single(v.mode, SingleStatus(v.mode, v.approximations != [], v.refusals != []),
                FindingsJson(v.approximations), FindingsJson(v.refusals))
    ensures !ModeIsCoherent(v) ==> Decode(ValidationJson(v)) == Undecoded(Inconsistent)
  {
    hide RecordIsValid, FindingJson, Registered, DecodeAggregate, IsRefusalCode, IsApproximationCode;
    forall i | 0 <= i < |v.refusals|
      ensures RecordIsValid(FindingJson(v.refusals[i]), true)
    {
      FindingIsValid(v.refusals[i]);
    }
    forall i | 0 <= i < |v.approximations|
      ensures RecordIsValid(FindingJson(v.approximations[i]), false)
    {
      FindingIsValid(v.approximations[i]);
    }
    assert ModeOf(ModeJson(v.mode)) == v.mode;
    assert v.refusals == [] <==> FindingsJson(v.refusals) == [];
    assert v.approximations == [] <==> FindingsJson(v.approximations) == [];
    assert RecordsAreValid(List(FindingsJson(v.refusals)), true);
    assert RecordsAreValid(List(FindingsJson(v.approximations)), false);
    hide RecordsAreValid, FindingsJson, WellFiled;
  }

  // ---------------------------------------------------------------- aggregation

  function Dedupe<T(==)>(xs: seq<T>): seq<T> {
    if xs == [] then []
    else
      var kept := Dedupe(xs[..|xs| - 1]);
      var x := xs[|xs| - 1];
      if x in kept then kept else kept + [x]
  }

  lemma {:induction false} DedupeMembers<T>(xs: seq<T>)
    ensures forall x :: x in Dedupe(xs) <==> x in xs
    ensures Distinct(Dedupe(xs))
    ensures xs == [] <==> Dedupe(xs) == []
  {
    if xs != [] {
      DedupeMembers(xs[..|xs| - 1]);
      LastSplit(xs);
    }
  }

  lemma {:induction false} DedupeKeepsDistinct<T>(xs: seq<T>)
    requires Distinct(xs)
    ensures Dedupe(xs) == xs
  {
    if xs != [] {
      var front := xs[..|xs| - 1];
      DedupeKeepsDistinct(front);
      LastSplit(xs);
    }
  }

  /** Removing duplicates in the parts first changes nothing. */
  lemma {:induction false} DedupeLeft<T>(xs: seq<T>, ys: seq<T>)
    ensures Dedupe(Dedupe(xs) + ys) == Dedupe(xs + ys)
    decreases |ys|
  {
    if ys == [] {
      DedupeMembers(xs);
      DedupeKeepsDistinct(Dedupe(xs));
      assert Dedupe(xs) + ys == Dedupe(xs) && xs + ys == xs;
    } else {
      var front := ys[..|ys| - 1];
      DedupeLeft(xs, front);
      assert (xs + ys)[..|xs + ys| - 1] == xs + front;
      assert (Dedupe(xs) + ys)[..|Dedupe(xs) + ys| - 1] == Dedupe(xs) + front;
    }
  }

  lemma {:induction false} DedupeRight<T>(xs: seq<T>, ys: seq<T>)
    ensures Dedupe(xs + Dedupe(ys)) == Dedupe(xs + ys)
    decreases |ys|
  {
    if ys != [] {
      var front := ys[..|ys| - 1];
      var y := ys[|ys| - 1];
      DedupeRight(xs, front);
      DedupeMembers(front);
      DedupeMembers(xs + front);
      assert (xs + ys)[..|xs + ys| - 1] == xs + front;
      if y !in Dedupe(front) {
        assert Dedupe(ys) == Dedupe(front) + [y];
        assert (xs + Dedupe(ys))[..|xs + Dedupe(ys)| - 1] == xs + Dedupe(front);
      }
    }
  }

  /** What one child adds to an aggregate. */
  datatype Tally = Tally(modes: set<Mode>, approximations: seq<Json>, refusals: seq<Json>, unknown: nat)

  const NOTHING := Tally({}, [], [], 0)

  function Join(a: Tally, b: Tally): Tally {
    Tally(a.modes + b.modes, a.approximations + b.approximations, a.refusals + b.refusals, a.unknown + b.unknown)
  }

  function Contribution(child: Json): Tally {
    match Decode(child)
    case Undecoded(_) => Tally({}, [], [], 1)
    case Single(mode, _, approximations, refusals) =>
      Tally(if mode.Some? then {mode.value} else {}, approximations, refusals, 0)
    case Whole(children, modes, unknown, _, _, approximations, refusals) =>
      Tally(Elems(modes), approximations, refusals, if children == 0 then unknown + 1 else unknown)
  }

  function TallyOf(children: seq<Json>): Tally {
    if children == [] then NOTHING
    else Join(TallyOf(children[..|children| - 1]), Contribution(children[|children| - 1]))
  }

  function SortedModes(modes: set<Mode>): seq<Mode> {
    (if Approximate in modes then [Approximate] else []) + (if Strict in modes then [Strict] else [])
  }

  function ModesJson(modes: seq<Mode>): seq<Json> { seq(|modes|, i requires 0 <= i < |modes| => Str(ModeText(modes[i]))) }

  function AggregateJson(children: nat, t: Tally): Json {
    var approximations := Dedupe(t.approximations);
    var refusals := Dedupe(t.refusals);
    var s := AggregateStatus(children, t.unknown, t.modes, approximations, refusals);
    Object(map[
      SchemaVersion := Int(SCHEMA_VERSION),
      AggregateKey := Bool(true),
      Children := Int(children),
      Modes := List(ModesJson(SortedModes(t.modes))),
      CloseEligibility := Str(s.eligibility),
      Approximations := List(approximations),
      Refusals := List(refusals),
      UnknownChildren := Int(t.unknown),
      IncompleteParity := Bool(s.incomplete),
      ParityStatus := Str(s.parity),
      RequestedSetComplete := Bool(SetIsComplete(children, t.unknown, refusals))])
  }

  function Aggregate(children: seq<Json>): Json { AggregateJson(|children|, TallyOf(children)) }

  method DedupeRecords(records: seq<Json>) returns (out: seq<Json>)
    ensures out == Dedupe(records)
  {
    out := [];
    var seen: set<Json> := {};
    for i := 0 to |records|
      invariant out == Dedupe(records[..i])
      invariant seen == Elems(out)
    {
      var rec := records[i];
      assert records[..i + 1][..|records[..i + 1]| - 1] == records[..i];
      if rec !in seen {
        seen := seen + {rec};
        out := out + [rec];
      }
    }
    TakeAll(records);
  }

  method AggregateCloseValidations(children: seq<Json>) returns (out: Json)
    ensures out == Aggregate(children)
  {
    var modes: set<Mode> := {};
    var approximations: seq<Json> := [];
    var refusals: seq<Json> := [];
    var unknown: nat := 0;
    for i := 0 to |children|
      invariant Tally(modes, approximations, refusals, unknown) == TallyOf(children[..i])
    {
      assert children[..i + 1][..|children[..i + 1]| - 1] == children[..i];
      var decoded := Decode(children[i]);
      if decoded.Undecoded? {
        unknown := unknown + 1;
        continue;
      }
      if decoded.Whole? {
        modes := modes + Elems(decoded.modes);
        unknown := unknown + decoded.unknown;
        if decoded.children == 0 {
          unknown := unknown + 1;
        }
      } else if decoded.mode.Some? {
        modes := modes + {decoded.mode.value};
      }
      approximations := approximations + decoded.approximations;
      refusals := refusals + decoded.refusals;
    }
    TakeAll(children);
    approximations := DedupeRecords(approximations);
    refusals := DedupeRecords(refusals);
    var s := AggregateStatus(|children|, unknown, modes, approximations, refusals);
    out := Object(map[
      SchemaVersion := Int(SCHEMA_VERSION),
      AggregateKey := Bool(true),
      Children := Int(|children|),
      Modes := List(ModesJson(SortedModes(modes))),
      CloseEligibility := Str(s.eligibility),
      Approximations := List(approximations),
      Refusals := List(refusals),
      UnknownChildren := Int(unknown),
      IncompleteParity := Bool(s.incomplete),
      ParityStatus := Str(s.parity),
      RequestedSetComplete := Bool(SetIsComplete(|children|, unknown, refusals))]);
  }

  /** Every record a tally holds passed the decoder. */
  ghost predicate Valid(t: Tally) {
    && (forall i :: 0 <= i < |t.approximations| ==> RecordIsValid(t.approximations[i], false))
    && (forall i :: 0 <= i < |t.refusals| ==> RecordIsValid(t.refusals[i], true))
  }

  lemma ContributionIsValid(child: Json)
    ensures Valid(Contribution(child))
  {
  }

  lemma {:induction false} TallyIsValid(children: seq<Json>)
    ensures Valid(TallyOf(children))
  {
    hide RecordIsValid, Contribution;
    if children != [] {
      TallyIsValid(children[..|children| - 1]);
      ContributionIsValid(children[|children| - 1]);
    }
  }

  lemma SortedModesListAll(modes: set<Mode>)
    ensures AllModes(ModesJson(SortedModes(modes)))
    ensures ModesOf(ModesJson(SortedModes(modes))) == SortedModes(modes)
    ensures Elems(SortedModes(modes)) == modes
  {
    var s := SortedModes(modes);
    var late := if Strict in modes then [Strict] else [];
    assert Strict in modes ==> late[0] == Strict && s[|s| - 1] == Strict;
    assert Approximate in modes ==> s[0] == Approximate;
    forall m | m in modes
      ensures m in s
    {
      assert m == Strict || m == Approximate;
    }
    forall i | 0 <= i < |s|
      ensures ModeOf(ModesJson(s)[i]) == Some(s[i])
    {
    }
  }

  lemma DedupedAreValid(records: seq<Json>, refusal: bool)
    requires forall i :: 0 <= i < |records| ==> RecordIsValid(records[i], refusal)
    ensures RecordsAreValid(List(Dedupe(records)), refusal)
  {
    hide RecordIsValid;
    DedupeMembers(records);
    var kept := Dedupe(records);
    forall i | 0 <= i < |kept|
      ensures RecordIsValid(kept[i], refusal)
    {
      assert kept[i] in records;
    }
  }

  /** The object an aggregate writes passes the decoder's type and consistency checks. */
  lemma AggregateDecodes(f: map<Key, Json>, children: nat, unknown: nat, modes: seq<Mode>, claim: Status,
                         complete: bool, approximations: seq<Json>, refusals: seq<Json>)
    requires AGGREGATE_FIELDS <= f.Keys
    requires f[Children] == Int(children) && f[UnknownChildren] == Int(unknown)
    requires f[Modes].List? && AllModes(f[Modes].items) && ModesOf(f[Modes].items) == modes
    requires f[Approximations] == List(approximations) && f[Refusals] == List(refusals)
    requires RecordsAreValid(f[Refusals], true) && RecordsAreValid(f[Approximations], false)
    requires Claims(f, claim) && f[RequestedSetComplete] == Bool(complete)
    requires claim == AggregateStatus(children, unknown, Elems(modes), approximations, refusals)
    requires complete == SetIsComplete(children, unknown, refusals)
    ensures DecodeAggregate(f) == Whole(children, modes, unknown, claim, complete, approximations, refusals)
  {
  }

  lemma TallyDedupes(children: seq<Json>)
    ensures RecordsAreValid(List(Dedupe(TallyOf(children).approximations)), false)
    ensures RecordsAreValid(List(Dedupe(TallyOf(children).refusals)), true)
  {
    hide RecordIsValid, RecordsAreValid;
    TallyIsValid(children);
    DedupedAreValid(TallyOf(children).approximations, false);
    DedupedAreValid(TallyOf(children).refusals, true);
  }

  lemma AggregateFields(children: nat, t: Tally)
    ensures var j := AggregateJson(children, t);
      && var approximations := Dedupe(t.approximations);
      && var refusals := Dedupe(t.refusals);
      && j.Object? && j.fields.Keys == AGGREGATE_FIELDS
      && j.fields[SchemaVersion] == Int(SCHEMA_VERSION) && j.fields[AggregateKey] == Bool(true)
      && j.fields[Children] == Int(children) && j.fields[UnknownChildren] == Int(t.unknown)
      && j.fields[Modes] == List(ModesJson(SortedModes(t.modes)))
      && j.fields[Approximations] == List(approximations) && j.fields[Refusals] == List(refusals)
      && Claims(j.fields, AggregateStatus(children, t.unknown, t.modes, approximations, refusals))
      && j.fields[RequestedSetComplete] == Bool(SetIsComplete(children, t.unknown, refusals))
  {
  }

  /** Every aggregate decodes, to its own contents. */
  lemma AggregateRoundTrip(children: seq<Json>)
    ensures var t := TallyOf(children);
      && var approximations := Dedupe(t.approximations);
      && var refusals := Dedupe(t.refusals);
      && Decode(Aggregate(children))
         == Whole(|children|, SortedModes(t.modes), t.unknown,
                  AggregateStatus(|children|, t.unknown, t.modes, approximations, refusals),
                  SetIsComplete(|children|, t.unknown, refusals), approximations, refusals)
      && Elems(SortedModes(t.modes)) == t.modes
  {
    hide RecordIsValid, AggregateStatus, SetIsComplete, SortedModes, AllModes, ModesOf, ModesJson, RecordsAreValid,
         DecodeAggregate, AggregateIsTyped, AggregateJson, Claims, Valid, DecodeSingle;
    var t := TallyOf(children);
    assert RecordsAreValid(List(Dedupe(t.approximations)), false)
        && RecordsAreValid(List(Dedupe(t.refusals)), true) by {
      TallyDedupes(children);
    }
    SortedModesListAll(t.modes);
    AggregateFields(|children|, t);
    var refusals := Dedupe(t.refusals);
    var approximations := Dedupe(t.approximations);
    AggregateDecodes(Aggregate(children).fields, |children|, t.unknown, SortedModes(t.modes),
                     AggregateStatus(|children|, t.unknown, t.modes, approximations, refusals),
                     SetIsComplete(|children|, t.unknown, refusals), approximations, refusals);
  }

  // ---------------------------------------------------------------- trees of validations

  /** What a caller builds: serialised validations, aggregated in any nesting. */
  datatype Tree = Leaf(value: Json) | Node(parts: seq<Tree>)

  function Value(t: Tree): Json
    decreases t
  {
    match t
    case Leaf(value) => value
    case Node(parts) => Aggregate(seq(|parts|, i requires 0 <= i < |parts| => Value(parts[i])))
  }

  function Leaves(t: Tree): seq<Json>
    decreases t
  {
    match t
    case Leaf(value) => [value]
    case Node(parts) => Flatten(seq(|parts|, i requires 0 <= i < |parts| => Leaves(parts[i])))
  }

  /** No aggregate strictly inside the tree was built from nothing. */
  ghost predicate NoEmptyPart(t: Tree)
    decreases t
  {
    t.Node? ==> forall i :: 0 <= i < |t.parts| ==> t.parts[i] != Node([]) && NoEmptyPart(t.parts[i])
  }

  /** Two tallies that make the same aggregate, up to the number of children. */
  ghost predicate Same(a: Tally, b: Tally) {
    && a.modes == b.modes && a.unknown == b.unknown
    && Dedupe(a.approximations) == Dedupe(b.approximations)
    && Dedupe(a.refusals) == Dedupe(b.refusals)
  }

  lemma SameAsItself(a: Tally)
    ensures Same(a, a)
  {
  }

  lemma SameTransitive(a: Tally, b: Tally, c: Tally)
    requires Same(a, b) && Same(b, c)
    ensures Same(a, c)
  {
  }

  lemma JoinSame(a: Tally, a': Tally, b: Tally, b': Tally)
    requires Same(a, a') && Same(b, b')
    ensures Same(Join(a, b), Join(a', b'))
  {
    DedupeJoin(a.approximations, a'.approximations, b.approximations, b'.approximations);
    DedupeJoin(a.refusals, a'.refusals, b.refusals, b'.refusals);
  }

  lemma DedupeJoin<T>(a: seq<T>, a': seq<T>, b: seq<T>, b': seq<T>)
    requires Dedupe(a) == Dedupe(a') && Dedupe(b) == Dedupe(b')
    ensures Dedupe(a + b) == Dedupe(a' + b')
  {
    DedupeLeft(a, b);
    DedupeLeft(a', b);
    DedupeRight(a', b);
    DedupeRight(a', b');
  }

  lemma JoinIsMonoid(a: Tally, b: Tally, c: Tally)
    ensures Join(Join(a, b), c) == Join(a, Join(b, c))
    ensures Join(a, NOTHING) == a
  {
  }

  lemma {:induction false} TallyAppend(xs: seq<Json>, ys: seq<Json>)
    ensures TallyOf(xs + ys) == Join(TallyOf(xs), TallyOf(ys))
    decreases |ys|
  {
    hide Contribution, Join;
    if ys == [] {
      assert xs + ys == xs;
      JoinIsMonoid(TallyOf(xs), NOTHING, NOTHING);
    } else {
      var front := ys[..|ys| - 1];
      TallyAppend(xs, front);
      assert (xs + ys)[..|xs + ys| - 1] == xs + front;
      JoinIsMonoid(TallyOf(xs), TallyOf(front), Contribution(ys[|ys| - 1]));
    }
  }

  /** Listing children in groups: if each child stands for its group, so does the whole list. */
  lemma {:induction false} TallyGroups(children: seq<Json>, groups: seq<seq<Json>>)
    requires |children| == |groups|
    requires forall i :: 0 <= i < |children| ==> Same(Contribution(children[i]), TallyOf(groups[i]))
    ensures Same(TallyOf(children), TallyOf(Flatten(groups)))
  {
    hide Contribution, Same;
    if children == [] {
      SameAsItself(NOTHING);
    } else {
      var last := |children| - 1;
      TallyGroups(children[..last], groups[..last]);
      LastSplit(groups);
      FlattenSnoc(groups[..last], groups[last]);
      TallyAppend(Flatten(groups[..last]), groups[last]);
      JoinSame(TallyOf(children[..last]), TallyOf(Flatten(groups[..last])),
               Contribution(children[last]), TallyOf(groups[last]));
    }
  }

  /** A nonempty aggregate contributes exactly what its own children contributed. */
  lemma AggregateContributes(children: seq<Json>)
    ensures children != [] ==> Same(Contribution(Aggregate(children)), TallyOf(children))
    ensures Contribution(Aggregate([])).unknown == 1
  {
    hide Aggregate, AggregateStatus, SetIsComplete, Decode;
    var t := TallyOf(children);
    AggregateRoundTrip(children);
    AggregateRoundTrip([]);
    DedupeMembers(t.approximations);
    DedupeMembers(t.refusals);
    DedupeKeepsDistinct(Dedupe(t.approximations));
    DedupeKeepsDistinct(Dedupe(t.refusals));
  }

  lemma TallyOfOne(child: Json)
    ensures TallyOf([child]) == Contribution(child)
  {
  }

  /** A tree without empty parts contributes what its leaves contribute. */
  lemma {:induction false} TreeContributes(t: Tree)
    requires NoEmptyPart(t) && t != Node([])
    ensures Same(Contribution(Value(t)), TallyOf(Leaves(t)))
    decreases t
  {
    hide Contribution, Aggregate, Same;
    match t
    case Leaf(value) =>
      TallyOfOne(value);
      SameAsItself(Contribution(value));
    case Node(parts) =>
      PartsContribute(t);
      var values := seq(|parts|, i requires 0 <= i < |parts| => Value(parts[i]));
      AggregateContributes(values);
      SameTransitive(Contribution(Aggregate(values)), TallyOf(values), TallyOf(Leaves(t)));
  }

  lemma {:induction false} PartsContribute(t: Tree)
    requires t.Node? && NoEmptyPart(t)
    ensures Same(TallyOf(seq(|t.parts|, i requires 0 <= i < |t.parts| => Value(t.parts[i]))), TallyOf(Leaves(t)))
    decreases t, 0
  {
    hide Contribution, Aggregate, Same;
    var values := seq(|t.parts|, i requires 0 <= i < |t.parts| => Value(t.parts[i]));
    var groups := seq(|t.parts|, i requires 0 <= i < |t.parts| => Leaves(t.parts[i]));
    forall i | 0 <= i < |values|
      ensures Same(Contribution(values[i]), TallyOf(groups[i]))
    {
      TreeContributes(t.parts[i]);
    }
    TallyGroups(values, groups);
  }

  lemma {:induction false} NoEmptyLeaves(t: Tree)
    requires NoEmptyPart(t) && t != Node([])
    ensures Leaves(t) != []
    decreases t
  {
    if t.Node? {
      var groups := seq(|t.parts|, i requires 0 <= i < |t.parts| => Leaves(t.parts[i]));
      NoEmptyLeaves(t.parts[0]);
      assert groups[0] == Leaves(t.parts[0]);
      FlattenMember(groups, groups[0][0]);
      assert groups[0][0] in groups[0];
    }
  }

  /** Aggregating a tree with no empty part says exactly what aggregating all its leaves at once says; only
      the number of children differs. */
  lemma AggregationFlattens(t: Tree)
    requires t.Node? && NoEmptyPart(t)
    ensures var nested := Decode(Value(t));
      && var flat := Decode(Aggregate(Leaves(t)));
      && nested.Whole? && flat.Whole?
      && nested.modes == flat.modes && nested.unknown == flat.unknown
      && nested.approximations == flat.approximations && nested.refusals == flat.refusals
      && nested.claim == flat.claim && nested.complete == flat.complete
  {
    hide Decode, Aggregate, Contribution;
    var values := seq(|t.parts|, i requires 0 <= i < |t.parts| => Value(t.parts[i]));
    PartsContribute(t);
    AggregateRoundTrip(values);
    AggregateRoundTrip(Leaves(t));
    if t.parts == [] {
      assert values == [] && Leaves(t) == [];
    } else {
      NoEmptyLeaves(t);
    }
  }

  /** A child that cannot spoil completeness. */
  ghost predicate Sound(child: Json) {
    match Decode(child)
    case Undecoded(_) => false
    case Single(_, _, _, refusals) => refusals == []
    case Whole(_, _, _, _, complete, _, _) => complete
  }

  /** Every leaf is sound and no aggregate, at any depth, is empty. */
  ghost predicate AllSound(t: Tree)
    decreases t
  {
    match t
    case Leaf(value) => Sound(value)
    case Node(parts) => parts != [] && forall i :: 0 <= i < |parts| ==> AllSound(parts[i])
  }

  predicate Clean(t: Tally) { t.unknown == 0 && t.refusals == [] }

  lemma SoundIsClean(child: Json)
    ensures Sound(child) <==> Clean(Contribution(child))
  {
  }

  lemma {:induction false} TallyIsClean(children: seq<Json>)
    ensures Clean(TallyOf(children)) <==> forall i :: 0 <= i < |children| ==> Clean(Contribution(children[i]))
  {
    hide Contribution;
    if children != [] {
      TallyIsClean(children[..|children| - 1]);
    }
  }

  /** An aggregate reports its requested set complete exactly when every leaf at every depth decodes without a
      refusal and no aggregate at any depth is empty. */
  lemma {:induction false} CompleteIffAllSound(t: Tree)
    ensures t.Node? ==> Decode(Value(t)).Whole? && (Decode(Value(t)).complete <==> AllSound(t))
    ensures Sound(Value(t)) <==> AllSound(t)
    decreases t
  {
    hide Decode, Aggregate, Contribution, AggregateStatus;
    if t.Node? {
      var values := seq(|t.parts|, i requires 0 <= i < |t.parts| => Value(t.parts[i]));
      AggregateRoundTrip(values);
      DedupeMembers(TallyOf(values).refusals);
      TallyIsClean(values);
      forall i | 0 <= i < |values|
        ensures Clean(Contribution(values[i])) <==> AllSound(t.parts[i])
      {
        CompleteIffAllSound(t.parts[i]);
        SoundIsClean(values[i]);
      }
    }
  }

  // ---------------------------------------------------------------- building a validation

  /** The comparison mode a caller asks for. */
  datatype ModeArgument = Omitted | Chosen(mode: Mode) | Unrecognised

  /** A capability check: whether it runs in this phase, the codes it may report, and what it reports. */
  datatype Check = Check(inPhase: bool, codes: set<Text>, findings: seq<Finding>)

  /** `Fault` is the engine's own error for a check that reports what it did not declare. */
  datatype Outcome = Accepted(validation: Validation) | Rejected(validation: Validation) | Fault

  function ChosenMode(arg: ModeArgument): Option<Mode> {
    match arg case Omitted => Some(Strict) case Chosen(m) => Some(m) case Unrecognised => None
  }

  function ContextRefusal(err: Text): Finding {
    Finding(Refusal, InvalidCapabilityContext, Plain("capability_context"), None, [],
            map[OtherKey("message") := Str(err)])
  }

  const MODE_REFUSAL: Finding := Finding(Refusal, InvalidComparisonMode, Plain("comparison_mode"), None, [], map[])

  function ContextRefusals(errors: seq<Text>): seq<Finding> {
    seq(|errors|, i requires 0 <= i < |errors| => ContextRefusal(errors[i]))
  }

  /** The refusals that keep the capability checks from running at all. */
  function EarlyRefusals(arg: ModeArgument, contextErrors: seq<Text>, refFindings: seq<Finding>): seq<Finding> {
    (if arg.Unrecognised? then [MODE_REFUSAL] else []) + ContextRefusals(contextErrors) + refFindings
  }

  function Reported(checks: seq<Check>): seq<Finding> {
    if checks == [] then []
    else
      var last := checks[|checks| - 1];
      Reported(checks[..|checks| - 1]) + if last.inPhase then last.findings else []
  }

  /** The check reports only codes it declared, each with the kind it is registered for. */
  ghost predicate Declared(spec: Check) {
    forall j :: 0 <= j < |spec.findings| ==> spec.findings[j].code in spec.codes && Registered(spec.findings[j])
  }

  ghost predicate AllDeclared(checks: seq<Check>) {
    forall i :: 0 <= i < |checks| && checks[i].inPhase ==> Declared(checks[i])
  }

  function OfKind(fs: seq<Finding>, kind: Kind): seq<Finding> {
    if fs == [] then []
    else
      var f := fs[|fs| - 1];
      OfKind(fs[..|fs| - 1], kind) + if f.kind == kind then [f] else []
  }

  lemma OfKindSnoc(fs: seq<Finding>, i: nat, kind: Kind)
    requires i < |fs|
    ensures OfKind(fs[..i + 1], kind) == OfKind(fs[..i], kind) + if fs[i].kind == kind then [fs[i]] else []
  {
    assert fs[..i + 1][..i] == fs[..i];
  }

  lemma {:induction false} OfKindAppend(xs: seq<Finding>, ys: seq<Finding>, kind: Kind)
    ensures OfKind(xs + ys, kind) == OfKind(xs, kind) + OfKind(ys, kind)
    decreases |ys|
  {
    if ys == [] {
      assert xs + ys == xs;
    } else {
      var front := ys[..|ys| - 1];
      OfKindAppend(xs, front, kind);
      assert (xs + ys)[..|xs + ys| - 1] == xs + front;
    }
  }

  lemma {:induction false} OfKindMembers(fs: seq<Finding>, kind: Kind)
    ensures forall f :: f in OfKind(fs, kind) <==> f in fs && f.kind == kind
  {
    if fs != [] {
      OfKindMembers(fs[..|fs| - 1], kind);
      LastSplit(fs);
    }
  }

  lemma {:induction false} ReportedAreRegistered(checks: seq<Check>)
    requires AllDeclared(checks)
    ensures forall f :: f in Reported(checks) ==> Registered(f)
  {
    hide Registered;
    if checks != [] {
      ReportedAreRegistered(checks[..|checks| - 1]);
      var last := checks[|checks| - 1];
      assert last.inPhase ==> Declared(last);
    }
  }

  /** The validation a call ends in, unless a check misbehaves. */
  function Emitted(arg: ModeArgument, contextErrors: seq<Text>, refFindings: seq<Finding>, checks: seq<Check>)
    : Validation
  {
    var early := EarlyRefusals(arg, contextErrors, refFindings);
    if early != [] then Validation(ChosenMode(arg), [], early)
    else
      Validation(ChosenMode(arg), OfKind(Reported(checks), Approximation), OfKind(Reported(checks), Refusal))
  }

  ghost predicate AreReferenceRefusals(findings: seq<Finding>) {
    forall f :: f in findings ==> f.kind == Refusal && f.code == InvalidCloseReference
  }

  method CollectEarlyRefusals(arg: ModeArgument, contextErrors: seq<Text>, refFindings: seq<Finding>)
    returns (refusals: seq<Finding>)
    ensures refusals == EarlyRefusals(arg, contextErrors, refFindings)
  {
    hide ContextRefusal;
    refusals := [];
    if arg.Unrecognised? {
      refusals := refusals + [MODE_REFUSAL];
    }
    ghost var modeRefusals := refusals;
    for i := 0 to |contextErrors|
      invariant refusals == modeRefusals + ContextRefusals(contextErrors[..i])
    {
      assert ContextRefusals(contextErrors[..i + 1])
          == ContextRefusals(contextErrors[..i]) + [ContextRefusal(contextErrors[i])];
      refusals := refusals + [ContextRefusal(contextErrors[i])];
    }
    TakeAll(contextErrors);
    refusals := refusals + refFindings;
  }

  method ValidateCloseCapabilities(arg: ModeArgument, contextErrors: seq<Text>, refFindings: seq<Finding>,
                                   checks: seq<Check>)
    returns (outcome: Outcome)
    requires AreReferenceRefusals(refFindings)
    ensures outcome.Fault? <==> EarlyRefusals(arg, contextErrors, refFindings) == [] && !AllDeclared(checks)
    ensures !outcome.Fault? ==>
      && outcome.validation == Emitted(arg, contextErrors, refFindings, checks)
      && WellFiled(outcome.validation)
      && (outcome.Accepted? <==> outcome.validation.refusals == [])
  {
    hide AllDeclared, EarlyRefusals, WellFiled;
    var refusals := CollectEarlyRefusals(arg, contextErrors, refFindings);
    var approximations: seq<Finding> := [];
    if refusals == [] {
      var fault;
      approximations, refusals, fault := RunChecks(checks);
      if fault {
        return Fault;
      }
    }
    var validation := Validation(ChosenMode(arg), approximations, refusals);
    EmittedIsWellFiled(arg, contextErrors, refFindings, checks);
    outcome := if refusals != [] then Rejected(validation) else Accepted(validation);
  }

  lemma EmittedIsWellFiled(arg: ModeArgument, contextErrors: seq<Text>, refFindings: seq<Finding>, checks: seq<Check>)
    requires AreReferenceRefusals(refFindings)
    requires EarlyRefusals(arg, contextErrors, refFindings) == [] ==> AllDeclared(checks)
    ensures WellFiled(Emitted(arg, contextErrors, refFindings, checks))
  {
    hide Registered, AllDeclared, EarlyRefusals;
    if EarlyRefusals(arg, contextErrors, refFindings) == [] {
      ReportedAreRegistered(checks);
      OfKindMembers(Reported(checks), Refusal);
      OfKindMembers(Reported(checks), Approximation);
    } else {
      EarlyAreRefusals(arg, contextErrors, refFindings);
    }
  }

  lemma EarlyAreRefusals(arg: ModeArgument, contextErrors: seq<Text>, refFindings: seq<Finding>)
    requires AreReferenceRefusals(refFindings)
    ensures forall f :: f in EarlyRefusals(arg, contextErrors, refFindings) ==> f.kind == Refusal && Registered(f)
  {
  }

  /** Sorts one check's findings into refusals and approximations. */
  method RunCheck(spec: Check) returns (approximations: seq<Finding>, refusals: seq<Finding>, fault: bool)
    ensures fault <==> !Declared(spec)
    ensures !fault ==> approximations == OfKind(spec.findings, Approximation)
    ensures !fault ==> refusals == OfKind(spec.findings, Refusal)
  {
    hide Registered;
    approximations, refusals, fault := [], [], false;
    for j := 0 to |spec.findings|
      invariant forall k :: 0 <= k < j ==> spec.findings[k].code in spec.codes && Registered(spec.findings[k])
      invariant approximations == OfKind(spec.findings[..j], Approximation)
      invariant refusals == OfKind(spec.findings[..j], Refusal)
    {
      var rec := spec.findings[j];
      if rec.code !in spec.codes || !Registered(rec) {
        fault := true;
        return;
      }
      OfKindSnoc(spec.findings, j, Approximation);
      OfKindSnoc(spec.findings, j, Refusal);
      if rec.kind == Refusal {
        refusals := refusals + [rec];
      } else {
        approximations := approximations + [rec];
      }
    }
    TakeAll(spec.findings);
  }

  method RunChecks(checks: seq<Check>)
    returns (approximations: seq<Finding>, refusals: seq<Finding>, fault: bool)
    ensures fault <==> !AllDeclared(checks)
    ensures !fault ==> approximations == OfKind(Reported(checks), Approximation)
    ensures !fault ==> refusals == OfKind(Reported(checks), Refusal)
  {
    hide Declared;
    approximations, refusals, fault := [], [], false;
    for i := 0 to |checks|
      invariant forall k :: 0 <= k < i && checks[k].inPhase ==> Declared(checks[k])
      invariant approximations == OfKind(Reported(checks[..i]), Approximation)
      invariant refusals == OfKind(Reported(checks[..i]), Refusal)
    {
      assert checks[..i + 1][..|checks[..i + 1]| - 1] == checks[..i];
      assert Reported(checks[..i]) + [] == Reported(checks[..i]);
      if checks[i].inPhase {
        var moreApproximations, moreRefusals;
        moreApproximations, moreRefusals, fault := RunCheck(checks[i]);
        if fault {
          return;
        }
        OfKindAppend(Reported(checks[..i]), checks[i].findings, Approximation);
        OfKindAppend(Reported(checks[..i]), checks[i].findings, Refusal);
        approximations := approximations + moreApproximations;
        refusals := refusals + moreRefusals;
      }
    }
    TakeAll(checks);
  }

  // ---------------------------------------------------------------- the registered checks

  datatype LiveSupport = Supported | ResearchContext | LiveOnly

  datatype Capability = Capability(live: LiveSupport, replayable: bool, inputs: seq<Text>)

  /** A normalised close reference: whether the registry has the close, what the capability table declares of it, and
      whether the platform's own implementation exempts it from live restrictions. */
  datatype CloseRef = CloseRef(name: Text, registered: bool, capability: Option<Capability>, exempt: bool)

  /** What a stop check refuses; the code is the check's own. */
  datatype StopReport = StopReport(feature: Text, inputs: seq<Text>, details: map<Key, Json>)

  /** What the checks are asked: the mode, whether the phase is static, whether an entry replay asks, the closes, and
      what the three stop checks find in the stop context. */
  datatype Request = Request(mode: Mode, inStatic: bool, entryReplay: bool, refs: seq<CloseRef>,
                             ownerSupport: seq<StopReport>, stopInputs: seq<StopReport>,
                             marginLeverage: seq<StopReport>)

  /** The checks that go through the close references one by one. */
  datatype RefCheck = RegistryMembership | CapabilityDeclared | LiveOnlyCloses | LiveCloseContext | EntryReplay

  function RefuseRef(code: Text, idx: nat, ref: CloseRef, inputs: seq<Text>): Option<Finding> {
    Some(Finding(Refusal, code, ref.name, Some(idx), inputs, map[]))
  }

  /** What a check reports of one reference. */
  function RefFinding(check: RefCheck, req: Request, idx: nat, ref: CloseRef): Option<Finding> {
    var declared := ref.registered && ref.capability.Some?;
    match check
    case RegistryMembership => if !ref.registered then RefuseRef(UnknownCloseStrategy, idx, ref, []) else None
    case CapabilityDeclared =>
      if ref.registered && ref.capability.None? then RefuseRef(UnclassifiedCloseCapability, idx, ref, []) else None
    case LiveOnlyCloses =>
      if declared && ref.capability.value.live == LiveOnly && !ref.exempt then RefuseRef(LiveOnlyClose, idx, ref, [])
      else None
    case LiveCloseContext =>
      if !declared || ref.capability.value.live != ResearchContext || ref.exempt then None
      else if req.mode == Strict then RefuseRef(UnsupportedLiveContext, idx, ref, ref.capability.value.inputs)
      else
        Some(Finding(Approximation, ResearchOnlyCloseContext, ref.name, Some(idx), ref.capability.value.inputs, map[]))
    case EntryReplay =>
      if req.entryReplay && declared && !ref.capability.value.replayable
      then RefuseRef(UnsupportedReplayCapability, idx, ref, [])
      else None
  }

  /** The codes a check declares. */
  function RefCodes(check: RefCheck): set<Text> {
    match check
    case RegistryMembership => {UnknownCloseStrategy}
    case CapabilityDeclared => {UnclassifiedCloseCapability}
    case LiveOnlyCloses => {LiveOnlyClose}
    case LiveCloseContext => {UnsupportedLiveContext, ResearchOnlyCloseContext}
    case EntryReplay => {UnsupportedReplayCapability}
  }

  function RefFindings(check: RefCheck, req: Request, n: nat): seq<Finding>
    requires n <= |req.refs|
  {
    if n == 0 then []
    else
      var found := RefFinding(check, req, n - 1, req.refs[n - 1]);
      RefFindings(check, req, n - 1) + if found.Some? then [found.value] else []
  }

  method CheckRefs(check: RefCheck, req: Request) returns (out: seq<Finding>)
    ensures out == RefFindings(check, req, |req.refs|)
  {
    hide RefFinding;
    out := [];
    for idx := 0 to |req.refs|
      invariant out == RefFindings(check, req, idx)
    {
      var found := RefFinding(check, req, idx, req.refs[idx]);
      if found.Some? {
        out := out + [found.value];
      }
    }
  }

  /** A check reports of every reference exactly what it finds of it, each under a code it declares and registered for
      its kind, and approximations only in approximate mode. */
  lemma {:induction false} RefFindingsAre(check: RefCheck, req: Request, n: nat)
    requires n <= |req.refs|
    ensures forall f :: f in RefFindings(check, req, n) <==>
      exists k: nat :: k < n && RefFinding(check, req, k, req.refs[k]) == Some(f)
    ensures forall f :: f in RefFindings(check, req, n) ==>
      f.code in RefCodes(check) && Registered(f) && (f.kind == Approximation ==> req.mode == Approximate)
  {
    if n > 0 {
      RefFindingsAre(check, req, n - 1);
      RefFindingIs(check, req, n - 1, req.refs[n - 1]);
      hide RefFinding, RefCodes, Registered;
      var found := RefFinding(check, req, n - 1, req.refs[n - 1]);
    }
  }

  lemma RefFindingIs(check: RefCheck, req: Request, idx: nat, ref: CloseRef)
    ensures var found := RefFinding(check, req, idx, ref);
      found.Some? ==>
        && found.value.code in RefCodes(check) && Registered(found.value)
        && (found.value.kind == Approximation ==> req.mode == Approximate)
  {
  }

  function RefCheckOf(check: RefCheck, req: Request): Check {
    Check(req.inStatic, RefCodes(check), RefFindings(check, req, |req.refs|))
  }

  function StopCheck(inPhase: bool, code: Text, reports: seq<StopReport>): Check {
    Check(inPhase, {code}, seq(|reports|, i requires 0 <= i < |reports| =>
      Finding(Refusal, code, reports[i].feature, None, reports[i].inputs, reports[i].details)))
  }

  /** The eight registered checks, in order; only the stop inputs are also checked at run time. */
  function RegisteredChecks(req: Request): seq<Check> {
    [RefCheckOf(RegistryMembership, req), RefCheckOf(CapabilityDeclared, req), RefCheckOf(LiveOnlyCloses, req),
     RefCheckOf(LiveCloseContext, req), RefCheckOf(EntryReplay, req),
     StopCheck(req.inStatic, UnsupportedStopOwner, req.ownerSupport),
     StopCheck(true, MissingStopInput, req.stopInputs),
     StopCheck(req.inStatic, UnverifiedMarginLeverage, req.marginLeverage)]
  }

  /** A check that reports what it declared, with approximations only in the given mode. */
  ghost predicate Honest(check: Check, mode: Mode) {
    Declared(check) && forall f :: f in check.findings && f.kind == Approximation ==> mode == Approximate
  }

  lemma RegisteredAreHonest(req: Request)
    ensures forall i :: 0 <= i < |RegisteredChecks(req)| ==> Honest(RegisteredChecks(req)[i], req.mode)
  {
    forall check: RefCheck
      ensures Honest(RefCheckOf(check, req), req.mode)
    {
      RefFindingsAre(check, req, |req.refs|);
      hide RefFindings, RefCodes, Registered;
    }
    StopCheckIsHonest(req.inStatic, UnsupportedStopOwner, req.ownerSupport, req.mode);
    StopCheckIsHonest(true, MissingStopInput, req.stopInputs, req.mode);
    StopCheckIsHonest(req.inStatic, UnverifiedMarginLeverage, req.marginLeverage, req.mode);
    hide Honest, RefCheckOf, StopCheck;
  }

  lemma StopCheckIsHonest(inPhase: bool, code: Text, reports: seq<StopReport>, mode: Mode)
    requires IsRefusalCode(code)
    ensures Honest(StopCheck(inPhase, code, reports), mode)
  {
  }

  /** Approximations are only reported in approximate mode. */
  ghost predicate HonoursMode(mode: Option<Mode>, checks: seq<Check>) {
    forall f :: f in Reported(checks) && f.kind == Approximation ==> mode == Some(Approximate)
  }

  lemma {:induction false} HonestHonoursMode(checks: seq<Check>, mode: Mode)
    requires forall i :: 0 <= i < |checks| ==> Honest(checks[i], mode)
    ensures AllDeclared(checks) && HonoursMode(Some(mode), checks)
  {
    hide Declared;
    if checks != [] {
      HonestHonoursMode(checks[..|checks| - 1], mode);
      assert Honest(checks[|checks| - 1], mode);
    }
  }

  /** Whatever a validation ends in, what is serialised of it decodes to itself, if its checks are declared and honour
      the mode. */
  lemma EmittedDecodes(arg: ModeArgument, contextErrors: seq<Text>, refFindings: seq<Finding>, checks: seq<Check>)
    requires AreReferenceRefusals(refFindings)
    requires EarlyRefusals(arg, contextErrors, refFindings) == [] ==>
      AllDeclared(checks) && HonoursMode(ChosenMode(arg), checks)
    ensures var v := Emitted(arg, contextErrors, refFindings, checks);
      Decode(ValidationJson(v))
      == Single(v.mode, SingleStatus(v.mode, v.approximations != [], v.refusals != []),
                FindingsJson(v.approximations), FindingsJson(v.refusals))
  {
    hide Decode, ValidationJson, IsRefusalCode, Registered, ContextRefusal, WellFiled, AllDeclared;
    var v := Emitted(arg, contextErrors, refFindings, checks);
    EmittedIsWellFiled(arg, contextErrors, refFindings, checks);
    OfKindMembers(Reported(checks), Approximation);
    if v.refusals == [] && v.approximations != [] {
      assert v.approximations[0] in Reported(checks);
    }
    assert ModeIsCoherent(v);
    ValidationRoundTrip(v);
  }

  /** With the registered checks no call ends in a fault, and every validation serialises to what decodes to itself:
      for every mode argument, context, list of close references and stop context. */
  lemma EveryValidationDecodes(arg: ModeArgument, contextErrors: seq<Text>, refFindings: seq<Finding>, req: Request)
    requires AreReferenceRefusals(refFindings)
    requires !arg.Unrecognised? ==> ChosenMode(arg) == Some(req.mode)
    ensures AllDeclared(RegisteredChecks(req))
    ensures var v := Emitted(arg, contextErrors, refFindings, RegisteredChecks(req));
      && WellFiled(v)
      && Decode(ValidationJson(v))
         == Single(v.mode, SingleStatus(v.mode, v.approximations != [], v.refusals != []),
                   FindingsJson(v.approximations), FindingsJson(v.refusals))
  {
    hide Decode, ValidationJson, WellFiled, AllDeclared, HonoursMode, RegisteredChecks, ContextRefusal;
    RegisteredAreHonest(req);
    HonestHonoursMode(RegisteredChecks(req), req.mode);
    EmittedDecodes(arg, contextErrors, refFindings, RegisteredChecks(req));
    EmittedIsWellFiled(arg, contextErrors, refFindings, RegisteredChecks(req));
  }
}
