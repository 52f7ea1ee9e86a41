/** The integrity of a reasoning trace: complete, ordered, and equal to the sequence registered beside it. */
module TraceIntegrity {
  import opened Collections
  import opened Contracts
  import opened Windows

  // ----- names -----

  predicate Whitespace(c: char) {
    9 <= c as int <= 13 || 28 <= c as int <= 32
  }

  function UpperChar(c: char): char {
    if 'a' <= c <= 'z' then (c as int - 32) as char else c
  }

  function Upper(s: string): (r: string)
    ensures |r| == |s|
  {
    Mapped(s, UpperChar)
  }

  function StripLeft(s: string): string {
    if s != "" && Whitespace(s[0]) then StripLeft(s[1..]) else s
  }

  function StripRight(s: string): string {
    if s != "" && Whitespace(s[|s| - 1]) then StripRight(s[..|s| - 1]) else s
  }

  function Strip(s: string): string {
    StripRight(StripLeft(s))
  }

  function Normal(s: string): string {
    Upper(Strip(s))
  }

  predicate Trimmed(s: string) {
    s != "" ==> !Whitespace(s[0]) && !Whitespace(s[|s| - 1])
  }

  lemma {:induction false} StripLeftTrims(s: string)
    ensures var r := StripLeft(s); r != "" ==> !Whitespace(r[0])
  {
    if s != "" && Whitespace(s[0]) { StripLeftTrims(s[1..]); }
  }

  lemma {:induction false} StripRightTrims(s: string)
    ensures var r := StripRight(s); r != "" ==> !Whitespace(r[|r| - 1]) && s != "" && r[0] == s[0]
  {
    if s != "" && Whitespace(s[|s| - 1]) { StripRightTrims(s[..|s| - 1]); }
  }

  /** Registering a name already normalised is the same as registering it as it came. */
  lemma NormalIsIdempotent(s: string)
    ensures Trimmed(Normal(s)) && Normal(Normal(s)) == Normal(s)
  {
    StripLeftTrims(s);
    StripRightTrims(StripLeft(s));
    var r := Normal(s);
    assert Upper(r) == r;
  }

  lemma {:induction false} StripLeftKeeps(s: string) returns (i: nat)
    ensures i <= |s| && StripLeft(s) == s[i..] && forall k :: 0 <= k < i ==> Whitespace(s[k])
  {
    if s != "" && Whitespace(s[0]) {
      i := StripLeftKeeps(s[1..]);
      i := i + 1;
      assert s[i..] == s[1..][i - 1..];
      assert forall k :: 1 <= k < i ==> s[k] == s[1..][k - 1];
    } else {
      i := 0;
    }
  }

  lemma {:induction false} StripRightKeeps(s: string) returns (n: nat)
    ensures n <= |s| && StripRight(s) == s[..n] && forall k :: n <= k < |s| ==> Whitespace(s[k])
  {
    if s != "" && Whitespace(s[|s| - 1]) {
      n := StripRightKeeps(s[..|s| - 1]);
      assert s[..n] == s[..|s| - 1][..n];
      assert forall k :: n <= k < |s| - 1 ==> s[k] == s[..|s| - 1][k];
    } else {
      n := |s|;
    }
  }

  /** The normal form is a stretch of the text in capitals, and what is left out on both sides is blank. */
  lemma NormalKeeps(s: string) returns (i: nat, n: nat)
    ensures i <= n <= |s| && |Normal(s)| == n - i
    ensures forall k :: i <= k < n ==>
              Normal(s)[k - i] == if 'a' <= s[k] <= 'z' then 'A' + (s[k] - 'a') else s[k]
    ensures forall k :: 0 <= k < i || n <= k < |s| ==> Whitespace(s[k])
  {
    i := StripLeftKeeps(s);
    n := StripRightKeeps(s[i..]);
    assert Strip(s) == s[i..][..n];
    forall k | i + n <= k < |s| ensures Whitespace(s[k]) { assert s[k] == s[i..][k - i]; }
    n := i + n;
  }

  // ----- the record of an episode -----

  /** None: absent, or not a text. */
  datatype Step = NotMapping | Step(family: Option<string>, status: Option<string>, timestamp: Option<real>)

  datatype TraceValue = NoTrace | NotSequence | Steps(steps: seq<Step>)

  /** `registered`: the reasoning sequence of the result, None when there is none that is a sequence. */
  datatype Record = NotARecord | Record(trace: TraceValue, registered: Option<seq<Option<string>>>)

  predicate Named(text: Option<string>) {
    text.Some? && Strip(text.value) != ""
  }

  predicate WellFormed(step: Step) {
    step.Step? && Named(step.family) && Named(step.status)
  }

  predicate AllWellFormed(steps: seq<Step>) {
    forall i :: 0 <= i < |steps| ==> WellFormed(steps[i])
  }

  function FamilyOf(step: Step): string {
    if step.Step? then NameOf(step.family) else ""
  }

  function Families(steps: seq<Step>): (r: seq<string>)
    ensures |r| == |steps| && forall i :: 0 <= i < |steps| ==> r[i] == FamilyOf(steps[i])
  {
    Mapped(steps, FamilyOf)
  }

  predicate Timed(step: Step) {
    step.Step? && step.timestamp.Some?
  }

  predicate AllTimed(steps: seq<Step>) {
    forall i :: 0 <= i < |steps| ==> Timed(steps[i])
  }

  function TimesOf(steps: seq<Step>): (r: seq<real>)
    requires AllTimed(steps)
    ensures |r| == |steps| && forall i :: 0 <= i < |steps| ==> r[i] == steps[i].timestamp.value
  {
    seq(|steps|, i requires 0 <= i < |steps| => steps[i].timestamp.value)
  }

  predicate Ascending(times: seq<real>) {
    forall i, j :: 0 <= i < j < |times| ==> times[i] <= times[j]
  }

  /** No step is before any earlier one. */
  predicate Ordered(steps: seq<Step>)
    requires AllTimed(steps)
  {
    Ascending(TimesOf(steps))
  }

  function NameOf(item: Option<string>): string {
    if item.Some? then Normal(item.value) else ""
  }

  /** The registered sequence, when there is one to verify against. */
  function ExpectedOf(registered: Option<seq<Option<string>>>): Option<seq<string>> {
    if registered.Some? && registered.value != [] && (forall item :: item in registered.value ==> Named(item))
    then Some(Mapped(registered.value, NameOf))
    else None
  }

  predicate Integral(record: Record) {
    && record.Record? && record.trace.Steps? && record.trace.steps != []
    && var steps := record.trace.steps;
    && AllWellFormed(steps)
    && (AllTimed(steps) ==> Ordered(steps))
    && (ExpectedOf(record.registered).Some? ==> Families(steps) == ExpectedOf(record.registered).value)
  }

  // ----- the assessment -----

  datatype Reason =
    Ok | TraceMissing | TraceMalformed | TraceEmpty | StepMalformed | TimestampRegression | SequenceMismatch

  datatype Check = Present | NonEmpty | WellFormedness | MonotonicTimestamps | SequenceMatch

  /** `index`: of the first malformed or regressing step. */
  datatype Result = Result(reason: Reason, stepCount: nat, checks: seq<Check>, index: Option<nat>)

  predicate Regresses(times: seq<real>, i: nat) {
    1 <= i < |times| && times[i] < times[i - 1]
  }

  /** Times that never regress from one to the next are ordered throughout. */
  lemma {:induction false} NeighboursOrder(times: seq<real>)
    requires forall i :: 1 <= i < |times| ==> !Regresses(times, i)
    ensures Ascending(times)
  {
    if times != [] {
      var n := |times| - 1;
      var front := times[..n];
      assert forall i :: 1 <= i < n ==> Regresses(front, i) == Regresses(times, i);
      NeighboursOrder(front);
      assert forall i :: 0 <= i < n ==> times[i] == front[i];
      assert n > 0 ==> !Regresses(times, n);
    }
  }

  method FirstRegression(times: seq<real>) returns (index: Option<nat>)
    ensures index.None? <==> Ascending(times)
    ensures index.Some? ==> Regresses(times, index.value) && Ascending(times[..index.value])
  {
    var i := 1;
    while i < |times|
      invariant 1 <= i
      invariant forall k :: 1 <= k < i && k < |times| ==> !Regresses(times, k)
    {
      if times[i] < times[i - 1] {
        assert forall k :: 1 <= k < i ==> Regresses(times[..i], k) == Regresses(times, k);
        NeighboursOrder(times[..i]);
        return Some(i);
      }
      i := i + 1;
    }
    NeighboursOrder(times);
    index := None;
  }

  method ExpectedSequence(registered: Option<seq<Option<string>>>) returns (expected: Option<seq<string>>)
    ensures expected == ExpectedOf(registered)
  {
    if registered.None? { return None; }
    var sequence := registered.value;
    if sequence == [] { return None; }
    var names: seq<string> := [];
    for i := 0 to |sequence|
      invariant |names| == i
      invariant forall k :: 0 <= k < i ==> Named(sequence[k]) && names[k] == Normal(sequence[k].value)
    {
      if sequence[i].None? || Strip(sequence[i].value) == "" {
        assert sequence[i] in sequence;
        return None;
      }
      names := names + [Normal(sequence[i].value)];
    }
    assert names == Mapped(sequence, NameOf);
    expected := Some(names);
  }

  /** The families of a well-formed trace and the timestamps it carries, or the first malformed step. */
  method ReadSteps(steps: seq<Step>) returns (malformed: Option<nat>, families: seq<string>, timestamps: seq<real>)
    ensures malformed.None? <==> AllWellFormed(steps)
    ensures malformed.Some? ==>
              && malformed.value < |steps| && !WellFormed(steps[malformed.value])
              && forall k :: 0 <= k < malformed.value ==> WellFormed(steps[k])
    ensures malformed.None? ==> families == Families(steps)
    ensures malformed.None? ==> (|timestamps| == |steps| <==> AllTimed(steps))
    ensures malformed.None? && AllTimed(steps) ==> timestamps == TimesOf(steps)
  {
    families, timestamps := [], [];
    for i := 0 to |steps|
      invariant forall k :: 0 <= k < i ==> WellFormed(steps[k])
      invariant |families| == i && forall k :: 0 <= k < i ==> families[k] == FamilyOf(steps[k])
      invariant |timestamps| <= i && (|timestamps| == i <==> forall k :: 0 <= k < i ==> Timed(steps[k]))
      invariant |timestamps| == i ==> forall k :: 0 <= k < i ==> timestamps[k] == steps[k].timestamp.value
    {
      var step := steps[i];
      if step.NotMapping? { return Some(i), families, timestamps; }
      if step.family.None? || Strip(step.family.value) == "" { return Some(i), families, timestamps; }
      if step.status.None? || Strip(step.status.value) == "" { return Some(i), families, timestamps; }
      families := families + [Normal(step.family.value)];
      if step.timestamp.Some? { timestamps := timestamps + [step.timestamp.value]; }
    }
    return None, families, timestamps;
  }

  /** For a trace with steps: the reason is the first check that fails, with the first step that fails it,
      and a check that cannot be made is not among those applied. */
  predicate Explains(steps: seq<Step>, verifiable: bool, r: Result) {
    && r.stepCount == |steps|
    && (r.reason == StepMalformed <==> !AllWellFormed(steps))
    && (r.reason == TimestampRegression <==> AllWellFormed(steps) && AllTimed(steps) && !Ordered(steps))
    && (r.reason == StepMalformed ==>
          && r.index.Some? && r.index.value < |steps| && !WellFormed(steps[r.index.value])
          && forall k :: 0 <= k < r.index.value ==> WellFormed(steps[k]))
    && (r.reason == TimestampRegression ==>
          && r.index.Some? && Regresses(TimesOf(steps), r.index.value)
          && Ascending(TimesOf(steps)[..r.index.value]))
    && (MonotonicTimestamps in r.checks <==> AllWellFormed(steps) && AllTimed(steps))
    && (SequenceMatch in r.checks <==> r.reason in {Ok, SequenceMismatch} && verifiable)
  }

  method AssessTraceIntegrity(record: Record) returns (r: Result)
    ensures r.reason == Ok <==> Integral(record)
    ensures r.reason == TraceMissing <==> record.NotARecord? || record.trace.NoTrace?
    ensures r.reason == TraceMalformed <==> record.Record? && record.trace.NotSequence?
    ensures r.reason == TraceEmpty <==> record.Record? && record.trace == Steps([])
    ensures record.Record? && record.trace.Steps? && record.trace.steps != [] ==>
              Explains(record.trace.steps, ExpectedOf(record.registered).Some?, r)
  {
    if record.NotARecord? { return Result(TraceMissing, 0, [], None); }
    if record.trace.NoTrace? { return Result(TraceMissing, 0, [Present], None); }
    if record.trace.NotSequence? { return Result(TraceMalformed, 0, [Present], None); }
    var steps := record.trace.steps;
    if |steps| == 0 { return Result(TraceEmpty, 0, [Present, NonEmpty], None); }
    var checks := [Present, NonEmpty, WellFormedness];
    var malformed, families, timestamps := ReadSteps(steps);
    if malformed.Some? { return Result(StepMalformed, |steps|, checks, malformed); }
    if |timestamps| == |steps| {
      checks := checks + [MonotonicTimestamps];
      var regression := FirstRegression(timestamps);
      if regression.Some? { return Result(TimestampRegression, |steps|, checks, regression); }
    }
    var expected := ExpectedSequence(record.registered);
    if expected.Some? {
      checks := checks + [SequenceMatch];
      if families != expected.value { return Result(SequenceMismatch, |steps|, checks, None); }
    }
    r := Result(Ok, |steps|, checks, None);
  }

  // ----- what tampering is noticed -----

  function With(record: Record, steps: seq<Step>): Record
    requires record.Record?
  {
    record.(trace := Steps(steps))
  }

  function Without(steps: seq<Step>, k: nat): seq<Step>
    requires k < |steps|
  {
    steps[..k] + steps[k + 1..]
  }

  /** A registered sequence pins the families of every integral trace, one by one. */
  lemma IntegralDetermined(record: Record, steps: seq<Step>)
    requires Integral(record) && ExpectedOf(record.registered).Some?
    ensures Integral(With(record, steps)) <==>
              && AllWellFormed(steps) && (AllTimed(steps) ==> Ordered(steps))
              && Families(steps) == Families(record.trace.steps)
  {
    if Families(steps) == Families(record.trace.steps) {
      assert |steps| == |record.trace.steps|;
    }
  }

  /** Deleting a step of an integral trace is noticed exactly when a sequence is registered, nothing is left, or the
      deleted step was the one that kept disordered timestamps from being compared. */
  lemma DeletionNoticed(record: Record, k: nat)
    requires Integral(record) && k < |record.trace.steps|
    ensures var rest := Without(record.trace.steps, k);
            !Integral(With(record, rest)) <==>
              || ExpectedOf(record.registered).Some? || rest == []
              || (!Timed(record.trace.steps[k]) && AllTimed(rest) && !Ordered(rest))
  {
    var steps := record.trace.steps;
    var rest := Without(steps, k);
    if ExpectedOf(record.registered).Some? {
      IntegralDetermined(record, rest);
      assert |Families(rest)| != |Families(steps)|;
    } else {
      WithoutKeeps(steps, k);
    }
  }

  lemma WithoutKeeps(steps: seq<Step>, k: nat)
    requires k < |steps| && AllWellFormed(steps)
    ensures AllWellFormed(Without(steps, k))
    ensures AllTimed(steps) ==> AllTimed(Without(steps, k))
    ensures AllTimed(Without(steps, k)) && Timed(steps[k]) ==> AllTimed(steps)
    ensures AllTimed(steps) && Ordered(steps) ==> Ordered(Without(steps, k))
  {
    var rest := Without(steps, k);
    assert forall i :: 0 <= i < |rest| ==> rest[i] == steps[if i < k then i else i + 1];
    if AllTimed(rest) && Timed(steps[k]) {
      forall i | 0 <= i < |steps| ensures Timed(steps[i]) {
        if i != k { assert rest[if i < k then i else i - 1] == steps[i]; }
      }
    }
  }

  /** With a registered sequence an added step is always noticed, whatever it is and wherever it goes. */
  lemma InsertionNoticed(record: Record, k: nat, step: Step)
    requires Integral(record) && ExpectedOf(record.registered).Some? && k <= |record.trace.steps|
    ensures !Integral(With(record, record.trace.steps[..k] + [step] + record.trace.steps[k..]))
  {
    var steps := record.trace.steps;
    var longer := steps[..k] + [step] + steps[k..];
    IntegralDetermined(record, longer);
    assert |Families(longer)| != |Families(steps)|;
  }

  /** With a registered sequence an exchange of two steps is noticed unless both are of one family, and then
      exactly when it disorders the timestamps. */
  lemma SwapNoticed(record: Record, i: nat, j: nat)
    requires Integral(record) && ExpectedOf(record.registered).Some? && i < j < |record.trace.steps|
    ensures var steps := record.trace.steps;
            !Integral(With(record, steps[i := steps[j]][j := steps[i]])) <==>
              || FamilyOf(steps[i]) != FamilyOf(steps[j])
              || (AllTimed(steps) && steps[i].timestamp.value < steps[j].timestamp.value)
  {
    var steps := record.trace.steps;
    var swapped := steps[i := steps[j]][j := steps[i]];
    IntegralDetermined(record, swapped);
    SwappedKeeps(steps, i, j);
  }

  lemma SwappedKeeps(steps: seq<Step>, i: nat, j: nat)
    requires i < j < |steps| && AllWellFormed(steps)
    requires AllTimed(steps) ==> Ordered(steps)
    ensures var swapped := steps[i := steps[j]][j := steps[i]];
            && AllWellFormed(swapped)
            && (AllTimed(swapped) <==> AllTimed(steps))
            && (AllTimed(steps) ==> (Ordered(swapped) <==> steps[i].timestamp.value >= steps[j].timestamp.value))
            && (Families(swapped) == Families(steps) <==> FamilyOf(steps[i]) == FamilyOf(steps[j]))
  {
    var swapped := steps[i := steps[j]][j := steps[i]];
    assert swapped[i] == steps[j] && swapped[j] == steps[i];
    assert forall k :: 0 <= k < |steps| && k != i && k != j ==> swapped[k] == steps[k];
    if AllTimed(swapped) {
      forall k | 0 <= k < |steps| ensures Timed(steps[k]) {
        assert Timed(swapped[k]) && Timed(swapped[i]) && Timed(swapped[j]);
      }
      assert AllTimed(steps);
    }
    assert Families(swapped)[i] == FamilyOf(steps[j]) && Families(steps)[i] == FamilyOf(steps[i]);
  }
}
