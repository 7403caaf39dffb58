/** From an acceptance report to a health proof: the signals collected
    (`cmd/sealos/cmd/sync_health_proof.go`), the verdict recorded, and the verdict
    the release side computes again from the proof (`pkg/distribution/bom`). */
module HealthProof {
  import opened GoStrings
  import opened Paths
  import RenderInputs

  // ------------------------------------------------------------------- reports

  datatype Stage = Stage(name: string, status: string, mutates: bool)

  datatype Report = Report(
    status: string, exitCode: int, mutatingApply: bool, revertCheck: bool,
    bomFile: string, bomName: string, bomRevision: string, bomDigest: string,
    desiredStateDigest: string, localRepoRevision: string,
    sourcePreflight: string, runtimePreflight: string, postApply: string, postRevert: string,
    stages: seq<Stage>)

  /** The target the proof is for, and what the checks read. */
  datatype Target = Target(name: string, revision: string, bomPath: string,
                           store: RenderInputs.Store, hash: string -> string, isDigest: string -> bool)

  datatype Signal = Signal(name: string, passed: bool, required: bool)

  function Required(name: string, passed: bool): Signal {
    Signal(name, passed, true)
  }

  /** `strings.EqualFold(strings.TrimSpace(text), word)`. */
  predicate Is(text: string, word: string) {
    EqualFold(Trim(text), word)
  }

  // ------------------------------------------------------------ single signals

  predicate BomFileSame(t: Target, reported: string) {
    && !Blank(reported) && !Blank(t.bomPath)
    && Clean(RenderInputs.Abs(t.store, Trim(reported))) == Clean(RenderInputs.Abs(t.store, Trim(t.bomPath)))
  }

  predicate BomIdentitySame(t: Target, name: string, revision: string) {
    !Blank(name) && !Blank(revision) && Trim(name) == Trim(t.name) && Trim(revision) == Trim(t.revision)
  }

  predicate BomDigestSame(t: Target, reported: string) {
    && !Blank(reported) && !Blank(t.bomPath)
    && match RenderInputs.Read(t.store, Trim(t.bomPath))
       case None => false
       case Some(data) => Trim(reported) == t.hash(data)
  }

  predicate DigestGiven(t: Target, value: string) {
    !Blank(value) && t.isDigest(Trim(value))
  }

  predicate PreflightPassed(state: string) {
    Is(state, "Ready") || Is(state, "Warning")
  }

  // ------------------------------------------------------------ contract stages

  datatype Contract = Contract(name: string, mutates: bool)

  const BASE_CONTRACT: seq<Contract> := [
    Contract("package-inspect-containerd", false), Contract("package-inspect-kubernetes", false),
    Contract("package-inspect-cilium", false), Contract("local-repo-init", false),
    Contract("fill-local-repo-inputs", false), Contract("local-repo-doctor", false),
    Contract("validate", false), Contract("source-preflight", false), Contract("render", false),
    Contract("verify-sourcePreflight-metadata", false), Contract("runtime-preflight", false),
    Contract("plan", false), Contract("apply", true), Contract("status", false), Contract("diff", false),
    Contract("validate-cluster", true)]

  const REVERT_CONTRACT: seq<Contract> := [
    Contract("revert-check-drift-inject", true), Contract("revert-check-drift-diff", false),
    Contract("revert-check-revert", true), Contract("revert-check-clean-diff", false),
    Contract("validate-cluster-after-revert", true)]

  function ContractOf(revertCheck: bool): seq<Contract> {
    BASE_CONTRACT + if revertCheck then REVERT_CONTRACT else []
  }

  /** `stageByName`: the last entry of a trimmed name. */
  function LastStage(stages: seq<Stage>, name: string): Option<Stage> {
    if stages == [] then None
    else if Trim(stages[|stages| - 1].name) == name then Some(stages[|stages| - 1])
    else LastStage(stages[..|stages| - 1], name)
  }

  /** The stage was recorded, passed, and changed things where it must. */
  predicate ContractMet(stages: seq<Stage>, c: Contract) {
    match LastStage(stages, c.name)
    case None => false
    case Some(s) => !Blank(s.status) && Is(s.status, "Passed") && (c.mutates ==> s.mutates)
  }

  function ContractSignal(stages: seq<Stage>): Contract -> seq<Signal> {
    (c: Contract) => [Required("contract/" + c.name, ContractMet(stages, c))]
  }

  function ContractSignals(r: Report): seq<Signal> {
    FlatMap(ContractSignal(r.stages), ContractOf(r.revertCheck))
  }

  predicate StageFine(s: Stage) {
    Blank(s.status) || Is(s.status, "Passed") || Is(s.status, "Skipped")
  }

  function StageSignal(s: Stage): seq<Signal> {
    if Blank(s.status) then [] else [Required("stage/" + Trim(s.name), StageFine(s))]
  }

  // -------------------------------------------------------------- the whole list

  /** A drift state that must be reported clean when its step was exercised. */
  function DriftSignal(name: string, exercised: bool, state: string): seq<Signal> {
    if exercised then [Required(name, !Blank(state) && Is(state, "Clean"))] else []
  }

  /** The six signals about the report itself, from their verdicts. */
  function Head(report: bool, file: bool, identity: bool, digest: bool, desired: bool, repo: bool): seq<Signal> {
    [Required("acceptance-report", report), Required("bom-file", file), Required("bom-identity", identity),
     Required("bom-digest", digest), Required("desired-state-digest", desired),
     Required("local-repo-revision", repo)]
  }

  function HeadSignals(t: Target, r: Report): seq<Signal> {
    Head(Is(r.status, "Passed") && r.exitCode == 0,
         BomFileSame(t, r.bomFile),
         BomIdentitySame(t, r.bomName, r.bomRevision),
         BomDigestSame(t, r.bomDigest),
         DigestGiven(t, r.desiredStateDigest),
         DigestGiven(t, r.localRepoRevision))
  }

  function Middle(source: bool, runtime: bool, mutating: bool): seq<Signal> {
    [Required("source-preflight", source), Required("runtime-preflight", runtime),
     Required("mutating-apply", mutating)]
  }

  function MiddleSignals(r: Report): seq<Signal> {
    Middle(PreflightPassed(r.sourcePreflight), PreflightPassed(r.runtimePreflight), r.mutatingApply)
    + DriftSignal("post-apply-drift", r.mutatingApply, r.postApply)
    + DriftSignal("post-revert-drift", r.revertCheck, r.postRevert)
  }

  /** `syncHealthProofSignals`. */
  function Signals(t: Target, r: Report): seq<Signal> {
    HeadSignals(t, r) + ContractSignals(r) + MiddleSignals(r) + FlatMap(StageSignal, r.stages)
  }

  predicate AllPassed(signals: seq<Signal>) {
    forall i :: 0 <= i < |signals| ==> signals[i].passed
  }

  /** `syncHealthProofSignalsPassed`. */
  predicate SignalsPassed(signals: seq<Signal>) {
    signals != [] && AllPassed(signals)
  }

  // ----------------------------------------------------------- what passing means

  /** The last entry of the stage's name passed, and changed things where it must. */
  ghost predicate StagePassed(stages: seq<Stage>, c: Contract) {
    exists i :: 0 <= i < |stages| && Trim(stages[i].name) == c.name
                && (forall j :: i < j < |stages| ==> Trim(stages[j].name) != c.name)
                && EqualFold(Trim(stages[i].status), "Passed") && (c.mutates ==> stages[i].mutates)
  }

  ghost predicate AllStagesPassed(stages: seq<Stage>, list: seq<Contract>) {
    forall i :: 0 <= i < |list| ==> StagePassed(stages, list[i])
  }

  /** Every listed stage passed or was skipped, or has no status. */
  ghost predicate NoneFailed(stages: seq<Stage>) {
    forall i :: 0 <= i < |stages| ==>
      var status := Trim(stages[i].status);
      status == "" || EqualFold(status, "Passed") || EqualFold(status, "Skipped")
  }

  /** The conditions of a passing report, one by one: status and exit code; the
      BOM file, its name, revision and digest; two well-formed digests; every
      contract stage; both preflights; a clean state after the apply, and after the
      revert where that was checked; no listed stage with another status than
      passed or skipped. */
  ghost predicate Acceptable(t: Target, r: Report) {
    && EqualFold(Trim(r.status), "Passed") && r.exitCode == 0
    && Trim(r.bomFile) != "" && Trim(t.bomPath) != ""
    && Clean(RenderInputs.Abs(t.store, Trim(r.bomFile))) == Clean(RenderInputs.Abs(t.store, Trim(t.bomPath)))
    && Trim(r.bomName) != "" && Trim(r.bomName) == Trim(t.name)
    && Trim(r.bomRevision) != "" && Trim(r.bomRevision) == Trim(t.revision)
    && Trim(r.bomDigest) != "" && RenderInputs.Read(t.store, Trim(t.bomPath)).Some?
    && Trim(r.bomDigest) == t.hash(RenderInputs.Read(t.store, Trim(t.bomPath)).value)
    && Trim(r.desiredStateDigest) != "" && t.isDigest(Trim(r.desiredStateDigest))
    && Trim(r.localRepoRevision) != "" && t.isDigest(Trim(r.localRepoRevision))
    && AllStagesPassed(r.stages, ContractOf(r.revertCheck))
    && (EqualFold(Trim(r.sourcePreflight), "Ready") || EqualFold(Trim(r.sourcePreflight), "Warning"))
    && (EqualFold(Trim(r.runtimePreflight), "Ready") || EqualFold(Trim(r.runtimePreflight), "Warning"))
    && r.mutatingApply && EqualFold(Trim(r.postApply), "Clean")
    && (r.revertCheck ==> EqualFold(Trim(r.postRevert), "Clean"))
    && NoneFailed(r.stages)
  }

  /** The same through the verdicts of the single signals. */
  ghost predicate AllFine(t: Target, r: Report) {
    && Is(r.status, "Passed") && r.exitCode == 0
    && BomFileSame(t, r.bomFile) && BomIdentitySame(t, r.bomName, r.bomRevision) && BomDigestSame(t, r.bomDigest)
    && DigestGiven(t, r.desiredStateDigest) && DigestGiven(t, r.localRepoRevision)
    && (forall i :: 0 <= i < |ContractOf(r.revertCheck)| ==> ContractMet(r.stages, ContractOf(r.revertCheck)[i]))
    && PreflightPassed(r.sourcePreflight) && PreflightPassed(r.runtimePreflight)
    && r.mutatingApply && !Blank(r.postApply) && Is(r.postApply, "Clean")
    && (r.revertCheck ==> !Blank(r.postRevert) && Is(r.postRevert, "Clean"))
    && (forall i :: 0 <= i < |r.stages| ==> StageFine(r.stages[i]))
  }

  lemma AllPassedConcat(a: seq<Signal>, b: seq<Signal>)
    ensures AllPassed(a + b) <==> AllPassed(a) && AllPassed(b)
  {
    var s := a + b;
    assert forall i :: 0 <= i < |a| ==> s[i] == a[i];
    assert forall i :: 0 <= i < |b| ==> s[|a| + i] == b[i];
  }

  lemma {:induction false} AllPassedFlat<T(!new)>(f: T -> seq<Signal>, s: seq<T>)
    ensures AllPassed(FlatMap(f, s)) <==> forall i :: 0 <= i < |s| ==> AllPassed(f(s[i]))
  {
    if s != [] {
      AllPassedFlat(f, s[1..]);
      AllPassedConcat(f(s[0]), FlatMap(f, s[1..]));
      assert forall i :: 0 <= i < |s[1..]| ==> s[1..][i] == s[i + 1];
      assert forall i :: 0 < i < |s| ==> s[i] == s[1..][i - 1];
    }
  }

  lemma OnePassed(x: Signal)
    ensures AllPassed([x]) <==> x.passed
  {
    assert [x][0] == x;
  }

  lemma ContractPart(r: Report)
    ensures AllPassed(ContractSignals(r))
       <==> forall i :: 0 <= i < |ContractOf(r.revertCheck)| ==> ContractMet(r.stages, ContractOf(r.revertCheck)[i])
  {
    var list, f := ContractOf(r.revertCheck), ContractSignal(r.stages);
    AllPassedFlat(f, list);
    forall i | 0 <= i < |list|
      ensures AllPassed(f(list[i])) <==> ContractMet(r.stages, list[i])
    {
      OnePassed(Required("contract/" + list[i].name, ContractMet(r.stages, list[i])));
    }
  }

  lemma StagePart(stages: seq<Stage>)
    ensures AllPassed(FlatMap(StageSignal, stages)) <==> forall i :: 0 <= i < |stages| ==> StageFine(stages[i])
  {
    AllPassedFlat(StageSignal, stages);
    forall i | 0 <= i < |stages|
      ensures AllPassed(StageSignal(stages[i])) <==> StageFine(stages[i])
    {
      if !Blank(stages[i].status) {
        OnePassed(Required("stage/" + Trim(stages[i].name), StageFine(stages[i])));
      }
    }
  }

  lemma HeadPassed(a: bool, b: bool, c: bool, d: bool, e: bool, f: bool)
    ensures AllPassed(Head(a, b, c, d, e, f)) <==> a && b && c && d && e && f
  {
    var s := Head(a, b, c, d, e, f);
    assert AllPassed(s) <==> s[0].passed && s[1].passed && s[2].passed && s[3].passed && s[4].passed && s[5].passed;
  }

  lemma HeadPart(t: Target, r: Report)
    ensures AllPassed(HeadSignals(t, r)) <==>
      && Is(r.status, "Passed") && r.exitCode == 0
      && BomFileSame(t, r.bomFile) && BomIdentitySame(t, r.bomName, r.bomRevision) && BomDigestSame(t, r.bomDigest)
      && DigestGiven(t, r.desiredStateDigest) && DigestGiven(t, r.localRepoRevision)
  {
    HeadPassed(Is(r.status, "Passed") && r.exitCode == 0,
               BomFileSame(t, r.bomFile),
               BomIdentitySame(t, r.bomName, r.bomRevision),
               BomDigestSame(t, r.bomDigest),
               DigestGiven(t, r.desiredStateDigest),
               DigestGiven(t, r.localRepoRevision));
  }

  lemma MiddlePassed(a: bool, b: bool, c: bool)
    ensures AllPassed(Middle(a, b, c)) <==> a && b && c
  {
    var s := Middle(a, b, c);
    assert AllPassed(s) <==> s[0].passed && s[1].passed && s[2].passed;
  }

  lemma DriftPart(name: string, exercised: bool, state: string)
    ensures AllPassed(DriftSignal(name, exercised, state)) <==> (exercised ==> !Blank(state) && Is(state, "Clean"))
  {
    if exercised {
      OnePassed(Required(name, !Blank(state) && Is(state, "Clean")));
    }
  }

  lemma MiddlePart(r: Report)
    ensures AllPassed(MiddleSignals(r)) <==>
      && PreflightPassed(r.sourcePreflight) && PreflightPassed(r.runtimePreflight)
      && r.mutatingApply && !Blank(r.postApply) && Is(r.postApply, "Clean")
      && (r.revertCheck ==> !Blank(r.postRevert) && Is(r.postRevert, "Clean"))
  {
    var s := Middle(PreflightPassed(r.sourcePreflight), PreflightPassed(r.runtimePreflight), r.mutatingApply);
    var apply := DriftSignal("post-apply-drift", r.mutatingApply, r.postApply);
    var revert := DriftSignal("post-revert-drift", r.revertCheck, r.postRevert);
    MiddlePassed(PreflightPassed(r.sourcePreflight), PreflightPassed(r.runtimePreflight), r.mutatingApply);
    DriftPart("post-apply-drift", r.mutatingApply, r.postApply);
    DriftPart("post-revert-drift", r.revertCheck, r.postRevert);
    AllPassedConcat(s, apply);
    AllPassedConcat(s + apply, revert);
  }

  lemma {:induction false} LastStageFound(stages: seq<Stage>, name: string) returns (i: nat)
    requires LastStage(stages, name).Some?
    ensures i < |stages| && Trim(stages[i].name) == name && LastStage(stages, name) == Some(stages[i])
    ensures forall j :: i < j < |stages| ==> Trim(stages[j].name) != name
    decreases |stages|
  {
    i := |stages| - 1;
    if Trim(stages[i].name) != name {
      i := LastStageFound(stages[..|stages| - 1], name);
    }
  }

  lemma {:induction false} LastStageNone(stages: seq<Stage>, name: string)
    requires LastStage(stages, name).None?
    ensures forall i :: 0 <= i < |stages| ==> Trim(stages[i].name) != name
    decreases |stages|
  {
    if stages != [] {
      LastStageNone(stages[..|stages| - 1], name);
    }
  }

  lemma FoldedEmpty(word: string)
    requires word != ""
    ensures !EqualFold("", word)
  {
    assert |Fold(word)| == |word|;
  }

  lemma ContractMetExact(stages: seq<Stage>, c: Contract)
    ensures ContractMet(stages, c) <==> StagePassed(stages, c)
  {
    FoldedEmpty("Passed");
    if LastStage(stages, c.name).Some? {
      var i := LastStageFound(stages, c.name);
      forall k | 0 <= k < |stages| && Trim(stages[k].name) == c.name
                 && forall j :: k < j < |stages| ==> Trim(stages[j].name) != c.name
        ensures k == i
      {
      }
    } else {
      LastStageNone(stages, c.name);
    }
  }

  /** The parts about the report itself. */
  lemma HeadExact(t: Target, r: Report)
    ensures BomFileSame(t, r.bomFile) <==>
      && Trim(r.bomFile) != "" && Trim(t.bomPath) != ""
      && Clean(RenderInputs.Abs(t.store, Trim(r.bomFile))) == Clean(RenderInputs.Abs(t.store, Trim(t.bomPath)))
    ensures BomIdentitySame(t, r.bomName, r.bomRevision) <==>
      && Trim(r.bomName) != "" && Trim(r.bomName) == Trim(t.name)
      && Trim(r.bomRevision) != "" && Trim(r.bomRevision) == Trim(t.revision)
    ensures Trim(t.bomPath) != "" ==>
      (BomDigestSame(t, r.bomDigest) <==>
       && Trim(r.bomDigest) != "" && RenderInputs.Read(t.store, Trim(t.bomPath)).Some?
       && Trim(r.bomDigest) == t.hash(RenderInputs.Read(t.store, Trim(t.bomPath)).value))
    ensures DigestGiven(t, r.desiredStateDigest) <==>
      Trim(r.desiredStateDigest) != "" && t.isDigest(Trim(r.desiredStateDigest))
    ensures DigestGiven(t, r.localRepoRevision) <==>
      Trim(r.localRepoRevision) != "" && t.isDigest(Trim(r.localRepoRevision))
  {
  }

  lemma StatesExact(r: Report)
    ensures PreflightPassed(r.sourcePreflight) <==>
      EqualFold(Trim(r.sourcePreflight), "Ready") || EqualFold(Trim(r.sourcePreflight), "Warning")
    ensures PreflightPassed(r.runtimePreflight) <==>
      EqualFold(Trim(r.runtimePreflight), "Ready") || EqualFold(Trim(r.runtimePreflight), "Warning")
    ensures !Blank(r.postApply) && Is(r.postApply, "Clean") <==> EqualFold(Trim(r.postApply), "Clean")
    ensures !Blank(r.postRevert) && Is(r.postRevert, "Clean") <==> EqualFold(Trim(r.postRevert), "Clean")
  {
    FoldedEmpty("Clean");
  }

  lemma StagesExact(stages: seq<Stage>, list: seq<Contract>)
    ensures (forall i :: 0 <= i < |list| ==> ContractMet(stages, list[i])) <==> AllStagesPassed(stages, list)
    ensures (forall i :: 0 <= i < |stages| ==> StageFine(stages[i])) <==> NoneFailed(stages)
  {
    forall i | 0 <= i < |list|
      ensures ContractMet(stages, list[i]) <==> StagePassed(stages, list[i])
    {
      ContractMetExact(stages, list[i]);
    }
  }

  lemma FineIsAcceptable(t: Target, r: Report)
    ensures AllFine(t, r) <==> Acceptable(t, r)
  {
    HeadExact(t, r);
    StatesExact(r);
    StagesExact(r.stages, ContractOf(r.revertCheck));
  }

  /** A proof passes exactly for an acceptable report: the last entry of every
      contract stage passed, changing things where required, no listed stage
      failed, and the rest is in order. */
  lemma PassExact(t: Target, r: Report)
    ensures SignalsPassed(Signals(t, r)) <==> Acceptable(t, r)
  {
    HeadPart(t, r);
    ContractPart(r);
    MiddlePart(r);
    StagePart(r.stages);
    JoinParts(HeadSignals(t, r), ContractSignals(r), MiddleSignals(r), FlatMap(StageSignal, r.stages));
    FineIsAcceptable(t, r);
  }

  lemma JoinParts(a: seq<Signal>, b: seq<Signal>, c: seq<Signal>, d: seq<Signal>)
    requires a != []
    ensures SignalsPassed(a + b + c + d) <==> AllPassed(a) && AllPassed(b) && AllPassed(c) && AllPassed(d)
  {
    AllPassedConcat(a, b);
    AllPassedConcat(a + b, c);
    AllPassedConcat(a + b + c, d);
  }

  lemma BaseContractFirst(stages: seq<Stage>)
    requires AllStagesPassed(stages, ContractOf(true))
    ensures AllStagesPassed(stages, ContractOf(false))
  {
    forall i | 0 <= i < |ContractOf(false)|
      ensures StagePassed(stages, ContractOf(false)[i])
    {
      assert ContractOf(true)[i] == ContractOf(false)[i];
    }
  }

  lemma AcceptableWithout(t: Target, r: Report)
    requires Acceptable(t, r.(revertCheck := true))
    ensures Acceptable(t, r.(revertCheck := false))
  {
    BaseContractFirst(r.stages);
  }

  /** Asking for the revert check as well can only make a report fail. */
  lemma RevertCheckOnlyStricter(t: Target, r: Report)
    requires SignalsPassed(Signals(t, r.(revertCheck := true)))
    ensures SignalsPassed(Signals(t, r.(revertCheck := false)))
  {
    PassExact(t, r.(revertCheck := true));
    AcceptableWithout(t, r);
    PassExact(t, r.(revertCheck := false));
  }

  // ------------------------------------------------------------------ thresholds

  datatype Thresholds = Thresholds(required: seq<string>, minPassed: nat)

  function RequiredName(s: Signal): seq<string> {
    if s.required then [s.name] else []
  }

  /** `syncHealthProofThresholds`. */
  function ThresholdsOf(signals: seq<Signal>): Thresholds {
    var names := FlatMap(RequiredName, signals);
    Thresholds(names, |names|)
  }

  predicate AllRequired(signals: seq<Signal>) {
    forall i :: 0 <= i < |signals| ==> signals[i].required && !Blank(signals[i].name)
  }

  /** When every signal is required, the thresholds name all of them, in order,
      and ask for as many. */
  lemma {:induction false} ThresholdsExact(signals: seq<Signal>)
    requires forall i :: 0 <= i < |signals| ==> signals[i].required
    ensures var t := ThresholdsOf(signals);
      && |t.required| == |signals| == t.minPassed
      && forall i :: 0 <= i < |signals| ==> t.required[i] == signals[i].name
  {
    if signals != [] {
      ThresholdsExact(signals[1..]);
      assert forall i :: 0 < i < |signals| ==> signals[i] == signals[1..][i - 1];
    }
  }

  // ------------------------------------------------- the release side's evaluation

  /** `signalByName`: the last signal of a trimmed, non-blank name. */
  function LastSignal(signals: seq<Signal>, name: string): Option<Signal> {
    if signals == [] then None
    else
      var s := signals[|signals| - 1];
      if !Blank(s.name) && Trim(s.name) == name then Some(s) else LastSignal(signals[..|signals| - 1], name)
  }

  function CountPassed(signals: seq<Signal>): (n: nat)
    ensures n <= |signals|
  {
    if signals == [] then 0
    else
      var s := signals[|signals| - 1];
      CountPassed(signals[..|signals| - 1]) + if !Blank(s.name) && s.passed then 1 else 0
  }

  predicate AnyFailed(signals: seq<Signal>) {
    exists i :: 0 <= i < |signals| && !Blank(signals[i].name) && !signals[i].passed
  }

  function TrimmedNames(names: seq<string>): set<string> {
    set i | 0 <= i < |names| && !Blank(names[i]) :: Trim(names[i])
  }

  function RequiredSet(signals: seq<Signal>, t: Thresholds): set<string> {
    TrimmedNames(t.required)
    + set i | 0 <= i < |signals| && !Blank(signals[i].name) && signals[i].required :: Trim(signals[i].name)
  }

  predicate RequiredPass(signals: seq<Signal>, names: set<string>) {
    forall n :: n in names ==> LastSignal(signals, n).Some? && LastSignal(signals, n).value.passed
  }

  predicate HasThresholds(t: Thresholds) {
    TrimmedNames(t.required) != {} || t.minPassed > 0
  }

  /** `EvaluateDistributionHealthProof`: the verdict. */
  predicate Evaluate(signals: seq<Signal>, t: Thresholds) {
    var min := if t.minPassed == 0 && !HasThresholds(t) then |signals| else t.minPassed;
    && |signals| > 0 && CountPassed(signals) >= min
    && RequiredPass(signals, RequiredSet(signals, t))
    && (!HasThresholds(t) ==> !AnyFailed(signals))
  }

  lemma {:induction false} CountAll(signals: seq<Signal>)
    requires AllRequired(signals)
    ensures CountPassed(signals) == |signals| <==> AllPassed(signals)
  {
    if signals != [] {
      var init, s := signals[..|signals| - 1], signals[|signals| - 1];
      assert forall i :: 0 <= i < |init| ==> init[i] == signals[i];
      CountAll(init);
      assert s == signals[|signals| - 1] && !Blank(s.name);
      assert AllPassed(signals) <==> AllPassed(init) && s.passed;
    }
  }

  lemma {:induction false} LastSignalHolds(signals: seq<Signal>, i: nat)
    requires i < |signals| && !Blank(signals[i].name)
    ensures var last := LastSignal(signals, Trim(signals[i].name)); last.Some? && last.value in signals
  {
    var init, s := signals[..|signals| - 1], signals[|signals| - 1];
    assert signals == init + [s];
    if i < |init| {
      LastSignalHolds(init, i);
    }
  }

  /** The two sides agree: what the release side computes from required, named
      signals and their thresholds is the verdict that they all passed. */
  lemma EvaluationAgrees(signals: seq<Signal>)
    requires AllRequired(signals)
    ensures Evaluate(signals, ThresholdsOf(signals)) <==> SignalsPassed(signals)
  {
    ThresholdsExact(signals);
    CountAll(signals);
    if SignalsPassed(signals) {
      var t := ThresholdsOf(signals);
      forall n | n in RequiredSet(signals, t)
        ensures LastSignal(signals, n).Some? && LastSignal(signals, n).value.passed
      {
        var i :| 0 <= i < |signals| && !Blank(signals[i].name) && n == Trim(signals[i].name);
        LastSignalHolds(signals, i);
      }
    }
  }

  // ------------------------------------------------------------- the whole proof

  datatype Proof = Proof(passed: bool, thresholds: Thresholds, signals: seq<Signal>)

  /** The check on the required names: each given, none twice. */
  predicate ValidRequired(names: seq<string>, seen: set<string>) {
    names == [] ||
    (!Blank(names[0]) && Trim(names[0]) !in seen && ValidRequired(names[1..], seen + {Trim(names[0])}))
  }

  predicate Validates(signals: seq<Signal>, t: Thresholds) {
    ValidRequired(t.required, {}) && forall i :: 0 <= i < |signals| ==> !Blank(signals[i].name)
  }

  /** `buildSyncHealthProof`; `fine` is the verdict of validation on the document's
      other fields: name, line, revision and collection time. */
  function BuildProof(t: Target, r: Report, fine: bool): Option<Proof> {
    var signals := Signals(t, r);
    var thresholds := ThresholdsOf(signals);
    if fine && Validates(signals, thresholds) then Some(Proof(Evaluate(signals, thresholds), thresholds, signals))
    else None
  }

  lemma {:induction false} ValidRequiredExact(names: seq<string>, seen: set<string>)
    ensures ValidRequired(names, seen) <==>
      && (forall i :: 0 <= i < |names| ==> !Blank(names[i]) && Trim(names[i]) !in seen)
      && (forall i, j :: 0 <= i < j < |names| ==> Trim(names[i]) != Trim(names[j]))
    decreases |names|
  {
    if names != [] {
      var rest, more := names[1..], seen + {Trim(names[0])};
      ValidRequiredExact(rest, more);
      assert forall i :: 0 <= i < |rest| ==> rest[i] == names[i + 1];
      assert forall i :: 1 <= i < |names| ==> names[i] == rest[i - 1];
      if ValidRequired(names, seen) {
        forall i, j | 0 <= i < j < |names|
          ensures Trim(names[i]) != Trim(names[j])
        {
          assert names[j] == rest[j - 1];
          if i > 0 { assert names[i] == rest[i - 1]; }
        }
      }
    }
  }

  /** No two signals have one name. */
  ghost predicate NamesApart(s: seq<Signal>) {
    forall i, j :: 0 <= i < j < |s| ==> s[i].name != s[j].name
  }

  ghost predicate NamesDisjoint(a: seq<Signal>, b: seq<Signal>) {
    forall i, j :: 0 <= i < |a| && 0 <= j < |b| ==> a[i].name != b[j].name
  }

  lemma ApartConcat(a: seq<Signal>, b: seq<Signal>)
    ensures NamesApart(a + b) <==> NamesApart(a) && NamesApart(b) && NamesDisjoint(a, b)
  {
    var s := a + b;
    assert forall i :: 0 <= i < |a| ==> s[i] == a[i];
    assert forall i :: 0 <= i < |b| ==> s[|a| + i] == b[i];
    assert forall j :: |a| <= j < |s| ==> s[j] == b[j - |a|];
    if NamesApart(a) && NamesApart(b) && NamesDisjoint(a, b) {
      forall i, j | 0 <= i < j < |s|
        ensures s[i].name != s[j].name
      {
        if j < |a| {
          assert s[i] == a[i] && s[j] == a[j];
        } else if i < |a| {
          assert s[i] == a[i] && s[j] == b[j - |a|];
        } else {
          assert s[i] == b[i - |a|] && s[j] == b[j - |a|];
        }
      }
    }
    if NamesApart(s) {
      forall i, j | 0 <= i < |a| && 0 <= j < |b|
        ensures a[i].name != b[j].name
      {
        assert s[i].name != s[|a| + j].name;
      }
      forall i, j | 0 <= i < j < |b|
        ensures b[i].name != b[j].name
      {
        assert s[|a| + i].name != s[|a| + j].name;
      }
    }
  }

  // The names that do not come from the report are told apart by a number read
  // off a few of their characters.

  function ContractRank(n: string): nat {
    if |n| == 26 then if n[16] == 'c' then 0 else 1
    else if |n| == 22 then if n[0] == 'p' then 2 else 4
    else if |n| == 15 then 3
    else if |n| == 17 then if n[0] == 'l' then 5 else 10
    else if |n| == 8 then 6
    else if |n| == 16 then if n[0] == 's' then 7 else 15
    else if |n| == 6 then if n[0] == 'r' then 8 else 13
    else if |n| == 31 then 9
    else if |n| == 4 then if n[0] == 'p' then 11 else 14
    else if |n| == 5 then 12
    else if |n| == 25 then 16
    else if |n| == 23 then if n[13] == 'd' then 17 else 19
    else if |n| == 19 then 18
    else 20
  }

  function Rank(n: string): nat {
    if n == "" then 0
    else if n[0] == 'c' then if |n| >= 9 then 10 + ContractRank(n[9..]) else 0
    else if |n| == 17 then if n[0] == 'a' then 0 else if n[0] == 'r' then 101 else 104
    else if |n| == 8 then 1
    else if |n| == 12 then 2
    else if |n| == 10 then 3
    else if |n| == 20 then 4
    else if |n| == 19 then 5
    else if |n| == 16 then if n[0] == 's' then 100 else 103
    else 102
  }

  predicate Small(c: char) {
    'a' <= c <= 'z'
  }

  /** Begins and ends in a letter, and is not the name of a stage signal. */
  predicate Plain(n: string) {
    |n| > 1 && Small(n[0]) && Small(n[|n| - 1]) && !(n[0] == 's' && n[1] == 't')
  }

  ghost predicate Ranked(lo: nat, hi: nat, s: seq<Signal>) {
    && (forall i :: 0 <= i < |s| ==> Plain(s[i].name) && lo <= Rank(s[i].name) < hi)
    && (forall i, j :: 0 <= i < j < |s| ==> Rank(s[i].name) < Rank(s[j].name))
  }

  lemma RankedConcat(lo: nat, mid: nat, hi: nat, a: seq<Signal>, b: seq<Signal>)
    requires lo <= mid <= hi && Ranked(lo, mid, a) && Ranked(mid, hi, b)
    ensures Ranked(lo, hi, a + b)
  {
  }

  lemma OneRanked(name: string, passed: bool)
    requires Plain(name)
    ensures Ranked(Rank(name), Rank(name) + 1, [Required(name, passed)])
  {
  }

  lemma EarlyRanks()
    ensures Plain("acceptance-report") && Rank("acceptance-report") == 0
    ensures Plain("bom-file") && Rank("bom-file") == 1
    ensures Plain("bom-identity") && Rank("bom-identity") == 2
  {
  }

  lemma LateRanks()
    ensures Plain("bom-digest") && Rank("bom-digest") == 3
    ensures Plain("desired-state-digest") && Rank("desired-state-digest") == 4
    ensures Plain("local-repo-revision") && Rank("local-repo-revision") == 5
  {
  }

  /** Three signals of consecutive ranks. */
  lemma ThreeRanked(k: nat, x: Signal, y: Signal, z: Signal)
    requires x.required && y.required && z.required && Plain(x.name) && Plain(y.name) && Plain(z.name)
    requires Rank(x.name) == k && Rank(y.name) == k + 1 && Rank(z.name) == k + 2
    ensures Ranked(k, k + 3, [x, y, z])
  {
    OneRanked(x.name, x.passed);
    OneRanked(y.name, y.passed);
    OneRanked(z.name, z.passed);
    RankedConcat(k, k + 1, k + 2, [x], [y]);
    RankedConcat(k, k + 2, k + 3, [x] + [y], [z]);
    assert [x] + [y] + [z] == [x, y, z];
  }

  lemma RankedWider(lo: nat, hi: nat, more: nat, s: seq<Signal>)
    requires Ranked(lo, hi, s) && hi <= more
    ensures Ranked(lo, more, s)
  {
  }

  lemma HeadRanked(a: bool, b: bool, c: bool, d: bool, e: bool, f: bool)
    ensures Ranked(0, 10, Head(a, b, c, d, e, f))
  {
    var early := [Required("acceptance-report", a), Required("bom-file", b), Required("bom-identity", c)];
    var late := [Required("bom-digest", d), Required("desired-state-digest", e), Required("local-repo-revision", f)];
    EarlyRanks();
    LateRanks();
    ThreeRanked(0, early[0], early[1], early[2]);
    ThreeRanked(3, late[0], late[1], late[2]);
    RankedConcat(0, 3, 6, early, late);
    RankedWider(0, 6, 10, early + late);
    assert early + late == Head(a, b, c, d, e, f);
  }

  lemma MiddleRanks()
    ensures Plain("source-preflight") && Rank("source-preflight") == 100
    ensures Plain("runtime-preflight") && Rank("runtime-preflight") == 101
    ensures Plain("mutating-apply") && Rank("mutating-apply") == 102
  {
  }

  lemma MiddleRanked(a: bool, b: bool, c: bool)
    ensures Ranked(100, 103, Middle(a, b, c))
  {
    MiddleRanks();
    ThreeRanked(100, Required("source-preflight", a), Required("runtime-preflight", b), Required("mutating-apply", c));
  }

  lemma DriftRanked(r: Report)
    ensures Ranked(103, 104, DriftSignal("post-apply-drift", r.mutatingApply, r.postApply))
    ensures Ranked(104, 105, DriftSignal("post-revert-drift", r.revertCheck, r.postRevert))
  {
  }

  predicate ContractPlain(list: seq<Contract>, i: nat)
    requires i < |list|
  {
    var n := list[i].name;
    n != "" && Small(n[0]) && Small(n[|n| - 1]) && ContractRank(n) == i
  }

  lemma ContractRanks0(i: nat)
    requires i < 4
    ensures ContractPlain(BASE_CONTRACT, i)
  {
  }

  lemma ContractRanks4(i: nat)
    requires 4 <= i < 8
    ensures ContractPlain(BASE_CONTRACT, i)
  {
  }

  lemma ContractRanks8(i: nat)
    requires 8 <= i < 12
    ensures ContractPlain(BASE_CONTRACT, i)
  {
  }

  lemma ContractRanks12(i: nat)
    requires 12 <= i < 16
    ensures ContractPlain(BASE_CONTRACT, i)
  {
  }

  lemma ContractRanks16(i: nat)
    requires i < 5
    ensures var n := REVERT_CONTRACT[i].name;
            n != "" && Small(n[0]) && Small(n[|n| - 1]) && ContractRank(n) == 16 + i
  {
  }

  lemma ContractRanks(revertCheck: bool, i: nat)
    requires i < |ContractOf(revertCheck)|
    ensures ContractPlain(ContractOf(revertCheck), i)
  {
    if i >= 16 {
      assert ContractOf(revertCheck)[i] == REVERT_CONTRACT[i - 16];
      ContractRanks16(i - 16);
    } else {
      assert ContractOf(revertCheck)[i] == BASE_CONTRACT[i];
      if i < 4 {
        ContractRanks0(i);
      } else if i < 8 {
        ContractRanks4(i);
      } else if i < 12 {
        ContractRanks8(i);
      } else {
        ContractRanks12(i);
      }
    }
  }

  lemma PrefixedRank(n: string)
    requires n != "" && Small(n[|n| - 1])
    ensures Plain("contract/" + n) && Rank("contract/" + n) == 10 + ContractRank(n)
  {
    var s := "contract/" + n;
    assert s[0] == 'c' && s[9..] == n && s[|s| - 1] == n[|n| - 1];
  }

  /** One signal for each item, in order. */
  lemma {:induction false} OneEach<T(!new)>(f: T -> seq<Signal>, g: T -> Signal, s: seq<T>)
    requires forall x :: f(x) == [g(x)]
    ensures |FlatMap(f, s)| == |s| && forall i :: 0 <= i < |s| ==> FlatMap(f, s)[i] == g(s[i])
  {
    if s != [] {
      OneEach(f, g, s[1..]);
      assert forall i :: 1 <= i < |s| ==> s[i] == s[1..][i - 1];
    }
  }

  lemma ContractSignalEach(stages: seq<Stage>, list: seq<Contract>)
    ensures var s := FlatMap(ContractSignal(stages), list);
      |s| == |list| && forall i :: 0 <= i < |list| ==>
        s[i] == Required("contract/" + list[i].name, ContractMet(stages, list[i]))
  {
    OneEach(ContractSignal(stages), (c: Contract) => Required("contract/" + c.name, ContractMet(stages, c)), list);
  }

  lemma RankedByPlace(s: seq<Signal>, list: seq<Contract>)
    requires |s| == |list| <= 90
    requires forall i :: 0 <= i < |list| ==> s[i].name == "contract/" + list[i].name && ContractPlain(list, i)
    ensures Ranked(10, 100, s)
  {
    forall i | 0 <= i < |s|
      ensures Plain(s[i].name) && Rank(s[i].name) == 10 + i
    {
      PrefixedRank(list[i].name);
    }
  }

  lemma ContractRanked(r: Report)
    ensures Ranked(10, 100, ContractSignals(r))
    ensures forall i :: 0 <= i < |ContractSignals(r)| ==> ContractSignals(r)[i].required
  {
    var list := ContractOf(r.revertCheck);
    ContractSignalEach(r.stages, list);
    forall i | 0 <= i < |list|
      ensures ContractPlain(list, i)
    {
      ContractRanks(r.revertCheck, i);
    }
    RankedByPlace(ContractSignals(r), list);
  }

  function Fixed(t: Target, r: Report): seq<Signal> {
    HeadSignals(t, r) + ContractSignals(r) + MiddleSignals(r)
  }

  lemma FixedRanked(t: Target, r: Report)
    ensures Ranked(0, 105, Fixed(t, r))
  {
    HeadRanked(Is(r.status, "Passed") && r.exitCode == 0, BomFileSame(t, r.bomFile),
               BomIdentitySame(t, r.bomName, r.bomRevision), BomDigestSame(t, r.bomDigest),
               DigestGiven(t, r.desiredStateDigest), DigestGiven(t, r.localRepoRevision));
    ContractRanked(r);
    var s := Middle(PreflightPassed(r.sourcePreflight), PreflightPassed(r.runtimePreflight), r.mutatingApply);
    var apply := DriftSignal("post-apply-drift", r.mutatingApply, r.postApply);
    MiddleRanked(PreflightPassed(r.sourcePreflight), PreflightPassed(r.runtimePreflight), r.mutatingApply);
    DriftRanked(r);
    RankedConcat(100, 103, 104, s, apply);
    RankedConcat(100, 104, 105, s + apply, DriftSignal("post-revert-drift", r.revertCheck, r.postRevert));
    RankedConcat(0, 10, 100, HeadSignals(t, r), ContractSignals(r));
    RankedConcat(0, 100, 105, HeadSignals(t, r) + ContractSignals(r), MiddleSignals(r));
  }

  /** The listed stages that have a status have different names, trimmed. */
  ghost predicate StagesApart(stages: seq<Stage>) {
    forall i, j :: 0 <= i < j < |stages| && !Blank(stages[i].status) && !Blank(stages[j].status) ==>
      Trim(stages[i].name) != Trim(stages[j].name)
  }

  ghost predicate Occurs(n: string, s: seq<Signal>) {
    exists i :: 0 <= i < |s| && s[i].name == n
  }

  ghost predicate StageNamed(n: string, stages: seq<Stage>) {
    exists i :: 0 <= i < |stages| && !Blank(stages[i].status) && n == "stage/" + Trim(stages[i].name)
  }

  lemma OccursConcat(n: string, a: seq<Signal>, b: seq<Signal>)
    ensures Occurs(n, a + b) <==> Occurs(n, a) || Occurs(n, b)
  {
    assert forall i :: 0 <= i < |a| ==> (a + b)[i] == a[i];
    assert forall i :: 0 <= i < |b| ==> (a + b)[|a| + i] == b[i];
  }

  lemma StageNamedCons(n: string, stages: seq<Stage>)
    requires stages != []
    ensures StageNamed(n, stages) <==>
      (!Blank(stages[0].status) && n == "stage/" + Trim(stages[0].name)) || StageNamed(n, stages[1..])
  {
    assert forall i :: 0 <= i < |stages[1..]| ==> stages[1..][i] == stages[i + 1];
    assert forall i :: 1 <= i < |stages| ==> stages[i] == stages[1..][i - 1];
  }

  lemma {:induction false} StageNames(stages: seq<Stage>, n: string)
    ensures Occurs(n, FlatMap(StageSignal, stages)) <==> StageNamed(n, stages)
    decreases |stages|
  {
    if stages != [] {
      StageNames(stages[1..], n);
      StageNamedCons(n, stages);
      var a := StageSignal(stages[0]);
      OccursConcat(n, a, FlatMap(StageSignal, stages[1..]));
      if a != [] {
        assert a[0].name == "stage/" + Trim(stages[0].name);
      }
    }
  }

  lemma StagesApartCons(stages: seq<Stage>)
    requires stages != []
    ensures StagesApart(stages) <==>
      && StagesApart(stages[1..])
      && (!Blank(stages[0].status) ==> !StageNamed("stage/" + Trim(stages[0].name), stages[1..]))
  {
    var rest, name := stages[1..], "stage/" + Trim(stages[0].name);
    assert forall i :: 0 <= i < |rest| ==> rest[i] == stages[i + 1];
    assert forall i :: 1 <= i < |stages| ==> stages[i] == rest[i - 1];
    forall j | 1 <= j < |stages|
      ensures name == "stage/" + Trim(stages[j].name) <==> Trim(stages[0].name) == Trim(stages[j].name)
    {
      SameStage(Trim(stages[0].name), Trim(stages[j].name));
    }
  }

  lemma {:induction false} StageSignalsApart(stages: seq<Stage>)
    ensures NamesApart(FlatMap(StageSignal, stages)) <==> StagesApart(stages)
    decreases |stages|
  {
    if stages != [] {
      StageSignalsApart(stages[1..]);
      StagesApartCons(stages);
      var a, b := StageSignal(stages[0]), FlatMap(StageSignal, stages[1..]);
      ApartConcat(a, b);
      if a != [] {
        StageNames(stages[1..], a[0].name);
        assert NamesDisjoint(a, b) <==> !Occurs(a[0].name, b);
      }
    }
  }

  lemma SameStage(a: string, b: string)
    ensures "stage/" + a == "stage/" + b <==> a == b
  {
    assert ("stage/" + a)[6..] == a && ("stage/" + b)[6..] == b;
  }

  /** A stage's signal has no name of another kind. */
  lemma StageDisjoint(s: seq<Signal>, stages: seq<Stage>)
    requires Ranked(0, 105, s)
    ensures NamesDisjoint(s, FlatMap(StageSignal, stages))
  {
    var b := FlatMap(StageSignal, stages);
    forall j | 0 <= j < |b|
      ensures |b[j].name| > 1 && b[j].name[0] == 's' && b[j].name[1] == 't'
    {
      StageNames(stages, b[j].name);
      assert Occurs(b[j].name, b);
    }
  }

  lemma RankedApart(s: seq<Signal>)
    requires Ranked(0, 105, s)
    ensures NamesApart(s)
  {
    forall i, j | 0 <= i < j < |s|
      ensures s[i].name != s[j].name
    {
      assert Rank(s[i].name) < Rank(s[j].name);
    }
  }

  lemma PlainTrimmed(n: string)
    requires Plain(n)
    ensures Trim(n) == n
  {
    TrimFixpoint(n);
  }

  lemma StageTrimmed(name: string)
    ensures Trim("stage/" + Trim(name)) == "stage/" + Trim(name)
  {
    var n, s := Trim(name), "stage/" + Trim(name);
    TrimIsTrimmed(name);
    assert s[0] == 's' && s[5] == '/' && (n != "" ==> s[|s| - 1] == n[|n| - 1]);
    TrimFixpoint(s);
  }

  lemma SignalsTrimmed(t: Target, r: Report)
    ensures forall i :: 0 <= i < |Signals(t, r)| ==> Trim(Signals(t, r)[i].name) == Signals(t, r)[i].name
  {
    var a, b := Fixed(t, r), FlatMap(StageSignal, r.stages);
    FixedRanked(t, r);
    var s: seq<Signal> := a + b;
    forall i | 0 <= i < |s|
      ensures Trim(s[i].name) == s[i].name
    {
      if i < |a| {
        PlainTrimmed(a[i].name);
      } else {
        var n := b[i - |a|].name;
        assert Occurs(n, b);
        StageNames(r.stages, n);
        var k :| 0 <= k < |r.stages| && n == "stage/" + Trim(r.stages[k].name);
        StageTrimmed(r.stages[k].name);
      }
    }
  }

  lemma PlainNamed(n: string)
    requires Plain(n)
    ensures !Blank(n)
  {
    BlankMeaning(n);
  }

  predicate Flagged(s: seq<Signal>) {
    forall i :: 0 <= i < |s| ==> s[i].required
  }

  lemma RankedRequired(s: seq<Signal>)
    requires Ranked(0, 105, s) && Flagged(s)
    ensures AllRequired(s)
  {
    forall i | 0 <= i < |s|
      ensures !Blank(s[i].name)
    {
      PlainNamed(s[i].name);
    }
  }

  lemma RequiredConcat(a: seq<Signal>, b: seq<Signal>)
    requires AllRequired(a) && AllRequired(b)
    ensures AllRequired(a + b)
  {
  }

  lemma FlaggedConcat(a: seq<Signal>, b: seq<Signal>)
    requires Flagged(a) && Flagged(b)
    ensures Flagged(a + b)
  {
  }

  lemma HeadFlagged(a: bool, b: bool, c: bool, d: bool, e: bool, f: bool)
    ensures Flagged(Head(a, b, c, d, e, f)) && Flagged(Middle(a, b, c))
  {
  }

  lemma DriftFlagged(name: string, exercised: bool, state: string)
    ensures Flagged(DriftSignal(name, exercised, state))
  {
  }

  lemma HeadSignalsFlagged(t: Target, r: Report)
    ensures Flagged(HeadSignals(t, r))
  {
    HeadFlagged(Is(r.status, "Passed") && r.exitCode == 0, BomFileSame(t, r.bomFile),
                BomIdentitySame(t, r.bomName, r.bomRevision), BomDigestSame(t, r.bomDigest),
                DigestGiven(t, r.desiredStateDigest), DigestGiven(t, r.localRepoRevision));
  }

  lemma MiddleSignalsFlagged(r: Report)
    ensures Flagged(MiddleSignals(r))
  {
    var s := Middle(PreflightPassed(r.sourcePreflight), PreflightPassed(r.runtimePreflight), r.mutatingApply);
    var apply := DriftSignal("post-apply-drift", r.mutatingApply, r.postApply);
    HeadFlagged(PreflightPassed(r.sourcePreflight), PreflightPassed(r.runtimePreflight), r.mutatingApply,
                true, true, true);
    DriftFlagged("post-apply-drift", r.mutatingApply, r.postApply);
    DriftFlagged("post-revert-drift", r.revertCheck, r.postRevert);
    FlaggedConcat(s, apply);
    FlaggedConcat(s + apply, DriftSignal("post-revert-drift", r.revertCheck, r.postRevert));
  }

  lemma FixedFlagged(t: Target, r: Report)
    ensures Flagged(Fixed(t, r))
  {
    HeadSignalsFlagged(t, r);
    ContractRanked(r);
    MiddleSignalsFlagged(r);
    FlaggedConcat(HeadSignals(t, r), ContractSignals(r));
    FlaggedConcat(HeadSignals(t, r) + ContractSignals(r), MiddleSignals(r));
  }

  lemma {:induction false} StagesRequired(stages: seq<Stage>)
    ensures AllRequired(FlatMap(StageSignal, stages))
    decreases |stages|
  {
    if stages != [] {
      StagesRequired(stages[1..]);
      BlankMeaning("stage/" + Trim(stages[0].name));
      RequiredConcat(StageSignal(stages[0]), FlatMap(StageSignal, stages[1..]));
    }
  }

  /** Every signal of a proof is required and named. */
  lemma SignalsRequired(t: Target, r: Report)
    ensures AllRequired(Signals(t, r))
  {
    FixedRanked(t, r);
    FixedFlagged(t, r);
    RankedRequired(Fixed(t, r));
    StagesRequired(r.stages);
    RequiredConcat(Fixed(t, r), FlatMap(StageSignal, r.stages));
  }

  /** All signals have different names exactly if the stages with a status have. */
  lemma SignalsApart(t: Target, r: Report)
    ensures NamesApart(Signals(t, r)) <==> StagesApart(r.stages)
  {
    FixedRanked(t, r);
    RankedApart(Fixed(t, r));
    StageDisjoint(Fixed(t, r), r.stages);
    ApartConcat(Fixed(t, r), FlatMap(StageSignal, r.stages));
    StageSignalsApart(r.stages);
  }

  /** Validation lets required, trimmed signals pass exactly if their names differ. */
  lemma ValidatesExact(signals: seq<Signal>)
    requires AllRequired(signals) && forall i :: 0 <= i < |signals| ==> Trim(signals[i].name) == signals[i].name
    ensures Validates(signals, ThresholdsOf(signals)) <==> NamesApart(signals)
  {
    var names := ThresholdsOf(signals).required;
    ThresholdsExact(signals);
    ValidRequiredExact(names, {});
    assert forall i :: 0 <= i < |names| ==> Trim(names[i]) == signals[i].name;
  }

  /** A proof is generated exactly when the document is fine and no two stages
      with a status share a name; it then records a pass exactly for an acceptable
      report. So a stage listed twice leaves an acceptable report without proof. */
  lemma ProofExact(t: Target, r: Report, fine: bool)
    ensures BuildProof(t, r, fine).Some? <==> fine && StagesApart(r.stages)
    ensures BuildProof(t, r, fine).Some? ==> (BuildProof(t, r, fine).value.passed <==> Acceptable(t, r))
  {
    SignalsRequired(t, r);
    SignalsTrimmed(t, r);
    ValidatesExact(Signals(t, r));
    SignalsApart(t, r);
    EvaluationAgrees(Signals(t, r));
    PassExact(t, r);
  }

  // ------------------------------------------------------------------- the loops

  function TrimStage(s: Stage): Stage {
    Stage(Trim(s.name), Trim(s.status), s.mutates)
  }

  /** The map holds, trimmed, the last entry of every name. */
  ghost predicate IndexesStages(m: map<string, Stage>, stages: seq<Stage>) {
    forall n :: match LastStage(stages, n)
      case None => n !in m
      case Some(s) => n in m && m[n] == TrimStage(s)
  }

  lemma IndexOne(m: map<string, Stage>, stages: seq<Stage>, i: nat)
    requires i < |stages| && IndexesStages(m, stages[..i])
    ensures IndexesStages(m[Trim(stages[i].name) := TrimStage(stages[i])], stages[..i + 1])
  {
    assert stages[..i + 1][..i] == stages[..i] && stages[..i + 1][i] == stages[i];
  }

  /** What the map tells about a contract stage. */
  predicate MetIn(m: map<string, Stage>, c: Contract) {
    c.name in m && !Blank(m[c.name].status) && Is(m[c.name].status, "Passed") && (c.mutates ==> m[c.name].mutates)
  }

  lemma MetSame(m: map<string, Stage>, stages: seq<Stage>, c: Contract)
    requires IndexesStages(m, stages)
    ensures MetIn(m, c) <==> ContractMet(stages, c)
  {
    match LastStage(stages, c.name) {
      case None =>
      case Some(s) => TrimIdempotent(s.status);
    }
  }

  /** `syncHealthProofContractSignals`. */
  method CollectContractSignals(r: Report) returns (signals: seq<Signal>)
    ensures signals == ContractSignals(r)
  {
    var stageByName: map<string, Stage> := map[];
    for i := 0 to |r.stages|
      invariant IndexesStages(stageByName, r.stages[..i])
    {
      IndexOne(stageByName, r.stages, i);
      stageByName := stageByName[Trim(r.stages[i].name) := TrimStage(r.stages[i])];
    }
    assert r.stages[..|r.stages|] == r.stages;
    signals := JudgeContract(stageByName, r.stages, ContractOf(r.revertCheck));
  }

  method JudgeContract(stageByName: map<string, Stage>, ghost stages: seq<Stage>, list: seq<Contract>)
    returns (signals: seq<Signal>)
    requires IndexesStages(stageByName, stages)
    ensures signals == FlatMap(ContractSignal(stages), list)
  {
    ghost var f := ContractSignal(stages);
    signals := [];
    for i := 0 to |list|
      invariant signals == FlatMap(f, list[..i])
    {
      FlatMapSnoc(f, list[..i], list[i]);
      assert list[..i] + [list[i]] == list[..i + 1];
      MetSame(stageByName, stages, list[i]);
      signals := signals + [Required("contract/" + list[i].name, MetIn(stageByName, list[i]))];
    }
    assert list[..|list|] == list;
  }

  /** `syncHealthProofSignals`. */
  method CollectSignals(t: Target, r: Report) returns (signals: seq<Signal>)
    ensures signals == Signals(t, r)
  {
    signals := HeadSignals(t, r);
    var contract := CollectContractSignals(r);
    signals := signals + contract;
    signals := signals + MiddleSignals(r);
    signals := AppendEach(StageSignal, signals, r.stages);
  }

  /** `syncHealthProofSignalsPassed`: stops at the first failure. */
  method CheckSignals(signals: seq<Signal>) returns (passed: bool)
    ensures passed == SignalsPassed(signals)
  {
    if |signals| == 0 {
      return false;
    }
    for i := 0 to |signals|
      invariant forall k :: 0 <= k < i ==> signals[k].passed
    {
      if !signals[i].passed {
        return false;
      }
    }
    return true;
  }

  method CollectThresholds(signals: seq<Signal>) returns (t: Thresholds)
    ensures t == ThresholdsOf(signals)
  {
    var required: seq<string> := [];
    for i := 0 to |signals|
      invariant required == FlatMap(RequiredName, signals[..i])
    {
      FlatMapSnoc(RequiredName, signals[..i], signals[i]);
      assert signals[..i] + [signals[i]] == signals[..i + 1];
      if signals[i].required {
        required := required + [signals[i].name];
      }
    }
    assert signals[..|signals|] == signals;
    return Thresholds(required, |required|);
  }

  /** The map holds the last signal of every name. */
  ghost predicate IndexesSignals(m: map<string, Signal>, signals: seq<Signal>) {
    forall n :: match LastSignal(signals, n)
      case None => n !in m
      case Some(s) => n in m && m[n] == s
  }

  function NamesUpTo(signals: seq<Signal>): set<string> {
    set i | 0 <= i < |signals| && !Blank(signals[i].name) && signals[i].required :: Trim(signals[i].name)
  }

  lemma NamesNext(signals: seq<Signal>, i: nat)
    requires i < |signals|
    ensures NamesUpTo(signals[..i + 1])
         == NamesUpTo(signals[..i])
            + if !Blank(signals[i].name) && signals[i].required then {Trim(signals[i].name)} else {}
  {
    var s, t := signals[..i + 1], signals[..i];
    assert forall k :: 0 <= k < i ==> s[k] == t[k];
    assert s[i] == signals[i];
  }

  /** The counting pass over the signals. */
  method CountSignals(signals: seq<Signal>)
    returns (byName: map<string, Signal>, required: set<string>, passed: nat, failed: nat)
    ensures IndexesSignals(byName, signals) && required == NamesUpTo(signals)
    ensures passed == CountPassed(signals) && (failed > 0 <==> AnyFailed(signals))
  {
    byName, required, passed, failed := map[], {}, 0, 0;
    for i := 0 to |signals|
      invariant IndexesSignals(byName, signals[..i]) && required == NamesUpTo(signals[..i])
      invariant passed == CountPassed(signals[..i]) && (failed > 0 <==> AnyFailed(signals[..i]))
    {
      NamesNext(signals, i);
      CountNext(byName, signals, i);
      var name := Trim(signals[i].name);
      if name != "" {
        if signals[i].required {
          required := required + {name};
        }
        byName := byName[name := signals[i]];
        if signals[i].passed {
          passed := passed + 1;
        } else {
          failed := failed + 1;
        }
      }
    }
    assert signals[..|signals|] == signals;
  }

  lemma CountNext(m: map<string, Signal>, signals: seq<Signal>, i: nat)
    requires i < |signals| && IndexesSignals(m, signals[..i])
    ensures var s, before, after := signals[i], signals[..i], signals[..i + 1];
      && IndexesSignals(if Blank(s.name) then m else m[Trim(s.name) := s], after)
      && CountPassed(after) == CountPassed(before) + (if !Blank(s.name) && s.passed then 1 else 0)
      && (AnyFailed(after) <==> AnyFailed(before) || (!Blank(s.name) && !s.passed))
  {
    var s, before, after := signals[i], signals[..i], signals[..i + 1];
    assert after[..i] == before && after[i] == s;
    assert forall k :: 0 <= k < i ==> after[k] == before[k];
  }

  /** `EvaluateDistributionHealthProof`: required names are looked up one by one
      (sorted there; the verdict does not depend on the order). */
  method EvaluateProof(signals: seq<Signal>, t: Thresholds) returns (verdict: bool)
    ensures verdict == Evaluate(signals, t)
  {
    var byName, required, passed, failed := CountSignals(signals);
    var left := TrimmedNames(t.required) + required;
    ghost var names := left;
    var wanting := 0;
    while left != {}
      invariant left <= names
      invariant wanting == 0 <==> forall n :: n in names && n !in left ==> n in byName && byName[n].passed
    {
      var n :| n in left;
      if n !in byName || !byName[n].passed {
        wanting := wanting + 1;
      }
      left := left - {n};
    }
    RequiredLookup(byName, signals, names);
    assert names == RequiredSet(signals, t);
    var min := if t.minPassed == 0 && !HasThresholds(t) then |signals| else t.minPassed;
    verdict := |signals| > 0 && passed >= min && wanting == 0;
    if !HasThresholds(t) && failed > 0 {
      verdict := false;
    }
  }

  lemma RequiredLookup(m: map<string, Signal>, signals: seq<Signal>, names: set<string>)
    requires IndexesSignals(m, signals)
    ensures RequiredPass(signals, names) <==> forall n :: n in names ==> n in m && m[n].passed
  {
    forall n | n in names
      ensures (LastSignal(signals, n).Some? && LastSignal(signals, n).value.passed) <==> (n in m && m[n].passed)
    {
      assert match LastSignal(signals, n) case None => n !in m case Some(s) => n in m && m[n] == s;
    }
  }

  /** The loop over the required names in `Validate`. */
  method ValidateRequired(names: seq<string>) returns (valid: bool)
    ensures valid == ValidRequired(names, {})
  {
    var seenRequired: set<string> := {};
    assert names[0..] == names;
    for i := 0 to |names|
      invariant ValidRequired(names[i..], seenRequired) == ValidRequired(names, {})
    {
      assert names[i..][0] == names[i] && names[i..][1..] == names[i + 1..];
      var name := Trim(names[i]);
      if name == "" || name in seenRequired {
        return false;
      }
      seenRequired := seenRequired + {name};
    }
    return true;
  }

  /** `Validate`, the document's other fields aside. */
  method ValidateProof(signals: seq<Signal>, t: Thresholds) returns (valid: bool)
    ensures valid == Validates(signals, t)
  {
    valid := ValidateRequired(t.required);
    if !valid {
      return;
    }
    for i := 0 to |signals|
      invariant forall k :: 0 <= k < i ==> !Blank(signals[k].name)
    {
      if Blank(signals[i].name) {
        return false;
      }
    }
  }

  /** `buildSyncHealthProof`: normalization replaces the verdict by the
      evaluation's, validation may refuse the whole. */
  method BuildHealthProof(t: Target, r: Report, fine: bool) returns (proof: Option<Proof>)
    ensures proof == BuildProof(t, r, fine)
  {
    var signals := CollectSignals(t, r);
    var thresholds := CollectThresholds(signals);
    var verdict := EvaluateProof(signals, thresholds);
    var valid := ValidateProof(signals, thresholds);
    return if fine && valid then Some(Proof(verdict, thresholds, signals)) else None;
  }
}
