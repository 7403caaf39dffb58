/** Situations that meet the assumptions of the main theorems, so that none of
    them speaks of nothing. */
module Witnesses {
  import opened GoStrings
  import opened Paths
  import opened DirectoryDigest
  import opened RenderInputs
  import FreshnessTheorems
  import HealthProof

  // ------------------------------------------------------------ hash functions

  /** A printable text that stands in for the digest of `s`. */
  function Spell(s: string): (r: string)
    ensures r != "" && forall i :: 0 <= i < |r| ==> '-' <= r[i] <= '9'
  {
    if s == "" then "." else Decimal(s[0] as int) + "-" + Spell(s[1..])
  }

  lemma {:induction false} DecimalUnique(a: nat, b: nat)
    requires Decimal(a) == Decimal(b)
    ensures a == b
  {
    var x, y := Decimal(a), Decimal(b);
    if a >= 10 && b >= 10 {
      assert x[..|x| - 1] == Decimal(a / 10) && y[..|y| - 1] == Decimal(b / 10);
      DecimalUnique(a / 10, b / 10);
      LastDigit(a % 10, b % 10);
    } else {
      DecimalLong(a);
      DecimalLong(b);
      if a < 10 && b < 10 {
        LastDigit(a, b);
      }
    }
  }

  lemma DecimalLong(n: nat)
    ensures |Decimal(n)| == 1 <==> n < 10
  {
  }

  lemma LastDigit(a: nat, b: nat)
    requires a < 10 && b < 10 && "0123456789"[a] == "0123456789"[b]
    ensures a == b
  {
  }

  lemma {:induction false} SpellUnique(a: string, b: string)
    requires Spell(a) == Spell(b)
    ensures a == b
  {
    if a == "" || b == "" {
      SpellEmpty(a);
      SpellEmpty(b);
    } else {
      var x, y := Decimal(a[0] as int), Decimal(b[0] as int);
      CutAt(x, Spell(a[1..]), '-');
      CutAt(y, Spell(b[1..]), '-');
      assert Spell(a) == x + ['-'] + Spell(a[1..]) && Spell(b) == y + ['-'] + Spell(b[1..]);
      DecimalUnique(a[0] as int, b[0] as int);
      SpellUnique(a[1..], b[1..]);
      assert a == [a[0]] + a[1..] && b == [b[0]] + b[1..];
    }
  }

  lemma SpellEmpty(s: string)
    ensures Spell(s) == "." <==> s == ""
  {
    if s != "" {
      assert |Spell(s)| >= 2;
    }
  }

  lemma DigitsClean(r: string)
    requires r != "" && forall i :: 0 <= i < |r| ==> '-' <= r[i] <= '9'
    ensures Trimmed(r) && '\0' !in r
  {
    assert '-' <= r[0] <= '9' && '-' <= r[|r| - 1] <= '9';
  }

  lemma SpellClean(s: string)
    ensures var r := Spell(s); r != "" && Trimmed(r) && '\0' !in r
  {
    DigitsClean(Spell(s));
  }

  /** A collision-free hash with a clean printed form exists. */
  lemma GoodHashExists()
    ensures GoodHash(Spell)
  {
    forall a, b | Spell(a) == Spell(b)
      ensures a == b
    {
      SpellUnique(a, b);
    }
    forall a
      ensures Spell(a) != "" && Trimmed(Spell(a)) && '\0' !in Spell(a)
    {
      SpellClean(a);
    }
  }

  // ------------------------------------------------------------------ rendering

  /** Rendering a local BOM file, without further inputs, always succeeds; its
      record then meets the assumptions of the freshness theorems. */
  lemma RenderFromFile(c: Codec, s: Store, path: string, data: string, doc: Doc)
    requires IsAbs(path) && Clean(path) == path && Trimmed(path) && !IsRemote(c, path)
    requires Read(s, path) == Some(data) && c.bom(data) == Some(doc)
    ensures var o := RenderOptions(TargetOptions(path, "", "", "", ""), "", "", []);
      exists t: Trace, b: Bundle :: Rendered(c, s, o, t, b) && FreshnessTheorems.Settled(c, s, t)
  {
    var o := RenderOptions(TargetOptions(path, "", "", "", ""), "", "", []);
    var t := Target(doc, data, path, "", None, "", "", "");
    FileTarget(c, s, path, data, doc);
    FileRecord(c, s, path, data, t);
    var recorded := Provenance("", "", "", "", "", path, c.hash(data), "", "", "", []);
    var trace := Trace(t, map[], "", None, recorded);
    assert Keys([], map[]);
    assert RecordedWith(c, s, o, trace, []);
    assert Rendered(c, s, o, trace, Bundled(o, trace));
    AbsNotBlank(path);
    assert FreshnessTheorems.Settled(c, s, trace);
  }

  lemma FileTarget(c: Codec, s: Store, path: string, data: string, doc: Doc)
    requires IsAbs(path) && Trimmed(path) && Read(s, path) == Some(data) && c.bom(data) == Some(doc)
    ensures ResolveTarget(c, s, TargetOptions(path, "", "", "", ""))
         == Ok(Target(doc, data, path, "", None, "", "", ""))
  {
    AbsNotBlank(path);
    TrimFixpoint(path);
    assert Trim("") == "";
    assert Selected(TargetOptions(path, "", "", "", "")) == [ByFile];
  }

  lemma FileRecord(c: Codec, s: Store, path: string, data: string, t: Target)
    requires IsAbs(path) && Clean(path) == path && !IsRemote(c, path) && Read(s, path) == Some(data)
    requires t.bomPath == path && t.channelPath == "" && t.channelSource == "" && t.source == "" && t.channelDoc == None
    ensures Record(c, s, t, "", None, "", map[], [])
         == Ok(Provenance("", "", "", "", "", path, c.hash(data), "", "", "", []))
  {
    AbsNotBlank(path);
    assert Trim("") == "";
    assert RecordChannel(c, s, t) == Ok(("", ""));
    assert RecordBom(c, s, t) == Ok((path, c.hash(data)));
  }

  // --------------------------------------------------------------- health proofs

  /** The stages of a run in which everything passed. */
  function PassedStages(): (r: seq<HealthProof.Stage>)
    ensures |r| > 0
  {
    var list := HealthProof.ContractOf(true);
    seq(|list|, i requires 0 <= i < |list| => HealthProof.Stage(list[i].name, "Passed", true))
  }

  lemma {:induction false} AnyStagePassed(stages: seq<HealthProof.Stage>, i: nat)
    requires i < |stages|
    requires forall k :: 0 <= k < |stages| ==> stages[k].status == "Passed" && stages[k].mutates
    ensures var s := HealthProof.LastStage(stages, Trim(stages[i].name));
      s.Some? && s.value.status == "Passed" && s.value.mutates
    decreases |stages|
  {
    var init := stages[..|stages| - 1];
    if i < |init| {
      AnyStagePassed(init, i);
    }
  }

  lemma PassedIsPassed()
    ensures !Blank("Passed") && HealthProof.Is("Passed", "Passed")
  {
    BlankMeaning("Passed");
    assert "Passed"[0] == 'P' && "Passed"[5] == 'd';
    TrimFixpoint("Passed");
  }

  lemma ContractName(i: nat)
    requires i < |HealthProof.ContractOf(true)|
    ensures var name := HealthProof.ContractOf(true)[i].name;
            Trim(name) == name && HealthProof.ContractRank(name) == i
  {
    HealthProof.ContractRanks(true, i);
    TrimFixpoint(HealthProof.ContractOf(true)[i].name);
  }

  /** All stages passed, and those of the contract are among them. */
  ghost predicate AllPassedStages(stages: seq<HealthProof.Stage>) {
    && PassedStages() <= stages
    && forall k :: 0 <= k < |stages| ==> stages[k].status == "Passed" && stages[k].mutates
  }

  lemma StageMet(stages: seq<HealthProof.Stage>, i: nat)
    requires AllPassedStages(stages) && i < |HealthProof.ContractOf(true)|
    ensures HealthProof.ContractMet(stages, HealthProof.ContractOf(true)[i])
  {
    ContractName(i);
    assert stages[i] == PassedStages()[i];
    AnyStagePassed(stages, i);
    PassedIsPassed();
  }

  /** Whatever the rest of a report, all contract stages can be met. */
  lemma AllContractsMet(stages: seq<HealthProof.Stage>)
    requires AllPassedStages(stages)
    ensures forall i :: 0 <= i < |HealthProof.ContractOf(true)| ==>
              HealthProof.ContractMet(stages, HealthProof.ContractOf(true)[i])
  {
    forall i | 0 <= i < |HealthProof.ContractOf(true)|
      ensures HealthProof.ContractMet(stages, HealthProof.ContractOf(true)[i])
    {
      StageMet(stages, i);
    }
  }

  /** The stages aside, the report is in order. */
  ghost predicate OtherwiseFine(t: HealthProof.Target, r: HealthProof.Report) {
    && HealthProof.AllPassed(HealthProof.HeadSignals(t, r)) && HealthProof.AllPassed(HealthProof.MiddleSignals(r))
    && r.revertCheck
  }

  lemma PassedAcceptable(t: HealthProof.Target, r: HealthProof.Report)
    requires OtherwiseFine(t, r) && AllPassedStages(r.stages)
    ensures HealthProof.Acceptable(t, r)
  {
    HealthProof.HeadPart(t, r);
    HealthProof.MiddlePart(r);
    PassedIsPassed();
    AllContractsMet(r.stages);
    assert HealthProof.AllFine(t, r);
    HealthProof.FineIsAcceptable(t, r);
  }

  lemma PassedApart()
    ensures HealthProof.StagesApart(PassedStages())
  {
    forall i, j | 0 <= i < j < |PassedStages()|
      ensures Trim(PassedStages()[i].name) != Trim(PassedStages()[j].name)
    {
      ContractName(i);
      ContractName(j);
    }
  }

  /** A report that is in order otherwise yields, with these stages, a proof that
      passes, the revert check included. */
  lemma ReportCanPass(t: HealthProof.Target, r: HealthProof.Report)
    requires OtherwiseFine(t, r) && r.stages == PassedStages()
    ensures HealthProof.BuildProof(t, r, true).Some? && HealthProof.BuildProof(t, r, true).value.passed
  {
    PassedAcceptable(t, r);
    PassedApart();
    HealthProof.ProofExact(t, r, true);
  }

  /** With one stage listed a second time, passed as well, the report is still
      acceptable and there is no proof. */
  lemma StageTwiceNoProof(t: HealthProof.Target, r: HealthProof.Report)
    requires OtherwiseFine(t, r) && r.stages == PassedStages() + [PassedStages()[0]]
    ensures HealthProof.Acceptable(t, r) && HealthProof.BuildProof(t, r, true).None?
  {
    PassedAcceptable(t, r);
    PassedIsPassed();
    var last := |r.stages| - 1;
    assert r.stages[0] == r.stages[last] == PassedStages()[0];
    HealthProof.ProofExact(t, r, true);
  }
}
