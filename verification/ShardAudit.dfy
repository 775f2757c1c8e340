/** `audit` of `ci_test_shard_summary.py`: many early exits, one verdict. */
module ShardAudit {
  import opened JsonText
  import opened PyValue
  import opened TestShard

  /** `GITHUB_RUN_ID` and `GITHUB_SHA`; empty when unset. */
  datatype Env = Env(runId: string, sha: string)

  datatype Problem =
    | NoManifest(shard: nat)
    | MissingFields(shard: nat)
    | MalformedFields(shard: nat)
    | MalformedSelection(shard: nat)
    | InvalidScope(shard: nat)
    | Incomplete(shard: nat)
    | IdentityMismatch
    | EnumerationsDiffer
    | DuplicateIds
    | DigestMismatch(shard: nat)
    | MixedScopes
    | SelectionDisagrees(shard: nat)
    | UnknownUnit(shard: nat, id: string)
    | WrongShard(shard: nat, id: string)
    | RanTwice(id: string)
    | NotRun(ids: set<string>)
    | OutsideSelection(ids: set<string>)
    | OutsideEnumeration(ids: set<string>)

  /** `Raised` is the TypeError of putting a list or dict in a set. */
  datatype Verdict = Raised | Report(problems: seq<Problem>, failed: set<string>)

  type Manifests = map<nat, Dict>

  // ---------------------------------------------------------------------
  // Reading a manifest
  // ---------------------------------------------------------------------

  const ALL_SCOPE := VDict(map["kind" := VStr("all")])

  function ScopeOf(m: Dict): Val {
    GetOr(m, "scope", ALL_SCOPE)
  }

  predicate ValidScope(v: Val) {
    && v.VDict?
    && var kind := Get(v.fields, "kind");
       && (kind == VStr("all") || kind == VStr("crates"))
       && (kind == VStr("all") ==> "crates" !in v.fields)
       && (kind == VStr("crates") ==> IsStrList(Get(v.fields, "crates")))
  }

  function CratesOf(v: Val): Scope
    requires ValidScope(v)
  {
    if Get(v.fields, "kind") == VStr("crates") then Some(Strings(Get(v.fields, "crates"))) else None
  }

  predicate IsUnit(v: Val) {
    v.VDict? && Get(v.fields, "id").VStr? && Get(v.fields, "rc").VInt?
  }

  predicate IsUnitList(v: Val) {
    v.VList? && forall i :: 0 <= i < |v.items| ==> IsUnit(v.items[i])
  }

  predicate WellShaped(m: Dict) {
    && IsStrList(Get(m, "all_unit_ids")) && IsUnitList(Get(m, "units"))
    && ("selected_unit_ids" in m ==> IsStrList(m["selected_unit_ids"]))
    && ValidScope(ScopeOf(m))
  }

  function AllIds(m: Dict): seq<string>
    requires WellShaped(m)
  {
    Strings(Get(m, "all_unit_ids"))
  }

  function ReadResult(v: Val): Result
    requires IsUnit(v)
  {
    Result(Get(v.fields, "id").s, Get(v.fields, "rc").n)
  }

  function UnitsOf(m: Dict): (r: seq<Result>)
    requires WellShaped(m)
  {
    var items := Get(m, "units").items;
    seq(|items|, i requires 0 <= i < |items| => ReadResult(items[i]))
  }

  /** The recorded selection, or the one an older manifest implies. */
  function SelectionOf(m: Dict, crates: Scope): seq<string>
    requires WellShaped(m)
  {
    if "selected_unit_ids" in m then Strings(m["selected_unit_ids"]) else SelectedIds(AllIds(m), crates)
  }

  predicate IsComplete(m: Dict) {
    Get(m, "complete") == VBool(true)
  }

  function IdentityOf(m: Dict): (Val, Val) {
    (Get(m, "run_id"), Get(m, "commit_sha"))
  }

  predicate GoodIdentity(id: (Val, Val), env: Env) {
    && Truthy(id.0) && Truthy(id.1)
    && (env.runId != "" ==> id.0 == VStr(env.runId)) && (env.sha != "" ==> id.1 == VStr(env.sha))
  }

  // ---------------------------------------------------------------------
  // A clean wave, declaratively
  // ---------------------------------------------------------------------

  /** The manifests cover shards 1..total and nothing else. */
  predicate Covers(ms: Manifests, total: nat) {
    (forall s :: s in ms ==> 1 <= s <= total) && (forall s :: 1 <= s <= total ==> s in ms)
  }

  predicate AllWellShaped(ms: Manifests, total: nat) {
    Covers(ms, total) && forall s :: s in ms ==> WellShaped(ms[s])
  }

  /** One executed unit and the shard that reported it. */
  datatype Ran = Ran(shard: nat, result: Result)

  function ShardRuns(shard: nat, units: seq<Result>): (r: seq<Ran>)
    ensures |r| == |units|
  {
    seq(|units|, i requires 0 <= i < |units| => Ran(shard, units[i]))
  }

  /** Everything reported by shards 1..n, in order. */
  function Runs(ms: Manifests, total: nat, n: nat): seq<Ran>
    requires AllWellShaped(ms, total) && n <= total
  {
    if n == 0 then [] else Runs(ms, total, n - 1) + ShardRuns(n, UnitsOf(ms[n]))
  }

  /** Every executed unit is known, in its own shard, and ran once. */
  predicate CleanRuns(h: Hashes, runs: seq<Ran>, ids: seq<string>, total: nat)
    requires total > 0
  {
    && (forall i :: 0 <= i < |runs| ==>
          runs[i].result.id in ids && ShardOf(h, runs[i].result.id, total) == runs[i].shard - 1)
    && (forall i, j :: 0 <= i < j < |runs| ==> runs[i].result.id != runs[j].result.id)
  }

  function RanIds(runs: seq<Ran>): set<string> {
    set i | 0 <= i < |runs| :: runs[i].result.id
  }

  function FailedIds(runs: seq<Ran>): set<string> {
    set i | 0 <= i < |runs| && runs[i].result.rc != 0 :: runs[i].result.id
  }

  predicate SameIdentity(ms: Manifests, env: Env)
    requires 1 in ms
  {
    && Hashable(IdentityOf(ms[1]).0) && Hashable(IdentityOf(ms[1]).1) && GoodIdentity(IdentityOf(ms[1]), env)
    && forall s :: s in ms ==> IdentityOf(ms[s]) == IdentityOf(ms[1])
  }

  predicate SameEnumeration(h: Hashes, ms: Manifests, total: nat)
    requires AllWellShaped(ms, total) && 1 in ms
  {
    var ids := AllIds(ms[1]);
    && Distinct(ids)
    && forall s :: s in ms ==> AllIds(ms[s]) == ids && Get(ms[s], "digest") == VStr(h.digest(ids))
  }

  predicate SameSelection(ms: Manifests, total: nat)
    requires AllWellShaped(ms, total) && 1 in ms
  {
    var crates := CratesOf(ScopeOf(ms[1]));
    forall s :: s in ms ==>
      ScopeOf(ms[s]) == ScopeOf(ms[1]) && SelectionOf(ms[s], crates) == SelectedIds(AllIds(ms[1]), crates)
  }

  function SelectionSet(m: Dict): set<string>
    requires WellShaped(m)
  {
    set id | id in SelectedIds(AllIds(m), CratesOf(ScopeOf(m)))
  }

  predicate Clean(h: Hashes, ms: Manifests, total: nat, env: Env) {
    && total >= 1 && AllWellShaped(ms, total) && (forall s :: s in ms ==> IsComplete(ms[s]))
    && SameIdentity(ms, env) && SameEnumeration(h, ms, total) && SameSelection(ms, total)
    && CleanRuns(h, Runs(ms, total, total), AllIds(ms[1]), total)
    && RanIds(Runs(ms, total, total)) == SelectionSet(ms[1])
  }

  /** A manifest without a scope claims the full selection. */
  lemma NoScopeIsFull(m: Dict)
    requires "scope" !in m
    ensures ValidScope(ScopeOf(m)) && CratesOf(ScopeOf(m)).None?
  {
    assert |"kind"| == 4 && |"crates"| == 6 && |"all"| == 3;
  }

  /** In a clean wave no part of any identity is missing, empty or zero, and
      each agrees with what the environment knows. */
  lemma CleanIdentity(h: Hashes, ms: Manifests, total: nat, env: Env, s: nat)
    requires Clean(h, ms, total, env) && s in ms
    ensures var missing := {VNone, VBool(false), VInt(0), VFloat(0.0), VStr("")};
            && Get(ms[s], "run_id") !in missing && Get(ms[s], "commit_sha") !in missing
            && (forall part :: part in {Get(ms[s], "run_id"), Get(ms[s], "commit_sha")} ==>
                  !part.VList? && !part.VDict?)
            && (env.runId != "" ==> Get(ms[s], "run_id") == VStr(env.runId))
            && (env.sha != "" ==> Get(ms[s], "commit_sha") == VStr(env.sha))
  {
    hide WellShaped, CleanRuns, SameEnumeration, SameSelection, IsComplete, SelectionSet;
  }

  // ---------------------------------------------------------------------
  // The audit
  // ---------------------------------------------------------------------

  method FindMissing(ms: Manifests, total: nat) returns (problems: seq<Problem>)
    requires forall s :: s in ms ==> 1 <= s <= total
    ensures problems == [] <==> Covers(ms, total)
  {
    problems := [];
    for shard := 1 to total + 1
      invariant problems == [] <==> forall s :: 1 <= s < shard ==> s in ms
    {
      if shard !in ms {
        problems := problems + [NoManifest(shard)];
      }
    }
  }

  method CheckShape(shard: nat, m: Dict) returns (problems: seq<Problem>)
    ensures problems == [] <==> WellShaped(m)
  {
    problems := [];
    var all, units := Get(m, "all_unit_ids"), Get(m, "units");
    if !all.VList? || !units.VList? {
      problems := problems + [MissingFields(shard)];
    } else if !IsStrList(all) || !IsUnitList(units) {
      problems := problems + [MalformedFields(shard)];
    }
    if "selected_unit_ids" in m && !IsStrList(m["selected_unit_ids"]) {
      problems := problems + [MalformedSelection(shard)];
    }
    if !ValidScope(ScopeOf(m)) {
      problems := problems + [InvalidScope(shard)];
    }
  }

  method CheckShapes(ms: Manifests, total: nat) returns (problems: seq<Problem>, incomplete: seq<Problem>)
    requires Covers(ms, total)
    ensures problems == [] <==> AllWellShaped(ms, total)
    ensures incomplete == [] <==> forall s :: s in ms ==> IsComplete(ms[s])
  {
    hide WellShaped, IsComplete;
    problems, incomplete := [], [];
    for shard := 1 to total + 1
      invariant problems == [] <==> forall s :: 1 <= s < shard ==> WellShaped(ms[s])
      invariant incomplete == [] <==> forall s :: 1 <= s < shard ==> IsComplete(ms[s])
    {
      var bad := CheckShape(shard, ms[shard]);
      problems := problems + bad;
      if !IsComplete(ms[shard]) {
        incomplete := incomplete + [Incomplete(shard)];
      }
    }
  }

  /** The set of identities; `None` if one of them cannot be in a set. */
  method Identities(ms: Manifests, total: nat) returns (ids: Option<set<(Val, Val)>>)
    requires Covers(ms, total)
    ensures ids.Some? <==> forall s :: s in ms ==> Hashable(IdentityOf(ms[s]).0) && Hashable(IdentityOf(ms[s]).1)
    ensures ids.Some? ==> ids.value == set s | s in ms :: IdentityOf(ms[s])
  {
    hide Hashable, IdentityOf;
    var found: set<(Val, Val)> := {};
    for shard := 1 to total + 1
      invariant forall s :: 1 <= s < shard ==> Hashable(IdentityOf(ms[s]).0) && Hashable(IdentityOf(ms[s]).1)
      invariant found == set s | 1 <= s < shard && s in ms :: IdentityOf(ms[s])
    {
      var id := IdentityOf(ms[shard]);
      if !Hashable(id.0) || !Hashable(id.1) {
        return None;
      }
      found := found + {id};
    }
    ids := Some(found);
  }

  lemma SingletonSet<T>(s: set<T>, x: T)
    requires x in s
    ensures |s| == 1 <==> forall y :: y in s ==> y == x
  {
    if |s| == 1 {
      assert s - {x} == {} by {
        assert |s - {x}| == 0;
      }
    }
    if forall y :: y in s ==> y == x {
      assert s == {x};
    }
  }

  /** The condition that reports mismatched or missing identities. */
  lemma OneGoodIdentity(ms: Manifests, total: nat, env: Env, ids: set<(Val, Val)>)
    requires Covers(ms, total) && ids == set s | s in ms :: IdentityOf(ms[s])
    requires forall s :: s in ms ==> Hashable(IdentityOf(ms[s]).0) && Hashable(IdentityOf(ms[s]).1)
    ensures (|ids| == 1 && forall id :: id in ids ==> GoodIdentity(id, env)) <==> total >= 1 && SameIdentity(ms, env)
  {
    hide Hashable, GoodIdentity, IdentityOf;
    if total >= 1 {
      assert forall s :: s in ms ==> IdentityOf(ms[s]) in ids;
      SingletonSet(ids, IdentityOf(ms[1]));
      if |ids| == 1 && forall id :: id in ids ==> GoodIdentity(id, env) {
        assert GoodIdentity(IdentityOf(ms[1]), env);
      }
      if SameIdentity(ms, env) {
        assert forall id :: id in ids ==> id == IdentityOf(ms[1]);
      }
    } else {
      assert ids == {};
    }
  }

  lemma {:induction false} DistinctBySize(xs: seq<string>)
    ensures |set x | x in xs| <= |xs|
    ensures |set x | x in xs| == |xs| <==> Distinct(xs)
  {
    if xs == [] {
      assert (set x | x in xs) == {};
    } else {
      var n := |xs| - 1;
      var before := xs[..n];
      DistinctBySize(before);
      assert xs == before + [xs[n]];
      assert (set x | x in xs) == (set x | x in before) + {xs[n]};
      assert xs[n] in before <==> exists i :: 0 <= i < n && xs[i] == xs[n];
      assert Distinct(xs) <==> Distinct(before) && xs[n] !in before;
    }
  }

  method CheckEnumeration(h: Hashes, ms: Manifests, total: nat) returns (problems: seq<Problem>)
    requires AllWellShaped(ms, total) && total >= 1
    ensures problems == [] <==> SameEnumeration(h, ms, total)
  {
    hide WellShaped, AllIds;
    var ids := AllIds(ms[1]);
    var lists := set s | s in ms :: AllIds(ms[s]);
    assert ids in lists;
    SingletonSet(lists, ids);
    problems := [];
    if |lists| != 1 {
      return [EnumerationsDiffer];
    }
    assert forall s :: s in ms ==> AllIds(ms[s]) in lists;
    DistinctBySize(ids);
    if |ids| != |set id | id in ids| {
      problems := problems + [DuplicateIds];
    }
    var expected := VStr(h.digest(ids));
    for shard := 1 to total + 1
      invariant problems == [] <==> Distinct(ids) && forall s :: 1 <= s < shard ==> Get(ms[s], "digest") == expected
    {
      if Get(ms[shard], "digest") != expected {
        problems := problems + [DigestMismatch(shard)];
      }
    }
  }

  method CheckSelection(ms: Manifests, total: nat) returns (problems: seq<Problem>)
    requires AllWellShaped(ms, total) && total >= 1
    ensures problems == [] <==> SameSelection(ms, total)
  {
    hide SelectionOf, ScopeOf, SelectedIds;
    var scopes := set s | s in ms :: ScopeOf(ms[s]);
    var scope := ScopeOf(ms[1]);
    assert scope in scopes;
    SingletonSet(scopes, scope);
    problems := [];
    if |scopes| != 1 {
      return [MixedScopes];
    }
    assert forall s :: s in ms ==> ScopeOf(ms[s]) in scopes;
    var crates := CratesOf(scope);
    var expected := SelectedIds(AllIds(ms[1]), crates);
    for shard := 1 to total + 1
      invariant problems == [] <==> forall s :: 1 <= s < shard ==> SelectionOf(ms[s], crates) == expected
    {
      if SelectionOf(ms[shard], crates) != expected {
        problems := problems + [SelectionDisagrees(shard)];
      }
    }
  }

  /** The units of one shard, after those in `before`. */
  method AuditUnits(h: Hashes, shard: nat, units: seq<Result>, ids: seq<string>, total: nat,
                    ghost before: seq<Ran>, executed0: map<string, nat>, failed0: set<string>, problems0: seq<Problem>)
    returns (executed: map<string, nat>, failed: set<string>, problems: seq<Problem>)
    requires 1 <= shard <= total
    requires problems0 == [] <==> CleanRuns(h, before, ids, total)
    requires problems0 == [] ==> executed0.Keys == RanIds(before) && failed0 == FailedIds(before)
    ensures var runs := before + ShardRuns(shard, units);
            && (problems == [] <==> CleanRuns(h, runs, ids, total))
            && (problems == [] ==> executed.Keys == RanIds(runs) && failed == FailedIds(runs))
  {
    hide ShardOf, CleanRuns, RanIds, FailedIds;
    executed, failed, problems := executed0, failed0, problems0;
    ghost var runs := before;
    for i := 0 to |units|
      invariant runs == before + ShardRuns(shard, units[..i])
      invariant problems == [] <==> CleanRuns(h, runs, ids, total)
      invariant problems == [] ==> executed.Keys == RanIds(runs) && failed == FailedIds(runs)
    {
      var id := units[i].id;
      OneMoreRun(h, runs, Ran(shard, units[i]), ids, total);
      assert ShardRuns(shard, units[..i + 1]) == ShardRuns(shard, units[..i]) + [Ran(shard, units[i])];
      runs := runs + [Ran(shard, units[i])];
      if id !in ids {
        problems := problems + [UnknownUnit(shard, id)];
        continue;
      }
      if ShardOf(h, id, total) != shard - 1 {
        problems := problems + [WrongShard(shard, id)];
      }
      if id in executed {
        problems := problems + [RanTwice(id)];
        continue;
      }
      executed := executed[id := shard];
      if units[i].rc != 0 {
        failed := failed + {id};
      }
    }
    assert units[..|units|] == units;
  }

  lemma OneMoreRun(h: Hashes, runs: seq<Ran>, r: Ran, ids: seq<string>, total: nat)
    requires total > 0
    ensures CleanRuns(h, runs + [r], ids, total) <==>
            && CleanRuns(h, runs, ids, total) && r.result.id in ids
            && ShardOf(h, r.result.id, total) == r.shard - 1 && r.result.id !in RanIds(runs)
    ensures RanIds(runs + [r]) == RanIds(runs) + {r.result.id}
    ensures FailedIds(runs + [r]) == FailedIds(runs) + if r.result.rc != 0 then {r.result.id} else {}
  {
    hide ShardOf;
    var all := runs + [r];
    assert forall i :: 0 <= i < |runs| ==> all[i] == runs[i];
    assert all[|runs|] == r;
  }

  /** The per-shard loop. */
  method AuditShards(h: Hashes, ms: Manifests, ids: seq<string>, total: nat)
    returns (executed: map<string, nat>, failed: set<string>, problems: seq<Problem>)
    requires AllWellShaped(ms, total) && total >= 1
    ensures var runs := Runs(ms, total, total);
            && (problems == [] <==> CleanRuns(h, runs, ids, total))
            && (problems == [] ==> executed.Keys == RanIds(runs) && failed == FailedIds(runs))
  {
    hide CleanRuns, WellShaped, RanIds, FailedIds;
    executed, failed, problems := map[], {}, [];
    NoRuns(h, ids, total);
    for shard := 1 to total + 1
      invariant problems == [] <==> CleanRuns(h, Runs(ms, total, shard - 1), ids, total)
      invariant problems == [] ==>
                  executed.Keys == RanIds(Runs(ms, total, shard - 1)) && failed == FailedIds(Runs(ms, total, shard - 1))
    {
      executed, failed, problems :=
        AuditUnits(h, shard, UnitsOf(ms[shard]), ids, total, Runs(ms, total, shard - 1), executed, failed, problems);
    }
  }

  method AuditRuns(h: Hashes, ms: Manifests, total: nat) returns (problems: seq<Problem>, failed: set<string>)
    requires AllWellShaped(ms, total) && total >= 1
    ensures problems == [] <==>
            CleanRuns(h, Runs(ms, total, total), AllIds(ms[1]), total)
            && RanIds(Runs(ms, total, total)) == SelectionSet(ms[1])
    ensures problems == [] ==> failed == FailedIds(Runs(ms, total, total))
  {
    hide CleanRuns, SelectedIds, ValidScope, IsUnitList, IsStrList, RanIds, FailedIds, Runs;
    var ids := AllIds(ms[1]);
    var selection := set id | id in SelectedIds(ids, CratesOf(ScopeOf(ms[1])));
    var executed;
    executed, failed, problems := AuditShards(h, ms, ids, total);
    ghost var clean := problems == [];
    var missing := selection - executed.Keys;
    if missing != {} {
      problems := problems + [NotRun(missing)];
    }
    var extra := executed.Keys - selection;
    if extra != {} {
      problems := problems + [OutsideSelection(extra)];
    }
    var outside := executed.Keys - (set id | id in ids);
    if outside != {} {
      problems := problems + [OutsideEnumeration(outside)];
      assert clean ==> extra != {} by {
        if clean {
          SelectionIsEnumerated(ms[1]);
        }
      }
    }
    assert missing == {} && extra == {} <==> executed.Keys == selection;
  }

  lemma SelectionIsEnumerated(m: Dict)
    requires WellShaped(m)
    ensures forall id :: id in SelectionSet(m) ==> id in AllIds(m)
  {
  }

  lemma NoRuns(h: Hashes, ids: seq<string>, total: nat)
    requires total > 0
    ensures CleanRuns(h, [], ids, total) && RanIds([]) == {} && FailedIds([]) == {}
  {
  }

  /** The audit reports nothing exactly for a clean wave, and then its failed
      set is exactly the units with a nonzero return code. */
  method Audit(h: Hashes, ms: Manifests, total: nat, env: Env) returns (v: Verdict)
    requires forall s :: s in ms ==> 1 <= s <= total
    ensures v.Report? && v.problems == [] <==> Clean(h, ms, total, env)
    ensures v.Report? && v.problems == [] ==> v.failed == FailedIds(Runs(ms, total, total))
  {
    hide WellShaped, IsComplete, SameIdentity, SameEnumeration, SameSelection, CleanRuns, SelectionSet, Hashable,
         GoodIdentity;
    var problems := FindMissing(ms, total);
    if problems != [] {
      return Report(problems, {});
    }
    var incomplete;
    problems, incomplete := CheckShapes(ms, total);
    if problems != [] {
      return Report(problems + incomplete, {});
    }
    var identities := Identities(ms, total);
    if identities.None? {
      UnhashableIsNotClean(h, ms, total, env);
      return Raised;
    }
    OneGoodIdentity(ms, total, env, identities.value);
    if |identities.value| != 1 || exists id :: id in identities.value && !GoodIdentity(id, env) {
      return Report([IdentityMismatch] + incomplete, {});
    }
    problems := CheckEnumeration(h, ms, total);
    if problems != [] {
      return Report(problems + incomplete, {});
    }
    problems := CheckSelection(ms, total);
    if problems != [] {
      return Report(problems + incomplete, {});
    }
    var failed;
    problems, failed := AuditRuns(h, ms, total);
    // the last loop names the unfinished units of each incomplete shard
    problems := problems + incomplete;
    v := Report(problems + incomplete, failed);
  }

  lemma UnhashableIsNotClean(h: Hashes, ms: Manifests, total: nat, env: Env)
    requires !forall s :: s in ms ==> Hashable(IdentityOf(ms[s]).0) && Hashable(IdentityOf(ms[s]).1)
    ensures !Clean(h, ms, total, env)
  {
    hide Hashable, IdentityOf;
  }
}
