/** Honest shards pass the audit. */
module GateCompleteness {
  import opened JsonText
  import opened PyValue
  import opened TestShard
  import opened ShardAudit
  import opened CoverageGate

  /** All shards wrote their manifests after running exactly their assigned
      selected units, with the same ids, scope and identity. */
  ghost predicate HonestWave(h: Hashes, ms: Manifests, total: nat, ids: seq<string>, crates: Scope,
                             rc: string -> int, attempts: nat -> nat, who: Identity)
  {
    && Covers(ms, total)
    && forall s :: s in ms ==>
         ms[s] == Manifest(h, s, total, ids, ShardResults(h, ids, crates, s, total, rc), crates, attempts(s), who)
  }

  /** What the auditor reads back from a written manifest. */
  lemma ManifestReadsBack(h: Hashes, shard: nat, total: nat, ids: seq<string>, results: seq<Result>, crates: Scope,
                          attempt: nat, who: Identity)
    requires 1 <= shard <= total
    ensures var m := Manifest(h, shard, total, ids, results, crates, attempt, who);
            && WellShaped(m) && AllIds(m) == ids && UnitsOf(m) == results
            && ScopeOf(m) == ScopeVal(crates) && SelectionOf(m, crates) == SelectedIds(ids, crates)
            && Get(m, "digest") == VStr(h.digest(ids))
            && IdentityOf(m) == (VStr(who.runId), VStr(who.commitSha))
            && (IsComplete(m) <==> |results| == |Assigned(h, SelectedIds(ids, crates), shard, total)|)
  {
    ScopeRoundTrip(crates);
    ManifestFields(h, shard, total, ids, results, crates, attempt, who);
    StringsReadBack(ids);
    StringsReadBack(SelectedIds(ids, crates));
    var m := Manifest(h, shard, total, ids, results, crates, attempt, who);
    hide SelectedIds, Assigned, ValidScope, ScopeVal, ResultVal, IsUnit, Manifest, FromStrings, Strings, IsStrList;
    forall i | 0 <= i < |results|
      ensures IsUnit(ResultVal(results[i])) && ReadResult(ResultVal(results[i])) == results[i]
    {
      ResultReadsBack(results[i]);
    }
    assert UnitsOf(m) == results;
  }

  /** The fields the auditor looks up. */
  lemma ManifestFields(h: Hashes, shard: nat, total: nat, ids: seq<string>, results: seq<Result>, crates: Scope,
                       attempt: nat, who: Identity)
    requires 1 <= shard <= total
    ensures var m := Manifest(h, shard, total, ids, results, crates, attempt, who);
            var selected := SelectedIds(ids, crates);
            && Get(m, "all_unit_ids") == FromStrings(ids) && Get(m, "digest") == VStr(h.digest(ids))
            && "scope" in m && m["scope"] == ScopeVal(crates)
            && "selected_unit_ids" in m && m["selected_unit_ids"] == FromStrings(selected)
            && Get(m, "units") == VList(seq(|results|, i requires 0 <= i < |results| => ResultVal(results[i])))
            && Get(m, "run_id") == VStr(who.runId) && Get(m, "commit_sha") == VStr(who.commitSha)
            && Get(m, "complete") == VBool(|results| == |Assigned(h, selected, shard, total)|)
  {
    hide SelectedIds, Assigned, ScopeVal, ResultVal, FromStrings;
  }

  lemma StringsReadBack(xs: seq<string>)
    ensures IsStrList(FromStrings(xs)) && Strings(FromStrings(xs)) == xs
  {
  }

  lemma ResultReadsBack(r: Result)
    ensures IsUnit(ResultVal(r)) && ReadResult(ResultVal(r)) == r
  {
  }

  lemma HonestManifest(h: Hashes, ms: Manifests, total: nat, ids: seq<string>, crates: Scope,
                       rc: string -> int, attempts: nat -> nat, who: Identity, s: nat)
    requires HonestWave(h, ms, total, ids, crates, rc, attempts, who) && s in ms
    ensures 1 <= s <= total
    ensures var results := ShardResults(h, ids, crates, s, total, rc);
            && WellShaped(ms[s]) && AllIds(ms[s]) == ids && UnitsOf(ms[s]) == results && IsComplete(ms[s])
            && ScopeOf(ms[s]) == ScopeVal(crates) && SelectionOf(ms[s], crates) == SelectedIds(ids, crates)
            && Get(ms[s], "digest") == VStr(h.digest(ids))
            && IdentityOf(ms[s]) == (VStr(who.runId), VStr(who.commitSha))
  {
    hide Manifest, WellShaped, AllIds, UnitsOf, IsComplete, ScopeOf, SelectionOf, IdentityOf, SelectedIds, Assigned;
    ManifestReadsBack(h, s, total, ids, ShardResults(h, ids, crates, s, total, rc), crates, attempts(s), who);
  }

  /** The entries of the flat list are the assigned units of each shard. */
  lemma HonestEntry(h: Hashes, ms: Manifests, total: nat, ids: seq<string>, crates: Scope,
                    rc: string -> int, attempts: nat -> nat, who: Identity, p: nat) returns (s: nat, i: nat)
    requires HonestWave(h, ms, total, ids, crates, rc, attempts, who) && AllWellShaped(ms, total)
    requires p < |Runs(ms, total, total)|
    ensures 1 <= s <= total && p == |Runs(ms, total, s - 1)| + i
    ensures var mine := Assigned(h, SelectedIds(ids, crates), s, total);
            i < |mine| && Runs(ms, total, total)[p] == Ran(s, Result(mine[i], rc(mine[i])))
            && mine[i] in SelectedIds(ids, crates) && mine[i] in ids && ShardOf(h, mine[i], total) == s - 1
  {
    hide Manifest, WellShaped, AllIds, UnitsOf, IsComplete, ScopeOf, SelectionOf, IdentityOf, SelectedIds, Assigned,
         Runs;
    s, i := PositionEntry(ms, total, total, p);
    HonestManifest(h, ms, total, ids, crates, rc, attempts, who, s);
    var mine := Assigned(h, SelectedIds(ids, crates), s, total);
    assert mine[i] in mine;
  }

  lemma HonestRunsAreClean(h: Hashes, ms: Manifests, total: nat, ids: seq<string>, crates: Scope,
                           rc: string -> int, attempts: nat -> nat, who: Identity)
    requires HonestWave(h, ms, total, ids, crates, rc, attempts, who) && AllWellShaped(ms, total)
    requires total > 0 && Distinct(ids)
    ensures CleanRuns(h, Runs(ms, total, total), ids, total)
  {
    hide HonestWave, AllWellShaped, WellShaped, Runs, Assigned, SelectedIds, ShardOf, Distinct;
    var runs := Runs(ms, total, total);
    forall p | 0 <= p < |runs|
      ensures runs[p].result.id in ids && ShardOf(h, runs[p].result.id, total) == runs[p].shard - 1
    {
      var s, i := HonestEntry(h, ms, total, ids, crates, rc, attempts, who, p);
    }
    forall p, q | 0 <= p < q < |runs|
      ensures runs[p].result.id != runs[q].result.id
    {
      var s, i := HonestEntry(h, ms, total, ids, crates, rc, attempts, who, p);
      var s', i' := HonestEntry(h, ms, total, ids, crates, rc, attempts, who, q);
      if s == s' {
        AssignedApart(h, ids, crates, s, total, i, i');
      }
    }
  }

  lemma AssignedApart(h: Hashes, ids: seq<string>, crates: Scope, s: nat, total: nat, i: nat, j: nat)
    requires Distinct(ids) && 1 <= s <= total
    requires var mine := Assigned(h, SelectedIds(ids, crates), s, total); i < j < |mine|
    ensures var mine := Assigned(h, SelectedIds(ids, crates), s, total); mine[i] != mine[j]
  {
    SelectedDistinct(ids, crates);
    AssignedDistinct(h, SelectedIds(ids, crates), s, total);
  }

  /** Every selected unit appears in the manifest of its shard. */
  lemma HonestUnitRan(h: Hashes, ms: Manifests, total: nat, ids: seq<string>, crates: Scope,
                      rc: string -> int, attempts: nat -> nat, who: Identity, id: string) returns (p: nat)
    requires HonestWave(h, ms, total, ids, crates, rc, attempts, who) && AllWellShaped(ms, total)
    requires total > 0 && id in SelectedIds(ids, crates)
    ensures p < |Runs(ms, total, total)| && Runs(ms, total, total)[p].result == Result(id, rc(id))
  {
    hide Manifest, WellShaped, AllIds, UnitsOf, IsComplete, ScopeOf, SelectionOf, IdentityOf, SelectedIds, Assigned,
         Runs;
    var s := ShardOf(h, id, total) + 1;
    var mine := Assigned(h, SelectedIds(ids, crates), s, total);
    assert id in mine;
    var i :| 0 <= i < |mine| && mine[i] == id;
    HonestManifest(h, ms, total, ids, crates, rc, attempts, who, s);
    EntryPosition(ms, total, total, s, i);
    p := |Runs(ms, total, s - 1)| + i;
  }

  lemma HonestRunsCover(h: Hashes, ms: Manifests, total: nat, ids: seq<string>, crates: Scope,
                        rc: string -> int, attempts: nat -> nat, who: Identity)
    requires HonestWave(h, ms, total, ids, crates, rc, attempts, who) && AllWellShaped(ms, total) && total > 0
    ensures RanIds(Runs(ms, total, total)) == (set id | id in SelectedIds(ids, crates))
    ensures FailedIds(Runs(ms, total, total)) == (set id | id in SelectedIds(ids, crates) && rc(id) != 0)
  {
    hide HonestWave, AllWellShaped, WellShaped, Runs, Assigned, SelectedIds, ShardOf;
    var runs := Runs(ms, total, total);
    forall id | id in SelectedIds(ids, crates)
      ensures id in RanIds(runs) && (rc(id) != 0 ==> id in FailedIds(runs))
    {
      var p := HonestUnitRan(h, ms, total, ids, crates, rc, attempts, who, id);
      assert runs[p].result.id == id;
    }
    forall p | 0 <= p < |runs|
      ensures runs[p].result.id in SelectedIds(ids, crates) && runs[p].result.rc == rc(runs[p].result.id)
    {
      var s, i := HonestEntry(h, ms, total, ids, crates, rc, attempts, who, p);
    }
  }

  /** Neither part of the identity is empty, and what the environment knows of
      it agrees. */
  predicate Matching(who: Identity, env: Env) {
    && who.runId != "" && who.commitSha != ""
    && (env.runId == "" || env.runId == who.runId) && (env.sha == "" || env.sha == who.commitSha)
  }

  /** When all shards write manifests after running exactly their assigned
      selected units, with the same distinct ids, scope and identity, the audit
      has no problem exactly when that identity is good, and its failed set is
      exactly the selected units with a nonzero return code. */
  lemma HonestWaveIsClean(h: Hashes, ms: Manifests, total: nat, ids: seq<string>, crates: Scope,
                          rc: string -> int, attempts: nat -> nat, who: Identity, env: Env)
    requires total >= 1 && Distinct(ids) && HonestWave(h, ms, total, ids, crates, rc, attempts, who)
    ensures AllWellShaped(ms, total) && (Clean(h, ms, total, env) <==> Matching(who, env))
    ensures FailedIds(Runs(ms, total, total)) == (set id | id in SelectedIds(ids, crates) && rc(id) != 0)
  {
    hide Manifest, ShardResults, WellShaped, AllIds, UnitsOf, IsComplete, ScopeOf, SelectionOf, IdentityOf,
         SelectedIds, Assigned, CleanRuns, Runs, RanIds, FailedIds;
    forall s | s in ms
      ensures && WellShaped(ms[s]) && AllIds(ms[s]) == ids && IsComplete(ms[s])
              && ScopeOf(ms[s]) == ScopeVal(crates) && SelectionOf(ms[s], crates) == SelectedIds(ids, crates)
              && Get(ms[s], "digest") == VStr(h.digest(ids))
              && IdentityOf(ms[s]) == (VStr(who.runId), VStr(who.commitSha))
    {
      HonestManifest(h, ms, total, ids, crates, rc, attempts, who, s);
    }
    ScopeRoundTrip(crates);
    HonestRunsAreClean(h, ms, total, ids, crates, rc, attempts, who);
    HonestRunsCover(h, ms, total, ids, crates, rc, attempts, who);
    hide ValidScope, ScopeVal, Get;
    assert CratesOf(ScopeOf(ms[1])) == crates;
  }

  // ---------------------------------------------------------------------
  // Up to the colour of the gate
  // ---------------------------------------------------------------------

  /** The manifest file of one attempt of one shard; `rc` gives the return code
      of a unit in an attempt. */
  function HonestFile(h: Hashes, key: (nat, nat), total: nat, ids: seq<string>, crates: Scope,
                      rc: (nat, string) -> int, who: Identity): File
    requires 1 <= key.0 <= total
  {
    var results := ShardResults(h, ids, crates, key.0, total, id => rc(key.1, id));
    File(Some(key), Some(Manifest(h, key.0, total, ids, results, crates, key.1, who)))
  }

  /** Every file is the manifest of the attempt it names, none twice, and every
      shard wrote one. */
  ghost predicate HonestFiles(h: Hashes, files: seq<File>, total: nat, ids: seq<string>, crates: Scope,
                              rc: (nat, string) -> int, who: Identity)
  {
    && (forall i :: 0 <= i < |files| ==>
          && files[i].key.Some? && 1 <= files[i].key.value.0 <= total && files[i].key.value.1 >= 1
          && files[i] == HonestFile(h, files[i].key.value, total, ids, crates, rc, who))
    && (forall i, j :: 0 <= i < j < |files| ==> files[i].key != files[j].key)
    && (forall s: nat :: 1 <= s <= total ==> HasFile(files, s))
  }

  predicate OfShard(f: File, shard: nat) {
    f.key.Some? && f.key.value.0 == shard
  }

  predicate HasFile(files: seq<File>, shard: nat) {
    exists i :: 0 <= i < |files| && OfShard(files[i], shard)
  }

  /** The newest attempt of a shard, 0 if none. */
  function Newest(files: seq<File>, shard: nat): nat {
    if files == [] then 0
    else
      var (f, later) := (files[0], Newest(files[1..], shard));
      if OfShard(f, shard) && f.key.value.1 > later then f.key.value.1 else later
  }

  lemma {:induction false} NewestIsGreatest(files: seq<File>, shard: nat, i: nat)
    requires i < |files| && OfShard(files[i], shard)
    requires forall j :: 0 <= j < |files| && OfShard(files[j], shard) ==> files[j].key.value.1 <= files[i].key.value.1
    ensures Newest(files, shard) == files[i].key.value.1
  {
    NewestBounds(files, shard, files[i].key.value.1);
    NewestReaches(files, shard, i);
  }

  lemma {:induction false} NewestBounds(files: seq<File>, shard: nat, bound: nat)
    requires forall j :: 0 <= j < |files| && OfShard(files[j], shard) ==> files[j].key.value.1 <= bound
    ensures Newest(files, shard) <= bound
  {
    if files != [] {
      assert forall j :: 0 <= j < |files[1..]| ==> files[1..][j] == files[j + 1];
      NewestBounds(files[1..], shard, bound);
    }
  }

  lemma {:induction false} NewestReaches(files: seq<File>, shard: nat, i: nat)
    requires i < |files| && OfShard(files[i], shard)
    ensures Newest(files, shard) >= files[i].key.value.1
  {
    if i > 0 {
      assert files[1..][i - 1] == files[i];
      NewestReaches(files[1..], shard, i - 1);
    }
  }

  lemma HonestFileIsAccepted(h: Hashes, key: (nat, nat), total: nat, ids: seq<string>, crates: Scope,
                             rc: (nat, string) -> int, who: Identity, env: Env)
    requires 1 <= key.0 <= total && key.1 >= 1 && Matching(who, env)
    ensures Accepts(HonestFile(h, key, total, ids, crates, rc, who), total, env)
  {
    hide SelectedIds, Assigned, ShardResults, ScopeVal, FromStrings;
  }

  lemma HonestFilesLoad(h: Hashes, files: seq<File>, total: nat, ids: seq<string>, crates: Scope,
                        rc: (nat, string) -> int, who: Identity, env: Env)
    requires HonestFiles(h, files, total, ids, crates, rc, who) && Matching(who, env)
    ensures NothingToReport(files, total, env)
  {
    hide Accepts, HonestFile, Matching;
    forall i | 0 <= i < |files|
      ensures Accepts(files[i], total, env)
    {
      HonestFileIsAccepted(h, files[i].key.value, total, ids, crates, rc, who, env);
    }
  }

  /** The return code of a unit in the newest attempt of its shard. */
  function NewestCode(h: Hashes, files: seq<File>, total: nat, rc: (nat, string) -> int): string -> int
    requires total >= 1
  {
    id => rc(Newest(files, ShardOf(h, id, total) + 1), id)
  }

  lemma SameResults(h: Hashes, ids: seq<string>, crates: Scope, s: nat, total: nat, f: string -> int, g: string -> int)
    requires 1 <= s <= total && forall id :: ShardOf(h, id, total) == s - 1 ==> f(id) == g(id)
    ensures ShardResults(h, ids, crates, s, total, f) == ShardResults(h, ids, crates, s, total, g)
  {
    hide SelectedIds, ShardOf;
    var mine := Assigned(h, SelectedIds(ids, crates), s, total);
    forall i | 0 <= i < |mine|
      ensures f(mine[i]) == g(mine[i])
    {
      assert mine[i] in mine;
    }
  }

  /** The loaded manifest of a shard is the one of its newest attempt. */
  lemma LoadedIsNewest(h: Hashes, files: seq<File>, total: nat, ids: seq<string>, crates: Scope,
                       rc: (nat, string) -> int, who: Identity, env: Env, s: nat, m: Dict)
    requires HonestFiles(h, files, total, ids, crates, rc, who) && Matching(who, env) && 1 <= s <= total
    requires IsLatest(files, total, env, s, m)
    ensures var results := ShardResults(h, ids, crates, s, total, NewestCode(h, files, total, rc));
            m == Manifest(h, s, total, ids, results, crates, Newest(files, s), who)
  {
    hide Accepts, Manifest, ShardResults;
    HonestFilesLoad(h, files, total, ids, crates, rc, who, env);
    var i :| 0 <= i < |files| && IsLatestAt(files, total, env, s, i) && files[i].content == Some(m);
    NewestIsGreatest(files, s, i);
    var a := Newest(files, s);
    SameResults(h, ids, crates, s, total, id => rc(a, id), NewestCode(h, files, total, rc));
  }

  lemma LoadedCovers(h: Hashes, files: seq<File>, total: nat, ids: seq<string>, crates: Scope,
                     rc: (nat, string) -> int, who: Identity, env: Env, ms: Manifests)
    requires HonestFiles(h, files, total, ids, crates, rc, who) && Matching(who, env) && Loaded(files, total, env, ms)
    ensures Covers(ms, total)
  {
    hide Accepts, IsLatest, HonestFile, Matching;
    HonestFilesLoad(h, files, total, ids, crates, rc, who, env);
    forall s: nat | 1 <= s <= total
      ensures s in ms
    {
      assert HasFile(files, s);
      var i :| 0 <= i < |files| && OfShard(files[i], s);
      assert Accepts(files[i], total, env);
    }
  }

  /** Honest files of distinct attempts, at least one of every shard: loading
      reports nothing, the wave is clean, and nothing failed (so the summary is
      green) exactly when every selected unit returned 0 in the newest attempt
      of its shard. */
  lemma HonestFilesDecide(h: Hashes, files: seq<File>, total: nat, ids: seq<string>, crates: Scope,
                          rc: (nat, string) -> int, who: Identity, env: Env, ms: Manifests)
    requires total >= 1 && Distinct(ids) && Matching(who, env)
    requires HonestFiles(h, files, total, ids, crates, rc, who) && Loaded(files, total, env, ms)
    ensures NothingToReport(files, total, env) && Clean(h, ms, total, env)
    ensures FailedIds(Runs(ms, total, total)) == {} <==>
            forall id :: id in SelectedIds(ids, crates) ==> NewestCode(h, files, total, rc)(id) == 0
  {
    hide NothingToReport, Clean, HonestFiles, Manifest, ShardResults, Accepts, IsLatest, SelectedIds, FailedIds, Runs;
    HonestFilesLoad(h, files, total, ids, crates, rc, who, env);
    LoadedCovers(h, files, total, ids, crates, rc, who, env, ms);
    var (codes, attempts) := (NewestCode(h, files, total, rc), (s: nat) => Newest(files, s));
    forall s | s in ms
      ensures ms[s] ==
              Manifest(h, s, total, ids, ShardResults(h, ids, crates, s, total, codes), crates, attempts(s), who)
    {
      LoadedIsNewest(h, files, total, ids, crates, rc, who, env, s, ms[s]);
    }
    HonestWaveIsClean(h, ms, total, ids, crates, codes, attempts, who, env);
    var failed := set id | id in SelectedIds(ids, crates) && codes(id) != 0;
    assert forall id :: id in SelectedIds(ids, crates) && codes(id) != 0 ==> id in failed;
    assert failed == {} <==> forall id :: id in SelectedIds(ids, crates) ==> codes(id) == 0;
  }

  /** Completeness of the summary job. */
  method SummarizeHonest(h: Hashes, files: seq<File>, total: nat, ghost ids: seq<string>, ghost crates: Scope,
                         ghost rc: (nat, string) -> int, ghost who: Identity, env: Env)
    returns (green: bool)
    requires total >= 1 && Distinct(ids) && Matching(who, env)
    requires HonestFiles(h, files, total, ids, crates, rc, who)
    ensures green <==> forall id :: id in SelectedIds(ids, crates) ==> NewestCode(h, files, total, rc)(id) == 0
  {
    hide Clean, HonestFiles, NothingToReport, Loaded, FailedIds, Runs, NewestCode;
    var ms;
    green, ms := SummaryIsGreen(h, files, total, env);
    HonestFilesDecide(h, files, total, ids, crates, rc, who, env, ms);
  }
}
