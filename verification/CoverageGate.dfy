/** The mandatory test gate end to end: selection, shards, manifests, audit. */
module CoverageGate {
  import opened JsonText
  import opened PyText
  import opened PyValue
  import opened CrateSelection
  import opened TestShard
  import opened ShardAudit

  // ---------------------------------------------------------------------
  // Choosing the attempt of each shard
  // ---------------------------------------------------------------------

  /** A manifest file: shard and attempt numbers from its name, if the name is
      recognised, and its parsed contents, if they are a JSON object. */
  datatype File = File(key: Option<(nat, nat)>, content: Option<Dict>)

  predicate Accepts(f: File, total: nat, env: Env) {
    && f.key.Some? && 1 <= f.key.value.0 <= total && f.key.value.1 >= 1 && f.content.Some?
    && var m := f.content.value;
       && Get(m, "shard") == VInt(f.key.value.0) && Get(m, "total") == VInt(total)
       && GetOr(m, "run_attempt", VInt(1)) == VInt(f.key.value.1)
       && (env.runId != "" ==> Get(m, "run_id") == VStr(env.runId))
       && (env.sha != "" ==> Get(m, "commit_sha") == VStr(env.sha))
  }

  /** `m` is the content of the newest accepted attempt of `shard`. */
  ghost predicate IsLatest(files: seq<File>, total: nat, env: Env, shard: nat, m: Dict) {
    exists i :: 0 <= i < |files| && IsLatestAt(files, total, env, shard, i) && files[i].content == Some(m)
  }

  predicate IsLatestAt(files: seq<File>, total: nat, env: Env, shard: nat, i: nat)
    requires i < |files|
  {
    && Accepts(files[i], total, env) && files[i].key.value.0 == shard
    && forall j :: 0 <= j < |files| && Accepts(files[j], total, env) && files[j].key.value.0 == shard ==>
         files[j].key.value.1 <= files[i].key.value.1
  }

  type Candidates = map<(nat, nat), Dict>

  /** The candidates are the accepted files, by shard and attempt. */
  ghost predicate FromFiles(c: Candidates, files: seq<File>, total: nat, env: Env) {
    && (forall k :: k in c ==>
          exists i :: 0 <= i < |files| && Accepts(files[i], total, env) && files[i].key == Some(k)
              && files[i].content == Some(c[k]))
    && (forall i :: 0 <= i < |files| && Accepts(files[i], total, env) ==> files[i].key.value in c)
  }

  /** Every file is accepted and no two are the same attempt. */
  predicate NothingToReport(files: seq<File>, total: nat, env: Env) {
    && (forall i :: 0 <= i < |files| ==> Accepts(files[i], total, env))
    && (forall i, j :: 0 <= i < j < |files| ==> files[i].key != files[j].key)
  }

  method CollectCandidates(files: seq<File>, total: nat, env: Env) returns (c: Candidates, problems: nat)
    ensures FromFiles(c, files, total, env)
    ensures problems == 0 <==> NothingToReport(files, total, env)
  {
    hide Accepts, FromFiles, NothingToReport;
    c, problems := map[], 0;
    NoFiles(total, env);
    assert files[..0] == [];
    for n := 0 to |files|
      invariant FromFiles(c, files[..n], total, env)
      invariant problems == 0 <==> NothingToReport(files[..n], total, env)
    {
      var f := files[n];
      assert files[..n + 1] == files[..n] + [f];
      OneMoreFile(c, files[..n], f, total, env);
      if !Accepts(f, total, env) {
        problems := problems + 1;
        FromFilesRejects(c, files[..n], f, total, env);
      } else {
        AcceptedHasKey(f, total, env);
        FromFilesAdds(c, files[..n], f, total, env);
        if f.key.value in c {
          problems := problems + 1;
        } else {
          c := c[f.key.value := f.content.value];
        }
      }
    }
    assert files[..|files|] == files;
  }

  lemma NoFiles(total: nat, env: Env)
    ensures FromFiles(map[], [], total, env) && NothingToReport([], total, env)
  {
  }

  lemma OneMoreFile(c: Candidates, files: seq<File>, f: File, total: nat, env: Env)
    requires FromFiles(c, files, total, env)
    ensures NothingToReport(files + [f], total, env) <==>
            NothingToReport(files, total, env) && Accepts(f, total, env) && (f.key.Some? ==> f.key.value !in c)
  {
    hide Accepts;
    var all := files + [f];
    assert forall i :: 0 <= i < |files| ==> all[i] == files[i];
    assert all[|files|] == f;
    if Accepts(f, total, env) {
      AcceptedHasKey(f, total, env);
      if f.key.value in c {
        var k := f.key.value;
        var i :| 0 <= i < |files| && Accepts(files[i], total, env) && files[i].key == Some(k)
            && files[i].content == Some(c[k]);
        assert all[i].key == all[|files|].key;
      } else {
        forall i | 0 <= i < |files| && Accepts(files[i], total, env)
          ensures files[i].key != f.key
        {
          AcceptedHasKey(files[i], total, env);
        }
      }
    }
  }

  lemma AcceptedHasKey(f: File, total: nat, env: Env)
    requires Accepts(f, total, env)
    ensures f.key.Some? && f.content.Some? && 1 <= f.key.value.0 <= total && f.key.value.1 >= 1
  {
  }

  lemma FromFilesRejects(c: Candidates, files: seq<File>, f: File, total: nat, env: Env)
    requires FromFiles(c, files, total, env) && !Accepts(f, total, env)
    ensures FromFiles(c, files + [f], total, env)
  {
    hide Accepts;
    var all := files + [f];
    forall k | k in c
      ensures exists i ::
                0 <= i < |all| && Accepts(all[i], total, env) && all[i].key == Some(k) && all[i].content == Some(c[k])
    {
      var i :| 0 <= i < |files| && Accepts(files[i], total, env) && files[i].key == Some(k)
          && files[i].content == Some(c[k]);
      assert all[i] == files[i];
    }
  }

  lemma FromFilesAdds(c: Candidates, files: seq<File>, f: File, total: nat, env: Env)
    requires FromFiles(c, files, total, env) && Accepts(f, total, env) && f.key.Some? && f.content.Some?
    ensures f.key.value in c ==> FromFiles(c, files + [f], total, env)
    ensures f.key.value !in c ==> FromFiles(c[f.key.value := f.content.value], files + [f], total, env)
  {
    hide Accepts;
    var all := files + [f];
    assert all[|files|] == f;
    forall k | k in c
      ensures exists i ::
                0 <= i < |all| && Accepts(all[i], total, env) && all[i].key == Some(k) && all[i].content == Some(c[k])
    {
      var i :| 0 <= i < |files| && Accepts(files[i], total, env) && files[i].key == Some(k)
          && files[i].content == Some(c[k]);
      assert all[i] == files[i];
    }
  }

  /** The newest attempt of one shard among the candidates; 0 if none. */
  method NewestAttempt(c: Candidates, shard: nat) returns (best: nat)
    requires forall k :: k in c ==> k.1 >= 1
    ensures best == 0 <==> forall k :: k in c ==> k.0 != shard
    ensures best > 0 ==> (shard, best) in c
    ensures forall k :: k in c && k.0 == shard ==> k.1 <= best
  {
    best := 0;
    var todo := c.Keys;
    while todo != {}
      invariant todo <= c.Keys
      invariant best > 0 ==> (shard, best) in c
      invariant forall k :: k in c.Keys - todo && k.0 == shard ==> k.1 <= best
      decreases todo
    {
      var k: (nat, nat) :| k in todo;
      if k.0 == shard && k.1 > best {
        best := k.1;
        assert k == (shard, best);
      }
      todo := todo - {k};
    }
  }

  lemma CandidateKeys(c: Candidates, files: seq<File>, total: nat, env: Env, k: (nat, nat))
    requires FromFiles(c, files, total, env) && k in c
    ensures 1 <= k.0 <= total && k.1 >= 1
  {
    hide Accepts;
    var i :| 0 <= i < |files| && Accepts(files[i], total, env) && files[i].key == Some(k)
        && files[i].content == Some(c[k]);
    AcceptedHasKey(files[i], total, env);
  }

  lemma CandidateBounds(c: Candidates, files: seq<File>, total: nat, env: Env)
    requires FromFiles(c, files, total, env)
    ensures forall k :: k in c ==> 1 <= k.0 <= total && k.1 >= 1
  {
    hide FromFiles;
    forall k | k in c
      ensures 1 <= k.0 <= total && k.1 >= 1
    {
      CandidateKeys(c, files, total, env, k);
    }
  }

  predicate HasShard(c: Candidates, shard: nat) {
    exists k :: k in c && k.0 == shard
  }

  method PickShard(c: Candidates, files: seq<File>, total: nat, env: Env, shard: nat) returns (newest: Option<Dict>)
    requires FromFiles(c, files, total, env)
    ensures newest.Some? <==> HasShard(c, shard)
    ensures newest.Some? ==> IsLatest(files, total, env, shard, newest.value)
  {
    CandidateBounds(c, files, total, env);
    hide Accepts, IsLatestAt, IsLatest, FromFiles;
    var best := NewestAttempt(c, shard);
    if best == 0 {
      return None;
    }
    NewestIsLatest(files, total, env, c, shard, best);
    return Some(c[(shard, best)]);
  }

  lemma ShardsInRange(c: Candidates, files: seq<File>, total: nat, env: Env)
    requires FromFiles(c, files, total, env)
    ensures forall k :: k in c ==> 1 <= k.0 <= total && HasShard(c, k.0)
  {
    CandidateBounds(c, files, total, env);
    hide FromFiles;
  }

  method PickNewest(c: Candidates, files: seq<File>, total: nat, env: Env) returns (ms: Manifests)
    requires FromFiles(c, files, total, env)
    ensures forall s :: s in ms ==> 1 <= s <= total && IsLatest(files, total, env, s, ms[s])
    ensures forall k :: k in c ==> k.0 in ms
  {
    hide IsLatest, FromFiles, HasShard;
    ms := PickEach(c, files, total, env);
    ShardsInRange(c, files, total, env);
  }

  method PickEach(c: Candidates, files: seq<File>, total: nat, env: Env) returns (ms: Manifests)
    requires FromFiles(c, files, total, env)
    ensures forall s :: s in ms ==> 1 <= s <= total && IsLatest(files, total, env, s, ms[s])
    ensures forall s :: 1 <= s <= total && HasShard(c, s) ==> s in ms
  {
    hide IsLatest, FromFiles, HasShard;
    ms := map[];
    for shard := 1 to total + 1
      invariant forall s :: s in ms ==> 1 <= s < shard && IsLatest(files, total, env, s, ms[s])
      invariant forall s :: 1 <= s < shard && HasShard(c, s) ==> s in ms
    {
      var newest := PickShard(c, files, total, env, shard);
      if newest.Some? {
        ms := ms[shard := newest.value];
      }
    }
  }

  /** Every shard gets the newest accepted attempt, independently; no problem
      means every file was accepted and none repeats another. */
  method LoadManifests(files: seq<File>, total: nat, env: Env) returns (ms: Manifests, problems: nat)
    ensures forall s :: s in ms ==> 1 <= s <= total && IsLatest(files, total, env, s, ms[s])
    ensures forall i :: 0 <= i < |files| && Accepts(files[i], total, env) ==> files[i].key.value.0 in ms
    ensures problems == 0 <==> NothingToReport(files, total, env)
  {
    hide Accepts, IsLatest, NothingToReport;
    var c;
    c, problems := CollectCandidates(files, total, env);
    ms := PickNewest(c, files, total, env);
    forall i | 0 <= i < |files| && Accepts(files[i], total, env)
      ensures files[i].key.Some? && files[i].key.value.0 in ms
    {
      AcceptedHasKey(files[i], total, env);
      assert files[i].key.value in c;
    }
  }

  lemma NewestIsLatest(files: seq<File>, total: nat, env: Env, c: Candidates, shard: nat, best: nat)
    requires FromFiles(c, files, total, env) && (shard, best) in c
    requires forall k :: k in c && k.0 == shard ==> k.1 <= best
    ensures IsLatest(files, total, env, shard, c[(shard, best)])
  {
    hide Accepts;
    var k := (shard, best);
    var i :| 0 <= i < |files| && Accepts(files[i], total, env) && files[i].key == Some(k)
        && files[i].content == Some(c[k]);
    forall j | 0 <= j < |files| && Accepts(files[j], total, env)
      ensures files[j].key.Some? && (files[j].key.value.0 == shard ==> files[j].key.value.1 <= best)
    {
      AcceptedHasKey(files[j], total, env);
      assert files[j].key.value in c;
    }
    assert IsLatestAt(files, total, env, shard, i);
  }

  // ---------------------------------------------------------------------
  // Soundness
  // ---------------------------------------------------------------------

  predicate RanAt(ms: Manifests, total: nat, id: string, s: nat, i: nat)
    requires AllWellShaped(ms, total)
  {
    s in ms && i < |UnitsOf(ms[s])| && UnitsOf(ms[s])[i].id == id
  }

  /** Exactly one entry of all the manifests reports `id`: in shard `s`, with
      return code 0. */
  ghost predicate RanOnceAndPassed(h: Hashes, ms: Manifests, total: nat, id: string)
    requires AllWellShaped(ms, total) && total > 0
  {
    exists s: nat, i: nat ::
      && RanAt(ms, total, id, s, i) && s == ShardOf(h, id, total) + 1 && UnitsOf(ms[s])[i].rc == 0
      && forall s': nat, i': nat :: RanAt(ms, total, id, s', i') ==> s' == s && i' == i
  }

  /** Position in the flat list of entry `i` of shard `s`. */
  lemma {:induction false} EntryPosition(ms: Manifests, total: nat, n: nat, s: nat, i: nat)
    requires AllWellShaped(ms, total) && 1 <= s <= n <= total && i < |UnitsOf(ms[s])|
    ensures var p := |Runs(ms, total, s - 1)| + i;
            p < |Runs(ms, total, n)| && Runs(ms, total, n)[p] == Ran(s, UnitsOf(ms[s])[i])
  {
    hide WellShaped, UnitsOf;
    if s < n {
      EntryPosition(ms, total, n - 1, s, i);
    }
  }

  lemma {:induction false} PositionEntry(ms: Manifests, total: nat, n: nat, p: nat) returns (s: nat, i: nat)
    requires AllWellShaped(ms, total) && n <= total && p < |Runs(ms, total, n)|
    ensures 1 <= s <= n && i < |UnitsOf(ms[s])| && p == |Runs(ms, total, s - 1)| + i
    ensures Runs(ms, total, n)[p] == Ran(s, UnitsOf(ms[s])[i])
  {
    hide WellShaped, UnitsOf;
    var before := |Runs(ms, total, n - 1)|;
    if p < before {
      s, i := PositionEntry(ms, total, n - 1, p);
    } else {
      s, i := n, p - before;
    }
  }

  lemma CleanEntryIsUnique(h: Hashes, ms: Manifests, total: nat, env: Env, id: string, s: nat, i: nat, s': nat, i': nat)
    requires Clean(h, ms, total, env) && RanAt(ms, total, id, s, i) && RanAt(ms, total, id, s', i')
    ensures s == s' && i == i' && s == ShardOf(h, id, total) + 1
  {
    hide WellShaped, UnitsOf, ShardOf, SameIdentity, SameEnumeration, SameSelection, IsComplete;
    EntryPosition(ms, total, total, s, i);
    EntryPosition(ms, total, total, s', i');
    var p, p' := |Runs(ms, total, s - 1)| + i, |Runs(ms, total, s' - 1)| + i';
    var runs := Runs(ms, total, total);
    assert runs[p].result.id == runs[p'].result.id;
    assert p == p';
  }

  lemma CleanEntryPassed(h: Hashes, ms: Manifests, total: nat, env: Env, id: string) returns (s: nat, i: nat)
    requires Clean(h, ms, total, env) && FailedIds(Runs(ms, total, total)) == {}
    requires id in AllIds(ms[1]) && InScope(id, CratesOf(ScopeOf(ms[1])))
    ensures RanAt(ms, total, id, s, i) && UnitsOf(ms[s])[i].rc == 0
  {
    var runs := Runs(ms, total, total);
    assert id in SelectionSet(ms[1]);
    assert id in RanIds(runs);
    hide WellShaped, UnitsOf, Clean, InScope;
    var p: nat :| p < |runs| && runs[p].result.id == id;
    s, i := PositionEntry(ms, total, total, p);
    assert runs[p].result.rc != 0 ==> id in FailedIds(runs);
  }

  /** A clean wave with no failed unit ran every selected unit exactly once, in
      the one shard its hash names, with return code 0. */
  lemma CleanAndGreenIsCovered(h: Hashes, ms: Manifests, total: nat, env: Env, id: string)
    requires Clean(h, ms, total, env) && FailedIds(Runs(ms, total, total)) == {}
    requires id in AllIds(ms[1]) && InScope(id, CratesOf(ScopeOf(ms[1])))
    ensures RanOnceAndPassed(h, ms, total, id)
  {
    var s, i := CleanEntryPassed(h, ms, total, env, id);
    hide WellShaped, UnitsOf, ShardOf, Clean, InScope;
    forall s': nat, i': nat | RanAt(ms, total, id, s', i')
      ensures s' == s && i' == i
    {
      CleanEntryIsUnique(h, ms, total, env, id, s, i, s', i');
    }
    CleanEntryIsUnique(h, ms, total, env, id, s, i, s, i);
  }

  /** `ms` holds the newest accepted attempt of every shard that has one. */
  ghost predicate Loaded(files: seq<File>, total: nat, env: Env, ms: Manifests) {
    && (forall s :: s in ms ==> 1 <= s <= total && IsLatest(files, total, env, s, ms[s]))
    && (forall i :: 0 <= i < |files| && Accepts(files[i], total, env) ==> files[i].key.value.0 in ms)
  }

  /** The summary job: load, audit, and green only with nothing to report. */
  method SummaryIsGreen(h: Hashes, files: seq<File>, total: nat, env: Env) returns (green: bool, ms: Manifests)
    ensures green <==>
              NothingToReport(files, total, env) && Clean(h, ms, total, env) && FailedIds(Runs(ms, total, total)) == {}
    ensures Loaded(files, total, env, ms)
  {
    hide Clean, IsLatest, Accepts, NothingToReport, FailedIds;
    var loadProblems;
    ms, loadProblems := LoadManifests(files, total, env);
    var verdict := Audit(h, ms, total, env);
    green := loadProblems == 0 && verdict == Report([], {});
  }

  /** Green means covered, end to end. If a shard of the wave recorded the
      selection made for the change list, carried as a comma list, and the gate
      is green, then for every changed path, old or new, every unit it
      enumerated of the crate the path lies in, and of every crate that depends
      on that one, ran exactly once, in its own shard, and passed; every unit of
      the workspace, when the path lies in the root crate; every unit at all,
      when no narrowing was possible. */
  lemma GreenGateIsSound(h: Hashes, ms: Manifests, total: nat, env: Env,
                         rows: seq<Row>, deps: Graph, selection: Option<seq<string>>, read: Scope,
                         s: nat, id: string, i: nat, c: string)
    requires Clean(h, ms, total, env) && FailedIds(Runs(ms, total, total)) == {}
    requires forall name :: name in deps ==> IsPlain(name)
    requires selection.Some? <==> CanSelect(rows, deps)
    requires selection.Some? ==>
               && selection.value != [] && Sorted(selection.value)
               && (forall name :: name in selection.value <==> MustTest(rows, deps, name))
    requires Decodes(Some(Encode(selection)), read)
    requires s in ms && ScopeOf(ms[s]) == ScopeVal(read) && id in AllIds(ms[s])
    requires CanSelect(rows, deps) ==>
               && i < |rows| && Changes(rows[i], c) && UnitPackage(id) in deps
               && (c == "pa-types" || Reaches(deps, UnitPackage(id), {c}))
    ensures RanOnceAndPassed(h, ms, total, id)
  {
    SameEverywhere(h, ms, total, env, s);
    hide Clean, RanOnceAndPassed, CanSelect, Changes, UnitPackage, Reaches, IsPlain;
    if CanSelect(rows, deps) {
      ChangeMustBeTested(rows, deps, i, c, UnitPackage(id));
      forall name | name in selection.value
        ensures IsPlain(name)
      {
        assert MustTest(rows, deps, name);
      }
    }
    hide MustTest;
    SelectedRan(h, ms, total, env, selection, read, id);
  }

  /** In a clean wave all shards enumerated the same units and recorded the same
      scope. */
  lemma SameEverywhere(h: Hashes, ms: Manifests, total: nat, env: Env, s: nat)
    requires Clean(h, ms, total, env) && s in ms
    ensures AllIds(ms[s]) == AllIds(ms[1]) && ScopeOf(ms[s]) == ScopeOf(ms[1])
  {
  }

  lemma ChangeMustBeTested(rows: seq<Row>, deps: Graph, i: nat, c: string, user: string)
    requires i < |rows| && Changes(rows[i], c) && user in deps && (c == "pa-types" || Reaches(deps, user, {c}))
    ensures MustTest(rows, deps, user)
  {
    hide Changes, Reaches;
    assert IsTouched(rows, c);
  }

  lemma SelectedRan(h: Hashes, ms: Manifests, total: nat, env: Env, selection: Option<seq<string>>, read: Scope,
                    id: string)
    requires Clean(h, ms, total, env) && FailedIds(Runs(ms, total, total)) == {}
    requires selection.Some? ==>
               && selection.value != [] && Sorted(selection.value)
               && (forall c :: c in selection.value ==> IsPlain(c)) && UnitPackage(id) in selection.value
    requires Decodes(Some(Encode(selection)), read) && ScopeOf(ms[1]) == ScopeVal(read) && id in AllIds(ms[1])
    ensures RanOnceAndPassed(h, ms, total, id)
  {
    hide Clean, RanOnceAndPassed;
    SelectionSurvives(selection, read);
    ScopeRoundTrip(read);
    CleanAndGreenIsCovered(h, ms, total, env, id);
  }

  lemma ScopeRoundTrip(crates: Scope)
    ensures ValidScope(ScopeVal(crates)) && CratesOf(ScopeVal(crates)) == crates
  {
    KindKeys();
    if crates.Some? {
      assert Strings(FromStrings(crates.value)) == crates.value;
    }
  }

  lemma KindKeys()
    ensures "kind" != "crates" && "all" != "crates"
  {
    assert |"kind"| == 4 && |"crates"| == 6 && |"all"| == 3;
  }
}
