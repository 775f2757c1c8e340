/** `ci_test_shard.py`: the stable hash partition, the narrowed selection and
    the shard manifest. */
module TestShard {
  import opened JsonText
  import opened PyValue

  /** The hashes of the scripts, kept abstract: crc32 of a unit id and the
      digest of an enumeration. */
  datatype Hashes = Hashes(crc32: string -> nat, digest: seq<string> -> string)

  function ShardOf(h: Hashes, id: string, total: nat): (s: nat)
    requires total > 0
    ensures s < total
  {
    h.crc32(id) % total
  }

  /** `id.split("#", 1)[0]` */
  function UnitPackage(id: string): string {
    if id == "" || id[0] == '#' then "" else [id[0]] + UnitPackage(id[1..])
  }

  datatype Unit = Unit(package: string, kind: string, name: string)

  /** Compile-only and doc units have no target name. */
  function UnitId(u: Unit): string {
    if u.kind == "examples" || u.kind == "doc" then u.package + "#" + u.kind
    else u.package + "#" + u.kind + ":" + u.name
  }

  lemma {:induction false} PackageOf(package: string, rest: string)
    requires '#' !in package
    ensures UnitPackage(package + "#" + rest) == package
  {
    if package == "" {
      assert (package + "#" + rest)[0] == '#';
    } else {
      assert (package + "#" + rest)[1..] == package[1..] + "#" + rest;
      PackageOf(package[1..], rest);
    }
  }

  /** The package read back from an id is the unit's package. */
  lemma UnitIdKeepsPackage(u: Unit)
    requires '#' !in u.package
    ensures UnitPackage(UnitId(u)) == u.package
  {
    if u.kind == "examples" || u.kind == "doc" {
      PackageOf(u.package, u.kind);
    } else {
      PackageOf(u.package, u.kind + ":" + u.name);
      assert UnitId(u) == u.package + "#" + (u.kind + ":" + u.name);
    }
  }

  type Scope = Option<seq<string>>

  predicate InScope(id: string, crates: Scope) {
    crates.None? || UnitPackage(id) in crates.value
  }

  /** The ids this wave selects, in enumeration order. */
  function SelectedIds(ids: seq<string>, crates: Scope): (r: seq<string>)
    ensures forall id :: id in r <==> id in ids && InScope(id, crates)
  {
    if ids == [] then []
    else (if InScope(ids[0], crates) then [ids[0]] else []) + SelectedIds(ids[1..], crates)
  }

  /** Of those, the ids of one shard (numbered from 1). */
  function Assigned(h: Hashes, ids: seq<string>, shard: nat, total: nat): (r: seq<string>)
    requires 1 <= shard <= total
    ensures forall id :: id in r <==> id in ids && ShardOf(h, id, total) == shard - 1
  {
    if ids == [] then []
    else (if ShardOf(h, ids[0], total) == shard - 1 then [ids[0]] else []) + Assigned(h, ids[1..], shard, total)
  }

  datatype Result = Result(id: string, rc: int)

  function ResultVal(r: Result): Val {
    VDict(map["id" := VStr(r.id), "rc" := VInt(r.rc)])
  }

  function ScopeVal(crates: Scope): Val {
    if crates.None? then VDict(map["kind" := VStr("all")])
    else VDict(map["kind" := VStr("crates"), "crates" := FromStrings(crates.value)])
  }

  datatype Identity = Identity(runId: string, commitSha: string)

  /** The manifest a shard writes. */
  function Manifest(h: Hashes, shard: nat, total: nat, ids: seq<string>, results: seq<Result>, crates: Scope,
                    attempt: nat, who: Identity): Dict
    requires 1 <= shard <= total
  {
    var selected := SelectedIds(ids, crates);
    map[
      "schema" := VInt(1),
      "shard" := VInt(shard),
      "total" := VInt(total),
      "run_attempt" := VInt(attempt),
      "run_id" := VStr(who.runId),
      "commit_sha" := VStr(who.commitSha),
      "all_unit_ids" := FromStrings(ids),
      "digest" := VStr(h.digest(ids)),
      "scope" := ScopeVal(crates),
      "selected_unit_ids" := FromStrings(selected),
      "units" := VList(seq(|results|, i requires 0 <= i < |results| => ResultVal(results[i]))),
      "complete" := VBool(|results| == |Assigned(h, selected, shard, total)|)
    ]
  }

  /** The units of this wave that belong to this shard. */
  method PickMine(h: Hashes, units: seq<Unit>, crates: Scope, shard: nat, total: nat) returns (mine: seq<string>)
    requires 1 <= shard <= total
    requires forall i :: 0 <= i < |units| ==> '#' !in units[i].package
    ensures mine == Assigned(h, SelectedIds(Ids(units), crates), shard, total)
  {
    hide UnitPackage, UnitId, ShardOf;
    var ids := Ids(units);
    mine := [];
    for i := 0 to |units|
      invariant mine == Assigned(h, SelectedIds(ids[..i], crates), shard, total)
    {
      UnitIdKeepsPackage(units[i]);
      assert ids[..i + 1] == ids[..i] + [ids[i]];
      SelectedSnoc(ids[..i], ids[i], crates);
      AssignedSnoc(h, SelectedIds(ids[..i], crates), ids[i], shard, total);
      if (crates.None? || units[i].package in crates.value) && ShardOf(h, ids[i], total) == shard - 1 {
        mine := mine + [ids[i]];
      }
    }
    assert ids[..|units|] == ids;
  }

  /** The run loop of one shard: every unit it owns, in order, once. */
  method RunShard(h: Hashes, units: seq<Unit>, crates: Scope, shard: nat, total: nat, rc: string -> int,
                  attempt: nat, who: Identity)
    returns (manifest: Dict)
    requires 1 <= shard <= total
    requires forall i :: 0 <= i < |units| ==> '#' !in units[i].package
    ensures manifest == Manifest(h, shard, total, Ids(units), ShardResults(h, Ids(units), crates, shard, total, rc),
                                 crates, attempt, who)
  {
    hide Manifest, Ids;
    var mine := PickMine(h, units, crates, shard, total);
    var results: seq<Result> := [];
    for i := 0 to |mine|
      invariant |results| == i && forall k :: 0 <= k < i ==> results[k] == Result(mine[k], rc(mine[k]))
    {
      results := results + [Result(mine[i], rc(mine[i]))];
    }
    assert results == ShardResults(h, Ids(units), crates, shard, total, rc);
    manifest := Manifest(h, shard, total, Ids(units), results, crates, attempt, who);
  }

  function Ids(units: seq<Unit>): (ids: seq<string>)
    ensures |ids| == |units|
  {
    seq(|units|, i requires 0 <= i < |units| => UnitId(units[i]))
  }

  function ShardResults(h: Hashes, ids: seq<string>, crates: Scope, shard: nat, total: nat,
                        rc: string -> int): seq<Result>
    requires 1 <= shard <= total
  {
    var mine := Assigned(h, SelectedIds(ids, crates), shard, total);
    seq(|mine|, i requires 0 <= i < |mine| => Result(mine[i], rc(mine[i])))
  }

  lemma {:induction false} SelectedSnoc(ids: seq<string>, id: string, crates: Scope)
    ensures SelectedIds(ids + [id], crates) == SelectedIds(ids, crates) + if InScope(id, crates) then [id] else []
  {
    if ids == [] {
      assert ids + [id] == [id] && [id][1..] == [];
    } else {
      assert (ids + [id])[1..] == ids[1..] + [id];
      SelectedSnoc(ids[1..], id, crates);
    }
  }

  lemma {:induction false} AssignedSnoc(h: Hashes, ids: seq<string>, id: string, shard: nat, total: nat)
    requires 1 <= shard <= total
    ensures Assigned(h, ids + [id], shard, total)
         == Assigned(h, ids, shard, total) + if ShardOf(h, id, total) == shard - 1 then [id] else []
    ensures Assigned(h, ids + [], shard, total) == Assigned(h, ids, shard, total)
  {
    assert ids + [] == ids;
    if ids == [] {
      assert ids + [id] == [id] && [id][1..] == [];
    } else {
      assert (ids + [id])[1..] == ids[1..] + [id];
      AssignedSnoc(h, ids[1..], id, shard, total);
    }
  }

  // ---------------------------------------------------------------------
  // Distinctness
  // ---------------------------------------------------------------------

  predicate Distinct(xs: seq<string>) {
    forall i, j :: 0 <= i < j < |xs| ==> xs[i] != xs[j]
  }

  lemma {:induction false} SelectedDistinct(ids: seq<string>, crates: Scope)
    requires Distinct(ids)
    ensures Distinct(SelectedIds(ids, crates))
  {
    if ids != [] {
      assert forall i :: 0 <= i < |ids[1..]| ==> ids[1..][i] == ids[i + 1];
      SelectedDistinct(ids[1..], crates);
      var later := SelectedIds(ids[1..], crates);
      forall i | 0 <= i < |later|
        ensures later[i] != ids[0]
      {
        assert later[i] in ids[1..];
      }
    }
  }

  lemma {:induction false} AssignedDistinct(h: Hashes, ids: seq<string>, shard: nat, total: nat)
    requires Distinct(ids) && 1 <= shard <= total
    ensures Distinct(Assigned(h, ids, shard, total))
  {
    if ids != [] {
      assert forall i :: 0 <= i < |ids[1..]| ==> ids[1..][i] == ids[i + 1];
      AssignedDistinct(h, ids[1..], shard, total);
      var later := Assigned(h, ids[1..], shard, total);
      forall i | 0 <= i < |later|
        ensures later[i] != ids[0]
      {
        assert later[i] in ids[1..];
      }
    }
  }
}
