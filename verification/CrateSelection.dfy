/** `ci_pr_crates.py`: the crates a pull request's wave tests. */
module CrateSelection {
  import opened JsonText
  import opened PyText

  const FILES_API_CEILING := 3000

  /** The crate that owns the shared wire vocabulary. */
  const ROOT := "pa-types"

  datatype Row = Row(name: string, previous: string)

  type Graph = map<string, set<string>>

  /** The path is the directory of crate `c`, or lies below it. */
  predicate LiesIn(path: string, c: string) {
    c != "" && '/' !in c && (path == "crates/" + c || "crates/" + c + "/" <= path)
  }

  /** A rename counts both sides. */
  predicate Changes(row: Row, c: string) {
    LiesIn(row.name, c) || LiesIn(row.previous, c)
  }

  predicate InKnownCrate(path: string, deps: Graph) {
    exists c :: c in deps && LiesIn(path, c)
  }

  /** A row from which a selection can be made. */
  predicate Decidable(row: Row, deps: Graph) {
    && row.name != "" && InKnownCrate(row.name, deps)
    && (row.previous != "" ==> InKnownCrate(row.previous, deps))
  }

  /** The change list as a whole can be trusted and mapped. */
  predicate CanSelect(rows: seq<Row>, deps: Graph) {
    rows != [] && |rows| < 3000 && forall i :: 0 <= i < |rows| ==> Decidable(rows[i], deps)
  }

  predicate IsTouched(rows: seq<Row>, c: string) {
    exists i :: 0 <= i < |rows| && Changes(rows[i], c)
  }

  function Touched(rows: seq<Row>, deps: Graph): set<string> {
    set c | c in deps && IsTouched(rows, c)
  }

  /** The second segment of `crates/<pkg>/...`; every other path has none. */
  function CrateOf(path: string): Option<string> {
    var parts := Split(path, '/');
    if |parts| >= 2 && parts[0] == "crates" && parts[1] != "" then Some(parts[1]) else None
  }

  /** The segments name the crate the path lies in. */
  lemma CrateOfLiesIn(path: string, c: string)
    ensures CrateOf(path) == Some(c) <==> LiesIn(path, c)
  {
    if CrateOf(path) == Some(c) {
      JoinSplit(path, '/');
      SegmentsLieIn(Split(path, '/'));
    }
    if LiesIn(path, c) {
      CrateSegments(path, c);
    }
  }

  lemma SegmentsLieIn(parts: seq<string>)
    requires |parts| >= 2 && parts[0] == "crates" && parts[1] != "" && '/' !in parts[1]
    ensures LiesIn(Join(parts, '/'), parts[1])
  {
    var later := parts[1..];
    assert Join(parts, '/') == "crates" + ['/'] + Join(later, '/') == "crates/" + Join(later, '/');
    if |parts| > 2 {
      var rest := Join(later[1..], '/');
      assert "crates/" + (parts[1] + ['/'] + rest) == "crates/" + parts[1] + "/" + rest;
    }
  }

  lemma CrateSegments(path: string, c: string)
    requires LiesIn(path, c)
    ensures CrateOf(path) == Some(c)
  {
    var tail := path[|"crates/"|..];
    assert path == "crates" + ['/'] + tail;
    SplitAfter("crates", tail, '/');
    if tail == c {
      SplitWhole(c, '/');
    } else {
      var rest := path[|"crates/" + c + "/"|..];
      assert path == "crates/" + c + "/" + rest;
      assert tail == c + ['/'] + rest;
      SplitAfter(c, rest, '/');
    }
  }

  // ---------------------------------------------------------------------
  // Transitive dependents
  // ---------------------------------------------------------------------

  /** A chain of dependency edges. */
  predicate IsChain(deps: Graph, p: seq<string>) {
    p != [] && forall i :: 0 <= i < |p| - 1 ==> p[i] in deps && p[i + 1] in deps[p[i]]
  }

  /** `c` is in `s` or depends on a member of `s`, directly or not. */
  ghost predicate Reaches(deps: Graph, c: string, s: set<string>) {
    exists p :: IsChain(deps, p) && p[0] == c && p[|p| - 1] in s
  }

  /** Closed upward: nothing depends on a member from outside. */
  predicate Closed(deps: Graph, s: set<string>) {
    forall c :: c in deps && deps[c] * s != {} ==> c in s
  }

  function Dependents(deps: Graph, s: set<string>): set<string> {
    set c | c in deps && deps[c] * s != {}
  }

  lemma {:induction false} ClosedHoldsChains(deps: Graph, s: set<string>, p: seq<string>)
    requires Closed(deps, s) && IsChain(deps, p) && p[|p| - 1] in s
    ensures p[0] in s
    decreases |p|
  {
    if |p| > 1 {
      assert p[1..][|p| - 2] == p[|p| - 1];
      assert forall i :: 0 <= i < |p[1..]| ==> p[1..][i] == p[i + 1];
      ClosedHoldsChains(deps, s, p[1..]);
      assert p[1] in deps[p[0]] * s;
    }
  }

  lemma ReachesThrough(deps: Graph, c: string, d: string, s: set<string>)
    requires c in deps && d in deps[c] && Reaches(deps, d, s)
    ensures Reaches(deps, c, s)
  {
    var p :| IsChain(deps, p) && p[0] == d && p[|p| - 1] in s;
    var q := [c] + p;
    assert q[|q| - 1] == p[|p| - 1];
    assert forall i :: 0 < i < |q| ==> q[i] == p[i - 1];
    assert IsChain(deps, q);
  }

  lemma ReachesItself(deps: Graph, c: string, s: set<string>)
    requires c in s
    ensures Reaches(deps, c, s)
  {
    assert IsChain(deps, [c]);
  }

  /** The `while True` loop: expand by dependents until nothing changes. */
  method Closure(touched: set<string>, deps: Graph) returns (crates: set<string>)
    requires touched <= deps.Keys
    ensures touched <= crates <= deps.Keys && Closed(deps, crates)
    ensures forall c :: c in crates <==> Reaches(deps, c, touched)
  {
    crates := touched;
    forall c | c in crates
      ensures Reaches(deps, c, touched)
    {
      ReachesItself(deps, c, touched);
    }
    while Dependents(deps, crates) - crates != {}
      invariant touched <= crates <= deps.Keys
      invariant forall c :: c in crates ==> Reaches(deps, c, touched)
      decreases deps.Keys - crates
    {
      var dependents := Dependents(deps, crates);
      forall c | c in dependents
        ensures Reaches(deps, c, touched)
      {
        var d :| d in deps[c] * crates;
        ReachesThrough(deps, c, d, touched);
      }
      crates := crates + dependents;
    }
    assert Closed(deps, crates) by {
      forall c | c in deps && deps[c] * crates != {}
        ensures c in crates
      {
        assert c in Dependents(deps, crates);
        assert c !in crates ==> c in Dependents(deps, crates) - crates;
      }
    }
    forall c | Reaches(deps, c, touched)
      ensures c in crates
    {
      var p :| IsChain(deps, p) && p[0] == c && p[|p| - 1] in touched;
      ClosedHoldsChains(deps, crates, p);
    }
  }

  /** The set of transitive dependents is the least closed superset. */
  lemma LeastClosedSuperset(deps: Graph, touched: set<string>, crates: set<string>, other: set<string>)
    requires forall c :: c in crates <==> Reaches(deps, c, touched)
    requires touched <= other && Closed(deps, other)
    ensures crates <= other
  {
    forall c | c in crates
      ensures c in other
    {
      var p :| IsChain(deps, p) && p[0] == c && p[|p| - 1] in touched;
      ClosedHoldsChains(deps, other, p);
    }
  }

  // ---------------------------------------------------------------------
  // The selection
  // ---------------------------------------------------------------------

  /** What the wave must test: for every changed path, the crate it lies in and
      everything that depends on it; everything for the root crate. */
  ghost predicate MustTest(rows: seq<Row>, deps: Graph, c: string) {
    c in deps && exists d :: IsTouched(rows, d) && (d == "pa-types" || Reaches(deps, c, {d}))
  }

  /** Exactly one crate per path, so every touched crate is known. */
  lemma TouchedAreKnown(rows: seq<Row>, deps: Graph, d: string)
    requires (forall i :: 0 <= i < |rows| ==> Decidable(rows[i], deps)) && IsTouched(rows, d)
    ensures d in Touched(rows, deps)
  {
    var i :| 0 <= i < |rows| && Changes(rows[i], d);
    var path := if LiesIn(rows[i].name, d) then rows[i].name else rows[i].previous;
    var c :| c in deps && LiesIn(path, c);
    CrateOfLiesIn(path, c);
    CrateOfLiesIn(path, d);
  }

  lemma FirstIsTouched(rows: seq<Row>, deps: Graph)
    requires rows != [] && Decidable(rows[0], deps)
    ensures Touched(rows, deps) != {}
  {
    var c :| c in deps && LiesIn(rows[0].name, c);
    assert Changes(rows[0], c);
    assert c in Touched(rows, deps);
  }

  lemma ReachesOne(deps: Graph, c: string, s: set<string>)
    ensures Reaches(deps, c, s) <==> exists d :: d in s && Reaches(deps, c, {d})
  {
    if Reaches(deps, c, s) {
      var p :| IsChain(deps, p) && p[0] == c && p[|p| - 1] in s;
      assert p[|p| - 1] in {p[|p| - 1]};
      assert Reaches(deps, c, {p[|p| - 1]});
    }
    if exists d :: d in s && Reaches(deps, c, {d}) {
      var d :| d in s && Reaches(deps, c, {d});
      var p :| IsChain(deps, p) && p[0] == c && p[|p| - 1] in {d};
    }
  }

  /** What the script chooses from the touched crates is what must be tested. */
  lemma ChosenMustBeTested(rows: seq<Row>, deps: Graph, chosen: set<string>, c: string)
    requires forall i :: 0 <= i < |rows| ==> Decidable(rows[i], deps)
    requires chosen <= deps.Keys
    requires if ROOT in Touched(rows, deps) then chosen == deps.Keys
             else forall c :: c in chosen <==> Reaches(deps, c, Touched(rows, deps))
    ensures c in chosen <==> MustTest(rows, deps, c)
  {
    hide Reaches, Decidable, Changes;
    if ROOT in Touched(rows, deps) {
      assert IsTouched(rows, ROOT);
    } else {
      ReachesOne(deps, c, Touched(rows, deps));
    }
    forall d | IsTouched(rows, d)
      ensures d in Touched(rows, deps)
    {
      TouchedAreKnown(rows, deps, d);
    }
  }

  /** `None` is the full wave. The selection is narrowed exactly when the
      change list is neither empty nor at the ceiling and every path of every
      row, old or new, lies in a known crate; then it is the sorted list of the
      crates the wave must test, among them the crate of every such path. */
  method SelectCrates(rows: seq<Row>, deps: Graph) returns (r: Option<seq<string>>)
    ensures r.Some? <==> CanSelect(rows, deps)
    ensures r.Some? ==> r.value != [] && Sorted(r.value)
    ensures r.Some? ==> forall c :: c in r.value <==> MustTest(rows, deps, c)
    ensures r.Some? ==> forall i, c :: 0 <= i < |rows| && Changes(rows[i], c) ==> c in r.value
  {
    hide Changes, InKnownCrate, Reaches;
    if rows == [] || |rows| >= FILES_API_CEILING {
      return None;
    }
    var crates: set<string> := {};
    for i := 0 to |rows|
      invariant forall k :: 0 <= k < i ==> Decidable(rows[k], deps)
      invariant crates == Touched(rows[..i], deps)
    {
      var ok, sides := MapRow(rows[i], deps);
      if !ok {
        return None;
      }
      TouchedSnoc(rows, i, deps);
      crates := crates + sides;
    }
    assert rows[..|rows|] == rows;
    var chosen := Widen(crates, deps);
    FirstIsTouched(rows, deps);
    var xs := SortedList(chosen);
    assert forall c :: c in xs <==> c in (set x | x in xs);
    NonEmptyTogether(xs, chosen);
    forall c: string
      ensures c in xs <==> MustTest(rows, deps, c)
    {
      ChosenMustBeTested(rows, deps, chosen, c);
    }
    forall i, c | 0 <= i < |rows| && Changes(rows[i], c)
      ensures c in xs
    {
      TouchedAreKnown(rows, deps, c);
    }
    r := Some(xs);
  }

  lemma TouchedSnoc(rows: seq<Row>, i: nat, deps: Graph)
    requires i < |rows|
    ensures Touched(rows[..i + 1], deps) == Touched(rows[..i], deps) + set c | c in deps && Changes(rows[i], c)
  {
    hide Changes;
    forall c: string
      ensures IsTouched(rows[..i + 1], c) <==> IsTouched(rows[..i], c) || Changes(rows[i], c)
    {
      if IsTouched(rows[..i + 1], c) {
        var k :| 0 <= k < i + 1 && Changes(rows[..i + 1][k], c);
        assert k < i ==> Changes(rows[..i][k], c);
      }
      if IsTouched(rows[..i], c) {
        var k :| 0 <= k < i && Changes(rows[..i][k], c);
        assert Changes(rows[..i + 1][k], c);
      }
      assert rows[..i + 1][i] == rows[i];
    }
  }

  /** All crates for the root, otherwise the touched ones and their
      dependents. */
  method Widen(touched: set<string>, deps: Graph) returns (chosen: set<string>)
    requires touched <= deps.Keys
    ensures touched <= chosen <= deps.Keys
    ensures if ROOT in touched then chosen == deps.Keys else forall c :: c in chosen <==> Reaches(deps, c, touched)
  {
    if ROOT in touched {
      return deps.Keys;
    }
    chosen := Closure(touched, deps);
  }

  /** One row: its candidates are mapped in turn, and the first that maps to no
      known crate gives up. */
  method MapRow(row: Row, deps: Graph) returns (ok: bool, crates: set<string>)
    ensures ok <==> Decidable(row, deps)
    ensures ok ==> crates == set c | c in deps && Changes(row, c)
  {
    hide LiesIn;
    crates := {};
    if row.name == "" {
      return false, crates;
    }
    var candidates := [row.name, row.previous];
    for i := 0 to 2
      invariant forall k :: 0 <= k < i && candidates[k] != "" ==> InKnownCrate(candidates[k], deps)
      invariant forall c :: c in crates <==> c in deps && exists k :: 0 <= k < i && LiesIn(candidates[k], c)
    {
      MapPath(candidates[i], deps);
      if candidates[i] != "" {
        var crate := CrateOf(candidates[i]);
        if crate.None? || crate.value !in deps {
          return false, crates;
        }
        crates := crates + {crate.value};
      }
    }
    ok := true;
    assert candidates[0] == row.name && candidates[1] == row.previous;
  }

  lemma MapPath(path: string, deps: Graph)
    ensures InKnownCrate(path, deps) <==> CrateOf(path).Some? && CrateOf(path).value in deps
    ensures forall c :: LiesIn(path, c) <==> CrateOf(path) == Some(c)
    ensures path == "" ==> CrateOf(path).None?
  {
    forall c
      ensures LiesIn(path, c) <==> CrateOf(path) == Some(c)
    {
      CrateOfLiesIn(path, c);
    }
    if path == "" {
      assert Split(path, '/') == [""];
    }
  }

  // ---------------------------------------------------------------------
  // The comma list between the two scripts
  // ---------------------------------------------------------------------

  /** `write_outputs`: empty for the full selection. */
  function Encode(selection: Option<seq<string>>): string {
    if selection.None? then "" else Join(selection.value, ',')
  }

  /** The names in a comma list. */
  function Names(raw: string): set<string> {
    set part | part in Split(raw, ',') && Strip(part) != "" :: Strip(part)
  }

  /** `parse_crates`: no name at all is the full selection. */
  method ParseCrates(raw: Option<string>) returns (r: Option<seq<string>>)
    ensures Decodes(raw, r)
  {
    if raw.None? || Strip(raw.value) == "" {
      BlankHasNoNames(if raw.Some? then raw.value else "");
      return None;
    }
    var xs := SortedList(Names(raw.value));
    NonEmptyTogether(xs, Names(raw.value));
    if xs == [] {
      return None;
    }
    r := Some(xs);
  }

  predicate Decodes(raw: Option<string>, r: Option<seq<string>>) {
    var names := if raw.None? then {} else Names(raw.value);
    if names == {} then r.None? else r.Some? && IsSortedOf(r.value, names)
  }

  lemma {:induction false} BlankSplit(s: string)
    requires Strip(s) == ""
    ensures forall i :: 0 <= i < |s| ==> IsSpace(s[i])
    decreases |s|
  {
    if s != [] {
      if IsSpace(s[0]) {
        BlankSplit(s[1..]);
        assert forall i :: 1 <= i < |s| ==> s[i] == s[1..][i - 1];
      } else {
        BlankSplit(s[..|s| - 1]);
      }
    }
  }

  lemma BlankHasNoNames(s: string)
    requires Strip(s) == ""
    ensures Names(s) == {}
  {
    BlankSplit(s);
    SplitWhole(s, ',');
  }

  /** A name that a comma list can carry. */
  predicate IsPlain(name: string) {
    name != "" && ',' !in name && Strip(name) == name
  }

  /** The impact graph of the workspace. */
  const WORKSPACE_DEPS: Graph := map[
    "pa-types" := {},
    "pa-telemetry" := {},
    "pa-ai" := {"pa-types"},
    "pa-models" := {"pa-ai"},
    "pa-agent" := {"pa-ai", "pa-types"},
    "pa-core" := {"pa-agent", "pa-ai", "pa-models", "pa-types", "pa-telemetry"},
    "pa-daemon" := {"pa-core"},
    "pa-tui" := {"pa-types", "pa-core"},
    "pa-cli" := {"pa-types", "pa-telemetry", "pa-ai", "pa-models", "pa-agent", "pa-core", "pa-daemon", "pa-tui"}]

  /** Every crate name of the workspace can be carried. */
  lemma WorkspaceNamesArePlain(c: string)
    requires c in WORKSPACE_DEPS
    ensures IsPlain(c)
  {
    assert c[0] == 'p' && !IsSpace(c[|c| - 1]);
  }

  /** The selection survives the comma list: what the second script reads is
      what the first wrote, and a narrowed selection never reads back as the
      full one. */
  lemma SelectionSurvives(selection: Option<seq<string>>, read: Option<seq<string>>)
    requires selection.Some? ==>
               selection.value != [] && Sorted(selection.value) && forall c :: c in selection.value ==> IsPlain(c)
    requires Decodes(Some(Encode(selection)), read)
    ensures read == selection
  {
    if selection.None? {
      BlankHasNoNames("");
    } else {
      var xs := selection.value;
      assert forall i :: 0 <= i < |xs| ==> xs[i] in xs;
      SplitJoin(xs, ',');
      var all := set x | x in xs;
      assert Names(Encode(selection)) == all by {
        forall x | x in xs
          ensures x in Names(Encode(selection))
        {
          assert Strip(x) == x;
        }
      }
      assert xs[0] in all;
      SortedListIsUnique(xs, read.value, all);
    }
  }
}
