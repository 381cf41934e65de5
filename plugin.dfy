/**
 * The plugin as Browserify drives it: one object holding the state the
 * handlers of index.js share (the module-level `resolved` and `deduped`,
 * the closure's `modules`, `deps`, `index` and `rows`, and the package names
 * whose `once('file')` listener is still waiting), and one method per event.
 */
module Plugin {
  import opened JsValues
  import opened Options
  import opened Rows
  import opened Grouping
  import opened Resolution
  import opened Propagation

  class Resolutions {
    /** The parsed options. */
    const selector: Selector
    /** Package names whose `once('file')` listener is registered, in registration order. */
    var pending: seq<string>
    /** Package name to the files seen for it, first-seen first. */
    var modules: OMap<seq<FileId>>
    /** Grouped file to its flag or its recorded dep map. */
    var deps: map<string, DepEntry>
    /** The files chosen as the single copy of their package. */
    var resolved: set<string>
    /** Deduped file to the file it is replaced by. */
    var deduped: OMap<Val>
    /** Row id to its position, from the sort stream. */
    var index: map<string, int>
    /** The rows the sort stream buffers. */
    var rows: seq<Row>
    /** Whether the deps stream has ended; its `end` runs once. */
    ghost var depsEnded: bool

    ghost predicate Valid()
      reads this
    {
      && modules.Valid() && deduped.Valid()
      && MembersIn(modules, deps.Keys)
      && (!depsEnded ==> resolved == {} && deduped == Empty())
    }

    /** The exported plugin function (index.js:9-18): parse the options and
        start with empty maps. */
    constructor(options: OptionsArg)
      ensures Valid() && !depsEnded
      ensures selector == ParseOptions(options)
      ensures pending == [] && modules == Empty() && deps == map[]
      ensures resolved == {} && deduped == Empty() && index == map[] && rows == []
    {
      selector := ParseOptions(options);
      pending := [];
      modules := Empty();
      deps := map[];
      resolved := {};
      deduped := Empty();
      index := map[];
      rows := [];
      depsEnded := false;
    }

    /** The `package` handler: a selected package registers a listener for the next file. */
    method OnPackage(name: Val)
      requires Valid()
      modifies this`pending
      ensures Valid()
      ensures pending == old(pending) + (if Selects(selector, name) then [name.s] else [])
    {
      if Selects(selector, name) {
        pending := pending + [name.s];
      }
    }

    /** The `file` event: every waiting listener, in registration order,
        appends the file to its package's group and flags the file. */
    method OnFile(file: FileId)
      requires Valid()
      modifies this`pending, this`modules, this`deps
      ensures Valid()
      ensures pending == []
      ensures modules == AddFile(old(modules), old(pending), file)
      ensures deps == if old(pending) == [] then old(deps) else old(deps)[file := Flagged]
    {
      modules, deps := DrainListeners(modules, pending, file, deps);
      pending := [];
    }

    /** The deps stream's `write`: a flagged file's entry becomes its row's
        dep map; the row goes on unchanged. */
    method OnDepsRow(row: Row) returns (out: Row)
      requires Valid()
      modifies this`deps
      ensures Valid()
      ensures deps == Record(old(deps), row)
      ensures out == row
    {
      if row.file in deps {
        deps := deps[row.file := Recorded(row.deps)];
      }
      out := row;
    }

    /** The deps stream's `end`: the group phase over the package names as
        they stand, then the propagation over the keys `deduped` then has. */
    method OnDepsEnd()
      requires Valid() && !depsEnded
      modifies this`modules, this`resolved, this`deduped, this`depsEnded
      ensures Valid() && depsEnded
      ensures var st := ResolveGroups(Outcome(old(modules), {}, Empty()), old(modules.keys));
        && Ready(st.deduped.keys, deps, st.deduped)
        && modules == st.modules && resolved == st.resolved
        && deduped == Propagate(st.deduped.keys, deps, st.deduped)
    {
      var st := ResolveEach(Outcome(modules, resolved, deduped), modules.keys);
      ResolveGroupsShape(Outcome(modules, resolved, deduped), modules.keys, deps.Keys);
      assert Ready(st.deduped.keys, deps, st.deduped);
      var d := PropagateEach(st.deduped.keys, deps, st.deduped);
      PropagateShape(st.deduped.keys, deps, st.deduped);
      modules, resolved, deduped := st.modules, st.resolved, d;
      depsEnded := true;
    }

    /** The sort stream's `write`: record the row's position under its id and buffer it. */
    method OnSortRow(row: Row)
      requires Valid()
      modifies this`index, this`rows
      ensures Valid()
      ensures index == old(index)[row.id := row.index] && rows == old(rows) + [row]
    {
      index := index[row.id := row.index];
      rows := rows + [row];
    }

    /** The sort stream's `end`: every buffered row, in order, is annotated
        from `deduped`, `resolved` and `index` and pushed on. */
    method OnSortEnd() returns (out: seq<Row>)
      requires Valid()
      modifies this`rows
      ensures Valid()
      ensures |out| == |old(rows)|
      ensures forall i :: 0 <= i < |out| ==> out[i] == Annotate(old(rows)[i], deduped, resolved, index)
      ensures rows == out
    {
      out := [];
      var i := 0;
      while i < |rows|
        invariant 0 <= i <= |rows| && |out| == i
        invariant forall k :: 0 <= k < i ==> out[k] == Annotate(rows[k], deduped, resolved, index)
      {
        var row := rows[i];
        var target := Get(deduped, row.file);
        if Truthy(target) {
          row := row.(dedupe := target, dedupeIndex := Lookup(index, KeyOf(target)));
        } else if row.file in resolved {
          row := row.(dedupe := Undefined, dedupeIndex := None);
        }
        out := out + [row];
        i := i + 1;
      }
      rows := out;
    }

    /** The replacement dedupe stage's handler for one row (index.js:62-87),
        reading the shared `resolved` and `deduped`. */
    method OnDedupeRow(row: Row) returns (out: Row)
      ensures out == CacheRow(row, resolved, deduped)
    {
      out := row;
      var id := ChosenId(row);
      if id.Some? {
        if ReExportEligible(row, resolved, deduped) {
          out := out.(source := ReExport(id.value));
        } else {
          out := out.(source := ApplyWrapper(id.value));
        }
        out := out.(nomap := true);
        if IndexTruthy(row.dedupeIndex) && row.indexDeps.Some? {
          out := out.(indexDeps := Some(row.indexDeps.value["dup" := row.dedupeIndex.value]));
        }
      }
    }
  }

  /** With groups that share no file, the group phase dedupes a non-first
      file of a group to the group's first file and resolves that file; its
      result meets the propagation's precondition. */
  lemma GroupPhaseDedupesToFirst(m: OMap<seq<FileId>>, deps: map<string, DepEntry>, a: nat, j: nat)
    requires m.Valid() && MembersIn(m, deps.Keys) && DisjointGroups(m, m.keys)
    requires a < |m.keys| && 1 <= j < |GroupOf(m, m.keys[a])|
    ensures var st := ResolveGroups(Outcome(m, {}, Empty()), m.keys);
      && Ready(st.deduped.keys, deps, st.deduped)
      && Get(st.deduped, GroupOf(m, m.keys[a])[j]) == Str(GroupOf(m, m.keys[a])[0])
      && GroupOf(m, m.keys[a])[0] in st.resolved
  {
    var st0 := Outcome(m, {}, Empty());
    var st := ResolveGroups(st0, m.keys);
    var g := GroupOf(m, m.keys[a]);
    ResolveGroupsShape(st0, m.keys, deps.Keys);
    assert Ready(st.deduped.keys, deps, st.deduped);
    DisjointGroupTarget(m, m.keys, a, j);
    DedupedToCanonical(st0, m.keys, g[j]);
    ResolvedAreFirsts(st0, m.keys);
    assert g[0] in Firsts(m, m.keys) by {
      assert 0 <= a < |m.keys| && |GroupOf(m, m.keys[a])| >= 2 && GroupOf(m, m.keys[a])[0] == g[0];
    }
  }

  /** End to end: with groups that share no file, a file seen after the first
      file of its package's group ends up deduped to that first file, keeps
      that target through propagation, and its row is rewritten at the
      dedupe stage to refer to it. */
  lemma FirstSeenCopyWins(m: OMap<seq<FileId>>, deps: map<string, DepEntry>, a: nat, j: nat,
                          row: Row, index: map<string, int>)
    requires m.Valid() && MembersIn(m, deps.Keys) && DisjointGroups(m, m.keys)
    requires a < |m.keys| && 1 <= j < |GroupOf(m, m.keys[a])|
    requires row.file == GroupOf(m, m.keys[a])[j]
    ensures var st := ResolveGroups(Outcome(m, {}, Empty()), m.keys);
      && Ready(st.deduped.keys, deps, st.deduped)
      && var d := Propagate(st.deduped.keys, deps, st.deduped);
      && Get(d, row.file) == Str(GroupOf(m, m.keys[a])[0])
      && Annotate(row, d, st.resolved, index).dedupe == Str(GroupOf(m, m.keys[a])[0])
      && CacheRow(Annotate(row, d, st.resolved, index), st.resolved, d).nomap
      && var c := GroupOf(m, m.keys[a])[0];
      && var ref := if IndexTruthy(Lookup(index, c)) then ByIndex(index[c]) else ByDedupe(Str(c));
      && CacheRow(Annotate(row, d, st.resolved, index), st.resolved, d).source in {ReExport(ref), ApplyWrapper(ref)}
  {
    var st := ResolveGroups(Outcome(m, {}, Empty()), m.keys);
    GroupPhaseDedupesToFirst(m, deps, a, j);
    var d := Propagate(st.deduped.keys, deps, st.deduped);
    PropagateKeepsTruthy(st.deduped.keys, deps, st.deduped, row.file);
    DuplicateRowIsRewritten(row, d, st.resolved, index);
  }

  /** A resolved file keeps no `deduped` entry as long as no walked
      duplicate lists it with a truthy counterpart. */
  lemma CanonicalKeptWithoutTruthyProposal(m: OMap<seq<FileId>>, deps: map<string, DepEntry>, c: string)
    requires m.Valid() && MembersIn(m, deps.Keys) && DisjointGroups(m, m.keys)
    requires var st := ResolveGroups(Outcome(m, {}, Empty()), m.keys);
      && c in st.resolved
      && Ready(st.deduped.keys, deps, st.deduped)
      && forall v :: Proposed(st.deduped.keys, deps, st.deduped, c, v) ==> !Truthy(v)
    ensures var st := ResolveGroups(Outcome(m, {}, Empty()), m.keys);
      !Truthy(Get(Propagate(st.deduped.keys, deps, st.deduped), c))
  {
    var st := ResolveGroups(Outcome(m, {}, Empty()), m.keys);
    CanonicalsNotDeduped(m, m.keys, c);
    PropagateExcludedStaysFalsy(st.deduped.keys, deps, st.deduped, c);
  }

  /** The code gives a resolved file no precedence over a duplicate: once a
      walked duplicate offers a resolved file a truthy counterpart, that file
      ends deduped. With `CanonicalKeptWithoutTruthyProposal`, the converse. */
  lemma CanonicalDedupedByTruthyProposal(m: OMap<seq<FileId>>, deps: map<string, DepEntry>, c: string, v: Val)
    requires m.Valid() && MembersIn(m, deps.Keys) && DisjointGroups(m, m.keys)
    requires var st := ResolveGroups(Outcome(m, {}, Empty()), m.keys);
      && c in st.resolved
      && Ready(st.deduped.keys, deps, st.deduped)
      && Proposed(st.deduped.keys, deps, st.deduped, c, v) && Truthy(v)
    ensures var st := ResolveGroups(Outcome(m, {}, Empty()), m.keys);
      Truthy(Get(Propagate(st.deduped.keys, deps, st.deduped), c))
  {
    var st := ResolveGroups(Outcome(m, {}, Empty()), m.keys);
    CanonicalsNotDeduped(m, m.keys, c);
    PropagateDedupesExactly(st.deduped.keys, deps, st.deduped, c);
  }

  /** Two packages `x` and `y`, two copies each. The duplicate copy of `x`
      depends on the resolved copy of `y`, the resolved copy of `x` on the
      duplicate copy of `y`. */
  const ExampleX: seq<FileId> := ["/x1", "/x2"]
  const ExampleY: seq<FileId> := ["/y1", "/y2"]
  const ExampleGroups: OMap<seq<FileId>> := OMap(["x", "y"], map["x" := ExampleX, "y" := ExampleY])
  const ExampleDeps: map<string, DepEntry> := map[
    "/x1" := Recorded(OMap(["y"], map["y" := Str("/y2")])),
    "/x2" := Recorded(OMap(["y"], map["y" := Str("/y1")])),
    "/y1" := Recorded(OMap([], map[])), "/y2" := Recorded(OMap([], map[]))]
  const ExampleDeduped: OMap<Val> := OMap(["/x2", "/y2"], map["/x2" := Str("/x1"), "/y2" := Str("/y1")])

  /** The group phase of the example resolves `/x1` and `/y1` and dedupes
      `/x2` and `/y2` to them. */
  lemma ExampleGroupPhase()
    ensures ResolveGroups(Outcome(ExampleGroups, {}, Empty()), ExampleGroups.keys).resolved == {"/x1", "/y1"}
    ensures ResolveGroups(Outcome(ExampleGroups, {}, Empty()), ExampleGroups.keys).deduped == ExampleDeduped
  {
    var st0 := Outcome(ExampleGroups, {}, Empty());
    var gx, gy := ExampleX, ExampleY;
    assert GroupOf(ExampleGroups, "x") == gx && GroupOf(ExampleGroups, "y") == gy;
    var d1 := DedupeAll(Empty(), gx[1..], gx[0]);
    assert d1 == OMap(["/x2"], map["/x2" := Str("/x1")]) by {
      assert gx[0] == "/x1" && gx[1..] == ["/x2"] && gx[1..][0] == "/x2" && gx[1..][1..] == [];
      assert d1 == DedupeAll(Empty<Val>().Put("/x2", Str("/x1")), [], "/x1");
    }
    var st1 := ResolveGroup(st0, "x");
    assert st1.deduped == d1 && st1.resolved == {"/x1"};
    var d2 := DedupeAll(d1, gy[1..], gy[0]);
    assert d2 == ExampleDeduped by {
      assert gy[0] == "/y1" && gy[1..] == ["/y2"] && gy[1..][0] == "/y2" && gy[1..][1..] == [];
      assert d2 == DedupeAll(d1.Put("/y2", Str("/y1")), [], "/y1");
      assert "/y2" !in d1.keys;
      assert d1.keys + ["/y2"] == ["/x2", "/y2"];
    }
    assert GroupOf(st1.modules, "y") == gy;
    var st2 := ResolveGroup(st1, "y");
    assert st2.deduped == d2 && st2.resolved == {"/x1", "/y1"};
    assert ResolveGroups(st0, ExampleGroups.keys) == ResolveGroups(st2, []) by {
      var names := ExampleGroups.keys;
      assert names[0] == "x" && names[1..] == ["y"] && names[1..][0] == "y" && names[1..][1..] == [];
      assert ResolveGroups(st0, names) == ResolveGroups(st1, names[1..]);
      assert ResolveGroups(st1, names[1..]) == ResolveGroups(st2, []);
    }
  }

  /** Propagation then dedupes the resolved copy `/y1` to its own duplicate
      `/y2`, which stays deduped back to `/y1`. */
  lemma PropagationCanDedupeCanonical()
    ensures Ready(ExampleDeduped.keys, ExampleDeps, ExampleDeduped)
    ensures var d := Propagate(ExampleDeduped.keys, ExampleDeps, ExampleDeduped);
      && Get(d, "/y1") == Str("/y2")
      && Get(d, "/y2") == Str("/y1")
  {
    var dupes := ExampleDeduped.keys;
    var deps, d := ExampleDeps, ExampleDeduped;
    assert dupes == ["/x2", "/y2"];
    assert Ready(dupes, deps, d);
    var dm := OMap(["y"], map["y" := Str("/y1")]);
    assert deps["/x2"] == Recorded(dm);
    var edges := EdgeProposals(dm, dm.keys, deps, Str("/x1"));
    assert CanonDep(deps, Str("/x1"), "y") == Str("/y2");
    assert edges == [("/y1", Str("/y2"))] by {
      assert dm.keys[0] == "y" && dm.keys[1..] == [];
    }
    assert dupes[1..] == ["/y2"] && dupes[1..][1..] == [];
    assert Proposals(dupes[1..], deps, d) == [] + Proposals(dupes[1..][1..], deps, d);
    assert Proposals(dupes, deps, d) == edges + Proposals(dupes[1..], deps, d);
    assert Proposals(dupes, deps, d) == [("/y1", Str("/y2"))];
    assert Apply([("/y1", Str("/y2"))], d) == Apply([], d.Put("/y1", Str("/y2")));
  }
}
