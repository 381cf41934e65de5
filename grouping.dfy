/**
 * The state the `package`/`file` handlers (index.js:116-130) and the deps
 * stream's `write` (index.js:134-144) build: package groups and the
 * dependency maps recorded for grouped files.
 */
module Grouping {
  import opened JsValues
  import opened Rows

  /** `deps[file]`: `true` once grouping flagged the file, its row's dep map
      once that row went through the deps stream. */
  datatype DepEntry = Flagged | Recorded(deps: OMap<Val>)

  /** `modules[name] || []` */
  function GroupOf(m: OMap<seq<FileId>>, name: string): seq<FileId> {
    if name in m.vals then m.vals[name] else []
  }

  /** Every file of every group is a key of `deps`. */
  ghost predicate MembersIn(m: OMap<seq<FileId>>, deps: set<string>) {
    forall n, i :: n in m.vals && 0 <= i < |m.vals[n]| ==> m.vals[n][i] in deps
  }

  /** The `file` event as the pending once-listeners see it, in registration order:
      each appends the file to its package's group. */
  function AddFile(m: OMap<seq<FileId>>, pending: seq<string>, file: FileId): OMap<seq<FileId>>
    decreases |pending|
  {
    if pending == [] then m
    else AddFile(m.Put(pending[0], GroupOf(m, pending[0]) + [file]), pending[1..], file)
  }

  function Count(s: seq<string>, x: string): nat
    decreases |s|
  {
    if s == [] then 0 else (if s[0] == x then 1 else 0) + Count(s[1..], x)
  }

  function Repeat(file: FileId, n: nat): (r: seq<FileId>)
    ensures |r| == n
  {
    if n == 0 then [] else Repeat(file, n - 1) + [file]
  }

  lemma {:induction false} RepeatCons(file: FileId, k: nat)
    ensures [file] + Repeat(file, k) == Repeat(file, k + 1)
  {
    if k > 0 {
      RepeatCons(file, k - 1);
      assert [file] + Repeat(file, k) == [file] + Repeat(file, k - 1) + [file];
    }
  }

  /** A file event appends the file to the group of each pending name, once per
      listener that name registered, and leaves every other group as it was. */
  lemma {:induction false} AddFileGroups(m: OMap<seq<FileId>>, pending: seq<string>, file: FileId, name: string)
    ensures GroupOf(AddFile(m, pending, file), name) == GroupOf(m, name) + Repeat(file, Count(pending, name))
    decreases |pending|
  {
    if pending != [] {
      var m' := m.Put(pending[0], GroupOf(m, pending[0]) + [file]);
      assert AddFile(m, pending, file) == AddFile(m', pending[1..], file);
      AddFileGroups(m', pending[1..], file, name);
      var k := Count(pending[1..], name);
      if pending[0] == name {
        assert GroupOf(m', name) == GroupOf(m, name) + [file];
        RepeatCons(file, k);
        assert GroupOf(m', name) + Repeat(file, k) == GroupOf(m, name) + ([file] + Repeat(file, k));
      } else {
        assert GroupOf(m', name) == GroupOf(m, name);
      }
    }
  }

  /** The dictionary stays well formed; the existing package names keep their
      order and a new name goes after them, and only pending names are added. */
  lemma {:induction false} AddFileShape(m: OMap<seq<FileId>>, pending: seq<string>, file: FileId)
    requires m.Valid()
    ensures AddFile(m, pending, file).Valid()
    ensures |m.keys| <= |AddFile(m, pending, file).keys|
    ensures AddFile(m, pending, file).keys[..|m.keys|] == m.keys
    ensures forall n :: n in AddFile(m, pending, file).vals <==> n in m.vals || n in pending
    decreases |pending|
  {
    if pending != [] {
      var m' := m.Put(pending[0], GroupOf(m, pending[0]) + [file]);
      assert AddFile(m, pending, file) == AddFile(m', pending[1..], file);
      AddFileShape(m', pending[1..], file);
      var r := AddFile(m', pending[1..], file);
      assert r.keys[..|m.keys|] == r.keys[..|m'.keys|][..|m.keys|];
      assert forall n :: n in pending <==> n == pending[0] || n in pending[1..];
    }
  }

  /** One listener's step keeps every group file a key of `deps`. */
  lemma PutMember(m: OMap<seq<FileId>>, name: string, file: FileId, deps: set<string>)
    requires MembersIn(m, deps) && file in deps
    ensures MembersIn(m.Put(name, GroupOf(m, name) + [file]), deps)
  {
  }

  /** The listener at position `i` of the pending list: its step keeps the
      groups well formed and every group file a key of `deps`, and leaves the
      rest of the event to the listeners after it. */
  lemma ListenerStep(m: OMap<seq<FileId>>, pending: seq<string>, i: nat, file: FileId, deps: set<string>)
    requires i < |pending| && m.Valid() && MembersIn(m, deps) && file in deps
    ensures var m' := m.Put(pending[i], GroupOf(m, pending[i]) + [file]);
      && m'.Valid() && MembersIn(m', deps)
      && AddFile(m, pending[i..], file) == AddFile(m', pending[i + 1..], file)
  {
    PutMember(m, pending[i], file, deps);
    PutShape(m, pending[i], GroupOf(m, pending[i]) + [file]);
    assert pending[i..][0] == pending[i] && pending[i..][1..] == pending[i + 1..];
  }

  /** A file event keeps every group file a key of `deps`, the file itself
      being flagged by it. */
  lemma {:induction false} AddFileMembers(m: OMap<seq<FileId>>, pending: seq<string>, file: FileId, deps: set<string>)
    requires MembersIn(m, deps) && file in deps
    ensures MembersIn(AddFile(m, pending, file), deps)
    decreases |pending|
  {
    if pending != [] {
      var m' := m.Put(pending[0], GroupOf(m, pending[0]) + [file]);
      PutMember(m, pending[0], file, deps);
      AddFileMembers(m', pending[1..], file, deps);
    }
  }

  /** The `once('file')` listeners, drained in registration order: each
      appends the file to its package's group and flags the file. */
  method DrainListeners(m: OMap<seq<FileId>>, pending: seq<string>, file: FileId, deps: map<string, DepEntry>)
    returns (m': OMap<seq<FileId>>, deps': map<string, DepEntry>)
    requires m.Valid() && MembersIn(m, deps.Keys)
    ensures m' == AddFile(m, pending, file)
    ensures m'.Valid() && MembersIn(m', deps'.Keys)
    ensures deps' == if pending == [] then deps else deps[file := Flagged]
  {
    // Every listener writes the same flag; it is written once, up front.
    deps' := if pending == [] then deps else deps[file := Flagged];
    m' := m;
    var i := 0;
    while i < |pending|
      invariant 0 <= i <= |pending|
      invariant m'.Valid() && MembersIn(m', deps'.Keys)
      invariant AddFile(m', pending[i..], file) == AddFile(m, pending, file)
    {
      ListenerStep(m', pending, i, file, deps'.Keys);
      m' := m'.Put(pending[i], GroupOf(m', pending[i]) + [file]);
      i := i + 1;
    }
    assert pending[i..] == [];
  }

  /** The deps stream's `write` for one row: only a flagged file has its entry
      replaced, by the row's dep map. */
  function Record(deps: map<string, DepEntry>, row: Row): map<string, DepEntry> {
    if row.file in deps then deps[row.file := Recorded(row.deps)] else deps
  }

  /** The deps stream's `write` over a sequence of rows, in order. */
  function RecordAll(deps: map<string, DepEntry>, rows: seq<Row>): map<string, DepEntry>
    decreases |rows|
  {
    if rows == [] then deps else Record(RecordAll(deps, rows[..|rows| - 1]), rows[|rows| - 1])
  }

  /** The last row of `rows` for `file`, if any. */
  function LastRowFor(rows: seq<Row>, file: string): (r: Option<Row>)
    ensures r.Some? ==> r.value in rows && r.value.file == file
    ensures r.None? ==> forall i :: 0 <= i < |rows| ==> rows[i].file != file
    decreases |rows|
  {
    if rows == [] then None
    else if rows[|rows| - 1].file == file then Some(rows[|rows| - 1])
    else LastRowFor(rows[..|rows| - 1], file)
  }

  /** Recording a stream of rows adds no key to `deps`: a file grouping never
      flagged is never recorded. A flagged file ends up with the dep map of the
      last of its rows, and keeps its entry when no row of its arrives. */
  lemma {:induction false} RecordAllOnlyFlagged(deps: map<string, DepEntry>, rows: seq<Row>)
    ensures RecordAll(deps, rows).Keys == deps.Keys
    ensures forall k :: k in deps ==>
      RecordAll(deps, rows)[k] ==
        (if LastRowFor(rows, k).Some? then Recorded(LastRowFor(rows, k).value.deps) else deps[k])
  {
    if rows != [] {
      RecordAllOnlyFlagged(deps, rows[..|rows| - 1]);
    }
  }
}
