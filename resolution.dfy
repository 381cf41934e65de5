/**
 * The first half of the deps stream's `end` (index.js:145-161): every package
 * group with at least two files gives up its first-seen file as the resolved
 * copy, and every other file of the group is deduped to it.
 */
module Resolution {
  import opened JsValues
  import opened Grouping

  /** The maps the resolution writes: the groups (shifted), `resolved` and `deduped`. */
  datatype Outcome = Outcome(modules: OMap<seq<FileId>>, resolved: set<string>, deduped: OMap<Val>)

  /** `sources.forEach(function(source) { deduped[source] = resolvedSource; })` */
  function DedupeAll(d: OMap<Val>, sources: seq<FileId>, canonical: FileId): OMap<Val>
    decreases |sources|
  {
    if sources == [] then d else DedupeAll(d.Put(sources[0], Str(canonical)), sources[1..], canonical)
  }

  /** The callback for one package name. */
  function ResolveGroup(st: Outcome, name: string): Outcome {
    var sources := GroupOf(st.modules, name);
    if |sources| < 2 then st
    else Outcome(st.modules.Put(name, sources[1..]),
                 st.resolved + {sources[0]},
                 DedupeAll(st.deduped, sources[1..], sources[0]))
  }

  /** `_.each(modules, ...)` over the package names present when it starts. */
  function ResolveGroups(st: Outcome, names: seq<string>): Outcome
    decreases |names|
  {
    if names == [] then st else ResolveGroups(ResolveGroup(st, names[0]), names[1..])
  }

  /** The first-seen file of each named group with at least two files. */
  function Firsts(m: OMap<seq<FileId>>, names: seq<string>): (r: set<string>)
    ensures forall c :: c in r <==>
      exists a :: 0 <= a < |names| && |GroupOf(m, names[a])| >= 2 && GroupOf(m, names[a])[0] == c
    decreases |names|
  {
    if names == [] then {}
    else
      var rest := Firsts(m, names[1..]);
      var g := GroupOf(m, names[0]);
      assert forall c :: c in rest <==>
        exists a :: 1 <= a < |names| && |GroupOf(m, names[a])| >= 2 && GroupOf(m, names[a])[0] == c by {
        forall c | c in rest ensures exists a :: 1 <= a < |names| && |GroupOf(m, names[a])| >= 2 && GroupOf(m, names[a])[0] == c {
          var a :| 0 <= a < |names[1..]| && |GroupOf(m, names[1..][a])| >= 2 && GroupOf(m, names[1..][a])[0] == c;
          assert names[1..][a] == names[a + 1];
        }
        forall c, a | 1 <= a < |names| && |GroupOf(m, names[a])| >= 2 && GroupOf(m, names[a])[0] == c ensures c in rest {
          assert names[1..][a - 1] == names[a];
        }
      }
      if |g| >= 2 then {g[0]} + rest else rest
  }

  /** The file `k` is deduped to by the group phase: the first file of the
      LAST named group that holds `k` after its first position, since a later
      group overwrites what an earlier one wrote. */
  function DupTarget(m: OMap<seq<FileId>>, names: seq<string>, k: string): Option<FileId>
    decreases |names|
  {
    if names == [] then None
    else
      match DupTarget(m, names[1..], k)
      case Some(c) => Some(c)
      case None =>
        var g := GroupOf(m, names[0]);
        if |g| >= 2 && k in g[1..] then Some(g[0]) else None
  }

  lemma {:induction false} DedupeAllGet(d: OMap<Val>, sources: seq<FileId>, canonical: FileId, k: string)
    ensures Get(DedupeAll(d, sources, canonical), k) == if k in sources then Str(canonical) else Get(d, k)
    decreases |sources|
  {
    if sources != [] {
      DedupeAllGet(d.Put(sources[0], Str(canonical)), sources[1..], canonical, k);
    }
  }

  lemma {:induction false} DedupeAllShape(d: OMap<Val>, sources: seq<FileId>, canonical: FileId)
    requires d.Valid()
    ensures DedupeAll(d, sources, canonical).Valid()
    ensures |d.keys| <= |DedupeAll(d, sources, canonical).keys|
    ensures DedupeAll(d, sources, canonical).keys[..|d.keys|] == d.keys
    ensures forall k :: k in DedupeAll(d, sources, canonical).vals <==> k in d.vals || k in sources
    decreases |sources|
  {
    if sources != [] {
      var d' := d.Put(sources[0], Str(canonical));
      PutShape(d, sources[0], Str(canonical));
      DedupeAllShape(d', sources[1..], canonical);
      var r := DedupeAll(d', sources[1..], canonical);
      assert r.keys[..|d.keys|] == r.keys[..|d'.keys|][..|d.keys|];
      assert forall k :: k in sources <==> k == sources[0] || k in sources[1..];
    }
  }

  /** Groups of fewer than two files add nothing; otherwise the first-seen
      file, and only it, enters `resolved`. */
  lemma {:induction false} ResolvedAreFirsts(st: Outcome, names: seq<string>)
    requires Distinct(names)
    ensures ResolveGroups(st, names).resolved == st.resolved + Firsts(st.modules, names)
    decreases |names|
  {
    if names != [] {
      var st' := ResolveGroup(st, names[0]);
      ResolvedAreFirsts(st', names[1..]);
      FirstsFrame(st.modules, st'.modules, names[1..]);
    }
  }

  lemma {:induction false} FirstsFrame(m: OMap<seq<FileId>>, m': OMap<seq<FileId>>, names: seq<string>)
    requires forall n :: n in names ==> GroupOf(m', n) == GroupOf(m, n)
    ensures Firsts(m', names) == Firsts(m, names)
    decreases |names|
  {
    if names != [] {
      FirstsFrame(m, m', names[1..]);
    }
  }

  lemma {:induction false} DupTargetFrame(m: OMap<seq<FileId>>, m': OMap<seq<FileId>>, names: seq<string>, k: string)
    requires forall n :: n in names ==> GroupOf(m', n) == GroupOf(m, n)
    ensures DupTarget(m', names, k) == DupTarget(m, names, k)
    decreases |names|
  {
    if names != [] {
      DupTargetFrame(m, m', names[1..], k);
    }
  }

  /** Every file of a named group after the first is deduped to the first file
      of the last such group that holds it; every other entry of `deduped` is
      left as it was. */
  lemma {:induction false} DedupedToCanonical(st: Outcome, names: seq<string>, k: string)
    requires Distinct(names)
    ensures Get(ResolveGroups(st, names).deduped, k) ==
      match DupTarget(st.modules, names, k)
      case Some(c) => Str(c)
      case None => Get(st.deduped, k)
    decreases |names|
  {
    if names != [] {
      var st' := ResolveGroup(st, names[0]);
      DedupedToCanonical(st', names[1..], k);
      DupTargetFrame(st.modules, st'.modules, names[1..], k);
      var g := GroupOf(st.modules, names[0]);
      if |g| >= 2 {
        DedupeAllGet(st.deduped, g[1..], g[0], k);
      }
    }
  }

  /** With groups that share no file and hold no file twice, a file at
      position `j >= 1` of a group is deduped to that group's first file. */
  lemma {:induction false} DisjointGroupTarget(m: OMap<seq<FileId>>, names: seq<string>, a: nat, j: nat)
    requires DisjointGroups(m, names)
    requires a < |names| && 1 <= j < |GroupOf(m, names[a])|
    ensures DupTarget(m, names, GroupOf(m, names[a])[j]) == Some(GroupOf(m, names[a])[0])
    decreases |names|
  {
    var k := GroupOf(m, names[a])[j];
    if a == 0 {
      NotInLaterGroups(m, names, j);
    } else {
      assert names[1..][a - 1] == names[a];
      DisjointGroupsTail(m, names);
      DisjointGroupTarget(m, names[1..], a - 1, j);
    }
  }

  /** No file is in two named groups, nor twice in one. */
  ghost predicate DisjointGroups(m: OMap<seq<FileId>>, names: seq<string>) {
    forall a, b, i, j ::
      0 <= a < |names| && 0 <= b < |names| &&
      0 <= i < |GroupOf(m, names[a])| && 0 <= j < |GroupOf(m, names[b])| &&
      (a != b || i != j) ==>
      GroupOf(m, names[a])[i] != GroupOf(m, names[b])[j]
  }

  lemma DisjointGroupsTail(m: OMap<seq<FileId>>, names: seq<string>)
    requires names != [] && DisjointGroups(m, names)
    ensures DisjointGroups(m, names[1..])
  {
    forall a, b, i, j |
      0 <= a < |names[1..]| && 0 <= b < |names[1..]| &&
      0 <= i < |GroupOf(m, names[1..][a])| && 0 <= j < |GroupOf(m, names[1..][b])| &&
      (a != b || i != j)
      ensures GroupOf(m, names[1..][a])[i] != GroupOf(m, names[1..][b])[j]
    {
      assert names[1..][a] == names[a + 1] && names[1..][b] == names[b + 1];
    }
  }

  /** The `j`-th file of the first group is in no later group. */
  lemma {:induction false} NotInLaterGroups(m: OMap<seq<FileId>>, names: seq<string>, j: nat)
    requires names != [] && DisjointGroups(m, names) && 1 <= j < |GroupOf(m, names[0])|
    ensures DupTarget(m, names[1..], GroupOf(m, names[0])[j]) == None
  {
    var k := GroupOf(m, names[0])[j];
    NoneWhenAbsent(m, names[1..], k);
  }

  lemma {:induction false} NoneWhenAbsent(m: OMap<seq<FileId>>, names: seq<string>, k: string)
    requires forall b, i :: 0 <= b < |names| && 0 <= i < |GroupOf(m, names[b])| ==> GroupOf(m, names[b])[i] != k
    ensures DupTarget(m, names, k) == None
    decreases |names|
  {
    if names != [] {
      assert forall b :: 0 <= b < |names[1..]| ==> names[1..][b] == names[b + 1];
      NoneWhenAbsent(m, names[1..], k);
    }
  }

  /** A target found by `DupTarget` comes from a group that holds `k` after its first file. */
  lemma {:induction false} DupTargetWitness(m: OMap<seq<FileId>>, names: seq<string>, k: string)
    requires DupTarget(m, names, k).Some?
    ensures exists b, i ::
      && 0 <= b < |names| && 1 <= i < |GroupOf(m, names[b])|
      && GroupOf(m, names[b])[i] == k && DupTarget(m, names, k).value == GroupOf(m, names[b])[0]
    decreases |names|
  {
    var g := GroupOf(m, names[0]);
    if DupTarget(m, names[1..], k).Some? {
      DupTargetWitness(m, names[1..], k);
      var b, i :| 0 <= b < |names[1..]| && 1 <= i < |GroupOf(m, names[1..][b])| &&
        GroupOf(m, names[1..][b])[i] == k && DupTarget(m, names[1..], k).value == GroupOf(m, names[1..][b])[0];
      assert names[1..][b] == names[b + 1];
    } else {
      var i :| 0 <= i < |g[1..]| && g[1..][i] == k;
      assert g[i + 1] == k;
    }
  }

  /** After the group phase, started from empty maps over distinct package
      names, every truthy `deduped` entry names a resolved file. */
  lemma TargetsAreResolved(m: OMap<seq<FileId>>, names: seq<string>, k: string)
    requires Distinct(names)
    ensures var r := ResolveGroups(Outcome(m, {}, Empty()), names);
      Truthy(Get(r.deduped, k)) ==> KeyOf(Get(r.deduped, k)) in r.resolved
  {
    var st := Outcome(m, {}, Empty());
    DedupedToCanonical(st, names, k);
    ResolvedAreFirsts(st, names);
    if DupTarget(m, names, k).Some? {
      DupTargetWitness(m, names, k);
    }
  }

  /** With disjoint groups, started from empty maps, the group phase never
      dedupes a resolved file: a dedupe chain stops after one step. */
  lemma CanonicalsNotDeduped(m: OMap<seq<FileId>>, names: seq<string>, c: string)
    requires Distinct(names) && DisjointGroups(m, names)
    ensures var r := ResolveGroups(Outcome(m, {}, Empty()), names);
      c in r.resolved ==> Get(r.deduped, c) == Undefined
  {
    var st := Outcome(m, {}, Empty());
    DedupedToCanonical(st, names, c);
    ResolvedAreFirsts(st, names);
    if c in ResolveGroups(st, names).resolved && DupTarget(m, names, c).Some? {
      DupTargetWitness(m, names, c);
    }
  }

  /** Every entry of `d` is a truthy file name that is a key of `deps`. */
  ghost predicate TargetsIn(d: OMap<Val>, deps: set<string>) {
    forall k :: k in d.vals ==> Truthy(d.vals[k]) && d.vals[k].s in deps
  }

  /** The group phase keeps the dictionaries well formed, every group file a
      key of `deps`, and every `deduped` entry a truthy file that is a key of
      `deps`. */
  lemma {:induction false} ResolveGroupsShape(st: Outcome, names: seq<string>, deps: set<string>)
    requires st.modules.Valid() && st.deduped.Valid()
    requires MembersIn(st.modules, deps) && TargetsIn(st.deduped, deps)
    ensures var r := ResolveGroups(st, names);
      r.modules.Valid() && r.deduped.Valid() && MembersIn(r.modules, deps) && TargetsIn(r.deduped, deps)
    decreases |names|
  {
    if names != [] {
      var st' := ResolveGroup(st, names[0]);
      var g := GroupOf(st.modules, names[0]);
      if |g| >= 2 {
        assert g[0] in deps;
        PutShape(st.modules, names[0], g[1..]);
        DedupeAllShape(st.deduped, g[1..], g[0]);
        forall k | k in st'.deduped.vals ensures Truthy(st'.deduped.vals[k]) && st'.deduped.vals[k].s in deps {
          DedupeAllGet(st.deduped, g[1..], g[0], k);
        }
        assert MembersIn(st'.modules, deps);
      }
      ResolveGroupsShape(st', names[1..], deps);
    }
  }

  // ---- the loops of index.js:146-161 ----

  /** `sources.forEach(...)`, one write per file. */
  method DedupeEach(d: OMap<Val>, sources: seq<FileId>, canonical: FileId) returns (r: OMap<Val>)
    ensures r == DedupeAll(d, sources, canonical)
  {
    r := d;
    var j := 0;
    while j < |sources|
      invariant 0 <= j <= |sources|
      invariant DedupeAll(r, sources[j..], canonical) == DedupeAll(d, sources, canonical)
    {
      assert sources[j..][0] == sources[j] && sources[j..][1..] == sources[j + 1..];
      r := r.Put(sources[j], Str(canonical));
      j := j + 1;
    }
    assert sources[j..] == [];
  }

  /** `_.each(modules, ...)` over the snapshot `names` of the package names. */
  method ResolveEach(st: Outcome, names: seq<string>) returns (r: Outcome)
    ensures r == ResolveGroups(st, names)
  {
    r := st;
    var i := 0;
    while i < |names|
      invariant 0 <= i <= |names|
      invariant ResolveGroups(r, names[i..]) == ResolveGroups(st, names)
    {
      var name := names[i];
      ghost var cur := r;
      var sources := GroupOf(r.modules, name);
      if |sources| >= 2 {
        var canonical := sources[0];
        var d := DedupeEach(r.deduped, sources[1..], canonical);
        r := Outcome(r.modules.Put(name, sources[1..]), r.resolved + {canonical}, d);
      }
      assert r == ResolveGroup(cur, name);
      assert names[i..][0] == name && names[i..][1..] == names[i + 1..];
      i := i + 1;
    }
    assert names[i..] == [];
  }
}
