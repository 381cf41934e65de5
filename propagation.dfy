/**
 * The second half of the deps stream's `end` (index.js:163-176): each
 * duplicate's recorded dependencies are deduped, one level deep, to the
 * canonical file's dependency under the same specifier, without overwriting
 * a truthy entry.
 *
 * The loop in the source writes `deduped` while it walks it; the reference
 * definition here first lists every write the loop may attempt (a
 * "proposal": the key it would write and the value) and then applies them
 * in order under the no-overwrite rule.
 */
module Propagation {
  import opened JsValues
  import opened Grouping

  /** `deps[resolved][id]`: a canonical file still flagged reads `true[id]`, `undefined`. */
  function CanonDep(deps: map<string, DepEntry>, canonical: Val, id: string): Val
    requires KeyOf(canonical) in deps
  {
    match deps[KeyOf(canonical)]
    case Flagged => Undefined
    case Recorded(m) => Get(m, id)
  }

  /** The loop runs without a `TypeError`: each key it walks holds a truthy
      file name whose `deps` entry exists. */
  ghost predicate Ready(dupes: seq<string>, deps: map<string, DepEntry>, d: OMap<Val>) {
    forall k :: k in dupes ==> Truthy(Get(d, k)) && KeyOf(Get(d, k)) in deps
  }

  /** The writes `_.each(deps[dupe], ...)` attempts for the specifiers `ids`. */
  function EdgeProposals(m: OMap<Val>, ids: seq<string>, deps: map<string, DepEntry>, canonical: Val): seq<(string, Val)>
    requires KeyOf(canonical) in deps
    decreases |ids|
  {
    if ids == [] then []
    else [(KeyOf(Get(m, ids[0])), CanonDep(deps, canonical, ids[0]))] + EdgeProposals(m, ids[1..], deps, canonical)
  }

  /** The writes the outer loop attempts for one duplicate: none unless its
      canonical is truthy and its dep map was recorded. */
  function DupeProposals(dupe: string, deps: map<string, DepEntry>, d: OMap<Val>): seq<(string, Val)>
    requires Ready([dupe], deps, d)
  {
    var canonical := Get(d, dupe);
    if Truthy(canonical) && dupe in deps && deps[dupe].Recorded?
    then EdgeProposals(deps[dupe].deps, deps[dupe].deps.keys, deps, canonical)
    else []
  }

  /** The writes the outer loop attempts, duplicate by duplicate. */
  function Proposals(dupes: seq<string>, deps: map<string, DepEntry>, d: OMap<Val>): seq<(string, Val)>
    requires Ready(dupes, deps, d)
    decreases |dupes|
  {
    if dupes == [] then []
    else
      assert dupes[0] in dupes;
      DupeProposals(dupes[0], deps, d) + Proposals(dupes[1..], deps, d)
  }

  /** One attempted write, `if (!deduped[file]) deduped[file] = v`. */
  function Step(d: OMap<Val>, p: (string, Val)): OMap<Val> {
    if Truthy(Get(d, p.0)) then d else d.Put(p.0, p.1)
  }

  /** Attempt each write in order. */
  function Apply(ps: seq<(string, Val)>, d: OMap<Val>): OMap<Val>
    decreases |ps|
  {
    if ps == [] then d else Apply(ps[1..], Step(d, ps[0]))
  }

  /** The propagation over the snapshot `dupes` of `deduped`'s keys. */
  function Propagate(dupes: seq<string>, deps: map<string, DepEntry>, d: OMap<Val>): OMap<Val>
    requires Ready(dupes, deps, d)
  {
    Apply(Proposals(dupes, deps, d), d)
  }

  /** `(k, v)` is a write of the propagation: `k` is the target of a recorded
      dependency `id` of a walked duplicate, `v` the canonical's dependency
      under the same `id`. */
  ghost predicate Proposed(dupes: seq<string>, deps: map<string, DepEntry>, d: OMap<Val>, k: string, v: Val)
    requires Ready(dupes, deps, d)
  {
    exists a, id :: 0 <= a < |dupes| && dupes[a] in deps && deps[dupes[a]].Recorded? &&
      id in deps[dupes[a]].deps.keys &&
      KeyOf(Get(deps[dupes[a]].deps, id)) == k &&
      v == CanonDep(deps, Get(d, dupes[a]), id)
  }

  // ---- properties of Apply ----

  lemma {:induction false} ApplyAppend(a: seq<(string, Val)>, b: seq<(string, Val)>, d: OMap<Val>)
    ensures Apply(a + b, d) == Apply(b, Apply(a, d))
    decreases |a|
  {
    if a != [] {
      var d' := Step(d, a[0]);
      assert (a + b)[0] == a[0] && (a + b)[1..] == a[1..] + b;
      assert Apply(a + b, d) == Apply(a[1..] + b, d');
      ApplyAppend(a[1..], b, d');
    } else {
      assert a + b == b;
    }
  }

  lemma ApplyCons(p: (string, Val), ps: seq<(string, Val)>, d: OMap<Val>)
    ensures Apply([p] + ps, d) == Apply(ps, Step(d, p))
  {
    assert ([p] + ps)[0] == p && ([p] + ps)[1..] == ps;
  }

  /** No truthy entry is ever overwritten. */
  lemma {:induction false} ApplyKeepsTruthy(ps: seq<(string, Val)>, d: OMap<Val>, k: string)
    requires Truthy(Get(d, k))
    ensures Get(Apply(ps, d), k) == Get(d, k)
    decreases |ps|
  {
    if ps != [] {
      ApplyKeepsTruthy(ps[1..], Step(d, ps[0]), k);
    }
  }

  /** An entry changes only to the value of a write aimed at it. */
  lemma {:induction false} ApplyOnlyProposed(ps: seq<(string, Val)>, d: OMap<Val>, k: string)
    ensures Get(Apply(ps, d), k) != Get(d, k) ==> exists i :: 0 <= i < |ps| && ps[i] == (k, Get(Apply(ps, d), k))
    decreases |ps|
  {
    if ps != [] {
      var d' := Step(d, ps[0]);
      ApplyOnlyProposed(ps[1..], d', k);
      if Get(Apply(ps, d), k) != Get(d', k) {
        var i :| 0 <= i < |ps[1..]| && ps[1..][i] == (k, Get(Apply(ps, d), k));
        assert ps[i + 1] == ps[1..][i];
      } else if Get(Apply(ps, d), k) != Get(d, k) {
        assert ps[0] == (k, Get(Apply(ps, d), k));
      }
    }
  }

  /** An entry that is falsy at the start takes the value of the first truthy
      write aimed at it. */
  lemma {:induction false} ApplyFirstTruthyWins(ps: seq<(string, Val)>, d: OMap<Val>, k: string, i: nat)
    requires !Truthy(Get(d, k))
    requires i < |ps| && ps[i].0 == k && Truthy(ps[i].1)
    requires forall j :: 0 <= j < i && ps[j].0 == k ==> !Truthy(ps[j].1)
    ensures Get(Apply(ps, d), k) == ps[i].1
    decreases |ps|
  {
    var d' := Step(d, ps[0]);
    if i == 0 {
      ApplyKeepsTruthy(ps[1..], d', k);
    } else {
      assert ps[0].0 == k ==> !Truthy(ps[0].1);
      ApplyFirstTruthyWins(ps[1..], d', k, i - 1);
    }
  }

  /** An entry that some truthy write is aimed at ends truthy. */
  lemma {:induction false} ApplyTruthyProposalWins(ps: seq<(string, Val)>, d: OMap<Val>, k: string, i: nat)
    requires i < |ps| && ps[i].0 == k && Truthy(ps[i].1)
    ensures Truthy(Get(Apply(ps, d), k))
    decreases |ps|
  {
    if i == 0 {
      assert Truthy(Get(Step(d, ps[0]), k));
      ApplyKeepsTruthy(ps[1..], Step(d, ps[0]), k);
    } else {
      ApplyTruthyProposalWins(ps[1..], Step(d, ps[0]), k, i - 1);
    }
  }

  /** An entry that is falsy at the start and only has falsy writes aimed at
      it stays falsy: it reads as "not deduped" downstream. */
  lemma {:induction false} ApplyFalsyStaysFalsy(ps: seq<(string, Val)>, d: OMap<Val>, k: string)
    requires !Truthy(Get(d, k))
    requires forall j :: 0 <= j < |ps| && ps[j].0 == k ==> !Truthy(ps[j].1)
    ensures !Truthy(Get(Apply(ps, d), k))
    decreases |ps|
  {
    if ps != [] {
      var d' := Step(d, ps[0]);
      assert forall j :: 0 <= j < |ps[1..]| ==> ps[1..][j] == ps[j + 1];
      ApplyFalsyStaysFalsy(ps[1..], d', k);
    }
  }

  /** The dictionary stays well formed and its existing keys keep their order. */
  lemma {:induction false} ApplyShape(ps: seq<(string, Val)>, d: OMap<Val>)
    requires d.Valid()
    ensures Apply(ps, d).Valid()
    ensures |d.keys| <= |Apply(ps, d).keys| && Apply(ps, d).keys[..|d.keys|] == d.keys
    decreases |ps|
  {
    if ps != [] {
      var d' := Step(d, ps[0]);
      PutShape(d, ps[0].0, ps[0].1);
      ApplyShape(ps[1..], d');
      assert Apply(ps, d).keys[..|d.keys|] == Apply(ps, d).keys[..|d'.keys|][..|d.keys|];
    }
  }

  // ---- what the proposals are ----

  lemma {:induction false} EdgeProposalsShape(m: OMap<Val>, ids: seq<string>, deps: map<string, DepEntry>, canonical: Val, i: nat)
    requires KeyOf(canonical) in deps
    requires i < |EdgeProposals(m, ids, deps, canonical)|
    ensures |EdgeProposals(m, ids, deps, canonical)| == |ids|
    ensures EdgeProposals(m, ids, deps, canonical)[i] == (KeyOf(Get(m, ids[i])), CanonDep(deps, canonical, ids[i]))
    decreases |ids|
  {
    if i > 0 {
      EdgeProposalsShape(m, ids[1..], deps, canonical, i - 1);
    }
    EdgeProposalsLength(m, ids, deps, canonical);
  }

  lemma {:induction false} EdgeProposalsLength(m: OMap<Val>, ids: seq<string>, deps: map<string, DepEntry>, canonical: Val)
    requires KeyOf(canonical) in deps
    ensures |EdgeProposals(m, ids, deps, canonical)| == |ids|
    decreases |ids|
  {
    if ids != [] {
      EdgeProposalsLength(m, ids[1..], deps, canonical);
    }
  }

  /** The proposals from position `a` on are those of the duplicate at `a`
      followed by those after it. */
  lemma ProposalsAt(dupes: seq<string>, deps: map<string, DepEntry>, d: OMap<Val>, a: nat)
    requires Ready(dupes, deps, d) && a < |dupes|
    ensures Ready(dupes[a..], deps, d) && Ready([dupes[a]], deps, d) && Ready(dupes[a + 1..], deps, d)
    ensures Proposals(dupes[a..], deps, d) == DupeProposals(dupes[a], deps, d) + Proposals(dupes[a + 1..], deps, d)
  {
    assert dupes[a..][0] == dupes[a] && dupes[a..][1..] == dupes[a + 1..];
  }

  /** Every write the propagation attempts is a `Proposed` one. */
  lemma {:induction false} ProposalsAreProposed(dupes: seq<string>, deps: map<string, DepEntry>, d: OMap<Val>, i: nat)
    requires Ready(dupes, deps, d) && i < |Proposals(dupes, deps, d)|
    ensures Proposed(dupes, deps, d, Proposals(dupes, deps, d)[i].0, Proposals(dupes, deps, d)[i].1)
    decreases |dupes|
  {
    var ps := Proposals(dupes, deps, d);
    var canonical := Get(d, dupes[0]);
    ProposalsAt(dupes, deps, d, 0);
    assert dupes[0..] == dupes;
    var head := DupeProposals(dupes[0], deps, d);
    var tail := Proposals(dupes[1..], deps, d);
    assert ps == head + tail;
    if i < |head| {
      var m := deps[dupes[0]].deps;
      EdgeProposalsShape(m, m.keys, deps, canonical, i);
      assert ps[i] == (KeyOf(Get(m, m.keys[i])), CanonDep(deps, Get(d, dupes[0]), m.keys[i]));
      assert m.keys[i] in m.keys;
    } else {
      ProposalsAreProposed(dupes[1..], deps, d, i - |head|);
      assert ps[i] == tail[i - |head|];
      var a, id :| 0 <= a < |dupes[1..]| && dupes[1..][a] in deps && deps[dupes[1..][a]].Recorded? &&
        id in deps[dupes[1..][a]].deps.keys &&
        KeyOf(Get(deps[dupes[1..][a]].deps, id)) == ps[i].0 &&
        ps[i].1 == CanonDep(deps, Get(d, dupes[1..][a]), id);
      assert dupes[1..][a] == dupes[a + 1];
    }
  }

  /** The write a walked duplicate's recorded dependency `id` gives rise to
      is one the propagation attempts. */
  lemma {:induction false} DupeProposalListed(dupes: seq<string>, deps: map<string, DepEntry>, d: OMap<Val>, a: nat, id: string)
    requires Ready(dupes, deps, d) && a < |dupes|
    requires dupes[a] in deps && deps[dupes[a]].Recorded? && id in deps[dupes[a]].deps.keys
    ensures exists i :: (0 <= i < |Proposals(dupes, deps, d)| &&
      Proposals(dupes, deps, d)[i] == (KeyOf(Get(deps[dupes[a]].deps, id)), CanonDep(deps, Get(d, dupes[a]), id)))
    decreases |dupes|
  {
    ProposalsAt(dupes, deps, d, 0);
    assert dupes[0..] == dupes;
    var head := DupeProposals(dupes[0], deps, d);
    var tail := Proposals(dupes[1..], deps, d);
    assert Proposals(dupes, deps, d) == head + tail;
    if a == 0 {
      assert dupes[0] in dupes;
      var m := deps[dupes[0]].deps;
      var j :| 0 <= j < |m.keys| && m.keys[j] == id;
      EdgeProposalsLength(m, m.keys, deps, Get(d, dupes[0]));
      EdgeProposalsShape(m, m.keys, deps, Get(d, dupes[0]), j);
      assert (head + tail)[j] == head[j];
    } else {
      assert dupes[1..][a - 1] == dupes[a];
      DupeProposalListed(dupes[1..], deps, d, a - 1, id);
      var i' :| 0 <= i' < |tail| &&
        tail[i'] == (KeyOf(Get(deps[dupes[a]].deps, id)), CanonDep(deps, Get(d, dupes[a]), id));
      assert (head + tail)[|head| + i'] == tail[i'];
    }
  }

  /** Every `Proposed` write is one the propagation attempts: with
      `ProposalsAreProposed`, the two descriptions of the writes agree. */
  lemma ProposedIsProposal(dupes: seq<string>, deps: map<string, DepEntry>, d: OMap<Val>, k: string, v: Val)
    requires Ready(dupes, deps, d) && Proposed(dupes, deps, d, k, v)
    ensures exists i :: 0 <= i < |Proposals(dupes, deps, d)| && Proposals(dupes, deps, d)[i] == (k, v)
  {
    var a, id :| 0 <= a < |dupes| && dupes[a] in deps && deps[dupes[a]].Recorded? &&
      id in deps[dupes[a]].deps.keys &&
      KeyOf(Get(deps[dupes[a]].deps, id)) == k &&
      v == CanonDep(deps, Get(d, dupes[a]), id);
    DupeProposalListed(dupes, deps, d, a, id);
  }

  // ---- the properties of the propagation ----

  /** Propagation never overwrites a truthy `deduped` entry (index.js:171). */
  lemma PropagateKeepsTruthy(dupes: seq<string>, deps: map<string, DepEntry>, d: OMap<Val>, k: string)
    requires Ready(dupes, deps, d) && Truthy(Get(d, k))
    ensures Get(Propagate(dupes, deps, d), k) == Get(d, k)
  {
    ApplyKeepsTruthy(Proposals(dupes, deps, d), d, k);
  }

  /** Propagation changes only files listed in a walked duplicate's recorded
      dependencies, and sets each to the canonical's dependency under the same
      specifier (index.js:168-173). */
  lemma PropagateOnlyDependencies(dupes: seq<string>, deps: map<string, DepEntry>, d: OMap<Val>, k: string)
    requires Ready(dupes, deps, d)
    ensures Get(Propagate(dupes, deps, d), k) != Get(d, k) ==>
      Proposed(dupes, deps, d, k, Get(Propagate(dupes, deps, d), k))
  {
    var ps := Proposals(dupes, deps, d);
    ApplyOnlyProposed(ps, d, k);
    if Get(Apply(ps, d), k) != Get(d, k) {
      var i :| 0 <= i < |ps| && ps[i] == (k, Get(Apply(ps, d), k));
      ProposalsAreProposed(dupes, deps, d, i);
    }
  }

  /** A file whose entry is falsy and that only canonical dependencies that are
      falsy (for instance an excluded dependency, `false`) are proposed for
      stays falsy. */
  lemma PropagateExcludedStaysFalsy(dupes: seq<string>, deps: map<string, DepEntry>, d: OMap<Val>, k: string)
    requires Ready(dupes, deps, d) && !Truthy(Get(d, k))
    requires forall v :: Proposed(dupes, deps, d, k, v) ==> !Truthy(v)
    ensures !Truthy(Get(Propagate(dupes, deps, d), k))
  {
    var ps := Proposals(dupes, deps, d);
    forall j | 0 <= j < |ps| && ps[j].0 == k ensures !Truthy(ps[j].1) {
      ProposalsAreProposed(dupes, deps, d, j);
    }
    ApplyFalsyStaysFalsy(ps, d, k);
  }

  /** The first truthy write for a falsy entry wins. */
  lemma PropagateFirstTruthyWins(dupes: seq<string>, deps: map<string, DepEntry>, d: OMap<Val>, k: string, i: nat)
    requires Ready(dupes, deps, d) && !Truthy(Get(d, k))
    requires var ps := Proposals(dupes, deps, d);
      i < |ps| && ps[i].0 == k && Truthy(ps[i].1) &&
      forall j :: 0 <= j < i && ps[j].0 == k ==> !Truthy(ps[j].1)
    ensures Get(Propagate(dupes, deps, d), k) == Proposals(dupes, deps, d)[i].1
  {
    ApplyFirstTruthyWins(Proposals(dupes, deps, d), d, k, i);
  }

  /** An entry that a truthy write of the propagation is aimed at ends truthy. */
  lemma PropagateTruthyProposalWins(dupes: seq<string>, deps: map<string, DepEntry>, d: OMap<Val>, k: string, i: nat)
    requires Ready(dupes, deps, d)
    requires var ps := Proposals(dupes, deps, d); i < |ps| && ps[i].0 == k && Truthy(ps[i].1)
    ensures Truthy(Get(Propagate(dupes, deps, d), k))
  {
    ApplyTruthyProposalWins(Proposals(dupes, deps, d), d, k, i);
  }

  /** A falsy entry ends deduped exactly when some walked duplicate offers a
      truthy counterpart for it. */
  lemma PropagateDedupesExactly(dupes: seq<string>, deps: map<string, DepEntry>, d: OMap<Val>, k: string)
    requires Ready(dupes, deps, d) && !Truthy(Get(d, k))
    ensures Truthy(Get(Propagate(dupes, deps, d), k)) <==> exists v :: Proposed(dupes, deps, d, k, v) && Truthy(v)
  {
    if exists v :: Proposed(dupes, deps, d, k, v) && Truthy(v) {
      var v :| Proposed(dupes, deps, d, k, v) && Truthy(v);
      ProposedIsProposal(dupes, deps, d, k, v);
      var i :| 0 <= i < |Proposals(dupes, deps, d)| && Proposals(dupes, deps, d)[i] == (k, v);
      PropagateTruthyProposalWins(dupes, deps, d, k, i);
    } else {
      PropagateExcludedStaysFalsy(dupes, deps, d, k);
    }
  }

  /** Propagation keeps `deduped` well formed; existing keys keep their order
      and new keys follow them in the order they were first written. */
  lemma PropagateShape(dupes: seq<string>, deps: map<string, DepEntry>, d: OMap<Val>)
    requires Ready(dupes, deps, d) && d.Valid()
    ensures Propagate(dupes, deps, d).Valid()
    ensures |d.keys| <= |Propagate(dupes, deps, d).keys|
    ensures Propagate(dupes, deps, d).keys[..|d.keys|] == d.keys
  {
    ApplyShape(Proposals(dupes, deps, d), d);
  }

  // ---- the loops of index.js:166-176 ----

  /** `_.each(deps[dupe], ...)` for a duplicate whose canonical file is `canonical`. */
  method ApplyEdges(d: OMap<Val>, dm: OMap<Val>, deps: map<string, DepEntry>, canonical: Val) returns (r: OMap<Val>)
    requires KeyOf(canonical) in deps
    ensures r == Apply(EdgeProposals(dm, dm.keys, deps, canonical), d)
  {
    r := d;
    var ids := dm.keys;
    var j := 0;
    assert ids[0..] == ids;
    while j < |ids|
      invariant 0 <= j <= |ids|
      invariant Apply(EdgeProposals(dm, ids[j..], deps, canonical), r) == Apply(EdgeProposals(dm, ids, deps, canonical), d)
    {
      var file := Get(dm, ids[j]);
      assert ids[j..][0] == ids[j] && ids[j..][1..] == ids[j + 1..];
      ApplyCons((KeyOf(file), CanonDep(deps, canonical, ids[j])), EdgeProposals(dm, ids[j + 1..], deps, canonical), r);
      if !Truthy(Get(r, KeyOf(file))) {
        r := r.Put(KeyOf(file), CanonDep(deps, canonical, ids[j]));
      }
      j := j + 1;
    }
    assert ids[j..] == [];
  }

  /** `_.each(deduped, ...)` over the snapshot `dupes` of its keys; each
      canonical is read from the live dictionary. */
  method PropagateEach(dupes: seq<string>, deps: map<string, DepEntry>, d: OMap<Val>) returns (r: OMap<Val>)
    requires Ready(dupes, deps, d)
    ensures r == Propagate(dupes, deps, d)
  {
    r := d;
    var a := 0;
    assert dupes[0..] == dupes;
    while a < |dupes|
      invariant 0 <= a <= |dupes|
      invariant forall k :: k in dupes ==> Get(r, k) == Get(d, k)
      invariant Ready(dupes[a..], deps, d)
      invariant Apply(Proposals(dupes[a..], deps, d), r) == Propagate(dupes, deps, d)
    {
      var dupe := dupes[a];
      var canonical := Get(r, dupe);
      ProposalsAt(dupes, deps, d, a);
      ghost var rest := Proposals(dupes[a + 1..], deps, d);
      ghost var mine := DupeProposals(dupe, deps, d);
      assert dupe in dupes && canonical == Get(d, dupe);
      ApplyAppend(mine, rest, r);
      if Truthy(canonical) && dupe in deps && deps[dupe].Recorded? {
        ghost var before := r;
        r := ApplyEdges(r, deps[dupe].deps, deps, canonical);
        forall k | k in dupes ensures Get(r, k) == Get(d, k) {
          ApplyKeepsTruthy(mine, before, k);
        }
      }
      a := a + 1;
    }
  }
}
