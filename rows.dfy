/**
 * Rows of Browserify's pipeline as this engine sees them, the annotation the
 * sort handler gives each buffered row (index.js:190-208) and the rewrite the
 * dedupe handler applies to each row (index.js:60-94).
 */
module Rows {
  import opened JsValues

  /** The id a rewritten row refers to: `row.dedupe` or `row.dedupeIndex`. */
  datatype Ref = ByDedupe(target: Val) | ByIndex(position: int)

  /** A row's body: its own code, the re-export of the chosen module, or the
      call of the chosen module's factory through `arguments[4]`. */
  datatype Source = Code(text: string) | ReExport(of: Ref) | ApplyWrapper(of: Ref)

  /** A row; an absent `dedupe` is `Undefined`, an absent `dedupeIndex` or
      `indexDeps` is `None`. */
  datatype Row = Row(
    id: string,
    file: string,
    index: int,
    deps: OMap<Val>,
    source: Source,
    dedupe: Val,
    dedupeIndex: Option<int>,
    nomap: bool,
    indexDeps: Option<map<string, int>>)

  /** Truthiness of a number that may be absent: `0` is falsy. */
  predicate IndexTruthy(x: Option<int>) {
    x.Some? && x.value != 0
  }

  /** `index[k]`, `undefined` when the key was never written. */
  function Lookup(index: map<string, int>, k: string): Option<int> {
    if k in index then Some(index[k]) else None
  }

  /** The sort handler's treatment of one buffered row: a file with a truthy
      `deduped` entry points at that entry and its position; otherwise a
      resolved file loses any dedupe fields; every other row is untouched. */
  function Annotate(row: Row, deduped: OMap<Val>, resolved: set<string>, index: map<string, int>): (r: Row)
    ensures Truthy(Get(deduped, row.file)) ==>
      r == row.(dedupe := Get(deduped, row.file), dedupeIndex := Lookup(index, KeyOf(Get(deduped, row.file))))
    ensures !Truthy(Get(deduped, row.file)) && row.file in resolved ==>
      r == row.(dedupe := Undefined, dedupeIndex := None)
    ensures !Truthy(Get(deduped, row.file)) && row.file !in resolved ==> r == row
  {
    var target := Get(deduped, row.file);
    if Truthy(target) then
      row.(dedupe := target, dedupeIndex := Lookup(index, KeyOf(target)))
    else if row.file in resolved then
      row.(dedupe := Undefined, dedupeIndex := None)
    else
      row
  }

  /** The id chosen at index.js:63, or `None` when it is falsy. */
  function ChosenId(row: Row): (r: Option<Ref>)
    ensures r.None? <==> !Truthy(row.dedupe) && !IndexTruthy(row.dedupeIndex)
    ensures IndexTruthy(row.dedupeIndex) ==> r == Some(ByIndex(row.dedupeIndex.value))
    ensures Truthy(row.dedupe) && !IndexTruthy(row.dedupeIndex) ==> r == Some(ByDedupe(row.dedupe))
  {
    if Truthy(row.dedupe) && !IndexTruthy(row.dedupeIndex) then Some(ByDedupe(row.dedupe))
    else if IndexTruthy(row.dedupeIndex) then Some(ByIndex(row.dedupeIndex.value))
    else None
  }

  /** `isDuped(id)`: the id has a truthy `deduped` entry. */
  predicate IsDuped(deduped: OMap<Val>, v: Val) {
    Truthy(Get(deduped, KeyOf(v)))
  }

  /** `resolved[row.dedupe] && _.values(row.deps).every(isDuped)` */
  predicate ReExportEligible(row: Row, resolved: set<string>, deduped: OMap<Val>) {
    KeyOf(row.dedupe) in resolved &&
    forall id :: id in row.deps.vals ==> IsDuped(deduped, row.deps.vals[id])
  }

  /** The dedupe handler's rewrite of one row. A row without a chosen id passes
      unchanged; any other row keeps everything except its body, `nomap` and
      `indexDeps`: the body re-exports the chosen module exactly when the row
      is eligible and calls its factory otherwise, `nomap` becomes true and
      `indexDeps.dup` is set when `dedupeIndex` is truthy. */
  function CacheRow(row: Row, resolved: set<string>, deduped: OMap<Val>): (r: Row)
    ensures ChosenId(row).None? ==> r == row
    ensures ChosenId(row).Some? ==>
      && r == row.(source := r.source, nomap := true, indexDeps := r.indexDeps)
      && (r.source == ReExport(ChosenId(row).value) <==> ReExportEligible(row, resolved, deduped))
      && (r.source == ApplyWrapper(ChosenId(row).value) <==> !ReExportEligible(row, resolved, deduped))
      && r.indexDeps ==
           (if IndexTruthy(row.dedupeIndex) && row.indexDeps.Some?
            then Some(row.indexDeps.value["dup" := row.dedupeIndex.value])
            else row.indexDeps)
  {
    match ChosenId(row)
    case None => row
    case Some(id) =>
      var body := if ReExportEligible(row, resolved, deduped) then ReExport(id) else ApplyWrapper(id);
      var indexDeps :=
        if IndexTruthy(row.dedupeIndex) && row.indexDeps.Some?
        then Some(row.indexDeps.value["dup" := row.dedupeIndex.value])
        else row.indexDeps;
      row.(source := body, nomap := true, indexDeps := indexDeps)
  }

  /** A resolved file that propagation left undeduped loses Browserify's own
      dedupe fields at sort end and then passes the dedupe handler unchanged. */
  lemma CanonicalRowPassesThrough(row: Row, deduped: OMap<Val>, resolved: set<string>, index: map<string, int>)
    requires row.file in resolved && !Truthy(Get(deduped, row.file))
    ensures Annotate(row, deduped, resolved, index).dedupe == Undefined
    ensures CacheRow(Annotate(row, deduped, resolved, index), resolved, deduped) == Annotate(row, deduped, resolved, index)
  {
  }

  /** A deduped file is always rewritten: its body refers to its target by
      position when that position is truthy, and by the target itself otherwise. */
  lemma DuplicateRowIsRewritten(row: Row, deduped: OMap<Val>, resolved: set<string>, index: map<string, int>)
    requires Truthy(Get(deduped, row.file))
    ensures var a := Annotate(row, deduped, resolved, index);
            var t := Get(deduped, row.file);
            var ref := if IndexTruthy(Lookup(index, KeyOf(t))) then ByIndex(index[KeyOf(t)]) else ByDedupe(t);
            && CacheRow(a, resolved, deduped).nomap
            && CacheRow(a, resolved, deduped).source in {ReExport(ref), ApplyWrapper(ref)}
  {
  }

  /** A row without dependencies is eligible for the re-export exactly when its
      `dedupe` target is a resolved file: the `every` over no values holds. */
  lemma NoDepsEligibility(row: Row, resolved: set<string>, deduped: OMap<Val>)
    requires row.deps.vals == map[]
    ensures ReExportEligible(row, resolved, deduped) <==> KeyOf(row.dedupe) in resolved
  {
  }
}
