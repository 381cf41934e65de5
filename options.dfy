/**
 * The plugin's options (index.js:23-34) and the package selector that the
 * `package` handler applies to each package name (index.js:120).
 */
module Options {
  import opened JsValues

  /** What a caller may pass as options: a string, an array of names, or anything else. */
  datatype OptionsArg = StrArg(s: string) | ArrArg(items: seq<string>) | OtherArg

  /** The parsed options: the string `'*'`, or a list of package names. */
  datatype Selector = All | Names(names: seq<string>)

  /** `name && (options.indexOf(name) !== -1 || options === '*')` */
  predicate Selects(sel: Selector, name: Val) {
    Truthy(name) &&
    match sel
    case All => true
    case Names(ns) => name.s in ns
  }

  /** `'*'` is kept as the wildcard, a string becomes a one-name list, an array
      is kept, anything else becomes the empty list. Stated by what the
      result selects: the match is exact, never a prefix or substring. */
  function ParseOptions(o: OptionsArg): (r: Selector)
    ensures forall name {:trigger Selects(r, name)} :: Selects(r, name) <==>
      Truthy(name) &&
      (o == StrArg("*") || (o.StrArg? && name.s == o.s) || (o.ArrArg? && name.s in o.items))
    ensures o.OtherArg? || o == ArrArg([]) ==> forall name :: !Selects(r, name)
    ensures o.ArrArg? ==> r == Names(o.items)
  {
    if o == StrArg("*") then All
    else if o.StrArg? then Names([o.s])
    else if !o.ArrArg? then Names([])
    else Names(o.items)
  }
}
