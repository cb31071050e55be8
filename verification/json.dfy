/** JSON values as JavaScript's JSON.parse delivers them (section 3 of RFC 8259),
    the parser itself as an abstract partial function, and the object-spread
    operation `{...v}` the niche search applies to every parsed item. */
module Json {
  import opened Results
  import opened Text

  /** A parsed JSON value. Numbers are kept as reals: JSON.parse yields
      doubles, and a literal that overflows to plus or minus Infinity stands
      here as a large real of the same sign. An object is the map from member
      name to value that JSON.parse builds, the last of duplicate names
      winning. */
  datatype Json =
    | Null
    | Bool(b: bool)
    | Number(n: real)
    | Str(s: string)
    | Array(items: seq<Json>)
    | Object(members: map<string, Json>)

  /** JSON.parse: Some(v) when the whole text is one JSON value v (surrounding
      whitespace allowed), None where JSON.parse throws a SyntaxError. */
  type Parser = string -> Option<Json>

  /** The properties `{...xs}` copies from an array or a string: one per index,
      named by the index's decimal rendering. */
  function IndexMap(vals: seq<Json>): (m: map<string, Json>)
    ensures forall k :: 0 <= k < |vals| ==> Decimal(k) in m && m[Decimal(k)] == vals[k]
    ensures forall key :: key in m ==> exists k :: 0 <= k < |vals| && key == Decimal(k)
    decreases |vals|
  {
    if |vals| == 0 then map[]
    else
      var n := |vals| - 1;
      DecimalNotEarlier(n);
      IndexMap(vals[..n])[Decimal(n) := vals[n]]
  }

  lemma DecimalNotEarlier(n: nat)
    ensures forall k :: 0 <= k < n ==> Decimal(k) != Decimal(n)
  {
    forall k | 0 <= k < n
      ensures Decimal(k) != Decimal(n)
    {
      DecimalInjective(k, n);
    }
  }

  /** The own enumerable properties the spread `{...v}` copies out of v: an
      object's members, the elements of an array or the characters of a string
      under their index names, and nothing for null, booleans and numbers. */
  function Spread(v: Json): (r: map<string, Json>)
    ensures v.Object? ==> r == v.members
    ensures v.Null? || v.Bool? || v.Number? ==> r == map[]
    ensures v.Array? ==> forall k :: 0 <= k < |v.items| ==> Decimal(k) in r && r[Decimal(k)] == v.items[k]
    ensures v.Str? ==> forall k :: 0 <= k < |v.s| ==> Decimal(k) in r && r[Decimal(k)] == Str([v.s[k]])
    ensures v.Array? ==> forall key :: key in r ==> exists k :: 0 <= k < |v.items| && key == Decimal(k)
    ensures v.Str? ==> forall key :: key in r ==> exists k :: 0 <= k < |v.s| && key == Decimal(k)
    ensures v.Array? || v.Str? ==> forall key :: key in r ==> AllDigits(key) && key != ""
  {
    match v
    case Object(m) => m
    case Array(xs) => IndexMap(xs)
    case Str(s) => IndexMap(seq(|s|, k requires 0 <= k < |s| => Str([s[k]])))
    case _ => map[]
  }
}
