/** JSON values as the scripts see them after `json.loads`: objects are
    association lists, so that the insertion order Python dictionaries keep
    is kept here too. */
module Json {
  import opened Assoc

  datatype Json =
    | Null
    | Bool(b: bool)
    | Num(n: int)
    | Str(s: string)
    | Arr(items: seq<Json>)
    | Obj(members: seq<(string, Json)>)

  /** An object's members, in insertion order. */
  type Members = seq<(string, Json)>

  /** Python's `bool(value)` on a decoded JSON value. */
  predicate Truthy(j: Json) {
    match j
    case Null => false
    case Bool(b) => b
    case Num(n) => n != 0
    case Str(s) => s != ""
    case Arr(a) => a != []
    case Obj(m) => m != []
  }

  /** `key in value` where `value` is a decoded object; anything else has no keys. */
  function Get(j: Json, k: string): Option<Json> {
    if j.Obj? then Find(j.members, k) else None
  }

  predicate Has(j: Json, k: string) {
    Get(j, k).Some?
  }

  /** `value.get(k, default)`. */
  function GetOr(j: Json, k: string, default: Json): Json {
    match Get(j, k)
    case Some(v) => v
    case None => default
  }

  /** Python's `needle in haystack` on strings. */
  predicate Substring(needle: string, haystack: string) {
    exists i :: 0 <= i <= |haystack| && needle <= haystack[i..]
  }

  /** What `if k in value:` followed by `value[k]` gives on any decoded
      value: the key is missing, its value, or an exception. `in` searches an
      object's keys, a list's elements and a string's substrings, and raises
      on a number, a boolean or `None`; a list or string that does contain
      `k` cannot be indexed by it. */
  datatype Lookup = Absent | Found(value: Json) | LookupError

  function Look(j: Json, k: string): (r: Lookup)
    ensures j.Obj? ==> !r.LookupError? && (r.Found? <==> Has(j, k)) && (r.Found? ==> Get(j, k) == Some(r.value))
    ensures j.Null? || j.Bool? || j.Num? ==> r.LookupError?
  {
    match j
    case Obj(m) => if Has(j, k) then Found(Get(j, k).value) else Absent
    case Arr(items) => if Str(k) in items then LookupError else Absent
    case Str(s) => if Substring(k, s) then LookupError else Absent
    case _ => LookupError
  }

  /** `value[0]` on a truthy value: a list's first element or a string's
      first character. An object has no key 0 and a number or a boolean
      cannot be indexed, so those raise (`None`). */
  function First(j: Json): (r: Option<Json>)
    requires Truthy(j)
    ensures r.Some? <==> j.Arr? || j.Str?
    ensures j.Arr? ==> r == Some(j.items[0])
  {
    match j
    case Arr(items) => Some(items[0])
    case Str(s) => Some(Str([s[0]]))
    case _ => None
  }

  /** The values a slice such as `value[:50]` accepts. */
  predicate Sliceable(j: Json) {
    j.Str? || j.Arr?
  }

  /** The idiom `k in value and value[k]`. */
  predicate FieldTruthy(j: Json, k: string) {
    Has(j, k) && Truthy(Get(j, k).value)
  }

  /** The members of an object (`.items()`); anything else is read as empty. */
  function MembersOf(j: Json): Members {
    if j.Obj? then j.members else []
  }

  /** The elements a `for` loop visits in a list; anything else is read as empty. */
  function Elements(j: Json): seq<Json> {
    if j.Arr? then j.items else []
  }

  /** Python's `len` on a string, a list or an object. */
  function Len(j: Json): nat {
    match j
    case Str(s) => |s|
    case Arr(a) => |a|
    case Obj(m) => |m|
    case _ => 0
  }

  /** The values Python's `len` is defined on. */
  predicate Sized(j: Json) {
    j.Str? || j.Arr? || j.Obj?
  }

  lemma SizedTruthyHasLength(j: Json)
    requires Sized(j)
    ensures Truthy(j) <==> Len(j) > 0
  {
  }

  /** Decimal rendering of a natural number, as `str(n)` prints it. */
  function NatToString(n: nat): (r: string)
    ensures |r| >= 1
    ensures forall i :: 0 <= i < |r| ==> '0' <= r[i] <= '9'
    decreases n
  {
    var digit := ['0' + (n % 10) as char];
    if n < 10 then digit else NatToString(n / 10) + digit
  }

  /** The text an f-string inserts for a scalar value (`str(value)`); containers render as "". */
  function Display(j: Json): string {
    match j
    case Str(s) => s
    case Num(n) => if n < 0 then "-" + NatToString(-n) else NatToString(n)
    case Bool(b) => if b then "True" else "False"
    case Null => "None"
    case _ => ""
  }
}
