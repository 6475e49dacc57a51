/**
 JSON documents and the accesses the sources make to them (`nlohmann::json`).  An access that
 throws a JSON exception gives `None`.  Floating-point numbers are not part of this model.
 */
module JsonValues {
  import opened ByteStrings

  datatype Json =
    | Null
    | Bool(b: bool)
    | Num(n: int)
    | Str(s: Bytes)
    | Arr(items: seq<Json>)
    | Obj(fields: map<Bytes, Json>)

  const INT64_MIN: int := -0x8000_0000_0000_0000
  const INT64_MAX: int := 0x7FFF_FFFF_FFFF_FFFF

  predicate IsInt64(n: int) {
    INT64_MIN <= n <= INT64_MAX
  }

  /** `j.contains(k)`: false for anything but an object. */
  predicate Contains(j: Json, k: Bytes) {
    j.Obj? && k in j.fields
  }

  /** `j.at(k)`. */
  function At(j: Json, k: Bytes): Option<Json> {
    if Contains(j, k) then Some(j.fields[k]) else None
  }

  /** `j.get<std::string>()`. */
  function GetStr(j: Json): Option<Bytes> {
    if j.Str? then Some(j.s) else None
  }

  /** `j.at(k).get<std::string>()`. */
  function StrAt(j: Json, k: Bytes): Option<Bytes> {
    match At(j, k)
    case None => None
    case Some(v) => GetStr(v)
  }

  /** Conversion of an integer to `int64_t`, which wraps around. */
  function Wrap64(n: int): (r: int)
    ensures IsInt64(r)
    ensures IsInt64(n) ==> r == n
    ensures (r - n) % 0x1_0000_0000_0000_0000 == 0
  {
    (n - INT64_MIN) % 0x1_0000_0000_0000_0000 + INT64_MIN
  }

  /** Conversion of an integer to `int`, which wraps around. */
  function Wrap32(n: int): (r: int)
    ensures -0x8000_0000 <= r < 0x8000_0000
    ensures -0x8000_0000 <= n < 0x8000_0000 ==> r == n
    ensures (r - n) % 0x1_0000_0000 == 0
  {
    (n + 0x8000_0000) % 0x1_0000_0000 - 0x8000_0000
  }

  /** `j.get<int64_t>()`: the library's own integer type, which takes numbers and nothing else. */
  function GetInt64(j: Json): (r: Option<int>)
    ensures r.Some? <==> j.Num?
    ensures r.Some? ==> IsInt64(r.value)
  {
    match j
    case Num(n) => Some(Wrap64(n))
    case _ => None
  }

  /** `j.get<int>()`: another arithmetic type, which takes booleans too. */
  function GetInt32(j: Json): (r: Option<int>)
    ensures r.Some? <==> j.Num? || j.Bool?
    ensures r.Some? ==> -0x8000_0000 <= r.value < 0x8000_0000
  {
    match j
    case Num(n) => Some(Wrap32(n))
    case Bool(b) => Some(if b then 1 else 0)
    case _ => None
  }

  /** `j.at(k).get<int64_t>()`. */
  function Int64At(j: Json, k: Bytes): (r: Option<int>)
    ensures r.Some? ==> IsInt64(r.value)
  {
    match At(j, k)
    case None => None
    case Some(v) => GetInt64(v)
  }

  /** What the accesses give, on the document itself. */
  lemma Accesses(j: Json, k: Bytes, v: Json, text: Bytes)
    ensures Contains(j, k) <==> j.Obj? && k in j.fields
    ensures At(j, k) == Some(v) <==> j.Obj? && k in j.fields && j.fields[k] == v
    ensures StrAt(j, k) == Some(text) <==> j.Obj? && k in j.fields && j.fields[k] == Str(text)
    ensures GetStr(j) == Some(text) <==> j == Str(text)
  {
  }

  /** Numbers come through modulo 2^64, so those of 64 bits unchanged, and nothing else does. */
  lemma IntegerAccess(j: Json, k: Bytes, n: int)
    ensures IsInt64(n) <==> -9223372036854775808 <= n <= 9223372036854775807
    ensures Int64At(j, k).Some? <==> j.Obj? && k in j.fields && j.fields[k].Num?
    ensures j.Obj? && k in j.fields && j.fields[k] == Num(n) ==>
              && (Int64At(j, k).value - n) % 0x1_0000_0000_0000_0000 == 0
              && (IsInt64(n) ==> Int64At(j, k) == Some(n))
    ensures -0x8000_0000 <= n < 0x8000_0000 ==> GetInt32(Num(n)) == Some(n)
    ensures GetInt32(Bool(true)) == Some(1) && GetInt32(Bool(false)) == Some(0)
  {
  }
}
