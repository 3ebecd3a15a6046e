/** JSON values and the accessors of `serde_json::Value`, with the character classes Rust's string
    functions use. JSON text syntax is not modelled: parsing is a parameter where it is needed. */
module Json {
  import opened Basics
  import Utf8

  datatype Json =
    | Null
    | Bool(b: bool)
    | Integer(n: int)
    | Float(r: real)
    | Str(s: string)
    | Array(items: seq<Json>)
    | Object(members: seq<Member>)

  /** One member of an object; the members are in key order and keys are unique. */
  datatype Member = Member(key: string, value: Json)

  function Lookup(members: seq<Member>, key: string): Option<Json> {
    if members == [] then None
    else if members[0].key == key then Some(members[0].value)
    else Lookup(members[1..], key)
  }

  /** `Value::get`: a member of an object, nothing for any other value. */
  function Get(j: Json, key: string): Option<Json> {
    if j.Object? then Lookup(j.members, key) else None
  }

  function AsStr(j: Option<Json>): Option<string> {
    if j.Some? && j.value.Str? then Some(j.value.s) else None
  }

  function AsU64(j: Option<Json>): Option<U64> {
    if j.Some? && j.value.Integer? && 0 <= j.value.n <= U64_MAX then Some(j.value.n) else None
  }

  function StrOr(s: Option<string>, default: string): string {
    if s.Some? then s.value else default
  }

  function U64Or(n: Option<U64>, default: U64): U64 {
    if n.Some? then n.value else default
  }

  /** `char::is_control`. */
  predicate IsControl(c: char) {
    (c as int) < 0x20 || 0x7F <= (c as int) < 0xA0
  }

  /** The Unicode White_Space property behind `str::trim`. */
  predicate IsWhitespace(c: char) {
    var n := c as int;
    || 0x09 <= n <= 0x0D
    || n in {0x20, 0x85, 0xA0, 0x1680, 0x2028, 0x2029, 0x202F, 0x205F, 0x3000}
    || 0x2000 <= n <= 0x200A
  }

  /** `value.trim().is_empty()`. */
  predicate Blank(s: string) {
    forall i :: 0 <= i < |s| ==> IsWhitespace(s[i])
  }

  /** `valid_label`. */
  predicate ValidLabel(s: string, maximum: nat) {
    && s != ""
    && Utf8.Len(s) <= maximum
    && !IsWhitespace(s[0])
    && !IsWhitespace(s[|s| - 1])
    && forall i :: 0 <= i < |s| ==> !IsControl(s[i])
  }
}
