/** Decoded JSON documents as Python presents them, and the few string operations the assembler uses. */
module Json {

  datatype Json =
    | Null | Bool(b: bool) | Int(i: int) | Float(r: real) | Str(s: string)
    | Arr(items: seq<Json>) | Obj(fields: map<string, Json>)

  type Fields = map<string, Json>

  /** `fields.get(key, default)` */
  function GetOr(fields: Fields, key: string, default: Json): Json
  {
    if key in fields then fields[key] else default
  }

  /** `fields.get(key)` */
  function Get(fields: Fields, key: string): Json
  {
    GetOr(fields, key, Null)
  }

  /** `bool(j)` */
  predicate Truthy(j: Json)
  {
    match j
    case Null => false
    case Bool(b) => b
    case Int(i) => i != 0
    case Float(r) => r != 0.0
    case Str(s) => s != ""
    case Arr(items) => items != []
    case Obj(fields) => fields != map[]
  }

  /** `j == 0`: Python's False and 0.0 equal 0. */
  predicate EqualsZero(j: Json)
  {
    j == Int(0) || j == Float(0.0) || j == Bool(false)
  }

  /** Membership in a set of strings raises TypeError for lists and dictionaries. */
  predicate Hashable(j: Json) { !j.Arr? && !j.Obj? }

  predicate IsOneOf(j: Json, names: set<string>) { j.Str? && j.s in names }

  predicate Whitespace(c: char)
  {
    || '\U{09}' <= c <= '\U{0D}' || '\U{1C}' <= c <= '\U{20}' || c == '\U{85}' || c == '\U{A0}'
    || c == '\U{1680}' || '\U{2000}' <= c <= '\U{200A}' || c == '\U{2028}' || c == '\U{2029}'
    || c == '\U{202F}' || c == '\U{205F}' || c == '\U{3000}'
  }

  /** `not s.strip()` */
  predicate BlankString(s: string) { forall c <- s :: Whitespace(c) }

  /** `"".join(parts)` */
  function Concat(parts: seq<string>): string
    decreases |parts|
  {
    if parts == [] then "" else parts[0] + Concat(parts[1..])
  }

  lemma {:induction false} ConcatAppend(a: seq<string>, b: seq<string>)
    ensures Concat(a + b) == Concat(a) + Concat(b)
    decreases |a|
  {
    if a == [] {
      assert a + b == b;
    } else {
      assert (a + b)[1..] == a[1..] + b;
      ConcatAppend(a[1..], b);
    }
  }

  lemma ConcatOne(part: string)
    ensures Concat([part]) == part
  {
    assert [part][1..] == [];
  }

  /** `needle in s` for a non-empty needle. */
  predicate Contains(s: string, needle: string)
    decreases |s|
  {
    |needle| <= |s| && (s[..|needle|] == needle || (s != "" && Contains(s[1..], needle)))
  }

  /** Some part of `s.split(".")` has the property. */
  predicate AnyPart(s: string, p: string -> bool)
    decreases |s|
  {
    if exists i | 0 <= i < |s| :: s[i] == '.' then
      var k := DotAt(s);
      p(s[..k]) || AnyPart(s[k + 1..], p)
    else p(s)
  }

  function DotAt(s: string): (k: nat)
    requires exists i | 0 <= i < |s| :: s[i] == '.'
    ensures k < |s| && s[k] == '.' && '.' !in s[..k]
  {
    if s[0] == '.' then 0 else
      assert exists i | 0 <= i < |s[1..]| :: s[1..][i] == '.' by {
        var i :| 0 <= i < |s| && s[i] == '.';
        assert s[1..][i - 1] == '.';
      }
      DotAt(s[1..]) + 1
  }
}
