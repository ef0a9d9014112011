/** JavaScript values as they reach the task service, thrown errors, and the
    string search the controller classifies errors with. */
module Js {

  /** A JavaScript value as it can sit in a task field or a request body. */
  datatype Value =
    | Undefined
    | Null
    | Bool(b: bool)
    | Num(n: int)
    | Str(s: string)
    | Date(ms: int)  // a Date object; only its timestamp matters here

  /** JavaScript truthiness: `undefined`, `null`, `false`, `0` and `""` are
      falsy; everything else, every Date object included, is truthy. */
  predicate Truthy(v: Value) {
    match v
    case Undefined => false
    case Null => false
    case Bool(b) => b
    case Num(n) => n != 0
    case Str(s) => s != ""
    case Date(_) => true
  }

  /** A plain object: a parsed JSON request body, or a record spread into one. */
  type Payload = map<string, Value>

  datatype Option<T> = None | Some(value: T)

  /** Either a value or a thrown `Error`, of which only the message is kept. */
  datatype Result<T> = Ok(value: T) | Err(message: string)

  /** `sub` occurs in `s` starting at position `i`. */
  predicate OccursAt(s: string, sub: string, i: int) {
    0 <= i <= |s| - |sub| && s[i..i + |sub|] == sub
  }

  /** `s.includes(sub)`: `sub` occurs in `s` at some position. */
  predicate Includes(s: string, sub: string) {
    exists i | 0 <= i <= |s| - |sub| :: OccursAt(s, sub, i)
  }

  /** A string includes every string it starts with. */
  lemma IncludesPrefix(prefix: string, rest: string)
    ensures Includes(prefix + rest, prefix)
  {
    assert OccursAt(prefix + rest, prefix, 0);
  }

  /** A string includes every part of every string it includes. */
  lemma IncludesPart(s: string, sub: string, part: string, j: int)
    requires Includes(s, sub) && OccursAt(sub, part, j)
    ensures Includes(s, part)
  {
    var i :| 0 <= i <= |s| - |sub| && OccursAt(s, sub, i);
    forall k | 0 <= k < |part| ensures s[i + j + k] == part[k] {
      assert s[i..i + |sub|][j + k] == sub[j + k];
      assert sub[j..j + |part|][k] == part[k];
    }
    assert OccursAt(s, part, i + j);
  }

  /** A non-empty `sub` whose first character never occurs in `s` is not
      included in `s`. */
  lemma NotIncludedWithoutFirstChar(s: string, sub: string)
    requires |sub| > 0 && sub[0] !in s
    ensures !Includes(s, sub)
  {
  }
}
