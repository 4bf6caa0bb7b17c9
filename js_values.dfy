/** The JavaScript values that cross the boundary of the client: request
    bodies, decoded response bodies and the fields of the records it builds.
    Numbers are integers here. */
module JsValues {
  import opened Wrappers
  import opened Records

  datatype JsValue =
    | Undefined
    | Null
    | Bool(b: bool)
    | Num(n: int)
    | Str(s: string)
    | Arr(elems: seq<JsValue>)
    | Obj(fields: Dict<JsValue>)

  /** JavaScript truthiness: `undefined`, `null`, `false`, `0` and `""` are
      falsy; every array and every object, even an empty one, is truthy. */
  predicate Truthy(v: JsValue)
    ensures v.Arr? || v.Obj? ==> Truthy(v)
    ensures v.Undefined? || v.Null? || v == Bool(false) || v == Num(0) || v == Str("") ==> !Truthy(v)
  {
    match v
    case Undefined => false
    case Null => false
    case Bool(b) => b
    case Num(n) => n != 0
    case Str(s) => s != ""
    case Arr(_) => true
    case Obj(_) => true
  }

  /** `v[name]` for a property name that is neither an array index nor
      `length`: an object's own property, `undefined` for everything else. */
  function Field(v: JsValue, name: string): (r: JsValue)
    ensures !v.Obj? ==> r == Undefined
    ensures v.Obj? && name !in KeySet(v.fields) ==> r == Undefined
    ensures forall i :: v.Obj? && 0 <= i < |v.fields| && v.fields[i].0 == name ==> r == v.fields[i].1
  {
    match v
    case Obj(fields) =>
      LookupInKeys(fields, name);
      assert forall i :: 0 <= i < |fields| && fields[i].0 == name ==> Lookup(fields, name) == Some(fields[i].1) by {
        forall i | 0 <= i < |fields| && fields[i].0 == name {
          LookupEntry(fields, i);
        }
      }
      Lookup(fields, name).GetOr(Undefined)
    case _ => Undefined
  }

  /** An optional string as a property value: absent reads as `undefined`. */
  function Optional(s: Option<string>): JsValue
  {
    match s
    case Some(x) => Str(x)
    case None => Undefined
  }

  /** Decimal rendering of an array index, the key `...` gives each element. */
  function IndexKey(i: nat): string
  {
    if i < 10 then ["0123456789"[i]] else IndexKey(i / 10) + ["0123456789"[i % 10]]
  }

  /** The own enumerable properties that `{...v}` copies, in order: an
      object's entries, the characters of a string and the elements of an
      array under their indices, and nothing for the other values. */
  function OwnEntries(v: JsValue): (r: seq<Entry<JsValue>>)
    ensures v.Obj? ==> r == v.fields
    ensures v.Str? ==> |r| == |v.s| && forall i :: 0 <= i < |r| ==> r[i].1 == Str([v.s[i]])
    ensures v.Arr? ==> |r| == |v.elems| && forall i :: 0 <= i < |r| ==> r[i].1 == v.elems[i]
    ensures forall i :: (v.Str? || v.Arr?) && 0 <= i < |r| ==> r[i].0 == IndexKey(i)
    ensures !(v.Obj? || v.Str? || v.Arr?) ==> r == []
  {
    match v
    case Obj(fields) => fields
    case Str(s) => seq(|s|, i requires 0 <= i < |s| => (IndexKey(i), Str([s[i]])))
    case Arr(elems) => seq(|elems|, i requires 0 <= i < |elems| => (IndexKey(i), elems[i]))
    case _ => []
  }
}
