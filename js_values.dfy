/**
 * The JavaScript values that flow through the user model: query conditions
 * handed to the pre-query hook and the plain object that the toJSON
 * transform prunes. A plain object is mutable and shared by reference, so it
 * is a class whose one field is its property map.
 */
module JsValues {

  /** The value shapes the model distinguishes. `Other` stands for every value
      the code only passes through: a RegExp, an `{ $in: [...] }` condition, a
      sub-document; `tag` keeps two such values apart. */
  datatype Value =
    | Null
    | Bool(b: bool)
    | Num(n: int)
    | Str(s: string)
    | Date(ms: int)
    | ObjectIdRef(oid: nat)
    | List(items: seq<Value>)
    | Other(tag: int)

  class JsObject {
    var props: map<string, Value>

    constructor (init: map<string, Value>)
      ensures props == init
    {
      props := init;
    }

    /** `typeof obj[key] === 'string'`; an absent key reads as undefined. */
    predicate HoldsString(key: string)
      reads this
    {
      key in props && props[key].Str?
    }

    /** `obj[key] = v`: sets or adds one property, leaving the others. */
    method Set(key: string, v: Value)
      modifies this
      ensures props == old(props)[key := v]
    {
      props := props[key := v];
    }

    /** `delete obj[key]`: removes the property if present, leaving the others. */
    method Delete(key: string)
      modifies this
      ensures props == old(props) - {key}
    {
      props := props - {key};
    }
  }
}
