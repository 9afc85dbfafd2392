/** Python values as the assistant sees them: missing configuration values,
    and string members of parsed JSON objects. */
module Values {

  datatype Option<T> = None | Some(value: T)

  /** Python truthiness of an optional string: `None` and `""` are falsy. */
  predicate NonEmpty(o: Option<string>) {
    o.Some? && o.value != ""
  }

  /** A string-valued member of a parsed JSON object: the key is absent,
      present with `null`, or present with a string. */
  datatype Field = Missing | Null | Str(s: string) {

    /** Python truthiness of `obj.get(key)`. */
    predicate Truthy() {
      Str? && s != ""
    }

    /** `obj.get(key, default)` interpolated into an f-string: an absent key
        gives the default, a `null` value prints as `None`. */
    function Render(default: string): string {
      match this
      case Missing => default
      case Null => "None"
      case Str(t) => t
    }
  }
}
