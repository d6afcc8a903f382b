/** Small value types shared by the scanner's modules. */
module Types {

  datatype Option<T> = None | Some(value: T)

  /** One key of a metadata dictionary: absent, present with a null value,
      or present with a value. */
  datatype Field<T> = Missing | Null | Present(value: T)

  /** `info.get(key)`: an absent key and a null value both read as `None`. */
  function Get<T>(f: Field<T>): Option<T>
  {
    match f
    case Present(v) => Some(v)
    case _ => None
  }

  /** `info.get(key, default)`: only an absent key reads as the default;
      a key present with a null value reads as `None`. */
  function GetOr<T>(f: Field<T>, default: T): Option<T>
  {
    match f
    case Missing => Some(default)
    case Null => None
    case Present(v) => Some(v)
  }
}
