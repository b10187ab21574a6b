/** Absent values as the TypeScript sources see them. */
module Maybe {

  /** A value that may be missing: `T | undefined` (or `T | null` where the source never leaves it undefined). */
  datatype Option<T> = None | Some(value: T) {

    /** The value, or `default` when there is none. */
    function GetOr(default: T): T {
      match this
      case Some(v) => v
      case None => default
    }
  }

  /** A field declared `.optional().nullable()`: it may be missing, `null`, or hold a value. */
  datatype Nullable<T> = Absent | Null | Present(value: T) {

    /** JavaScript's `this ?? fallback`: only a present value wins over the fallback. */
    function Coalesce(fallback: Option<T>): Option<T> {
      if Present? then Some(value) else fallback
    }
  }
}
