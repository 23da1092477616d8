/** nullable.go: a member where an explicit null differs from an absent one. */
module Nullables {
  import opened Wrappers

  /** The zero value in Go is Absent; Null is "none"; Value carries a value. */
  datatype Nullable<+T> = Absent | Null | Value(value: T)

  /** Whether a stated member differs from the optional value a read returned. */
  predicate NullableDiffers<T(==)>(stated: Nullable<T>, read: Option<T>) {
    match stated
    case Absent => false
    case Null => read != None
    case Value(v) => read == None || read.value != v
  }

  /** One optional member of a replacement body: absent carries, null clears, a value replaces. */
  function NullableOrRead<T>(stated: Nullable<T>, read: Option<T>): Option<T> {
    match stated
    case Absent => if read.None? then None else Some(read.value)
    case Null => None
    case Value(v) => Some(v)
  }

  /** A member is judged drifted exactly when writing the resolved member would change it,
      and once the resolved member is stored nothing differs any more. */
  lemma ResolvedMemberSettles<T>(stated: Nullable<T>, read: Option<T>)
    ensures NullableDiffers(stated, read) <==> NullableOrRead(stated, read) != read
    ensures !NullableDiffers(stated, NullableOrRead(stated, read))
  {
  }
}
