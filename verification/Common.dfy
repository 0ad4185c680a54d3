/** Small types shared by the models. */
module Common {

  // A byte of an object or of a file.
  newtype Octet = x: int | 0 <= x < 256

  datatype Option<T> = None | Some(value: T)

  lemma Regroup<T>(a: seq<T>, b: seq<T>, c: seq<T>)
    ensures a + (b + c) == a + b + c
  {
  }
}
