/** Small value types shared by the models. */
module Common {

  datatype Option<+T> = None | Some(value: T) {
    predicate IsFailure() { None? }

    function PropagateFailure<U>(): Option<U>
      requires None?
    {
      None
    }

    function Extract(): T
      requires Some?
    {
      value
    }
  }

  datatype Result<+T, +E> = Ok(value: T) | Err(error: E) {
    predicate IsFailure() { Err? }

    function PropagateFailure<U>(): Result<U, E>
      requires Err?
    {
      Err(error)
    }

    function Extract(): T
      requires Ok?
    {
      value
    }
  }

  newtype byte = b: int | 0 <= b < 256

  type Bytes = seq<byte>

  /** Where `x` first occurs; the length when it does not. */
  function IndexOf<T(==)>(s: seq<T>, x: T): (i: nat)
    ensures i <= |s|
    ensures i < |s| ==> s[i] == x
    ensures forall k :: 0 <= k < i ==> s[k] != x
  {
    if s == [] || s[0] == x then 0 else 1 + IndexOf(s[1..], x)
  }

  /** The bytes of a text written in ASCII. */
  function Ascii(text: string): Bytes {
    seq(|text|, i requires 0 <= i < |text| => (text[i] as int % 256) as byte)
  }

  function Max(a: nat, b: nat): nat { if a >= b then a else b }
}
