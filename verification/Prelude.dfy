/** Datatypes and small functions shared by every component. */
module Prelude {
  datatype Option<+T> = None | Some(value: T)

  datatype Result<+T, +E> = Ok(value: T) | Err(error: E)

  const TWO_32: nat := 0x1_0000_0000

  /** The sequence with the element at `i` taken out. */
  function Without<T>(s: seq<T>, i: nat): seq<T>
    requires i < |s|
  {
    s[..i] + s[i + 1..]
  }

  lemma WithoutLast<T>(s: seq<T>, i: nat)
    requires i < |s| - 1
    ensures Without(s, i) == Without(s[..|s| - 1], i) + [s[|s| - 1]]
  {
    var init := s[..|s| - 1];
    assert init[..i] == s[..i];
    assert s[i + 1..] == init[i + 1..] + [s[|s| - 1]];
  }
}
