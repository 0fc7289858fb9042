// Values and functions that several modules use.

module Basics {
  const U32 := 0x1_0000_0000

  datatype Option<T> = None | Some(value: T)

  // s less its element k.
  function Without<T>(s: seq<T>, k: nat): (r: seq<T>)
    requires k < |s|
    ensures |r| == |s| - 1
  {
    s[..k] + s[k+1..]
  }
}
