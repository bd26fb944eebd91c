/** Machine types and small helpers shared by every module of the model. */
module Common {

  /** An octet, Rust's `u8`. */
  newtype byte = x: int | 0 <= x < 0x100

  /** Rust's `u16`, the width of a WebSocket close code. */
  newtype u16 = x: int | 0 <= x < 0x1_0000

  datatype Option<+T> = None | Some(value: T)

  /** How a Rust call ends: it returns a value, or an `expect` or
      `unwrap` on an error panics. */
  datatype Outcome<+T> = Returned(value: T) | Panicked

  function Min(a: nat, b: nat): (m: nat)
    ensures m <= a && m <= b
    ensures m == a || m == b
  {
    if a <= b then a else b
  }

  /** Handing out `s[from..to]` and keeping `s[to..]` in front of `rest`
      leaves `s[from..]` followed by `rest`. */
  lemma SplitSlice(s: seq<byte>, from: nat, to: nat, rest: seq<byte>)
    requires from <= to <= |s|
    ensures s[from..to] + (s[to..] + rest) == s[from..] + rest
    ensures s[from..to] + rest == s[from..] + rest <== to == |s|
  {
    assert s[from..to] + s[to..] == s[from..];
  }

  /** `buf[..src.len()].copy_from_slice(src)`: the first `|src|` cells of
      `buf` receive `src`, the cells after them keep their old values. */
  method CopyFromSlice(buf: array<byte>, src: seq<byte>)
    requires |src| <= buf.Length
    modifies buf
    ensures buf[..|src|] == src
    ensures buf[|src|..] == old(buf[|src|..])
  {
    var i := 0;
    while i < |src|
      invariant 0 <= i <= |src|
      invariant forall k :: 0 <= k < i ==> buf[k] == src[k]
      invariant forall k :: i <= k < buf.Length ==> buf[k] == old(buf[k])
    {
      buf[i] := src[i];
      i := i + 1;
    }
  }
}
