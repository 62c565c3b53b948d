/** Small vocabulary shared by the modules of the project. */
module Common {

  datatype Option<+T> = None | Some(value: T)

  /** Largest value of the 64-bit unsigned integers the daemon counts time in. */
  const U64_MAX: nat := 0xFFFF_FFFF_FFFF_FFFF

  /** `a.saturating_mul(b)` on 64-bit unsigned integers. */
  function SatMul(a: nat, b: nat): nat {
    if a * b > U64_MAX then U64_MAX else a * b
  }

  /** `a.saturating_add(b)` on 64-bit unsigned integers. */
  function SatAdd(a: nat, b: nat): nat {
    if a + b > U64_MAX then U64_MAX else a + b
  }

  /** `a.saturating_sub(b)` on unsigned integers. */
  function SatSub(a: nat, b: nat): nat {
    if a >= b then a - b else 0
  }

  function Min(a: nat, b: nat): nat {
    if a <= b then a else b
  }

  function Max(a: nat, b: nat): nat {
    if a >= b then a else b
  }

  function Abs(x: real): real {
    if x < 0.0 then -x else x
  }

  /** The sequence without the element at `i`. */
  function RemoveAt<T>(s: seq<T>, i: nat): (r: seq<T>)
    requires i < |s|
    ensures |r| == |s| - 1
    ensures forall k :: 0 <= k < |r| ==> r[k] == s[if k < i then k else k + 1]
  {
    s[..i] + s[i + 1..]
  }

  /** All elements of a sequence are different. */
  ghost predicate Distinct<T(!new)>(s: seq<T>) {
    forall i, j :: 0 <= i < j < |s| ==> s[i] != s[j]
  }
}
