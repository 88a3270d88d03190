// Small datatypes shared by the model.
module Prelude {
  datatype Option<+T> = None | Some(value: T)

  // The least n with n * b >= a (Rust's `usize::div_ceil`).
  function DivCeil(a: nat, b: nat): (n: nat)
    requires b > 0
    ensures n * b >= a
    ensures a > 0 ==> n > 0 && (n - 1) * b < a
  {
    if a == 0 then 0 else
      var n := (a - 1) / b + 1;
      assert a - 1 == b * ((a - 1) / b) + (a - 1) % b;
      n
  }
}
