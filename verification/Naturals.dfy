/** Arithmetic on natural numbers shared by the other modules. */
module Naturals {

  function Min(a: nat, b: nat): nat {
    if a < b then a else b
  }

  function Max(a: nat, b: nat): nat {
    if a < b then b else a
  }

  function SaturatingSub(a: nat, b: nat): nat {
    if a < b then 0 else a - b
  }
}
