/** Small arithmetic the pollers and the primary share. */
module Numbers {

  function Min(a: nat, b: nat): nat { if a < b then a else b }

  function Max(a: nat, b: nat): nat { if a < b then b else a }

  function Pow2(n: nat): (p: nat)
    ensures p >= 1
  {
    if n == 0 then 1 else 2 * Pow2(n - 1)
  }

  /** Counts an occurrence. */
  function Once(b: bool): nat { if b then 1 else 0 }
}
