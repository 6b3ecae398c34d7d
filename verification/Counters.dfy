/** The three additive counters of a connection entry, and what it means for
    fixed-width counters to account for a total. */
module Counters {

  datatype Field = Bytes | Sessions | Violates

  datatype Amounts = Amounts(bytes: nat, sessions: nat, violates: nat)

  const ZERO := Amounts(0, 0, 0)

  function Of(a: Amounts, f: Field): nat {
    match f
    case Bytes => a.bytes
    case Sessions => a.sessions
    case Violates => a.violates
  }

  function Plus(a: Amounts, b: Amounts): (r: Amounts)
    ensures forall f :: Of(r, f) == Of(a, f) + Of(b, f)
  {
    Amounts(a.bytes + b.bytes, a.sessions + b.sessions, a.violates + b.violates)
  }

  /** Addition into counters that wrap: `width` gives each counter's modulus. */
  function WrapPlus(a: Amounts, b: Amounts, width: Amounts): (r: Amounts)
    requires width.bytes > 0 && width.sessions > 0 && width.violates > 0
    ensures forall f :: Of(width, f) > 0 && Of(r, f) == (Of(a, f) + Of(b, f)) % Of(width, f)
  {
    Amounts((a.bytes + b.bytes) % width.bytes,
            (a.sessions + b.sessions) % width.sessions,
            (a.violates + b.violates) % width.violates)
  }

  predicate Excess(total: nat, actual: nat, modulus: nat, wraps: nat) {
    total == actual + wraps * modulus
  }

  /** `actual` accounts for `total` up to whole turns of a counter: it never
      exceeds it, and falls short of it by a multiple of the modulus. */
  ghost predicate Accounts(total: nat, actual: nat, modulus: nat) {
    exists wraps: nat :: Excess(total, actual, modulus, wraps)
  }

  lemma AccountsExactly(total: nat, actual: nat, modulus: nat)
    requires Accounts(total, actual, modulus) && total < modulus
    ensures total == actual
  {
    var wraps: nat :| Excess(total, actual, modulus, wraps);
    if wraps > 0 {
      assert false;
    }
  }

  lemma AccountsZero(total: nat, modulus: nat)
    ensures Accounts(total, total, modulus)
  {
    assert Excess(total, total, modulus, 0);
  }

  lemma Distribute(p: nat, q: nat, m: nat)
    ensures (p + q) * m == p * m + q * m
  {
  }

  /** Replacing a share `a` of the actual amount by the wrapped sum `a + x`. */
  lemma AccountsAdd(total: nat, rest: nat, a: nat, x: nat, modulus: nat)
    requires modulus > 0 && Accounts(total, rest + a, modulus)
    ensures Accounts(total + x, rest + (a + x) % modulus, modulus)
  {
    var wraps: nat :| Excess(total, rest + a, modulus, wraps);
    var more := (a + x) / modulus;
    assert a + x == (a + x) % modulus + more * modulus;
    Distribute(wraps, more, modulus);
    assert Excess(total + x, rest + (a + x) % modulus, modulus, wraps + more);
  }

  /** An amount entered in full, without wrapping. */
  lemma AccountsShift(total: nat, actual: nat, x: nat, modulus: nat)
    requires Accounts(total, actual, modulus)
    ensures Accounts(total + x, actual + x, modulus)
  {
    var wraps: nat :| Excess(total, actual, modulus, wraps);
    assert Excess(total + x, actual + x, modulus, wraps);
  }

  /** An amount entered in a counter of its own, wrapped to its width. */
  lemma AccountsEntry(total: nat, actual: nat, x: nat, modulus: nat)
    requires modulus > 0 && Accounts(total, actual, modulus)
    ensures Accounts(total + x, actual + x % modulus, modulus)
  {
    AccountsAdd(total, actual, 0, x, modulus);
  }

  /** What a counter of this width does not show of a sum. */
  function Carry(sum: nat, modulus: nat): nat
    requires modulus > 0
  {
    sum - sum % modulus
  }

  /** A counter shows less than the sum exactly when the sum does not fit it. */
  lemma CarriesWhenFull(sum: nat, modulus: nat)
    requires modulus > 0
    ensures Carry(sum, modulus) > 0 <==> sum >= modulus
  {
    if sum >= modulus {
      assert sum % modulus < modulus;
    } else {
      assert sum % modulus == sum;
    }
  }
}
