/**
  The sketch's clock arithmetic. `millis()` and every timestamp the sketch keeps
  (`ultimoLeitura`, `tempoDesligamentoVermelho`) are `unsigned long`, which is 32
  bits wide on the ESP32 the sketch targets, so the clock wraps to 0 after
  2^32 milliseconds (about 49.7 days) and `agora - t` is computed modulo 2^32.
 */
module Time32 {

  /** 2^32, the period of `millis()`. */
  const Modulus: nat := 0x1_0000_0000

  /** A value of an `unsigned long` variable. */
  type U32 = x: int | 0 <= x < Modulus

  /** The clock reading `d` milliseconds after the reading `t`. */
  function Advance(t: U32, d: nat): U32
  {
    (t + d) % Modulus
  }

  /**
    `now - since` in 32-bit unsigned arithmetic: the number of milliseconds
    that must be added to `since` to reach `now` on the wrapping clock.
   */
  function Elapsed(now: U32, since: U32): (d: U32)
    ensures Advance(since, d) == now
    ensures since <= now ==> d == now - since
    ensures now < since ==> d == Modulus - since + now
  {
    (now - since) % Modulus
  }

  /** The sketch's timer test `agora - t >= k`. */
  predicate HasElapsed(now: U32, since: U32, k: U32)
    ensures since <= now ==> (HasElapsed(now, since, k) <==> now - since >= k)
    ensures now < since ==> (HasElapsed(now, since, k) <==> now + Modulus >= since + k)
  {
    Elapsed(now, since) >= k
  }

  /** Elapsed undoes Advance for any delay shorter than one clock period. */
  lemma ElapsedAdvance(t: U32, d: nat)
    requires d < Modulus
    ensures Elapsed(Advance(t, d), t) == d
  {
    if t + d < Modulus {
      assert Advance(t, d) == t + d;
    } else {
      assert Advance(t, d) == t + d - Modulus;
    }
  }

  /**
    Read on the wrapping clock, the elapsed time between two instants of real
    (unbounded) time is the real difference, provided the instants are less than
    one clock period apart, however many times `millis()` has overflowed.
   */
  lemma ElapsedIsRealTime(t0: nat, t1: nat)
    requires t0 <= t1 < t0 + Modulus
    ensures Elapsed(t1 % Modulus, t0 % Modulus) == t1 - t0
  {
    var q := t0 / Modulus;
    var a := t0 % Modulus;
    assert t0 == q * Modulus + a;
    var d := t1 - t0;
    assert t1 == q * Modulus + (a + d);
    if a + d < Modulus {
      assert t1 % Modulus == a + d;
    } else {
      assert t1 == (q + 1) * Modulus + (a + d - Modulus);
      assert t1 % Modulus == a + d - Modulus;
    }
  }

  /**
    Hence the sketch's test `agora - t >= k` fires exactly when at least `k`
    real milliseconds have passed, across any number of `millis()` overflows.
   */
  lemma HasElapsedIsRealTime(t0: nat, t1: nat, k: U32)
    requires t0 <= t1 < t0 + Modulus
    ensures HasElapsed(t1 % Modulus, t0 % Modulus, k) <==> t1 - t0 >= k
  {
    ElapsedIsRealTime(t0, t1);
  }
}
