/** Environment states, and environment ids (env_alloc and envid2env in kern/env.c): a slot
    index in the low ten bits and a generation above bit 12, advanced at every allocation of
    the slot. */
module EnvIds {

  // enum in inc/env.h; Unused is ENV_FREE
  datatype EnvStatus = Unused | Dying | Runnable | Running | NotRunnable

  const NENV: nat := 1024
  // 1 << ENVGENSHIFT
  const GENERATION: nat := 4096
  const INT32_LIMIT: nat := 0x8000_0000
  // how many generations there are before the id of a slot repeats
  const PERIOD: nat := 0x7_ffff

  function Envx(envid: int): (slot: nat)
    ensures slot < NENV
  {
    envid % NENV
  }

  // generation = (e->env_id + (1 << ENVGENSHIFT)) & ~(NENV - 1), reset when not positive;
  // a sum that reaches 2^31 is negative as an int32_t.
  function NextId(id: nat, slot: nat): nat
    requires id < INT32_LIMIT && slot < NENV
  {
    var sum := id + GENERATION;
    var generation := if sum >= INT32_LIMIT then GENERATION else sum - sum % NENV;
    generation + slot
  }

  // env_id of a slot after n allocations since boot.
  function IdAfter(n: nat, slot: nat): nat
    requires slot < NENV
    ensures n == 0 ==> IdAfter(n, slot) == 0
    ensures n > 0 ==> IdAfter(n, slot) == GENERATION * (1 + (n - 1) % PERIOD) + slot
    ensures IdAfter(n, slot) < INT32_LIMIT
  {
    if n == 0 then 0
    else
      NextAdvances(n - 1, slot);
      NextId(IdAfter(n - 1, slot), slot)
  }

  lemma NextAdvances(n: nat, slot: nat)
    requires slot < NENV
    ensures
      var id := if n == 0 then 0 else GENERATION * (1 + (n - 1) % PERIOD) + slot;
      id < INT32_LIMIT && NextId(id, slot) == GENERATION * (1 + n % PERIOD) + slot
  {
    if n > 0 {
      var k := (n - 1) % PERIOD;
      SuccMod(n - 1, PERIOD);
      var id := GENERATION * (1 + k) + slot;
      if k + 1 < PERIOD {
        assert (id + GENERATION) % NENV == slot by { assert id + GENERATION == NENV * (4 * (k + 2)) + slot; }
      }
    }
  }

  lemma SuccMod(a: nat, m: nat)
    requires m > 0
    ensures (a + 1) % m == if a % m + 1 == m then 0 else a % m + 1
  {
    var q, r := a / m, a % m;
    assert a + 1 == q * m + (r + 1);
    if r + 1 == m { assert a + 1 == (q + 1) * m; ModOf(a + 1, m, q + 1, 0); } else { ModOf(a + 1, m, q, r + 1); }
  }

  lemma Multiples(d: int, m: int)
    requires m > 0
    ensures d > 0 ==> d * m >= m
    ensures d < 0 ==> d * m <= -m
  {
    if d > 0 { assert (d - 1) * m >= 0; } else if d < 0 { assert (-d - 1) * m >= 0; }
  }

  lemma ModOf(a: nat, m: nat, q: int, r: nat)
    requires m > 0 && a == q * m + r && r < m
    ensures a % m == r && a / m == q
  {
    var d := a / m - q;
    assert a == (a / m) * m + a % m;
    assert d * m == r - a % m by { assert (a / m) * m - q * m == d * m; }
    Multiples(d, m);
  }

  lemma SameRemainder(a: nat, b: nat, m: nat)
    requires m > 0 && b <= a
    ensures a % m == b % m <==> (a - b) % m == 0
  {
    if a % m == b % m { EqualRemainders(a, b, m); }
    if (a - b) % m == 0 { MultipleApart(a, b, m); }
  }

  lemma EqualRemainders(a: nat, b: nat, m: nat)
    requires m > 0 && b <= a && a % m == b % m
    ensures (a - b) % m == 0
  {
    var qa, qb := a / m, b / m;
    assert a == qa * m + a % m && b == qb * m + b % m;
    assert a - b == (qa - qb) * m;
    ModOf(a - b, m, qa - qb, 0);
  }

  lemma MultipleApart(a: nat, b: nat, m: nat)
    requires m > 0 && b <= a && (a - b) % m == 0
    ensures a % m == b % m
  {
    var k, qb := (a - b) / m, b / m;
    assert a - b == k * m && b == qb * m + b % m;
    assert a == (qb + k) * m + b % m;
    ModOf(a, m, qb + k, b % m);
  }

  // The id a slot got at its m-th allocation is the id it has after n allocations exactly
  // when it was reallocated a multiple of 2^19 - 1 times since.
  lemma StaleId(m: nat, n: nat, slot: nat)
    requires slot < NENV && 0 < m <= n
    ensures IdAfter(m, slot) == IdAfter(n, slot) <==> (n - m) % 524_287 == 0
  {
    SameRemainder(n - 1, m - 1, PERIOD);
  }

  // Ids in use are positive, name their slot, and so differ between slots.
  lemma LiveIds(m: nat, n: nat, slot: nat, slot': nat)
    requires slot < NENV && slot' < NENV && 0 < m && 0 < n
    ensures IdAfter(m, slot) > 0 && Envx(IdAfter(m, slot)) == slot
    ensures IdAfter(m, slot) == IdAfter(n, slot') ==> slot == slot'
  {
    ModOf(IdAfter(m, slot), NENV, 4 * (1 + (m - 1) % PERIOD), slot);
    ModOf(IdAfter(n, slot'), NENV, 4 * (1 + (n - 1) % PERIOD), slot');
  }
}
