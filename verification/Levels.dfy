/** The nesting depths at a loop or switch, packed into one int for break and continue. */
module Levels {

  const MAX_SCOPE := 0x400
  const MAX_TRY := 0x100
  const MAX_FOR := 0x400
  const WORD := 0x1_0000_0000

  /** The operator "|" on non-negative integers. */
  function BitOr(a: nat, b: nat): nat {
    if a == 0 && b == 0 then 0
    else 2 * BitOr(a / 2, b / 2) + (if a % 2 == 1 || b % 2 == 1 then 1 else 0)
  }

  /** makeScopeLevel, as the 32 bits of a C++ int. */
  function Pack(monitors: nat, tries: nat, scopes: nat, fors: nat): nat {
    BitOr(BitOr(BitOr(monitors * 0x1000_0000 % WORD, tries * 0x10_0000 % WORD), scopes * 0x400 % WORD), fors % WORD)
  }

  function GetTry(l: nat): nat { l / 0x10_0000 % 0x100 }

  function GetScope(l: nat): nat { l / 0x400 % 0x400 }

  function GetFor(l: nat): nat { l % 0x400 }

  /** getMonitorLevel: the shift of a signed int keeps the sign, so bit 31 reappears under the mask 0x1f. */
  function GetMonitor(l: nat): nat
    requires l < WORD
  {
    (if l < 0x8000_0000 then l / 0x1000_0000 else l / 0x1000_0000 - 16) % 0x20
  }

  function Pow2(k: nat): nat {
    if k == 0 then 1 else 2 * Pow2(k - 1)
  }

  lemma {:induction false} OrBelow(a: nat, b: nat, k: nat)
    requires a < Pow2(k) && b < Pow2(k)
    ensures BitOr(a, b) < Pow2(k)
    decreases k
  {
    if k > 0 && (a > 0 || b > 0) {
      OrBelow(a / 2, b / 2, k - 1);
    }
  }

  /** Or-ing disjoint fields is addition. */
  lemma {:induction false} OrDisjoint(a: nat, k: nat, b: nat)
    requires b < Pow2(k)
    ensures BitOr(a * Pow2(k), b) == a * Pow2(k) + b
    decreases k
  {
    if k == 0 {
      OrZero(a);
    } else {
      var p := Pow2(k - 1);
      assert a * Pow2(k) == 2 * (a * p);
      assert a * Pow2(k) / 2 == a * p;
      OrDisjoint(a, k - 1, b / 2);
    }
  }

  lemma {:induction false} OrZero(a: nat)
    ensures BitOr(a, 0) == a
  {
    if a > 0 {
      OrZero(a / 2);
    }
  }

  lemma Powers()
    ensures Pow2(10) == 0x400 && Pow2(20) == 0x10_0000 && Pow2(28) == 0x1000_0000 && Pow2(32) == WORD
  {
    assert Pow2(8) == 256;
    assert Pow2(16) == 65536;
    assert Pow2(20) == 0x10_0000;
    assert Pow2(24) == 0x100_0000;
  }

  lemma PackBelow(monitors: nat, tries: nat, scopes: nat, fors: nat)
    ensures Pack(monitors, tries, scopes, fors) < WORD
  {
    Powers();
    var a, b, c := monitors * 0x1000_0000 % WORD, tries * 0x10_0000 % WORD, scopes * 0x400 % WORD;
    OrBelow(a, b, 32);
    OrBelow(BitOr(a, b), c, 32);
    OrBelow(BitOr(BitOr(a, b), c), fors % WORD, 32);
  }

  /** Monitor depths that survive: those below 8, and by sign extension 24 to 31. */
  predicate MonitorFits(n: nat) {
    n < 8 || 24 <= n < 32
  }

  lemma OrFields(m: nat, t: nat, s: nat, f: nat)
    requires t < MAX_TRY && s < MAX_SCOPE && f < MAX_FOR
    ensures BitOr(BitOr(BitOr(m * 0x1000_0000, t * 0x10_0000), s * 0x400), f) == ((m * 0x100 + t) * 0x400 + s) * 0x400 + f
  {
    Join(m, 28, 0x1000_0000, t * 0x10_0000);
    assert BitOr(m * 0x1000_0000, t * 0x10_0000) == (m * 0x100 + t) * 0x10_0000;
    Join(m * 0x100 + t, 20, 0x10_0000, s * 0x400);
    assert BitOr((m * 0x100 + t) * 0x10_0000, s * 0x400) == ((m * 0x100 + t) * 0x400 + s) * 0x400;
    Join((m * 0x100 + t) * 0x400 + s, 10, 0x400, f);
  }

  lemma PackFitting(monitors: nat, tries: nat, scopes: nat, fors: nat)
    requires tries < MAX_TRY && scopes < MAX_SCOPE && fors < MAX_FOR
    ensures Pack(monitors, tries, scopes, fors) == ((monitors % 16 * 0x100 + tries) * 0x400 + scopes) * 0x400 + fors
  {
    TopField(monitors);
    ModUnique(0, tries * 0x10_0000);
    ModUnique(0, scopes * 0x400);
    ModUnique(0, fors);
    OrFields(monitors % 16, tries, scopes, fors);
  }

  lemma TopField(n: nat)
    ensures n * 0x1000_0000 % WORD == n % 16 * 0x1000_0000
  {
    var q, r := n / 16, n % 16;
    assert n * 0x1000_0000 == q * WORD + r * 0x1000_0000;
    ModUnique(q, r * 0x1000_0000);
  }

  lemma ModUnique(q: nat, r: nat)
    requires r < WORD
    ensures (q * WORD + r) % WORD == r
  {}

  lemma Join(a: nat, k: nat, p: nat, b: nat)
    requires k in {10, 20, 28} && p == (if k == 10 then 0x400 else if k == 20 then 0x10_0000 else 0x1000_0000) && b < p
    ensures BitOr(a * p, b) == a * p + b
  {
    Powers();
    OrDisjoint(a, k, b);
  }

  lemma Fields(m: nat, t: nat, s: nat, f: nat)
    requires m < 16 && t < MAX_TRY && s < MAX_SCOPE && f < MAX_FOR
    ensures var l := ((m * 0x100 + t) * 0x400 + s) * 0x400 + f;
            && l < WORD && GetTry(l) == t && GetScope(l) == s && GetFor(l) == f
            && GetMonitor(l) == if m < 8 then m else m + 16
  {
    var l := ((m * 0x100 + t) * 0x400 + s) * 0x400 + f;
    assert l / 0x400 == (m * 0x100 + t) * 0x400 + s;
    assert l / 0x10_0000 == m * 0x100 + t;
    assert l / 0x1000_0000 == m;
  }

  /** The four depths survive the packing exactly when each is below its bound
      (for monitors: or sign extension happens to restore it). */
  lemma PackRoundTrip(monitors: nat, tries: nat, scopes: nat, fors: nat)
    ensures var l := Pack(monitors, tries, scopes, fors);
            l < WORD
            && ((GetMonitor(l) == monitors && GetTry(l) == tries && GetScope(l) == scopes && GetFor(l) == fors)
                <==> (MonitorFits(monitors) && tries < MAX_TRY && scopes < MAX_SCOPE && fors < MAX_FOR))
  {
    hide Pack, GetTry, GetScope, GetFor, GetMonitor;
    PackBelow(monitors, tries, scopes, fors);
    FieldsBounded(Pack(monitors, tries, scopes, fors));
    if tries < MAX_TRY && scopes < MAX_SCOPE && fors < MAX_FOR {
      PackFitting(monitors, tries, scopes, fors);
      Fields(monitors % 16, tries, scopes, fors);
    }
  }

  lemma FieldsBounded(l: nat)
    ensures GetTry(l) < MAX_TRY && GetScope(l) < MAX_SCOPE && GetFor(l) < MAX_FOR
  {}
}
