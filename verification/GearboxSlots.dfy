/** Which slot of a level a tick of Gearbox time addresses. */
module GearboxSlots {

  /** The slot of a level of granularity g with m FIFOs that is served at a tick; time is taken modulo range. */
  function Slot(tick: nat, range: nat, g: nat, m: nat): (f: nat)
    requires range > 0 && g > 0 && m > 0
    ensures f < m
  {
    tick % range / g % m
  }

  lemma AtLeastOne(n: int, d: int)
    requires n > 0 && d != 0
    ensures d > 0 ==> n * d >= n
    ensures d < 0 ==> n * d <= -n
  {
  }

  /** A quotient and remainder are the only ones. */
  lemma Division(a: int, n: int, q: int, r: int)
    requires n > 0 && a == n * q + r && 0 <= r < n
    ensures a / n == q && a % n == r
  {
    var d := q - a / n;
    assert n * d == a % n - r by {
      assert a == n * (a / n) + a % n;
      assert n * (q - a / n) == n * q - n * (a / n);
    }
    if d != 0 {
      AtLeastOne(n, d);
    }
  }

  /** In any range of consecutive ticks every slot is addressed. */
  lemma SlotIsMet(now: nat, range: nat, g: nat, m: nat, f: nat) returns (t: nat)
    requires range > 0 && g > 0 && m > 0 && f < m && g * m <= range
    ensures now <= t < now + range && Slot(t, range, g, m) == f
  {
    var x := g * f;
    assert x < range by {
      assert g * m == g * f + g * (m - f);
      AtLeastOne(g, m - f);
    }
    var r, q := now % range, now / range;
    assert now == range * q + r;
    if x >= r {
      t := now + (x - r);
      Division(t, range, q, x);
    } else {
      t := now + (range - r + x);
      assert range * (q + 1) == range * q + range;
      Division(t, range, q + 1, x);
    }
    Division(x, g, f, 0);
    Division(f, m, 0, f);
  }

  /** Taking time modulo the range addresses the same slots as time itself. */
  ghost predicate Agrees(range: nat, g: nat, m: nat)
    requires range > 0 && g > 0 && m > 0
  {
    forall t: nat :: Slot(t, range, g, m) == t / g % m
  }

  lemma WholeRounds(t: nat, range: nat, g: nat, m: nat, k: nat)
    requires range > 0 && g > 0 && m > 0 && range == g * m * k
    ensures Slot(t, range, g, m) == t / g % m
  {
    var a, b := t / range, t % range;
    var c := b / g;
    var turns := k * a;
    Turns(t, range, g, m, k, a, b);
    Division(t, g, m * turns + c, b % g);
    RoundsOff(c, m, turns);
  }

  /** A number of whole rounds does not change a slot. */
  lemma RoundsOff(c: nat, m: nat, turns: nat)
    requires m > 0
    ensures m * turns + c >= 0 && (m * turns + c) % m == c % m
  {
    var e := c / m;
    assert c == m * e + c % m;
    assert m * (turns + e) == m * turns + m * e;
    Division(m * turns + c, m, turns + e, c % m);
  }

  lemma Turns(t: nat, range: nat, g: nat, m: nat, k: nat, a: nat, b: nat)
    requires range > 0 && g > 0 && range == g * m * k && a == t / range && b == t % range
    ensures t == g * (m * (k * a) + b / g) + b % g
  {
    var c := b / g;
    assert t == range * a + b && b == g * c + b % g;
    assert range * a == g * (m * (k * a));
    assert g * (m * (k * a) + c) == g * (m * (k * a)) + g * c;
  }

  /** A tick at which the two differ, when the rounds of a level do not fill the range. */
  lemma BrokenRound(range: nat, g: nat, m: nat) returns (t: nat)
    requires g > 0 && m > 1 && range > 0 && g * m <= range && range % (g * m) != 0
    ensures Slot(t, range, g, m) != t / g % m
  {
    var a := range / g;
    var rem := range % g;
    assert range == g * a + rem;
    if a % m != 0 {
      t := range;
      Division(range, range, 1, 0);
      Division(0, g, 0, 0);
      Division(0, m, 0, 0);
    } else {
      var q := a / m;
      assert a == m * q;
      assert g * a == g * m * q;
      if rem == 0 {
        Division(range, g * m, q, 0);
      }
      t := range + (g - rem);
      assert g * m >= g by {
        AtLeastOne(g, m);
      }
      assert 0 < g - rem < range;
      Division(t, range, 1, g - rem);
      Division(g - rem, g, 0, g - rem);
      Division(0, m, 0, 0);
      assert g * (a + 1) == g * a + g;
      Division(t, g, a + 1, 0);
      Division(a + 1, m, q, 1);
    }
  }

  /** Time modulo the range addresses the slots of time itself, at all ticks, exactly when the rounds of the level
      fill the range, or the level has a single FIFO. */
  lemma AgreesWhenRoundsFill(range: nat, g: nat, m: nat)
    requires g > 0 && m > 0 && range > 0 && g * m <= range && g * m > 0
    ensures Agrees(range, g, m) <==> m == 1 || range % (g * m) == 0
  {
    hide Slot;
    if m == 1 {
      forall t: nat
        ensures Slot(t, range, g, m) == t / g % m
      {
        Division(t / g, 1, t / g, 0);
      }
    } else if range % (g * m) == 0 {
      forall t: nat
        ensures Slot(t, range, g, m) == t / g % m
      {
        WholeRounds(t, range, g, m, range / (g * m));
      }
    } else {
      var t := BrokenRound(range, g, m);
      assert !Agrees(range, g, m);
    }
  }

  /** The slot a packet that is due n ticks ahead is put into. */
  function PutSlot(now: nat, n: nat, g: nat, m: nat): (f: nat)
    requires g > 0 && m > 0
    ensures f < m
  {
    (now / g + n / g) % m
  }

  lemma SameResidue(a: nat, b: nat, m: nat)
    requires m > 0 && a <= b < a + m && a % m == b % m
    ensures a == b
  {
    var d := b / m - a / m;
    assert b - a == m * d by {
      assert a == m * (a / m) + a % m && b == m * (b / m) + b % m;
      assert m * (b / m - a / m) == m * (b / m) - m * (a / m);
    }
    if d != 0 {
      AtLeastOne(m, d);
    }
  }

  /** Granules of two times add up, and there is one more when the remainders do. */
  lemma Carry(a: nat, b: nat, g: nat)
    requires g > 0
    ensures (a + b) / g == a / g + b / g + if a % g + b % g < g then 0 else 1
  {
    var q, r := a / g + b / g, a % g + b % g;
    assert a + b == g * q + r by {
      assert a == g * (a / g) + a % g && b == g * (b / g) + b % g;
    }
    if r < g {
      Division(a + b, g, q, r);
    } else {
      assert g * (q + 1) == g * q + g;
      Division(a + b, g, q + 1, r - g);
    }
  }

  /** When time modulo the range agrees with time, a packet that is due n ticks ahead is put into the slot that is
      addressed at its tick exactly when the remainders of now and n do not add up to another granule. */
  lemma OwnSlot(now: nat, n: nat, range: nat, g: nat, m: nat)
    requires g > 0 && m > 1 && range > 0 && Agrees(range, g, m)
    ensures Slot(now + n, range, g, m) == PutSlot(now, n, g, m) <==> now % g + n % g < g
  {
    hide *;
    AgreesAt(now + n, range, g, m);
    PutSlotAt(now, n, g, m);
    Carry(now, n, g);
    ResidueIs((now + n) / g, now / g + n / g, m);
  }

  /** Every packet that the level takes is put into the slot that is addressed at its tick. */
  ghost predicate AlwaysOwnSlot(range: nat, g: nat, m: nat)
    requires range > 0 && g > 0 && m > 0
  {
    forall now: nat, n: nat :: n < g * m ==> Slot(now + n, range, g, m) == PutSlot(now, n, g, m)
  }

  /** That is so exactly when the level has a single FIFO, or granules of one tick and rounds that fill the range. */
  lemma OwnSlotWhenFine(range: nat, g: nat, m: nat)
    requires g > 0 && m > 0 && range > 0 && g * m <= range && g * m > 0
    ensures AlwaysOwnSlot(range, g, m) <==> m == 1 || (g == 1 && range % m == 0)
  {
    hide Slot, PutSlot, Agrees, AlwaysOwnSlot;
    AgreesWhenRoundsFill(range, g, m);
    if m == 1 {
      OneSlot(range, g);
    } else if g == 1 && range % m == 0 {
      FineSlots(range, m);
    } else if AlwaysOwnSlot(range, g, m) {
      OwnIsAgreement(range, g, m);
      AtLeastOne(g, m - 1);
      assert g * m == g * (m - 1) + g;
      if g > 1 {
        OwnSlot(g - 1, 1, range, g, m);
        OwnAt(g - 1, 1, range, g, m);
        Division(g - 1, g, 0, g - 1);
        Division(1, g, 0, 1);
      }
    }
  }

  lemma OneSlot(range: nat, g: nat)
    requires range > 0 && g > 0
    ensures AlwaysOwnSlot(range, g, 1)
  {
    hide Slot, PutSlot;
    forall now: nat, n: nat | n < g * 1
      ensures Slot(now + n, range, g, 1) == PutSlot(now, n, g, 1)
    {
      var a, b := Slot(now + n, range, g, 1), PutSlot(now, n, g, 1);
    }
  }

  lemma FineSlots(range: nat, m: nat)
    requires range > 0 && m > 1 && Agrees(range, 1, m)
    ensures AlwaysOwnSlot(range, 1, m)
  {
    hide Slot, PutSlot, Agrees;
    forall now: nat, n: nat | n < 1 * m
      ensures Slot(now + n, range, 1, m) == PutSlot(now, n, 1, m)
    {
      OwnSlot(now, n, range, 1, m);
    }
  }

  lemma OwnIsAgreement(range: nat, g: nat, m: nat)
    requires range > 0 && g > 0 && m > 0 && g * m > 0 && AlwaysOwnSlot(range, g, m)
    ensures Agrees(range, g, m)
  {
    hide Slot, PutSlot;
    forall t: nat
      ensures Slot(t, range, g, m) == t / g % m
    {
      assert Slot(t + 0, range, g, m) == PutSlot(t, 0, g, m);
      PutSlotAt(t, 0, g, m);
      Division(0, g, 0, 0);
    }
  }

  lemma OwnAt(now: nat, n: nat, range: nat, g: nat, m: nat)
    requires range > 0 && g > 0 && m > 0 && AlwaysOwnSlot(range, g, m) && n < g * m
    ensures Slot(now + n, range, g, m) == PutSlot(now, n, g, m)
  {
    hide Slot, PutSlot;
  }

  /** At tick 9 of a level with ten ticks to a granule, a packet that is due one tick later is put into the slot
      that is served now, not into that of tick 10, which comes next. */
  lemma CarriedSlot()
    ensures Agrees(100, 10, 10) && PutSlot(9, 1, 10, 10) == 0 == Slot(9, 100, 10, 10) && Slot(9 + 1, 100, 10, 10) == 1
  {
    hide Agrees;
    AgreesWhenRoundsFill(100, 10, 10);
  }

  /** When time modulo the range agrees with time, a packet's slot is addressed, in the round after its arrival, in
      just one granule of time: that of its arrival and the whole granules of its rank. */
  lemma AddressedWhenDue(now: nat, n: nat, t: nat, range: nat, g: nat, m: nat)
    requires g > 0 && m > 0 && range > 0 && Agrees(range, g, m) && n / g < m
    requires now / g <= t / g < now / g + m
    ensures Slot(t, range, g, m) == PutSlot(now, n, g, m) <==> t / g == now / g + n / g
  {
    hide *;
    AgreesAt(t, range, g, m);
    PutSlotAt(now, n, g, m);
    ResidueIs(t / g, now / g + n / g, m);
  }

  lemma AgreesAt(t: nat, range: nat, g: nat, m: nat)
    requires g > 0 && m > 0 && range > 0 && Agrees(range, g, m)
    ensures Slot(t, range, g, m) == t / g % m && t / g >= 0
  {
    hide Slot;
  }

  lemma PutSlotAt(now: nat, n: nat, g: nat, m: nat)
    requires g > 0 && m > 0
    ensures PutSlot(now, n, g, m) == (now / g + n / g) % m && now / g >= 0 && n / g >= 0
  {
  }

  /** Numbers less than m apart are equal exactly when their residues are. */
  lemma ResidueIs(a: nat, b: nat, m: nat)
    requires m > 0 && a < b + m && b < a + m
    ensures a % m == b % m <==> a == b
  {
    if a % m == b % m {
      if a <= b {
        SameResidue(a, b, m);
      } else {
        SameResidue(b, a, m);
      }
    }
  }
}
