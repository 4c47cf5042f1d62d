/**
The table of the predefined MPI constants (src/virtual_id.cpp): upper-half values to lower-half
values, by open addressing with linear probing, and a map back.
*/
module ConstantTable {

  const SIZE: nat := 512           // MANA_CONSTANTS_TABLE_SIZE
  const LIMIT: nat := 128          // What the table's assertion allows
  const TWO_64: nat := 0x1_0000_0000_0000_0000
  const TWO_55: nat := 0x80_0000_0000_0000
  const FACTOR: nat := 0x9e37_79b9_7f4a_7c15

  /** mana_constant, without the Fortran handle */
  datatype Constant = Constant(upper: int, lower: int, used: bool)

  /** constant_hash() */
  function Hash(upper: int): (h: nat)
    ensures h < SIZE
  {
    upper % TWO_64 * FACTOR % TWO_64 / TWO_55
  }

  /** The d-th slot that a probe for a key looks at. */
  function Slot(upper: int, d: nat): (i: nat)
    ensures i < SIZE
  {
    (Hash(upper) + d) % SIZE
  }

  /** How many steps a probe needs to get to a slot. */
  function Distance(upper: int, i: nat): (d: nat)
    requires i < SIZE
    ensures d < SIZE && Slot(upper, d) == i
    ensures forall e: nat :: e < SIZE && Slot(upper, e) == i ==> e == d
  {
    (i + SIZE - Hash(upper)) % SIZE
  }

  function Count(table: seq<Constant>): nat {
    if table == [] then 0 else Count(table[..|table| - 1]) + if table[|table| - 1].used then 1 else 0
  }

  lemma {:induction false} CountFull(table: seq<Constant>)
    requires forall i :: 0 <= i < |table| ==> table[i].used
    ensures Count(table) == |table|
  {
    if table != [] {
      CountFull(table[..|table| - 1]);
    }
  }

  lemma {:induction false} CountSet(table: seq<Constant>, i: nat, c: Constant)
    requires i < |table| && c.used
    ensures Count(table[i := c]) == Count(table) + if table[i].used then 0 else 1
  {
    var n := |table| - 1;
    if i == n {
      assert table[i := c][..n] == table[..n];
    } else {
      assert table[i := c][..n] == table[..n][i := c];
      CountSet(table[..n], i, c);
    }
  }

  /** Every slot that a probe looks at before an entry's own is used. */
  predicate Reachable(table: seq<Constant>, i: nat)
    requires |table| == SIZE && i < SIZE
  {
    forall d: nat :: d < Distance(table[i].upper, i) ==> table[Slot(table[i].upper, d)].used
  }

  ghost predicate TableOk(table: seq<Constant>, num: nat, view: map<int, int>) {
    && |table| == SIZE && num == Count(table) == |view| && num <= LIMIT
    && (forall i :: 0 <= i < SIZE && table[i].used ==>
          table[i].upper in view && view[table[i].upper] == table[i].lower && Reachable(table, i))
    && (forall k :: k in view ==> exists i :: 0 <= i < SIZE && table[i].used && table[i].upper == k)
    && (forall i, j :: 0 <= i < j < SIZE && table[i].used && table[j].used ==> table[i].upper != table[j].upper)
  }

  /** At most a quarter of the slots are used, so a probe gets to one that is not. */
  lemma SomeUnused(table: seq<Constant>) returns (i: nat)
    requires |table| == SIZE && Count(table) <= LIMIT
    ensures i < SIZE && !table[i].used
  {
    if forall j :: 0 <= j < SIZE ==> table[j].used {
      CountFull(table);
      assert false;
    }
    i :| 0 <= i < SIZE && !table[i].used;
  }

  /** What a probe for a key finds: the key's entry, or the first unused slot on its way. */
  ghost predicate Found(table: seq<Constant>, upper: int, i: nat)
    requires |table| == SIZE
  {
    && i < SIZE && (table[i].used ==> table[i].upper == upper)
    && forall d: nat :: d < Distance(upper, i) ==> var c := table[Slot(upper, d)]; c.used && c.upper != upper
  }

  /** A probe is at slot i after d steps, and passed only other keys. */
  ghost predicate Passed(table: seq<Constant>, upper: int, i: nat, d: nat)
    requires |table| == SIZE
  {
    && d < SIZE && i == Slot(upper, d)
    && forall e: nat :: e < d ==> var c := table[Slot(upper, e)]; c.used && c.upper != upper
  }

  lemma PassOne(table: seq<Constant>, upper: int, i: nat, d: nat, unused: nat)
    requires |table| == SIZE && Passed(table, upper, i, d) && table[i].used && table[i].upper != upper
    requires unused < SIZE && !table[unused].used && d <= Distance(upper, unused)
    ensures d < Distance(upper, unused) && Passed(table, upper, (i + 1) % SIZE, d + 1)
  {
    assert Slot(upper, Distance(upper, unused)) == unused;
  }

  /** A probe finds an entry exactly if the table has the key. */
  lemma FoundIffThere(table: seq<Constant>, num: nat, view: map<int, int>, upper: int, i: nat)
    requires TableOk(table, num, view) && Found(table, upper, i)
    ensures table[i].used <==> upper in view
    ensures table[i].used ==> view[upper] == table[i].lower
  {
    assert Slot(upper, Distance(upper, i)) == i;
  }

  /** The table after a probe's slot is filled in. */
  lemma SetOk(table: seq<Constant>, num: nat, view: map<int, int>, upper: int, lower: int, i: nat)
    requires TableOk(table, num, view) && Found(table, upper, i) && (upper in view || num < LIMIT)
    ensures TableOk(table[i := Constant(upper, lower, true)], num + if table[i].used then 0 else 1,
                    view[upper := lower])
  {
    var c, now := Constant(upper, lower, true), view[upper := lower];
    var filled := table[i := c];
    FoundIffThere(table, num, view, upper, i);
    CountSet(table, i, c);
    SetSize(view, upper, lower);
    SetReachable(table, upper, lower, i);
    forall k | k in now ensures exists j :: 0 <= j < SIZE && filled[j].used && filled[j].upper == k {
      if k == upper {
        assert filled[i].upper == k;
      } else {
        var j :| 0 <= j < SIZE && table[j].used && table[j].upper == k;
        assert filled[j].used && filled[j].upper == k;
      }
    }
    SetDistinct(table, num, view, upper, lower, i);
  }

  lemma SetSize(view: map<int, int>, upper: int, lower: int)
    ensures |view[upper := lower]| == |view| + if upper in view then 0 else 1
  {
    assert |view[upper := lower]| == |view[upper := lower].Keys|;
    assert view[upper := lower].Keys == view.Keys + {upper};
    assert |view| == |view.Keys|;
  }

  lemma SetReachable(table: seq<Constant>, upper: int, lower: int, i: nat)
    requires |table| == SIZE && Found(table, upper, i)
    requires forall j :: 0 <= j < SIZE && table[j].used ==> Reachable(table, j)
    ensures var filled := table[i := Constant(upper, lower, true)];
            forall j :: 0 <= j < SIZE && filled[j].used ==> Reachable(filled, j)
  {
    var filled := table[i := Constant(upper, lower, true)];
    forall j | 0 <= j < SIZE && filled[j].used ensures Reachable(filled, j) {
      if j != i {
        assert Reachable(table, j);
      }
    }
  }

  lemma SetDistinct(table: seq<Constant>, num: nat, view: map<int, int>, upper: int, lower: int, i: nat)
    requires TableOk(table, num, view) && Found(table, upper, i)
    ensures var filled := table[i := Constant(upper, lower, true)];
            forall j, k :: 0 <= j < k < SIZE && filled[j].used && filled[k].used ==> filled[j].upper != filled[k].upper
  {
    FoundIffThere(table, num, view, upper, i);
    var filled := table[i := Constant(upper, lower, true)];
    forall j, k | 0 <= j < k < SIZE && filled[j].used && filled[k].used ensures filled[j].upper != filled[k].upper {
      if j == i {
        assert table[k].used && table[k].upper in view;
      } else if k == i {
        assert table[j].used && table[j].upper in view;
      }
    }
  }

  // ---- init_predefined_virt_ids() ----

  /** The upper-half and lower-half values of the constants, in the order of initialisation. */
  type Pairs = seq<(int, int)>

  /** A map after pairs are set in it, in order. */
  function Filled(view: map<int, int>, pairs: Pairs): (r: map<int, int>) {
    if pairs == [] then view
    else Filled(view, pairs[..|pairs| - 1])[pairs[|pairs| - 1].0 := pairs[|pairs| - 1].1]
  }

  function Uppers(pairs: Pairs): set<int> { set p | p in pairs :: p.0 }

  function Swapped(pairs: Pairs): Pairs { seq(|pairs|, i requires 0 <= i < |pairs| => (pairs[i].1, pairs[i].0)) }

  lemma UppersPush(pairs: Pairs)
    requires pairs != []
    ensures Uppers(pairs) == Uppers(pairs[..|pairs| - 1]) + {pairs[|pairs| - 1].0}
  {
    var n := |pairs| - 1;
    assert pairs == pairs[..n] + [pairs[n]];
    forall k | k in Uppers(pairs) ensures k in Uppers(pairs[..n]) + {pairs[n].0} {
      var p :| p in pairs && p.0 == k;
      assert p in pairs[..n] || p == pairs[n];
    }
    forall k | k in Uppers(pairs[..n]) + {pairs[n].0} ensures k in Uppers(pairs) {
      assert pairs[n] in pairs;
    }
  }

  lemma {:induction false} FilledKeys(view: map<int, int>, pairs: Pairs)
    ensures Filled(view, pairs).Keys == view.Keys + Uppers(pairs)
  {
    if pairs != [] {
      FilledKeys(view, pairs[..|pairs| - 1]);
      UppersPush(pairs);
    }
  }

  /** The value of a constant that was set does not depend on what the table had before. */
  lemma {:induction false} FilledAgain(view: map<int, int>, pairs: Pairs, k: int)
    requires k in Uppers(pairs)
    ensures k in Filled(view, pairs) && k in Filled(map[], pairs) && Filled(view, pairs)[k] == Filled(map[], pairs)[k]
  {
    var n := |pairs| - 1;
    UppersPush(pairs);
    if k != pairs[n].0 {
      FilledAgain(view, pairs[..n], k);
    }
  }

  /** Restart: with the same constants, every lower-half value is replaced and no entry is added. */
  lemma RestartReplaces(view: map<int, int>, pairs: Pairs)
    requires view.Keys == Uppers(pairs)
    ensures Filled(view, pairs) == Filled(map[], pairs) && Filled(view, pairs).Keys == view.Keys
  {
    FilledKeys(view, pairs);
    FilledKeys(map[], pairs);
    forall k | k in view ensures Filled(view, pairs)[k] == Filled(map[], pairs)[k] {
      FilledAgain(view, pairs, k);
    }
  }

  /** A constant has one value in the lower half. */
  predicate Functional(pairs: Pairs) {
    forall i, j :: 0 <= i < j < |pairs| && pairs[i].0 == pairs[j].0 ==> pairs[i].1 == pairs[j].1
  }

  lemma {:induction false} FilledValue(pairs: Pairs, i: nat)
    requires Functional(pairs) && i < |pairs|
    ensures pairs[i].0 in Filled(map[], pairs) && Filled(map[], pairs)[pairs[i].0] == pairs[i].1
  {
    var n := |pairs| - 1;
    if i < n {
      FilledValue(pairs[..n], i);
    }
  }

  lemma {:induction false} FilledFrom(pairs: Pairs, k: int) returns (i: nat)
    requires k in Filled(map[], pairs)
    ensures i < |pairs| && pairs[i] == (k, Filled(map[], pairs)[k])
  {
    var n := |pairs| - 1;
    if k == pairs[n].0 {
      return n;
    }
    i := FilledFrom(pairs[..n], k);
  }

  lemma {:induction false} SwappedHas(pairs: Pairs, i: nat)
    requires i < |pairs|
    ensures pairs[i].1 in Filled(map[], Swapped(pairs))
  {
    FilledKeys(map[], Swapped(pairs));
    assert Swapped(pairs)[i] in Swapped(pairs);
  }

  /** lower_of_constant() undoes upper_of_constant(): the value of a lower-half constant goes to an
      upper-half constant that stands for it. */
  lemma LowerOfUpper(pairs: Pairs, i: nat)
    requires Functional(pairs) && i < |pairs|
    ensures var toLower, toUpper := Filled(map[], pairs), Filled(map[], Swapped(pairs));
            pairs[i].1 in toUpper && toUpper[pairs[i].1] in toLower && toLower[toUpper[pairs[i].1]] == pairs[i].1
  {
    SwappedHas(pairs, i);
    var j := FilledFrom(Swapped(pairs), pairs[i].1);
    FilledValue(pairs, j);
  }

  lemma {:induction false} FilledGrows(view: map<int, int>, pairs: Pairs, n: nat)
    requires n <= |pairs|
    ensures |Filled(view, pairs[..n])| <= |Filled(view, pairs)|
  {
    FilledKeys(view, pairs);
    FilledKeys(view, pairs[..n]);
    var few, all := Filled(view, pairs[..n]), Filled(view, pairs);
    assert few.Keys <= all.Keys;
    SubsetSize(few.Keys, all.Keys);
    assert |few| == |few.Keys| && |all| == |all.Keys|;
  }

  lemma SubsetSize(a: set<int>, b: set<int>)
    requires a <= b
    ensures |a| <= |b|
  {
    assert b == a + (b - a);
  }

  class Constants {
    const table: array<Constant>        // upper_to_lower_constants
    var num: nat                        // num_constants
    var toUpper: map<int, int>          // lower_to_upper_constants
    ghost var view: map<int, int>

    ghost predicate Ok()
      reads this, table
    {
      TableOk(table[..], num, view)
    }

    constructor ()
      ensures Ok() && view == map[] && fresh(table)
    {
      table := new Constant[SIZE](_ => Constant(0, 0, false));
      num, toUpper, view := 0, map[], map[];
      new;
      CountNone(table[..]);
    }

    /** The probe of find_constant() and set_upper_to_lower().  It ends. */
    method Probe(upper: int) returns (i: nat)
      requires Ok()
      ensures Found(table[..], upper, i)
    {
      ghost var unused := SomeUnused(table[..]);
      ghost var d: nat := 0;
      i := Hash(upper);
      while table[i].used && table[i].upper != upper
        invariant i < SIZE && d <= Distance(upper, unused) && Passed(table[..], upper, i, d)
        decreases SIZE - d
      {
        PassOne(table[..], upper, i, d, unused);
        i := (i + 1) % SIZE;
        d := d + 1;
      }
    }

    /** lower_of_constant() */
    method LowerOf(key: int) returns (lower: int)
      requires Ok()
      ensures lower == if key in view then view[key] else key
    {
      var i := Probe(key);
      FoundIffThere(table[..], num, view, key, i);
      lower := if table[i].used then table[i].lower else key;
    }

    /** set_upper_to_lower(): fails when the table's assertion does. */
    method Set(upper: int, lower: int) returns (ok: bool)
      requires Ok()
      modifies this, table
      ensures ok <==> upper in old(view) || old(num) < 128
      ensures ok ==> Ok() && view == old(view)[upper := lower] && toUpper == old(toUpper)[lower := upper]
    {
      var i := Probe(upper);
      FoundIffThere(table[..], num, view, upper, i);
      if !table[i].used && num == LIMIT {
        return false;
      }
      SetOk(table[..], num, view, upper, lower, i);
      if !table[i].used {
        num := num + 1;
      }
      table[i] := Constant(upper, lower, true);
      toUpper := toUpper[lower := upper];
      view := view[upper := lower];
      assert table[..] == old(table[..])[i := Constant(upper, lower, true)];
      return true;
    }

    /** init_predefined_virt_ids(), at MPI_Init and at restart. */
    method Init(pairs: Pairs) returns (ok: bool)
      requires Ok()
      modifies this, table
      ensures ok <==> |Filled(old(view), pairs)| <= 128
      ensures ok ==> Ok() && view == Filled(old(view), pairs) && toUpper == Filled(map[], Swapped(pairs))
    {
      toUpper := map[];
      var i := 0;
      while i < |pairs|
        invariant 0 <= i <= |pairs| && Ok()
        invariant view == Filled(old(view), pairs[..i]) && toUpper == Filled(map[], Swapped(pairs[..i]))
      {
        FilledStep(old(view), pairs, i);
        FilledGrows(old(view), pairs, i + 1);
        SetSize(view, pairs[i].0, pairs[i].1);
        ok := Set(pairs[i].0, pairs[i].1);
        if !ok {
          return;
        }
        i := i + 1;
      }
      assert pairs[..i] == pairs;
      return true;
    }
  }

  lemma {:induction false} CountNone(table: seq<Constant>)
    requires forall i :: 0 <= i < |table| ==> !table[i].used
    ensures Count(table) == 0
  {
    if table != [] {
      CountNone(table[..|table| - 1]);
    }
  }

  lemma FilledStep(view: map<int, int>, pairs: Pairs, i: nat)
    requires i < |pairs|
    ensures Filled(view, pairs[..i + 1]) == Filled(view, pairs[..i])[pairs[i].0 := pairs[i].1]
    ensures Filled(map[], Swapped(pairs[..i + 1])) == Filled(map[], Swapped(pairs[..i]))[pairs[i].1 := pairs[i].0]
  {
    assert pairs[..i + 1][..i] == pairs[..i];
    assert Swapped(pairs[..i + 1])[..i] == Swapped(pairs[..i]);
  }
}
