/** The remap table by counting: overflow slots in use are as many as the holes
    below the key count, so each gets a hole of its own. */
module PtrRemap {
  import opened Basics
  import opened PtrSpec
  import opened PtrInvariant
  import opened PtrSolve

  // ---------- Counting slots ----------

  // Taken, respectively free, slots in [a, n).
  ghost function TakenFrom(taken: set<nat>, a: nat, n: nat): nat
    decreases n - a
  {
    if a >= n then 0 else (if a in taken then 1 else 0) + TakenFrom(taken, a + 1, n)
  }

  ghost function HolesFrom(taken: set<nat>, a: nat, n: nat): nat
    decreases n - a
  {
    if a >= n then 0 else (if a in taken then 0 else 1) + HolesFrom(taken, a + 1, n)
  }

  lemma {:induction false} TakenSize(taken: set<nat>, a: nat, n: nat)
    requires forall s :: s in taken ==> a <= s < n
    ensures |taken| == TakenFrom(taken, a, n)
    decreases n - a
  {
    if a >= n {
      assert taken == {};
    } else {
      var rest := taken - {a};
      TakenSize(rest, a + 1, n);
      TakenSame(taken, rest, a + 1, n);
      assert a in taken ==> taken == rest + {a};
      assert a !in taken ==> taken == rest;
    }
  }

  lemma {:induction false} TakenSame(s: set<nat>, t: set<nat>, a: nat, n: nat)
    requires forall x :: a <= x < n ==> (x in s <==> x in t)
    ensures TakenFrom(s, a, n) == TakenFrom(t, a, n)
    decreases n - a
  {
    if a < n {
      TakenSame(s, t, a + 1, n);
    }
  }

  lemma {:induction false} TakenSplit(taken: set<nat>, a: nat, m: nat, n: nat)
    requires a <= m <= n
    ensures TakenFrom(taken, a, n) == TakenFrom(taken, a, m) + TakenFrom(taken, m, n)
    ensures TakenFrom(taken, a, m) + HolesFrom(taken, a, m) == m - a
    decreases m - a
  {
    if a < m {
      TakenSplit(taken, a + 1, m, n);
    }
  }

  // As many overflow slots are taken as slots below numKeys are free.
  lemma HolesMatchOverflow(taken: set<nat>, numKeys: nat, numSlots: nat)
    requires numKeys <= numSlots && |taken| == numKeys
    requires forall s :: s in taken ==> s < numSlots
    ensures HolesFrom(taken, 0, numKeys) == TakenFrom(taken, numKeys, numSlots)
  {
    TakenSize(taken, 0, numSlots);
    TakenSplit(taken, 0, numKeys, numSlots);
  }

  // ---------- The table ----------

  ghost function NextHole(taken: set<nat>, cursor: nat, numKeys: nat): nat
    decreases numKeys - cursor
  {
    if cursor >= numKeys then numKeys
    else if cursor !in taken then cursor
    else NextHole(taken, cursor + 1, numKeys)
  }

  lemma {:induction false} NextHoleFound(taken: set<nat>, cursor: nat, numKeys: nat)
    requires HolesFrom(taken, cursor, numKeys) > 0
    ensures var h := NextHole(taken, cursor, numKeys);
            && cursor <= h < numKeys && h !in taken
            && HolesFrom(taken, h + 1, numKeys) == HolesFrom(taken, cursor, numKeys) - 1
    decreases numKeys - cursor
  {
    if cursor in taken {
      NextHoleFound(taken, cursor + 1, numKeys);
    }
  }

  // Entries for the overflow slots from `slot` on; an unused slot gets 0.
  ghost function Table(taken: set<nat>, numKeys: nat, numSlots: nat, slot: nat, cursor: nat): (r: seq<nat>)
    ensures |r| == if slot < numSlots then numSlots - slot else 0
    decreases numSlots - slot
  {
    if slot >= numSlots then []
    else if slot !in taken then [0] + Table(taken, numKeys, numSlots, slot + 1, cursor)
    else
      var h := NextHole(taken, cursor, numKeys);
      [h] + Table(taken, numKeys, numSlots, slot + 1, h + 1)
  }

  // Each used overflow slot is sent to a hole at or after `cursor`, in increasing order.
  ghost predicate FillsHoles(taken: set<nat>, numKeys: nat, slot: nat, cursor: nat, table: seq<nat>) {
    && (forall k :: 0 <= k < |table| && slot + k !in taken ==> table[k] == 0)
    && (forall k :: 0 <= k < |table| && slot + k in taken ==> cursor <= table[k] < numKeys && table[k] !in taken)
    && (forall j, k :: 0 <= j < k < |table| && slot + j in taken && slot + k in taken ==> table[j] < table[k])
  }

  lemma {:induction false} TableFillsHoles(taken: set<nat>, numKeys: nat, numSlots: nat, slot: nat, cursor: nat)
    requires HolesFrom(taken, cursor, numKeys) == TakenFrom(taken, slot, numSlots)
    ensures FillsHoles(taken, numKeys, slot, cursor, Table(taken, numKeys, numSlots, slot, cursor))
    decreases numSlots - slot
  {
    if slot < numSlots {
      var r := Table(taken, numKeys, numSlots, slot, cursor);
      var h := cursor;
      if slot in taken {
        NextHoleFound(taken, cursor, numKeys);
        h := NextHole(taken, cursor, numKeys) + 1;
      }
      TableFillsHoles(taken, numKeys, numSlots, slot + 1, h);
      var t := Table(taken, numKeys, numSlots, slot + 1, h);
      assert r == [r[0]] + t;
      assert forall k :: 1 <= k < |r| ==> r[k] == t[k - 1] && slot + k == slot + 1 + (k - 1);
    }
  }

  // ---------- The final slot ----------

  function FinalSlot(table: seq<nat>, numKeys: nat, slot: nat): nat
    requires slot < numKeys + |table|
  {
    if slot < numKeys then slot else table[slot - numKeys]
  }

  lemma FinalSlotInjective(taken: set<nat>, numKeys: nat, numSlots: nat, table: seq<nat>, s: nat, s': nat)
    requires 0 < numKeys && |table| == numSlots - numKeys && s < s' < numSlots
    requires FillsHoles(taken, numKeys, numKeys, 0, table)
    requires s in taken && s' in taken
    ensures FinalSlot(table, numKeys, s) != FinalSlot(table, numKeys, s')
  {
    if s' >= numKeys {
      assert numKeys + (s' - numKeys) == s';
      if s >= numKeys {
        assert numKeys + (s - numKeys) == s;
      }
    }
  }

  // The final slots that a set of slots is sent to.
  ghost function Image(table: seq<nat>, numKeys: nat, slots: set<nat>): set<nat>
    requires forall s :: s in slots ==> s < numKeys + |table|
  {
    set s | s in slots :: FinalSlot(table, numKeys, s)
  }

  ghost predicate Injective(table: seq<nat>, numKeys: nat, slots: set<nat>)
    requires forall s :: s in slots ==> s < numKeys + |table|
  {
    forall s, s' :: s in slots && s' in slots && s != s' ==> FinalSlot(table, numKeys, s) != FinalSlot(table, numKeys, s')
  }

  lemma {:induction false} ImageSize(table: seq<nat>, numKeys: nat, slots: set<nat>)
    requires forall s :: s in slots ==> s < numKeys + |table|
    requires Injective(table, numKeys, slots)
    ensures |Image(table, numKeys, slots)| == |slots|
    decreases |slots|
  {
    if slots != {} {
      var s :| s in slots;
      var rest := slots - {s};
      ImageSize(table, numKeys, rest);
      assert Image(table, numKeys, slots) == Image(table, numKeys, rest) + {FinalSlot(table, numKeys, s)};
    }
  }

  /** The remap sends the taken slots one-to-one onto [0, numKeys), and its
      entries send every other slot into that range too. */
  ghost predicate RemapsOnto(table: seq<nat>, numKeys: nat, taken: set<nat>) {
    && (forall k :: 0 <= k < |table| ==> table[k] < numKeys)
    && (forall s :: s in taken ==> s < numKeys + |table|)
    && Injective(table, numKeys, taken)
    && Image(table, numKeys, taken) == Range(numKeys)
  }

  lemma TableRemapsOnto(taken: set<nat>, numKeys: nat, numSlots: nat)
    requires 0 < numKeys <= numSlots && |taken| == numKeys
    requires forall s :: s in taken ==> s < numSlots
    ensures RemapsOnto(Table(taken, numKeys, numSlots, numKeys, 0), numKeys, taken)
  {
    var t := Table(taken, numKeys, numSlots, numKeys, 0);
    HolesMatchOverflow(taken, numKeys, numSlots);
    TableFillsHoles(taken, numKeys, numSlots, numKeys, 0);
    assert forall k :: 0 <= k < |t| ==> t[k] < numKeys;
    hide FillsHoles, Table;
    assert Injective(t, numKeys, taken) by {
      hide FinalSlot;
      forall s, s' | s in taken && s' in taken && s != s'
        ensures FinalSlot(t, numKeys, s) != FinalSlot(t, numKeys, s')
      {
        FinalSlotInjective(taken, numKeys, numSlots, t, if s < s' then s else s', if s < s' then s' else s);
      }
    }
    ImageSize(t, numKeys, taken);
    SubsetSize(Image(t, numKeys, taken), Range(numKeys));
  }
}
