/**
 * Grouping by a text key into a record kept in insertion order, as the
 * dashboard does with `acc[key] ||= {...}; acc[key].x += ...` followed by
 * `Object.entries`. The keys are never array indices (they are month names
 * or category names), so `Object.entries` lists them in insertion order.
 */
module Tally {
  import opened Common

  /** One contribution: the key it is filed under and the amount it adds. */
  datatype Entry = Entry(key: string, amount: real)

  /** One group: how many entries it received and the sum of their amounts. */
  datatype Total = Total(key: string, count: nat, sum: real)

  /** The position of the group with `key`, or `|ts|` when there is none. */
  function IndexOf(ts: seq<Total>, key: string): (i: nat)
    ensures i <= |ts|
    ensures i < |ts| ==> ts[i].key == key
    ensures forall j :: 0 <= j < i ==> ts[j].key != key
  {
    if ts == [] then 0
    else if ts[0].key == key then 0
    else 1 + IndexOf(ts[1..], key)
  }

  /** Group i receives one more entry of `amount`. */
  function Bump(ts: seq<Total>, i: nat, amount: real): (r: seq<Total>)
    requires i < |ts|
    ensures |r| == |ts|
  {
    ts[i := ts[i].(count := ts[i].count + 1, sum := ts[i].sum + amount)]
  }

  /** One step: start the entry's group at zero if needed, then add the entry. */
  function Add(ts: seq<Total>, e: Entry): seq<Total>
  {
    var i := IndexOf(ts, e.key);
    if i == |ts| then ts + [Total(e.key, 1, e.amount)]
    else Bump(ts, i, e.amount)
  }

  /** The record after every entry, in order, as its list of entries. */
  function Totals(es: seq<Entry>): seq<Total>
  {
    if es == [] then [] else Add(Totals(es[..|es| - 1]), es[|es| - 1])
  }

  lemma TotalsSnoc(es: seq<Entry>, e: Entry)
    ensures Totals(es + [e]) == Add(Totals(es), e)
  {
    assert (es + [e])[..|es|] == es;
  }

  /** How many entries have `key`. */
  function CountOf(es: seq<Entry>, key: string): nat
  {
    if es == [] then 0
    else CountOf(es[..|es| - 1], key) + (if es[|es| - 1].key == key then 1 else 0)
  }

  /** The summed amount of the entries with `key`. */
  function SumOf(es: seq<Entry>, key: string): real
  {
    if es == [] then 0.0
    else SumOf(es[..|es| - 1], key) + (if es[|es| - 1].key == key then es[|es| - 1].amount else 0.0)
  }

  /** The summed amount of all entries. */
  function AmountOf(es: seq<Entry>): real
  {
    if es == [] then 0.0 else AmountOf(es[..|es| - 1]) + es[|es| - 1].amount
  }

  function Counts(ts: seq<Total>): nat
  {
    if ts == [] then 0 else ts[0].count + Counts(ts[1..])
  }

  function Sums(ts: seq<Total>): real
  {
    if ts == [] then 0.0 else ts[0].sum + Sums(ts[1..])
  }

  /** Some entry has `key`. */
  predicate Holds(es: seq<Entry>, key: string)
  {
    exists k :: 0 <= k < |es| && es[k].key == key
  }

  lemma HoldsSnoc(es: seq<Entry>, e: Entry, key: string)
    ensures Holds(es + [e], key) <==> Holds(es, key) || e.key == key
  {
    var all := es + [e];
    if Holds(es, key) {
      var k :| 0 <= k < |es| && es[k].key == key;
      assert all[k] == es[k];
    }
    if Holds(all, key) {
      var k :| 0 <= k < |all| && all[k].key == key;
      if k < |es| {
        assert all[k] == es[k];
      }
    }
    if e.key == key {
      assert all[|es|] == e;
    }
  }

  lemma {:induction false} AbsentIsZero(es: seq<Entry>, key: string)
    requires !Holds(es, key)
    ensures CountOf(es, key) == 0 && SumOf(es, key) == 0.0
  {
    if es != [] {
      var init := es[..|es| - 1];
      assert !Holds(init, key) by {
        forall k | 0 <= k < |init| ensures init[k].key != key
        {
          assert init[k] == es[k];
        }
      }
      assert es[|es| - 1].key != key;
      AbsentIsZero(init, key);
    }
  }

  lemma {:induction false} CountsSnoc(a: seq<Total>, t: Total)
    ensures Counts(a + [t]) == Counts(a) + t.count && Sums(a + [t]) == Sums(a) + t.sum
  {
    if a != [] {
      assert (a + [t])[1..] == a[1..] + [t];
      CountsSnoc(a[1..], t);
    }
  }

  lemma {:induction false} CountsUpdate(ts: seq<Total>, i: nat, amount: real)
    requires i < |ts|
    ensures Counts(Bump(ts, i, amount)) == Counts(ts) + 1 && Sums(Bump(ts, i, amount)) == Sums(ts) + amount
  {
    if i > 0 {
      var t := ts[i].(count := ts[i].count + 1, sum := ts[i].sum + amount);
      assert ts[i := t][1..] == ts[1..][i - 1 := t];
      CountsUpdate(ts[1..], i - 1, amount);
    }
  }

  lemma {:induction false} AmountOfAppend(a: seq<Entry>, b: seq<Entry>)
    ensures AmountOf(a + b) == AmountOf(a) + AmountOf(b)
  {
    if b != [] {
      assert (a + b)[..|a + b| - 1] == a + b[..|b| - 1];
      AmountOfAppend(a, b[..|b| - 1]);
    } else {
      assert a + b == a;
    }
  }

  /** The groups' counts add up to the number of entries, and their sums to the total amount. */
  lemma {:induction false} Conservation(es: seq<Entry>)
    ensures Counts(Totals(es)) == |es|
    ensures Sums(Totals(es)) == AmountOf(es)
  {
    if es != [] {
      var init, e := es[..|es| - 1], es[|es| - 1];
      Conservation(init);
      var ts := Totals(init);
      var i := IndexOf(ts, e.key);
      if i == |ts| {
        CountsSnoc(ts, Total(e.key, 1, e.amount));
      } else {
        CountsUpdate(ts, i, e.amount);
      }
    }
  }

  /**
   * One group per key, a group for exactly the keys that occur, and each
   * group holding the count and the sum of the entries with its key.
   */
  lemma {:induction false} GroupsByKey(es: seq<Entry>)
    ensures forall i, j :: 0 <= i < j < |Totals(es)| ==> Totals(es)[i].key != Totals(es)[j].key
    ensures forall i :: 0 <= i < |Totals(es)| ==>
      Totals(es)[i].count == CountOf(es, Totals(es)[i].key) &&
      Totals(es)[i].sum == SumOf(es, Totals(es)[i].key)
    ensures forall key :: (exists t :: t in Totals(es) && t.key == key) <==> Holds(es, key)
  {
    if es != [] {
      var init, e := es[..|es| - 1], es[|es| - 1];
      assert es == init + [e];
      GroupsByKey(init);
      var ts := Totals(init);
      var i := IndexOf(ts, e.key);
      var r := Totals(es);
      forall k | 0 <= k < |r|
        ensures r[k].count == CountOf(es, r[k].key) && r[k].sum == SumOf(es, r[k].key)
      {
        if k == |ts| {
          AbsentIsZero(init, e.key);
        }
      }
      forall key ensures (exists t :: t in r && t.key == key) <==> Holds(es, key)
      {
        HoldsSnoc(init, e, key);
        if key == e.key {
          assert r[if i == |ts| then |ts| else i] in r;
        } else if Holds(init, key) {
          var t :| t in ts && t.key == key;
          var k :| 0 <= k < |ts| && ts[k] == t;
          assert r[k] in r;
        } else {
          forall t | t in r ensures t.key != key
          {
            var k :| 0 <= k < |r| && r[k] == t;
            if k < |ts| {
              assert ts[k] in ts;
            }
          }
        }
      }
    }
  }
}
