/** Small shared vocabulary: an optional value and sums over sequences. */
module Common {

  /** A clock hour as `Date.getHours()` reports it. */
  type Hour = h: nat | h < 24

  /** `undefined`/`null` versus a present value. */
  datatype Option<+T> = None | Some(value: T)

  /** Sum of a sequence of reals, folded from the right. */
  function SumReal(s: seq<real>): real
  {
    if s == [] then 0.0 else s[0] + SumReal(s[1..])
  }

  /** Sum of a sequence of integers, folded from the right. */
  function SumInt(s: seq<int>): int
  {
    if s == [] then 0 else s[0] + SumInt(s[1..])
  }

  lemma {:induction false} SumRealAppend(a: seq<real>, b: seq<real>)
    ensures SumReal(a + b) == SumReal(a) + SumReal(b)
  {
    if a == [] {
      assert a + b == b;
    } else {
      assert (a + b)[1..] == a[1..] + b;
      SumRealAppend(a[1..], b);
    }
  }

  lemma {:induction false} SumIntAppend(a: seq<int>, b: seq<int>)
    ensures SumInt(a + b) == SumInt(a) + SumInt(b)
  {
    if a == [] {
      assert a + b == b;
    } else {
      assert (a + b)[1..] == a[1..] + b;
      SumIntAppend(a[1..], b);
    }
  }

  lemma {:induction false} SumIntZeros(n: nat)
    ensures SumInt(seq(n, _ => 0)) == 0
  {
    if n > 0 {
      assert seq(n, _ => 0)[1..] == seq(n - 1, _ => 0);
      SumIntZeros(n - 1);
    }
  }

  lemma {:induction false} SumIntUpdate(c: seq<int>, i: nat, d: int)
    requires i < |c|
    ensures SumInt(c[i := c[i] + d]) == SumInt(c) + d
  {
    if i > 0 {
      assert c[i := c[i] + d][1..] == c[1..][i - 1 := c[i] + d];
      SumIntUpdate(c[1..], i - 1, d);
    }
  }

  /** `s.filter((_, i) => i !== index)`, with `offset` the position of `s[0]`. */
  function DropIndex<T>(s: seq<T>, index: int, offset: int): seq<T>
  {
    if |s| == 0 then []
    else (if offset != index then [s[0]] else []) + DropIndex(s[1..], index, offset + 1)
  }

  /** The filter removes exactly the element at `index`, or nothing when there is no such element. */
  lemma {:induction false} DropIndexRemoves<T>(s: seq<T>, index: int, offset: int)
    ensures offset <= index < offset + |s| ==>
      DropIndex(s, index, offset) == s[..index - offset] + s[index - offset + 1..]
    ensures !(offset <= index < offset + |s|) ==> DropIndex(s, index, offset) == s
  {
    if |s| > 0 {
      var rest := DropIndex(s[1..], index, offset + 1);
      DropIndexRemoves(s[1..], index, offset + 1);
      if offset == index {
        assert DropIndex(s, index, offset) == rest == s[1..];
        assert s[..0] + s[1..] == s[1..];
      } else {
        assert DropIndex(s, index, offset) == [s[0]] + rest;
        if offset < index < offset + |s| {
          SpliceCons(s, index - offset);
        } else {
          assert rest == s[1..];
          assert s == [s[0]] + s[1..];
        }
      }
    }
  }

  /** Cutting out position `k > 0` keeps the head in front of the cut tail. */
  lemma SpliceCons<T>(s: seq<T>, k: int)
    requires 0 < k < |s|
    ensures s[..k] + s[k + 1..] == [s[0]] + (s[1..][..k - 1] + s[1..][k..])
  {
    assert s[..k] == [s[0]] + s[1..][..k - 1];
    assert s[k + 1..] == s[1..][k..];
  }
}
