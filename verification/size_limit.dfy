/** Cutting a batch of entries to a byte budget: raft/util.go:113-126. */
module SizeLimit {
  import opened RaftTypes

  /** The cut: the first entry always goes, the others as long as they fit in `max`. */
  function LimitSize(size: Entry -> nat, es: seq<Entry>, max: nat): seq<Entry> {
    if es == [] then [] else [es[0]] + Within(size, es[1..], max, size(es[0]))
  }

  function Within(size: Entry -> nat, es: seq<Entry>, max: nat, used: nat): seq<Entry> {
    if es == [] || used + size(es[0]) > max then []
    else [es[0]] + Within(size, es[1..], max, used + size(es[0]))
  }

  function Total(size: Entry -> nat, es: seq<Entry>): nat {
    if es == [] then 0 else Total(size, es[..|es| - 1]) + size(es[|es| - 1])
  }

  lemma {:induction false} TotalCons(size: Entry -> nat, es: seq<Entry>)
    requires es != []
    ensures Total(size, es) == size(es[0]) + Total(size, es[1..])
  {
    if |es| > 1 {
      TotalCons(size, es[..|es| - 1]);
      assert es[..|es| - 1][1..] == es[1..][..|es| - 2];
    }
  }

  lemma {:induction false} WithinIsPrefix(size: Entry -> nat, es: seq<Entry>, max: nat, used: nat)
    ensures Within(size, es, max, used) <= es
  {
    if es != [] && used + size(es[0]) <= max {
      WithinIsPrefix(size, es[1..], max, used + size(es[0]));
      assert es == [es[0]] + es[1..];
    }
  }

  lemma LimitSizeIsPrefix(size: Entry -> nat, es: seq<Entry>, max: nat)
    ensures LimitSize(size, es, max) <= es
    ensures es != [] ==> LimitSize(size, es, max) != []
  {
    if es != [] {
      WithinIsPrefix(size, es[1..], max, size(es[0]));
      assert es == [es[0]] + es[1..];
    }
  }

  /** k entries fit after `used` bytes, and one more does not. */
  predicate FitsExactly(size: Entry -> nat, es: seq<Entry>, max: nat, used: nat, k: nat)
    requires k <= |es|
  {
    && (k == 0 || used + Total(size, es[..k]) <= max)
    && (k == |es| || used + Total(size, es[..k + 1]) > max)
  }

  lemma {:induction false} WithinIsLongest(size: Entry -> nat, es: seq<Entry>, max: nat, used: nat)
    ensures Within(size, es, max, used) <= es
    ensures FitsExactly(size, es, max, used, |Within(size, es, max, used)|)
  {
    WithinIsPrefix(size, es, max, used);
    if es != [] {
      assert es[..1] == [es[0]] && Total(size, es[..1]) == size(es[0]) by { TotalCons(size, es[..1]); }
      if used + size(es[0]) <= max {
        var rest, used' := es[1..], used + size(es[0]);
        WithinIsLongest(size, rest, max, used');
        var k := |Within(size, rest, max, used')|;
        TotalOfCons(size, es, k);
        if k < |rest| { TotalOfCons(size, es, k + 1); }
      }
    }
  }

  lemma TotalOfCons(size: Entry -> nat, es: seq<Entry>, k: nat)
    requires es != [] && k <= |es| - 1
    ensures Total(size, es[..k + 1]) == size(es[0]) + Total(size, es[1..][..k])
  {
    TotalCons(size, es[..k + 1]);
    assert es[..k + 1][1..] == es[1..][..k];
  }

  /** The result is the longest prefix within `max`, but never empty. */
  lemma LimitSizeIsLongest(size: Entry -> nat, es: seq<Entry>, max: nat)
    requires es != []
    ensures var k := |LimitSize(size, es, max)|;
            && 1 <= k <= |es| && LimitSize(size, es, max) == es[..k]
            && (k == 1 || Total(size, es[..k]) <= max)
            && (k == |es| || Total(size, es[..k + 1]) > max)
  {
    LimitSizeIsPrefix(size, es, max);
    var rest := es[1..];
    WithinIsLongest(size, rest, max, size(es[0]));
    var k := |Within(size, rest, max, size(es[0]))|;
    TotalOfCons(size, es, k);
    if k < |rest| { TotalOfCons(size, es, k + 1); }
  }

  /** A cut that already fell inside the first part is not changed by what follows. */
  lemma {:induction false} WithinOfPrefix(size: Entry -> nat, a: seq<Entry>, b: seq<Entry>, max: nat, used: nat)
    ensures |Within(size, a, max, used)| < |a| ==> Within(size, a + b, max, used) == Within(size, a, max, used)
  {
    if a != [] {
      assert (a + b)[0] == a[0] && (a + b)[1..] == a[1..] + b;
      if used + size(a[0]) <= max { WithinOfPrefix(size, a[1..], b, max, used + size(a[0])); }
    }
  }

  lemma LimitOfPrefix(size: Entry -> nat, a: seq<Entry>, b: seq<Entry>, max: nat)
    requires a != [] && LimitSize(size, a, max) != a
    ensures LimitSize(size, a + b, max) == LimitSize(size, a, max)
  {
    LimitSizeIsPrefix(size, a, max);
    assert (a + b)[0] == a[0] && (a + b)[1..] == a[1..] + b;
    WithinIsPrefix(size, a[1..], max, size(a[0]));
    assert a == [a[0]] + a[1..];
    WithinOfPrefix(size, a[1..], b, max, size(a[0]));
  }

  /** The loop of the source. */
  method Limit(size: Entry -> nat, es: seq<Entry>, max: nat) returns (r: seq<Entry>)
    ensures r == LimitSize(size, es, max)
  {
    if |es| == 0 { return es; }
    var used: nat := size(es[0]);
    var limit: nat := 1;
    var whole := LimitSize(size, es, max);
    while limit < |es|
      invariant 1 <= limit <= |es|
      invariant whole == es[..limit] + Within(size, es[limit..], max, used)
    {
      used := used + size(es[limit]);
      if used > max { break; }
      assert es[limit..][1..] == es[limit + 1..];
      limit := limit + 1;
    }
    r := es[..limit];
  }
}
