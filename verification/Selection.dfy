/** What it means that one list is selected from another: the positions picked, in order, and what each becomes. */
module Selections {

  /** Positions of a list of length `n`, each after the one before. */
  ghost predicate Ascending(ps: seq<nat>, n: nat) {
    && (forall k :: 0 <= k < |ps| ==> ps[k] < n)
    && (forall j, k :: 0 <= j < k < |ps| ==> ps[j] < ps[k])
  }

  /** `ps` are all positions of `xs` that hold something to keep. */
  ghost predicate Picks<T(!new)>(xs: seq<T>, keep: T -> bool, ps: seq<nat>) {
    && Ascending(ps, |xs|)
    && forall i: nat :: i < |xs| ==> (i in ps <==> keep(xs[i]))
  }

  /** `ys` is what is kept of `xs`, in order, each in its new form. */
  ghost predicate Selects<T(!new), U(!new)>(xs: seq<T>, keep: T -> bool, form: T -> U, ys: seq<U>) {
    exists ps: seq<nat> :: Picks(xs, keep, ps) && Formed(xs, form, ps, ys)
  }

  ghost predicate Formed<T(!new), U(!new)>(xs: seq<T>, form: T -> U, ps: seq<nat>, ys: seq<U>) {
    |ys| == |ps| && forall k :: 0 <= k < |ps| ==> ps[k] < |xs| && ys[k] == form(xs[ps[k]])
  }

  /** There is only one such list of positions. */
  lemma {:induction false} SamePositions(ps: seq<nat>, qs: seq<nat>, n: nat)
    requires Ascending(ps, n) && Ascending(qs, n) && forall i: nat :: i in ps <==> i in qs
    ensures ps == qs
    decreases |ps|
  {
    if ps == [] || qs == [] {
      assert |ps| == 0 <==> forall i: nat :: i !in ps by { NoMember(ps); }
      assert |qs| == 0 <==> forall i: nat :: i !in qs by { NoMember(qs); }
    } else {
      var a, b := |ps| - 1, |qs| - 1;
      assert ps[a] in qs && qs[b] in ps;
      assert ps[a] == qs[b];
      forall i: nat ensures i in ps[..a] <==> i in qs[..b] {
        assert i in ps[..a] <==> i in ps && i != ps[a] by { AllButLast(ps, n, i); }
        assert i in qs[..b] <==> i in qs && i != qs[b] by { AllButLast(qs, n, i); }
      }
      SamePositions(ps[..a], qs[..b], n);
      assert ps == ps[..a] + [ps[a]] && qs == qs[..b] + [qs[b]];
    }
  }

  lemma NoMember(ps: seq<nat>)
    ensures |ps| == 0 <==> forall i: nat :: i !in ps
  {
    if |ps| > 0 {
      assert ps[0] in ps;
    }
  }

  lemma AllButLast(ps: seq<nat>, n: nat, i: nat)
    requires Ascending(ps, n) && ps != []
    ensures i in ps[..|ps| - 1] <==> i in ps && i != ps[|ps| - 1]
  {
    assert ps == ps[..|ps| - 1] + [ps[|ps| - 1]];
  }

  lemma SelectsOne<T(!new), U(!new)>(xs: seq<T>, keep: T -> bool, form: T -> U, ys: seq<U>, zs: seq<U>)
    requires Selects(xs, keep, form, ys) && Selects(xs, keep, form, zs)
    ensures ys == zs
  {
    var ps :| Picks(xs, keep, ps) && Formed(xs, form, ps, ys);
    var qs :| Picks(xs, keep, qs) && Formed(xs, form, qs, zs);
    forall i: nat ensures i in ps <==> i in qs {
      if i < |xs| {
        assert i in ps <==> keep(xs[i]);
      }
    }
    SamePositions(ps, qs, |xs|);
  }

  lemma SelectsNothing<T(!new), U(!new)>(keep: T -> bool, form: T -> U)
    ensures Selects([], keep, form, [])
  {
    assert Picks<T>([], keep, []) && Formed<T, U>([], form, [], []);
  }

  /** The positions in a list, from those in its tail. */
  function NextPositions(ps: seq<nat>): seq<nat> {
    seq(|ps|, k requires 0 <= k < |ps| => ps[k] + 1)
  }

  function WithFirst(first: bool, rest: seq<nat>): seq<nat> {
    (if first then [0] else []) + NextPositions(rest)
  }

  lemma FirstMembers(first: bool, rest: seq<nat>, n: nat)
    requires Ascending(rest, n)
    ensures Ascending(WithFirst(first, rest), n + 1)
    ensures forall i: nat :: i in WithFirst(first, rest) <==> if i == 0 then first else i - 1 in rest
  {
    NextMembers(rest, n);
    hide NextPositions;
    var moved := NextPositions(rest);
    assert forall i: nat :: i in [0] + moved <==> i == 0 || i in moved;
    assert [] + moved == moved;
  }

  lemma NextMembers(rest: seq<nat>, n: nat)
    requires Ascending(rest, n)
    ensures Ascending(NextPositions(rest), n + 1)
    ensures forall k :: 0 <= k < |NextPositions(rest)| ==> NextPositions(rest)[k] > 0
    ensures forall i: nat :: i in NextPositions(rest) <==> i > 0 && i - 1 in rest
  {
    forall i: nat ensures i in NextPositions(rest) <==> i > 0 && i - 1 in rest {
      if i > 0 && i - 1 in rest {
        var k :| 0 <= k < |rest| && rest[k] == i - 1;
        assert NextPositions(rest)[k] == i;
      }
    }
  }

  lemma PicksCons<T(!new)>(xs: seq<T>, keep: T -> bool, rest: seq<nat>)
    requires xs != [] && Picks(xs[1..], keep, rest)
    ensures Picks(xs, keep, WithFirst(keep(xs[0]), rest))
  {
    hide Ascending, WithFirst;
    FirstMembers(keep(xs[0]), rest, |xs| - 1);
    forall i: nat | 0 < i < |xs| ensures i - 1 in rest <==> keep(xs[i]) {
      assert xs[1..][i - 1] == xs[i];
    }
  }

  lemma FormedCons<T(!new), U(!new)>(xs: seq<T>, form: T -> U, rest: seq<nat>, ys: seq<U>, first: bool)
    requires xs != [] && Formed(xs[1..], form, rest, ys)
    ensures Formed(xs, form, WithFirst(first, rest), (if first then [form(xs[0])] else []) + ys)
  {
    var off := if first then 1 else 0;
    var ps, zs := WithFirst(first, rest), (if first then [form(xs[0])] else []) + ys;
    forall k | 0 <= k < |ps| ensures ps[k] < |xs| && zs[k] == form(xs[ps[k]]) {
      if k >= off {
        assert ps[k] == rest[k - off] + 1 && zs[k] == ys[k - off];
        assert xs[1..][rest[k - off]] == xs[ps[k]];
      }
    }
  }

  lemma SelectsCons<T(!new), U(!new)>(xs: seq<T>, keep: T -> bool, form: T -> U, ys: seq<U>)
    requires xs != [] && Selects(xs[1..], keep, form, ys)
    ensures Selects(xs, keep, form, (if keep(xs[0]) then [form(xs[0])] else []) + ys)
  {
    hide Picks, Formed, WithFirst;
    var rest :| Picks(xs[1..], keep, rest) && Formed(xs[1..], form, rest, ys);
    PicksCons(xs, keep, rest);
    FormedCons(xs, form, rest, ys, keep(xs[0]));
  }
}
