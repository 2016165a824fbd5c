/** The collision driver all four scripts share, described round by round.
    Round `t` inserts the current real text into the real table and the current
    fake text into the fake table, then checks the tables against each other.
    A run is fixed by what each side hashes in each round; the tables after `t`
    rounds are then a function of `t`, which the scripts' classes keep in step
    with their dictionaries. */
module Driver {
  import opened Digest
  import opened Tables

  /** What one run fixes up front: the value each side holds in round `t`, how
      a value is rendered into the hashed string, the digest and the key length. */
  datatype Attack<!T> = Attack(realRound: nat -> T, fakeRound: nat -> T, render: T -> string,
                              h: Hasher, numChars: KeyLength)

  /** `real_hash` of round `t`. */
  function RealKey<T>(a: Attack<T>, t: nat): string
  {
    KeyOf(a.realRound(t), a.render, a.h, a.numChars)
  }

  /** `fake_hash` of round `t`. */
  function FakeKey<T>(a: Attack<T>, t: nat): string
  {
    KeyOf(a.fakeRound(t), a.render, a.h, a.numChars)
  }

  /** The values one side inserted in rounds `0 .. t-1`, in order. */
  function History<T>(round: nat -> T, t: nat): (hs: seq<T>)
    ensures |hs| == t
    ensures forall r :: 0 <= r < t ==> hs[r] == round(r)
  {
    seq(t, r requires 0 <= r < t => round(r))
  }

  /** Each round appends its own value to the history and leaves the earlier
      ones in place. */
  lemma HistoryStep<T>(round: nat -> T, t: nat)
    ensures History(round, t + 1) == History(round, t) + [round(t)]
    ensures History(round, t + 1)[..t] == History(round, t)
  {
    assert History(round, t + 1)[..t] == History(round, t);
  }

  /** `all_real_hashes` once rounds `0 .. t-1` have inserted. */
  function RealTable<T>(a: Attack<T>, t: nat): map<string, T>
  {
    Tabulate(History(a.realRound, t), a.render, a.h, a.numChars)
  }

  /** `all_fake_hashes` once rounds `0 .. t-1` have inserted. */
  function FakeTable<T>(a: Attack<T>, t: nat): map<string, T>
  {
    Tabulate(History(a.fakeRound, t), a.render, a.h, a.numChars)
  }

  /** Round `t` stores each side's value under its key, overwriting whatever
      that side held under the key, and changes nothing else. */
  lemma TablesStep<T>(a: Attack<T>, t: nat)
    ensures RealTable(a, t + 1) == RealTable(a, t)[RealKey(a, t) := a.realRound(t)]
    ensures FakeTable(a, t + 1) == FakeTable(a, t)[FakeKey(a, t) := a.fakeRound(t)]
  {
    HistoryStep(a.realRound, t);
    HistoryStep(a.fakeRound, t);
  }

  /** The table invariant: every stored value digests to its key. */
  lemma TablesKeyed<T>(a: Attack<T>, t: nat)
    ensures Keyed(RealTable(a, t), a.render, a.h, a.numChars)
    ensures Keyed(FakeTable(a, t), a.render, a.h, a.numChars)
  {
    TabulateKeyed(History(a.realRound, t), a.render, a.h, a.numChars);
    TabulateKeyed(History(a.fakeRound, t), a.render, a.h, a.numChars);
  }

  /** A key is in one side's table after `t` rounds exactly when some earlier
      round of that side produced it, and it then holds the value of the last
      such round. */
  lemma TableLookup<T>(round: nat -> T, render: T -> string, h: Hasher, numChars: KeyLength, t: nat, k: string)
    ensures var table := Tabulate(History(round, t), render, h, numChars);
      k in table <==> exists r :: 0 <= r < t && KeyOf(round(r), render, h, numChars) == k
    ensures var table := Tabulate(History(round, t), render, h, numChars);
      k in table ==> exists r :: 0 <= r < t && table[k] == round(r) &&
                                (forall u :: r < u < t ==> KeyOf(round(u), render, h, numChars) != k)
  {
    var hs := History(round, t);
    TabulateLookup(hs, render, h, numChars, k);
    if k in Tabulate(hs, render, h, numChars) {
      var r: nat :| LastWith(hs, r, k, render, h, numChars) && Tabulate(hs, render, h, numChars)[k] == hs[r];
      assert forall u :: r < u < t ==> hs[u] == round(u);
    }
    if exists r :: 0 <= r < t && KeyOf(round(r), render, h, numChars) == k {
      var r :| 0 <= r < t && KeyOf(round(r), render, h, numChars) == k;
      assert hs[r] == round(r);
    }
  }

  /** The bidirectional check of round `t` (line_spaces_v2.py, line_spaces_mvp.py,
      trailing_spaces.py), made after that round's inserts. */
  function Decision<T>(a: Attack<T>, t: nat): Option<string>
  {
    ChooseKey(RealKey(a, t), FakeKey(a, t), RealTable(a, t + 1), FakeTable(a, t + 1))
  }

  /** The one-directional check of main.py: only the real key is looked up. A
      hit is a hit of the bidirectional check on the same key; a miss is one
      there too unless the fake key is in the real table. */
  function ForwardDecision<T>(a: Attack<T>, t: nat): (r: Option<string>)
    ensures r.Some? <==> RealKey(a, t) in FakeTable(a, t + 1)
    ensures r.Some? ==> r == Decision(a, t) && r.value == RealKey(a, t)
    ensures r.None? ==> (Decision(a, t).Some? <==> FakeKey(a, t) in RealTable(a, t + 1))
  {
    if RealKey(a, t) in FakeTable(a, t + 1) then Some(RealKey(a, t)) else None
  }

  /** Round `t` hits exactly when its real key was produced by some fake round
      up to `t`, or its fake key by some real round up to `t`. */
  lemma DecisionHits<T>(a: Attack<T>, t: nat)
    ensures Decision(a, t).Some? <==>
      (exists r :: 0 <= r <= t && FakeKey(a, r) == RealKey(a, t)) ||
      (exists r :: 0 <= r <= t && RealKey(a, r) == FakeKey(a, t))
  {
    TableLookup(a.fakeRound, a.render, a.h, a.numChars, t + 1, RealKey(a, t));
    TableLookup(a.realRound, a.render, a.h, a.numChars, t + 1, FakeKey(a, t));
    assert forall r :: 0 <= r <= t ==> FakeKey(a, r) == KeyOf(a.fakeRound(r), a.render, a.h, a.numChars);
    assert forall r :: 0 <= r <= t ==> RealKey(a, r) == KeyOf(a.realRound(r), a.render, a.h, a.numChars);
  }

  /** A hit names a key of both tables; both values stored under it digest to
      it, and each was produced by some round up to `t`. */
  lemma DecisionCollides<T>(a: Attack<T>, t: nat)
    requires Decision(a, t).Some?
    ensures var k := Decision(a, t).value;
      var reals, fakes := RealTable(a, t + 1), FakeTable(a, t + 1);
      k in reals && k in fakes &&
      KeyOf(reals[k], a.render, a.h, a.numChars) == k &&
      KeyOf(fakes[k], a.render, a.h, a.numChars) == k &&
      (exists r :: 0 <= r <= t && reals[k] == a.realRound(r)) &&
      (exists r :: 0 <= r <= t && fakes[k] == a.fakeRound(r))
  {
    var k := Decision(a, t).value;
    TablesStep(a, t);
    TablesKeyed(a, t + 1);
    TableLookup(a.realRound, a.render, a.h, a.numChars, t + 1, k);
    TableLookup(a.fakeRound, a.render, a.h, a.numChars, t + 1, k);
  }
}
