/** main.py: the first version of the whole-text attack. It pads like
    trailing_spaces.py, but its check looks only for the current real key in
    the fake table, and on a hit it writes the CURRENT fake text. */
module MainScript {
  import opened Digest
  import opened Text
  import opened Tables
  import opened Driver
  import TrailingSpaces

  /** Lines 52-55 as written: the printed key is `real_hash`, the real file
      gets `all_real_hashes[real_hash]` and the fake file gets
      `all_fake_hashes[fake_hash]`. After round `t` has inserted, both
      lookups hit the texts of round `t` itself. */
  function WrittenAsIs(a: Attack<string>, t: nat): (c: Collision)
    ensures c.key == RealKey(a, t)
    ensures c.realText == a.realRound(t) && c.fakeText == a.fakeRound(t)
  {
    TablesStep(a, t);
    Collision(RealKey(a, t), RealTable(a, t + 1)[RealKey(a, t)], FakeTable(a, t + 1)[FakeKey(a, t)])
  }

  /** The state of one run of main.py. The script keeps no round
      counter; `round` counts the passes for the specification only. */
  class Search {
    const realOg: string
    const fakeOg: string
    const numChars: KeyLength
    const h: Hasher
    /** `real` */
    var realText: string
    /** `fake` */
    var fakeText: string
    var allRealHashes: map<string, string>
    var allFakeHashes: map<string, string>
    ghost var round: nat
    /** Set by the `break` of a hit. */
    var stopped: bool

    /** The run this object carries out: the texts are hashed as they are. */
    function Spec(): Attack<string>
    {
      Attack(TrailingSpaces.RoundsOf(realOg), TrailingSpaces.RoundsOf(fakeOg), Verbatim, h, numChars)
    }

    /** Rounds whose inserts are in the tables. */
    ghost function Inserts(): nat
      reads this
    {
      if stopped then round + 1 else round
    }

    /** Both texts are those of the current round; the tables hold exactly the
        inserts so far; no earlier round hit, and a stopped run hit in the
        current round. */
    ghost predicate Valid()
      reads this
    {
      realText == TrailingSpaces.RoundText(realOg, round) &&
      fakeText == TrailingSpaces.RoundText(fakeOg, round) &&
      allRealHashes == RealTable(Spec(), Inserts()) &&
      allFakeHashes == FakeTable(Spec(), Inserts()) &&
      (forall t :: 0 <= t < round ==> ForwardDecision(Spec(), t).None?) &&
      (stopped ==> ForwardDecision(Spec(), round).Some?)
    }

    /** Lines 20-28: the two texts as read, empty tables. */
    constructor (realOg: string, fakeOg: string, numChars: KeyLength, h: Hasher)
      ensures Valid() && !stopped
      ensures this.realOg == realOg && this.fakeOg == fakeOg
      ensures this.numChars == numChars && this.h == h
      ensures round == 0 && realText == realOg && fakeText == fakeOg
      ensures allRealHashes == map[] && allFakeHashes == map[]
    {
      assert Spaces(0) == "";
      assert realOg + Spaces(0) == realOg && fakeOg + Spaces(0) == fakeOg;
      this.realOg, this.fakeOg := realOg, fakeOg;
      this.numChars, this.h := numChars, h;
      realText, fakeText := realOg, fakeOg;
      allRealHashes, allFakeHashes := map[], map[];
      round, stopped := 0, false;
    }

    /** What a stopped run should write out: the real text and the fake text
        stored under the real key that hit. Line 55 writes something else;
        `WrittenAsIs` models lines 52-55. */
    ghost function Emitted(): Collision
      requires Valid() && stopped
      reads this
    {
      DecisionCollides(Spec(), round);
      EmitShared(allRealHashes, allFakeHashes, ForwardDecision(Spec(), round).value, Verbatim)
    }

    /** Both emitted texts digest to the printed key, and each is the text of
        some round up to the last one. */
    lemma EmittedCollides()
      requires Valid() && stopped
      ensures Emitted().key == ForwardDecision(Spec(), round).value
      ensures MatchKey(h, numChars, Emitted().realText) == Emitted().key == MatchKey(h, numChars, Emitted().fakeText)
      ensures exists r :: 0 <= r <= round && Emitted().realText == TrailingSpaces.RoundText(realOg, r)
      ensures exists r :: 0 <= r <= round && Emitted().fakeText == TrailingSpaces.RoundText(fakeOg, r)
    {
      DecisionCollides(Spec(), round);
    }

    /** What a stopped run writes as lines 52-55: the current texts, under the printed
        real key. */
    lemma WrittenIsCurrent()
      requires Valid() && stopped
      ensures WrittenAsIs(Spec(), round) == Collision(MatchKey(h, numChars, realText), realText, fakeText)
    {
      assert Spec().realRound(round) == realText;
      assert Spec().fakeRound(round) == fakeText;
    }

    /** One pass of the `while True` body (lines 32-61). Only the real key is
        looked up in the other table. */
    method Step() returns (found: Option<Collision>)
      requires Valid() && !stopped
      modifies this
      ensures Valid()
      ensures allRealHashes == old(allRealHashes)[MatchKey(h, numChars, old(realText)) := old(realText)]
      ensures allFakeHashes == old(allFakeHashes)[MatchKey(h, numChars, old(fakeText)) := old(fakeText)]
      ensures found.Some? <==> stopped
      ensures found.Some? ==> round == old(round) && found.value == Emitted()
      ensures found.None? ==> round == old(round) + 1 && realText == old(realText) + " " && fakeText == old(fakeText) + " "
    {
      var realHash, fakeHash := Insert();
      if realHash in allFakeHashes {
        var c := Stop(realHash);
        found := Some(c);
      } else {
        Advance();
        found := None;
      }
    }

    /** The state between the inserts of a round and the check that follows. */
    ghost predicate Inserted()
      reads this
    {
      !stopped &&
      realText == TrailingSpaces.RoundText(realOg, round) &&
      fakeText == TrailingSpaces.RoundText(fakeOg, round) &&
      allRealHashes == RealTable(Spec(), round + 1) &&
      allFakeHashes == FakeTable(Spec(), round + 1) &&
      (forall t :: 0 <= t < round ==> ForwardDecision(Spec(), t).None?)
    }

    /** Lines 32-41: both texts go into their tables under their keys. */
    method Insert() returns (realHash: string, fakeHash: string)
      requires Valid() && !stopped
      modifies this
      ensures Inserted()
      ensures round == old(round) && realText == old(realText) && fakeText == old(fakeText)
      ensures realHash == RealKey(Spec(), round) && fakeHash == FakeKey(Spec(), round)
      ensures allRealHashes == old(allRealHashes)[realHash := realText]
      ensures allFakeHashes == old(allFakeHashes)[fakeHash := fakeText]
    {
      realHash := MatchKey(h, numChars, realText);
      fakeHash := MatchKey(h, numChars, fakeText);
      allRealHashes := allRealHashes[realHash := realText];
      allFakeHashes := allFakeHashes[fakeHash := fakeText];
      TablesStep(Spec(), round);
    }

    /** A hit (lines 45-57): the `break`, with the corrected output of
        `Emitted` in place of what line 55 writes. */
    method Stop(hash: string) returns (c: Collision)
      requires Inserted() && ForwardDecision(Spec(), round) == Some(hash)
      modifies this
      ensures Valid() && stopped
      ensures round == old(round) && realText == old(realText) && fakeText == old(fakeText)
      ensures allRealHashes == old(allRealHashes) && allFakeHashes == old(allFakeHashes)
      ensures c == Emitted()
    {
      TablesStep(Spec(), round);
      c := Collision(hash, allRealHashes[hash], allFakeHashes[hash]);
      stopped := true;
    }

    /** Lines 60-61: one more space on each side, once the round has missed. */
    method Advance()
      requires Inserted()
      requires forall t :: 0 <= t <= round ==> ForwardDecision(Spec(), t).None?
      modifies this
      ensures Valid() && !stopped
      ensures round == old(round) + 1 && allRealHashes == old(allRealHashes) && allFakeHashes == old(allFakeHashes)
      ensures realText == old(realText) + " " && fakeText == old(fakeText) + " "
    {
      TrailingSpaces.RoundTextStep(realOg, round);
      TrailingSpaces.RoundTextStep(fakeOg, round);
      realText := realText + " ";
      fakeText := fakeText + " ";
      round := round + 1;
    }

    /** The `while True` loop, cut off after `fuel` rounds. */
    method Run(fuel: nat) returns (found: Option<Collision>)
      requires Valid() && !stopped
      modifies this
      ensures Valid()
      ensures found.Some? <==> stopped
      ensures found.None? ==> round == old(round) + fuel
      ensures found.Some? ==> old(round) <= round < old(round) + fuel && found.value == Emitted()
    {
      found := None;
      var n := 0;
      while n < fuel && found.None?
        invariant 0 <= n <= fuel
        invariant Valid()
        invariant found.Some? <==> stopped
        invariant found.None? ==> round == old(round) + n
        invariant found.Some? ==> old(round) <= round < old(round) + n && found.value == Emitted()
      {
        found := Step();
        n := n + 1;
      }
    }
  }
}
