/** trailing_spaces.py: whole-text padding. Each round appends one space to
    each document; the tables hold the texts themselves. */
module TrailingSpaces {
  import opened Digest
  import opened Text
  import opened Tables
  import opened Driver

  /** The text a side hashes in round `t` (lines 25-28, 64-65): the file's
      contents followed by `t` spaces. */
  function RoundText(og: string, t: nat): (s: string)
    ensures |s| == |og| + t
  {
    og + Spaces(t)
  }

  /** `text += " "` moves a side from round `t` to round `t + 1`, and what it
      builds is the original followed only by spaces. */
  lemma RoundTextStep(og: string, t: nat)
    ensures RoundText(og, t + 1) == RoundText(og, t) + " "
    ensures PaddedFrom(og, RoundText(og, t))
  {
    SpacesAdd(t, 1);
    assert Spaces(1) == " ";
    PaddedWithSpaces(og, t);
  }

  /** One side never hashes the same text twice: the lengths strictly grow.
      Keys may still repeat, and a repeated key is overwritten. */
  lemma RoundTextsDistinct(og: string, t1: nat, t2: nat)
    ensures RoundText(og, t1) == RoundText(og, t2) <==> t1 == t2
  {
    if RoundText(og, t1) == RoundText(og, t2) {
      assert |RoundText(og, t1)| == |RoundText(og, t2)|;
    }
  }

  /** What each side hashes, round by round. */
  function RoundsOf(og: string): nat -> string
  {
    (t: nat) => RoundText(og, t)
  }

  /** The state of one run of trailing_spaces.py. The script keeps no round
      counter; `round` counts the passes for the specification only. */
  class Search {
    const realOg: string
    const fakeOg: string
    const numChars: KeyLength
    const h: Hasher
    /** `real` */
    var realText: string
    /** `fake` */
    var fakeText: string
    var allRealHashes: map<string, string>
    var allFakeHashes: map<string, string>
    ghost var round: nat
    /** Set by the `break` of a hit. */
    var stopped: bool

    /** The run this object carries out: the texts are hashed as they are. */
    function Spec(): Attack<string>
    {
      Attack(RoundsOf(realOg), RoundsOf(fakeOg), Verbatim, h, numChars)
    }

    /** Rounds whose inserts are in the tables. */
    ghost function Inserts(): nat
      reads this
    {
      if stopped then round + 1 else round
    }

    /** Both texts are those of the current round; the tables hold exactly the
        inserts so far; no earlier round hit, and a stopped run hit in the
        current round. */
    ghost predicate Valid()
      reads this
    {
      realText == RoundText(realOg, round) &&
      fakeText == RoundText(fakeOg, round) &&
      allRealHashes == RealTable(Spec(), Inserts()) &&
      allFakeHashes == FakeTable(Spec(), Inserts()) &&
      (forall t :: 0 <= t < round ==> Decision(Spec(), t).None?) &&
      (stopped ==> Decision(Spec(), round).Some?)
    }

    /** Lines 25-33: the two texts as read, empty tables. */
    constructor (realOg: string, fakeOg: string, numChars: KeyLength, h: Hasher)
      ensures Valid() && !stopped
      ensures this.realOg == realOg && this.fakeOg == fakeOg
      ensures this.numChars == numChars && this.h == h
      ensures round == 0 && realText == realOg && fakeText == fakeOg
      ensures allRealHashes == map[] && allFakeHashes == map[]
    {
      assert Spaces(0) == "";
      assert realOg + Spaces(0) == realOg && fakeOg + Spaces(0) == fakeOg;
      this.realOg, this.fakeOg := realOg, fakeOg;
      this.numChars, this.h := numChars, h;
      realText, fakeText := realOg, fakeOg;
      allRealHashes, allFakeHashes := map[], map[];
      round, stopped := 0, false;
    }

    /** What a stopped run writes out (lines 51-59): the two texts stored under
        the chosen key. */
    ghost function Emitted(): Collision
      requires Valid() && stopped
      reads this
    {
      DecisionCollides(Spec(), round);
      EmitShared(allRealHashes, allFakeHashes, Decision(Spec(), round).value, Verbatim)
    }

    /** Both emitted texts digest to the printed key, and each is the text of
        some round up to the last one. */
    lemma EmittedCollides()
      requires Valid() && stopped
      ensures Emitted().key == Decision(Spec(), round).value
      ensures MatchKey(h, numChars, Emitted().realText) == Emitted().key == MatchKey(h, numChars, Emitted().fakeText)
      ensures exists r :: 0 <= r <= round && Emitted().realText == RoundText(realOg, r)
      ensures exists r :: 0 <= r <= round && Emitted().fakeText == RoundText(fakeOg, r)
    {
      DecisionCollides(Spec(), round);
    }

    /** One pass of the `while True` body (lines 37-65). */
    method Step() returns (found: Option<Collision>)
      requires Valid() && !stopped
      modifies this
      ensures Valid()
      ensures allRealHashes == old(allRealHashes)[MatchKey(h, numChars, old(realText)) := old(realText)]
      ensures allFakeHashes == old(allFakeHashes)[MatchKey(h, numChars, old(fakeText)) := old(fakeText)]
      ensures found.Some? <==> stopped
      ensures found.Some? ==> round == old(round) && found.value == Emitted()
      ensures found.None? ==> round == old(round) + 1 && realText == old(realText) + " " && fakeText == old(fakeText) + " "
    {
      var realHash, fakeHash := Insert();
      if realHash in allFakeHashes || fakeHash in allRealHashes {
        var hash := if realHash in allFakeHashes then realHash else fakeHash;
        var c := Stop(hash);
        found := Some(c);
      } else {
        Advance();
        found := None;
      }
    }

    /** The state between the inserts of a round and the check that follows. */
    ghost predicate Inserted()
      reads this
    {
      !stopped &&
      realText == RoundText(realOg, round) &&
      fakeText == RoundText(fakeOg, round) &&
      allRealHashes == RealTable(Spec(), round + 1) &&
      allFakeHashes == FakeTable(Spec(), round + 1) &&
      (forall t :: 0 <= t < round ==> Decision(Spec(), t).None?)
    }

    /** Lines 37-46: both texts go into their tables under their keys. */
    method Insert() returns (realHash: string, fakeHash: string)
      requires Valid() && !stopped
      modifies this
      ensures Inserted()
      ensures round == old(round) && realText == old(realText) && fakeText == old(fakeText)
      ensures realHash == RealKey(Spec(), round) && fakeHash == FakeKey(Spec(), round)
      ensures allRealHashes == old(allRealHashes)[realHash := realText]
      ensures allFakeHashes == old(allFakeHashes)[fakeHash := fakeText]
    {
      realHash := MatchKey(h, numChars, realText);
      fakeHash := MatchKey(h, numChars, fakeText);
      allRealHashes := allRealHashes[realHash := realText];
      allFakeHashes := allFakeHashes[fakeHash := fakeText];
      TablesStep(Spec(), round);
    }

    /** A hit (lines 50-61): the texts stored under the chosen key, and the
        `break`. */
    method Stop(hash: string) returns (c: Collision)
      requires Inserted() && Decision(Spec(), round) == Some(hash)
      modifies this
      ensures Valid() && stopped
      ensures round == old(round) && realText == old(realText) && fakeText == old(fakeText)
      ensures allRealHashes == old(allRealHashes) && allFakeHashes == old(allFakeHashes)
      ensures c == Emitted()
    {
      TablesStep(Spec(), round);
      c := Collision(hash, allRealHashes[hash], allFakeHashes[hash]);
      stopped := true;
    }

    /** Lines 64-65: one more space on each side, once the round has missed. */
    method Advance()
      requires Inserted()
      requires forall t :: 0 <= t <= round ==> Decision(Spec(), t).None?
      modifies this
      ensures Valid() && !stopped
      ensures round == old(round) + 1 && allRealHashes == old(allRealHashes) && allFakeHashes == old(allFakeHashes)
      ensures realText == old(realText) + " " && fakeText == old(fakeText) + " "
    {
      RoundTextStep(realOg, round);
      RoundTextStep(fakeOg, round);
      realText := realText + " ";
      fakeText := fakeText + " ";
      round := round + 1;
    }

    /** The `while True` loop, cut off after `fuel` rounds. */
    method Run(fuel: nat) returns (found: Option<Collision>)
      requires Valid() && !stopped
      modifies this
      ensures Valid()
      ensures found.Some? <==> stopped
      ensures found.None? ==> round == old(round) + fuel
      ensures found.Some? ==> old(round) <= round < old(round) + fuel && found.value == Emitted()
    {
      found := None;
      var n := 0;
      while n < fuel && found.None?
        invariant 0 <= n <= fuel
        invariant Valid()
        invariant found.Some? <==> stopped
        invariant found.None? ==> round == old(round) + n
        invariant found.Some? ==> old(round) <= round < old(round) + n && found.value == Emitted()
      {
        found := Step();
        n := n + 1;
      }
    }
  }
}
