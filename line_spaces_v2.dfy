/** line_spaces_v2.py: line-level padding with a mask and a level.
    For attempt counter `i` and a document of `n` lines, `mask = i % 2**n` picks
    the padded lines and `level = i // 2**n + 1` is how many spaces each of them
    gets. Both sides share the one counter `i`, each with its own `2**n`. */
module LineSpacesV2 {
  import opened Digest
  import opened Text
  import opened Bits
  import opened Tables
  import opened Driver

  /** `i % combs`, `combs = 2**n` (lines 95-96); `MaskAndLevel` states it. */
  function Mask(i: nat, n: nat): nat
  {
    LowBits(i, n)
  }

  /** `i // combs + 1` (lines 108-110, 117-119) */
  function Level(i: nat, n: nat): nat
  {
    Shift(i, n) + 1
  }

  /** The mask and the level as the script computes them. */
  lemma MaskAndLevel(i: nat, n: nat)
    ensures Mask(i, n) == i % Pow2(n) && Level(i, n) == i / Pow2(n) + 1
  {
    ShiftAndLowBits(i, n);
  }

  /** Spaces appended to line `j`: `((mask >> j) & 1) * level`, the bit being
      0 or 1. */
  function PadCount(i: nat, n: nat, j: nat): nat
  {
    if Bit(Mask(i, n), j) == 1 then Level(i, n) else 0
  }

  /** The list built from the original lines `og` for counter `i`. */
  function Variant(og: seq<string>, i: nat): (r: seq<string>)
    ensures |r| == |og|
  {
    seq(|og|, j requires 0 <= j < |og| => og[j] + Spaces(PadCount(i, |og|, j)))
  }

  /** The lines hashed in round `t`: the unmodified copy first, then the
      variant built from the counter of the round before. */
  function RoundLines(og: seq<string>, t: nat): seq<string>
  {
    if t == 0 then og else Variant(og, t - 1)
  }

  /** Line `j` of a variant is its original line followed only by spaces: `level`
      of them when bit `j` of the mask is set, none otherwise. */
  lemma VariantLine(og: seq<string>, i: nat, j: nat)
    requires j < |og|
    ensures PaddedFrom(og[j], Variant(og, i)[j])
    ensures |Variant(og, i)[j]| ==
      |og[j]| + (if Bit(Mask(i, |og|), j) == 1 then Level(i, |og|) else 0)
  {
    PaddedWithSpaces(og[j], PadCount(i, |og|, j));
  }

  /** Whenever the mask is 0 the variant is the original document. */
  lemma MaskZeroGivesOriginal(og: seq<string>, i: nat)
    requires Mask(i, |og|) == 0
    ensures Variant(og, i) == og
  {
    forall j | 0 <= j < |og|
      ensures Variant(og, i)[j] == og[j]
    {
      BitOfZero(j);
      assert Spaces(0) == "";
    }
  }

  /** So the original is hashed again at every multiple of `2**n` (and twice in
      a row at the start): the encoding is not injective over all counters. */
  lemma OriginalRecurs(og: seq<string>, k: nat)
    ensures Variant(og, k * Pow2(|og|)) == og
    ensures RoundLines(og, 0) == RoundLines(og, 1)
  {
    DivModUnique(k * Pow2(|og|), Pow2(|og|), k, 0);
    MaskAndLevel(k * Pow2(|og|), |og|);
    MaskAndLevel(0, |og|);
    MaskZeroGivesOriginal(og, k * Pow2(|og|));
    MaskZeroGivesOriginal(og, 0);
  }

  /** A non-zero mask pads some line by `level >= 1` spaces, so the variant is
      not the original document. */
  lemma NonZeroMaskDiffers(og: seq<string>, i: nat)
    requires Mask(i, |og|) != 0
    ensures Variant(og, i) != og
  {
    LowBitsBound(i, |og|);
    SetBitExists(Mask(i, |og|), |og|);
    var j :| 0 <= j < |og| && Bit(Mask(i, |og|), j) == 1;
    VariantLine(og, i, j);
    assert |Variant(og, i)[j]| != |og[j]|;
  }

  /** Two counters give the same line list only when both masks are zero:
      otherwise the mask and the level can be read back from the space
      counts, and the counter with them. */
  lemma VariantInjective(og: seq<string>, i1: nat, i2: nat)
    requires Mask(i1, |og|) != 0 || Mask(i2, |og|) != 0
    requires Variant(og, i1) == Variant(og, i2)
    ensures i1 == i2
  {
    if Mask(i1, |og|) == 0 {
      MaskZeroGivesOriginal(og, i1);
      NonZeroMaskDiffers(og, i2);
      assert false;
    } else if Mask(i2, |og|) == 0 {
      MaskZeroGivesOriginal(og, i2);
      NonZeroMaskDiffers(og, i1);
      assert false;
    }
    var n := |og|;
    var m1, m2 := Mask(i1, n), Mask(i2, n);
    var l1, l2 := Level(i1, n), Level(i2, n);
    LowBitsBound(i1, n);
    LowBitsBound(i2, n);
    forall j | 0 <= j < n
      ensures Bit(m1, j) == Bit(m2, j)
    {
      VariantLine(og, i1, j);
      VariantLine(og, i2, j);
      assert Variant(og, i1)[j] == Variant(og, i2)[j];
    }
    BitsDetermine(m1, m2, n);
    SetBitExists(m1, n);
    var j :| 0 <= j < n && Bit(m1, j) == 1;
    VariantLine(og, i1, j);
    VariantLine(og, i2, j);
    assert Variant(og, i1)[j] == Variant(og, i2)[j];
    assert l1 == l2;
    ShiftAndLowBitsDetermine(i1, i2, n);
  }

  /** The first `2**n` counters, the first level, give `2**n` distinct lists. */
  lemma FirstLevelDistinct(og: seq<string>, i1: nat, i2: nat)
    requires i1 < Pow2(|og|) && i2 < Pow2(|og|) && i1 != i2
    ensures Variant(og, i1) != Variant(og, i2)
  {
    var p := Pow2(|og|);
    DivModUnique(i1, p, 0, i1);
    DivModUnique(i2, p, 0, i2);
    MaskAndLevel(i1, |og|);
    MaskAndLevel(i2, |og|);
    if Variant(og, i1) == Variant(og, i2) {
      VariantInjective(og, i1, i2);
    }
  }

  /** The level rises by exactly one when the counter reaches a multiple of
      `2**n` and stays put otherwise. */
  lemma LevelStep(i: nat, n: nat)
    ensures Level(i + 1, n) == Level(i, n) + (if (i + 1) % Pow2(n) == 0 then 1 else 0)
  {
    ShiftStep(i, n);
    MaskAndLevel(i + 1, n);
  }

  /** The level never decreases as the counter grows, so neither does the
      number of spaces a padded line receives. */
  lemma {:induction false} LevelMonotone(i1: nat, i2: nat, n: nat)
    requires i1 <= i2
    ensures Level(i1, n) <= Level(i2, n)
  {
    if i1 < i2 {
      LevelMonotone(i1, i2 - 1, n);
      LevelStep(i2 - 1, n);
    }
  }

  // ---------------------------------------------------------------------------
  // The driver (lines 57-122).

  /** What each side hashes, round by round. */
  function RoundsOf(og: seq<string>): nat -> seq<string>
  {
    (t: nat) => RoundLines(og, t)
  }

  /** The state of one run of line_spaces_v2.py. */
  class Search {
    const realOg: seq<string>
    const fakeOg: seq<string>
    const numChars: KeyLength
    const h: Hasher
    /** `"\n".join`: how a list is turned into the hashed text. */
    const render: seq<string> -> string
    var realModified: seq<string>
    var fakeModified: seq<string>
    var allRealHashes: map<string, seq<string>>
    var allFakeHashes: map<string, seq<string>>
    var i: nat
    /** Set by the `break` of a hit. */
    var stopped: bool

    /** The run this object carries out: lists joined with `"\n"` are hashed. */
    function Spec(): Attack<seq<string>>
    {
      Attack(RoundsOf(realOg), RoundsOf(fakeOg), render, h, numChars)
    }

    /** Rounds whose inserts are in the tables: the stopping round inserts
        before it breaks. */
    ghost function Inserts(): nat
      reads this
    {
      if stopped then i + 1 else i
    }

    /** Round `i` is the current one; the tables hold exactly the inserts of
        the rounds so far; no earlier round hit, and a stopped run hit in
        round `i`. */
    ghost predicate Valid()
      reads this
    {
      realModified == RoundLines(realOg, i) &&
      fakeModified == RoundLines(fakeOg, i) &&
      allRealHashes == RealTable(Spec(), Inserts()) &&
      allFakeHashes == FakeTable(Spec(), Inserts()) &&
      (forall t :: 0 <= t < i ==> Decision(Spec(), t).None?) &&
      (stopped ==> Decision(Spec(), i).Some?)
    }

    /** Lines 32-59: the copies of the originals, empty tables, `i = 0`. */
    constructor (realOg: seq<string>, fakeOg: seq<string>, numChars: KeyLength, h: Hasher)
      ensures Valid() && !stopped
      ensures this.realOg == realOg && this.fakeOg == fakeOg
      ensures this.numChars == numChars && this.h == h && this.render == JoinLines
      ensures i == 0 && realModified == realOg && fakeModified == fakeOg
      ensures allRealHashes == map[] && allFakeHashes == map[]
    {
      this.realOg, this.fakeOg := realOg, fakeOg;
      this.numChars, this.h := numChars, h;
      this.render := JoinLines;
      realModified, fakeModified := realOg, fakeOg;
      allRealHashes, allFakeHashes := map[], map[];
      i, stopped := 0, false;
    }

    /** What a stopped run writes out (lines 76-84): the two lists stored
        under the chosen key, joined as they were hashed. */
    ghost function Emitted(): Collision
      requires Valid() && stopped
      reads this
    {
      DecisionCollides(Spec(), i);
      EmitShared(allRealHashes, allFakeHashes, Decision(Spec(), i).value, render)
    }

    /** Both emitted texts digest to the printed key, and each is a list some
        round up to the last one hashed. */
    lemma EmittedCollides()
      requires Valid() && stopped
      ensures Emitted().key == Decision(Spec(), i).value
      ensures MatchKey(h, numChars, Emitted().realText) == Emitted().key == MatchKey(h, numChars, Emitted().fakeText)
      ensures exists r :: 0 <= r <= i && Emitted().realText == render(RoundLines(realOg, r))
      ensures exists r :: 0 <= r <= i && Emitted().fakeText == render(RoundLines(fakeOg, r))
    {
      DecisionCollides(Spec(), i);
    }

    /** One pass of the `while True` body (lines 63-122): insert, check, and
        either stop with the pair stored under the chosen key or move on to the
        next variants. */
    method Step() returns (found: Option<Collision>)
      requires Valid() && !stopped
      modifies this
      ensures Valid()
      ensures allRealHashes == old(allRealHashes)[MatchKey(h, numChars, render(old(realModified))) := old(realModified)]
      ensures allFakeHashes == old(allFakeHashes)[MatchKey(h, numChars, render(old(fakeModified))) := old(fakeModified)]
      ensures found.Some? <==> stopped
      ensures found.Some? ==> i == old(i) && found.value == Emitted()
      ensures found.None? ==> i == old(i) + 1
      ensures found.None? ==> realModified == Variant(realOg, old(i)) && fakeModified == Variant(fakeOg, old(i))
    {
      var realHash, fakeHash := Insert();
      var decision := ChooseKey(realHash, fakeHash, allRealHashes, allFakeHashes);
      if decision.Some? {
        var c := Stop(decision.value);
        found := Some(c);
      } else {
        Advance();
        found := None;
      }
    }

    /** The state between the inserts of round `i` and the check that follows them. */
    ghost predicate Inserted()
      reads this
    {
      !stopped &&
      realModified == RoundLines(realOg, i) &&
      fakeModified == RoundLines(fakeOg, i) &&
      allRealHashes == RealTable(Spec(), i + 1) &&
      allFakeHashes == FakeTable(Spec(), i + 1) &&
      (forall t :: 0 <= t < i ==> Decision(Spec(), t).None?)
    }

    /** Lines 63-72: both current lists go into their tables under their keys. */
    method Insert() returns (realHash: string, fakeHash: string)
      requires Valid() && !stopped
      modifies this
      ensures Inserted()
      ensures i == old(i) && realModified == old(realModified) && fakeModified == old(fakeModified)
      ensures realHash == RealKey(Spec(), i) && fakeHash == FakeKey(Spec(), i)
      ensures allRealHashes == old(allRealHashes)[realHash := realModified]
      ensures allFakeHashes == old(allFakeHashes)[fakeHash := fakeModified]
    {
      realHash := MatchKey(h, numChars, render(realModified));
      fakeHash := MatchKey(h, numChars, render(fakeModified));
      allRealHashes := allRealHashes[realHash := realModified];
      allFakeHashes := allFakeHashes[fakeHash := fakeModified];
      TablesStep(Spec(), i);
    }

    /** A hit (lines 75-86): the lists stored under the chosen key, joined as
        they were hashed, and the `break`. */
    method Stop(hash: string) returns (c: Collision)
      requires Inserted() && Decision(Spec(), i) == Some(hash)
      modifies this
      ensures Valid() && stopped
      ensures i == old(i) && realModified == old(realModified) && fakeModified == old(fakeModified)
      ensures allRealHashes == old(allRealHashes) && allFakeHashes == old(allFakeHashes)
      ensures c == Emitted()
    {
      TablesStep(Spec(), i);
      c := Collision(hash, render(allRealHashes[hash]), render(allFakeHashes[hash]));
      stopped := true;
    }

    /** Lines 95-122: the next lists and `i += 1`, once round `i` has missed. */
    method Advance()
      requires Inserted()
      requires forall t :: 0 <= t <= i ==> Decision(Spec(), t).None?
      modifies this
      ensures Valid() && !stopped
      ensures i == old(i) + 1 && allRealHashes == old(allRealHashes) && allFakeHashes == old(allFakeHashes)
      ensures realModified == Variant(realOg, old(i)) && fakeModified == Variant(fakeOg, old(i))
    {
      Pad();
      i := i + 1;
    }

    /** Lines 95-121: both lists become the variants of `i`. */
    method Pad()
      requires Inserted()
      modifies this
      ensures Padded()
      ensures i == old(i) && stopped == old(stopped)
      ensures allRealHashes == old(allRealHashes) && allFakeHashes == old(allFakeHashes)
      ensures realModified == Variant(realOg, i) && fakeModified == Variant(fakeOg, i)
    {
      realModified := Variant(realOg, i);
      fakeModified := Variant(fakeOg, i);
    }

    /** The state between the new lists and `i += 1`. */
    ghost predicate Padded()
      reads this
    {
      !stopped &&
      realModified == RoundLines(realOg, i + 1) &&
      fakeModified == RoundLines(fakeOg, i + 1) &&
      allRealHashes == RealTable(Spec(), i + 1) &&
      allFakeHashes == FakeTable(Spec(), i + 1)
    }

    /** The `while True` loop, cut off after `fuel` rounds. */
    method Run(fuel: nat) returns (found: Option<Collision>)
      requires Valid() && !stopped
      modifies this
      ensures Valid()
      ensures found.Some? <==> stopped
      ensures found.None? ==> i == old(i) + fuel
      ensures found.Some? ==> old(i) <= i < old(i) + fuel && found.value == Emitted()
    {
      found := None;
      var n := 0;
      while n < fuel && found.None?
        invariant 0 <= n <= fuel
        invariant Valid()
        invariant found.Some? <==> stopped
        invariant found.None? ==> i == old(i) + n
        invariant found.Some? ==> old(i) <= i < old(i) + n && found.value == Emitted()
      {
        found := Step();
        n := n + 1;
      }
    }
  }
}
