/** line_spaces_mvp.py: cumulative per-line padding. Every round appends
    `(i >> j) & 1` spaces to line `j` of the PREVIOUS list, so a line's padding
    is the number of counters so far with bit `j` set. Lines come from
    `readlines()` and so keep their line terminators. */
module LineSpacesMvp {
  import opened Digest
  import opened Text
  import opened Bits
  import opened Tables
  import opened Driver

  /** One update (lines 81-96): line `j` of `prev` gets `(i >> j) & 1` spaces. */
  function Update(prev: seq<string>, i: nat): (r: seq<string>)
    ensures |r| == |prev|
  {
    seq(|prev|, j requires 0 <= j < |prev| => prev[j] + Spaces(Bit(i, j)))
  }

  /** An update keeps the line count and only appends: one space to line `j`
      when bit `j` of `i` is set, none otherwise. */
  lemma UpdateLine(prev: seq<string>, i: nat, j: nat)
    requires j < |prev|
    ensures PaddedFrom(prev[j], Update(prev, i)[j])
    ensures |Update(prev, i)[j]| == |prev[j]| + Bit(i, j)
  {
    PaddedWithSpaces(prev[j], Bit(i, j));
  }

  /** The lists after the updates for counters `0 .. n-1`: what round `n` hashes. */
  function Cumulative(og: seq<string>, n: nat): (r: seq<string>)
    ensures |r| == |og|
  {
    if n == 0 then og else Update(Cumulative(og, n - 1), n - 1)
  }

  /** `#{i < n : bit j of i is 1}` */
  function SetBitCount(n: nat, j: nat): nat
  {
    if n == 0 then 0 else SetBitCount(n - 1, j) + Bit(n - 1, j)
  }

  /** After `n` updates, line `j` is its original line followed by one space
      per counter below `n` that has bit `j` set. */
  lemma {:induction false} CumulativeLine(og: seq<string>, n: nat, j: nat)
    requires j < |og|
    ensures Cumulative(og, n)[j] == og[j] + Spaces(SetBitCount(n, j))
  {
    if n == 0 {
      assert Spaces(0) == "";
      assert og[j] + "" == og[j];
    } else {
      CumulativeLine(og, n - 1, j);
      SpacesAdd(SetBitCount(n - 1, j), Bit(n - 1, j));
      assert Cumulative(og, n)[j] == Cumulative(og, n - 1)[j] + Spaces(Bit(n - 1, j));
      assert og[j] + Spaces(SetBitCount(n - 1, j)) + Spaces(Bit(n - 1, j))
          == og[j] + (Spaces(SetBitCount(n - 1, j)) + Spaces(Bit(n - 1, j)));
    }
  }

  /** The original line stays a prefix and only spaces follow it. A line that
      ends with its terminator (as `readlines()` leaves it) therefore still has
      the terminator at the same place, with the spaces after it. */
  lemma CumulativePadded(og: seq<string>, n: nat, j: nat)
    requires j < |og|
    ensures PaddedFrom(og[j], Cumulative(og, n)[j])
    ensures |og[j]| > 0 && og[j][|og[j]| - 1] == '\n' ==>
      Cumulative(og, n)[j][|og[j]| - 1] == '\n' &&
      forall k :: |og[j]| <= k < |Cumulative(og, n)[j]| ==> Cumulative(og, n)[j][k] == ' '
  {
    CumulativeLine(og, n, j);
    PaddedWithSpaces(og[j], SetBitCount(n, j));
  }

  /** No bit of counter 0 is set, so the first update changes nothing and
      rounds 0 and 1 hash the same lists. */
  lemma FirstUpdateIsIdentity(og: seq<string>)
    ensures Cumulative(og, 1) == og
  {
    forall j | 0 <= j < |og|
      ensures Cumulative(og, 1)[j] == og[j]
    {
      BitOfZero(j);
      assert Spaces(0) == "";
      assert og[j] + "" == og[j];
    }
  }

  // ---------------------------------------------------------------------------
  // The driver (lines 47-97).

  /** What each side hashes, round by round. */
  function RoundsOf(og: seq<string>): nat -> seq<string>
  {
    (t: nat) => Cumulative(og, t)
  }

  /** Lines 67-73 as written: the printed key is `real_hash`, and each file
      gets `writelines` of the list stored under that side's OWN current key.
      After round `t` has inserted, both lookups hit the lists of round `t`
      itself, concatenated rather than joined. */
  function WrittenAsIs(a: Attack<seq<string>>, t: nat): (c: Collision)
    ensures c.key == RealKey(a, t)
    ensures c.realText == WriteLines(a.realRound(t)) && c.fakeText == WriteLines(a.fakeRound(t))
  {
    TablesStep(a, t);
    Collision(RealKey(a, t), WriteLines(RealTable(a, t + 1)[RealKey(a, t)]),
              WriteLines(FakeTable(a, t + 1)[FakeKey(a, t)]))
  }

  /** The state of one run of line_spaces_mvp.py. */
  class Search {
    const realOg: seq<string>
    const fakeOg: seq<string>
    const numChars: KeyLength
    const h: Hasher
    /** `"\n".join`: how a list is turned into the hashed text. */
    const render: seq<string> -> string
    var realModified: seq<string>
    var fakeModified: seq<string>
    var allRealHashes: map<string, seq<string>>
    var allFakeHashes: map<string, seq<string>>
    var i: nat
    /** Set by the `break` of a hit. */
    var stopped: bool

    /** The run this object carries out: lists joined with `"\n"` are hashed. */
    function Spec(): Attack<seq<string>>
    {
      Attack(RoundsOf(realOg), RoundsOf(fakeOg), render, h, numChars)
    }

    /** Rounds whose inserts are in the tables: the stopping round inserts
        before it breaks. */
    ghost function Inserts(): nat
      reads this
    {
      if stopped then i + 1 else i
    }

    /** Round `i` is the current one; the tables hold exactly the inserts of
        the rounds so far; no earlier round hit, and a stopped run hit in
        round `i`. */
    ghost predicate Valid()
      reads this
    {
      realModified == Cumulative(realOg, i) &&
      fakeModified == Cumulative(fakeOg, i) &&
      allRealHashes == RealTable(Spec(), Inserts()) &&
      allFakeHashes == FakeTable(Spec(), Inserts()) &&
      (forall t :: 0 <= t < i ==> Decision(Spec(), t).None?) &&
      (stopped ==> Decision(Spec(), i).Some?)
    }

    /** Lines 30-49: the copies of the originals, empty tables, `i = 0`. */
    constructor (realOg: seq<string>, fakeOg: seq<string>, numChars: KeyLength, h: Hasher)
      ensures Valid() && !stopped
      ensures this.realOg == realOg && this.fakeOg == fakeOg
      ensures this.numChars == numChars && this.h == h && this.render == JoinLines
      ensures i == 0 && realModified == realOg && fakeModified == fakeOg
      ensures allRealHashes == map[] && allFakeHashes == map[]
    {
      this.realOg, this.fakeOg := realOg, fakeOg;
      this.numChars, this.h := numChars, h;
      this.render := JoinLines;
      realModified, fakeModified := realOg, fakeOg;
      allRealHashes, allFakeHashes := map[], map[];
      i, stopped := 0, false;
    }

    /** What a stopped run should write out: the two lists stored under a key
        both tables hold, joined as they were hashed. Lines 70-73 write
        something else; `WrittenAsIs` models those lines. */
    ghost function Emitted(): Collision
      requires Valid() && stopped
      reads this
    {
      DecisionCollides(Spec(), i);
      EmitShared(allRealHashes, allFakeHashes, Decision(Spec(), i).value, render)
    }

    /** Both emitted texts digest to the printed key, and each is a list some
        round up to the last one hashed. */
    lemma EmittedCollides()
      requires Valid() && stopped
      ensures Emitted().key == Decision(Spec(), i).value
      ensures MatchKey(h, numChars, Emitted().realText) == Emitted().key == MatchKey(h, numChars, Emitted().fakeText)
      ensures exists r :: 0 <= r <= i && Emitted().realText == render(Cumulative(realOg, r))
      ensures exists r :: 0 <= r <= i && Emitted().fakeText == render(Cumulative(fakeOg, r))
    {
      DecisionCollides(Spec(), i);
    }

    /** What a stopped run writes as lines 67-73: `writelines` of the current lists,
        under the printed real key. */
    lemma WrittenIsCurrent()
      requires Valid() && stopped
      ensures WrittenAsIs(Spec(), i) == Collision(MatchKey(h, numChars, render(realModified)), WriteLines(realModified), WriteLines(fakeModified))
    {
      assert Spec().realRound(i) == realModified;
      assert Spec().fakeRound(i) == fakeModified;
    }

    /** One pass of the `while True` body (lines 53-97): insert, check, and
        either stop with the pair stored under the chosen key or move on to the
        next variants. */
    method Step() returns (found: Option<Collision>)
      requires Valid() && !stopped
      modifies this
      ensures Valid()
      ensures allRealHashes == old(allRealHashes)[MatchKey(h, numChars, render(old(realModified))) := old(realModified)]
      ensures allFakeHashes == old(allFakeHashes)[MatchKey(h, numChars, render(old(fakeModified))) := old(fakeModified)]
      ensures found.Some? <==> stopped
      ensures found.Some? ==> i == old(i) && found.value == Emitted()
      ensures found.None? ==> i == old(i) + 1
      ensures found.None? ==> realModified == Update(old(realModified), old(i)) && fakeModified == Update(old(fakeModified), old(i))
    {
      var realHash, fakeHash := Insert();
      var decision := ChooseKey(realHash, fakeHash, allRealHashes, allFakeHashes);
      if decision.Some? {
        var c := Stop(decision.value);
        found := Some(c);
      } else {
        Advance();
        found := None;
      }
    }

    /** The state between the inserts of round `i` and the check that follows them. */
    ghost predicate Inserted()
      reads this
    {
      !stopped &&
      realModified == Cumulative(realOg, i) &&
      fakeModified == Cumulative(fakeOg, i) &&
      allRealHashes == RealTable(Spec(), i + 1) &&
      allFakeHashes == FakeTable(Spec(), i + 1) &&
      (forall t :: 0 <= t < i ==> Decision(Spec(), t).None?)
    }

    /** Lines 53-62: both current lists go into their tables under their keys. */
    method Insert() returns (realHash: string, fakeHash: string)
      requires Valid() && !stopped
      modifies this
      ensures Inserted()
      ensures i == old(i) && realModified == old(realModified) && fakeModified == old(fakeModified)
      ensures realHash == RealKey(Spec(), i) && fakeHash == FakeKey(Spec(), i)
      ensures allRealHashes == old(allRealHashes)[realHash := realModified]
      ensures allFakeHashes == old(allFakeHashes)[fakeHash := fakeModified]
    {
      realHash := MatchKey(h, numChars, render(realModified));
      fakeHash := MatchKey(h, numChars, render(fakeModified));
      allRealHashes := allRealHashes[realHash := realModified];
      allFakeHashes := allFakeHashes[fakeHash := fakeModified];
      TablesStep(Spec(), i);
    }

    /** A hit (lines 65-75): the `break`, with the corrected output of
        `Emitted` in place of what lines 70-73 write. */
    method Stop(hash: string) returns (c: Collision)
      requires Inserted() && Decision(Spec(), i) == Some(hash)
      modifies this
      ensures Valid() && stopped
      ensures i == old(i) && realModified == old(realModified) && fakeModified == old(fakeModified)
      ensures allRealHashes == old(allRealHashes) && allFakeHashes == old(allFakeHashes)
      ensures c == Emitted()
    {
      TablesStep(Spec(), i);
      c := Collision(hash, render(allRealHashes[hash]), render(allFakeHashes[hash]));
      stopped := true;
    }

    /** Lines 81-97: each list grows by the bits of `i`, then `i += 1`, once
        round `i` has missed. */
    method Advance()
      requires Inserted()
      requires forall t :: 0 <= t <= i ==> Decision(Spec(), t).None?
      modifies this
      ensures Valid() && !stopped
      ensures i == old(i) + 1 && allRealHashes == old(allRealHashes) && allFakeHashes == old(allFakeHashes)
      ensures realModified == Update(old(realModified), old(i)) && fakeModified == Update(old(fakeModified), old(i))
    {
      Pad();
      i := i + 1;
    }

    /** Lines 81-96: both lists become their updates by `i`. */
    method Pad()
      requires Inserted()
      modifies this
      ensures Padded()
      ensures i == old(i) && stopped == old(stopped)
      ensures allRealHashes == old(allRealHashes) && allFakeHashes == old(allFakeHashes)
      ensures realModified == Update(old(realModified), i) && fakeModified == Update(old(fakeModified), i)
    {
      realModified := Update(realModified, i);
      fakeModified := Update(fakeModified, i);
    }

    /** The state between the updates of the lists and `i += 1`. */
    ghost predicate Padded()
      reads this
    {
      !stopped &&
      realModified == Cumulative(realOg, i + 1) &&
      fakeModified == Cumulative(fakeOg, i + 1) &&
      allRealHashes == RealTable(Spec(), i + 1) &&
      allFakeHashes == FakeTable(Spec(), i + 1)
    }

    /** The `while True` loop, cut off after `fuel` rounds. */
    method Run(fuel: nat) returns (found: Option<Collision>)
      requires Valid() && !stopped
      modifies this
      ensures Valid()
      ensures found.Some? <==> stopped
      ensures found.None? ==> i == old(i) + fuel
      ensures found.Some? ==> old(i) <= i < old(i) + fuel && found.value == Emitted()
    {
      found := None;
      var n := 0;
      while n < fuel && found.None?
        invariant 0 <= n <= fuel
        invariant Valid()
        invariant found.Some? <==> stopped
        invariant found.None? ==> i == old(i) + n
        invariant found.Some? ==> old(i) <= i < old(i) + n && found.value == Emitted()
      {
        found := Step();
        n := n + 1;
      }
    }
  }
}
