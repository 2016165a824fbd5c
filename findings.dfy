/** Concrete runs that show main.py and line_spaces_mvp.py writing out texts
    that do not share the printed key. The digest is a small stand-in hasher
    with one-character keys, so each run can be followed by hand. */
module Findings {
  import opened Digest
  import opened Text
  import opened Tables
  import opened Driver
  import MainScript
  import TrailingSpaces
  import LineSpacesMvp

  /** A digest of 63 zeros followed by `c`. */
  function EndingIn(c: char): (d: HexDigest)
    requires IsHexChar(c)
    ensures d[DigestLength - 1] == c
  {
    seq(63, _ => '0') + [c]
  }

  /** The stand-in hasher: "r" ends in `a`, "f" and "r " end in `b`, every
      other text ends in `c`. */
  function ToyHash(s: string): HexDigest
  {
    if s == "r" then EndingIn('a')
    else if s == "f" || s == "r " then EndingIn('b')
    else EndingIn('c')
  }

  /** The one-character key of a text under the stand-in hasher. */
  lemma ToyKey(s: string)
    ensures MatchKey(ToyHash, 1, s) == [ToyHash(s)[DigestLength - 1]]
  {
    SuffixIsSlice(ToyHash(s), 1);
  }

  /** main.py run on "r" and "f" with `num_chars = 1`. */
  function MainRun(): Attack<string>
  {
    Attack(TrailingSpaces.RoundsOf("r"), TrailingSpaces.RoundsOf("f"), Verbatim, ToyHash, 1)
  }

  /** Round 0 misses; round 1 hits on key "b", because "r " shares its key
      with the fake text "f" of round 0. Lines 52-55 then write "r " and
      "f ", and the key of "f " is "c": the two written files do not collide.
      The pair stored under "b" ("r " and "f") does. */
  lemma MainWritesUnmatchedFake()
    ensures ForwardDecision(MainRun(), 0).None?
    ensures ForwardDecision(MainRun(), 1) == Some("b")
    ensures MainScript.WrittenAsIs(MainRun(), 1) == Collision("b", "r ", "f ")
    ensures MatchKey(ToyHash, 1, "f ") == "c" != "b"
    ensures EmitShared(RealTable(MainRun(), 2), FakeTable(MainRun(), 2), "b", Verbatim) == Collision("b", "r ", "f")
    ensures MatchKey(ToyHash, 1, "r ") == "b" == MatchKey(ToyHash, 1, "f")
  {
    MainTables();
  }

  /** The texts and keys of the first two rounds of `MainRun`. */
  lemma MainKeys()
    ensures MainRun().realRound(0) == "r" && MainRun().realRound(1) == "r "
    ensures MainRun().fakeRound(0) == "f" && MainRun().fakeRound(1) == "f "
    ensures RealKey(MainRun(), 0) == "a" && RealKey(MainRun(), 1) == "b"
    ensures FakeKey(MainRun(), 0) == "b" && FakeKey(MainRun(), 1) == "c"
  {
    assert Spaces(0) == "" && Spaces(1) == " ";
    assert "r" + "" == "r" && "f" + "" == "f";
    assert "r" + " " == "r " && "f" + " " == "f ";
    ToyKey("r");
    ToyKey("f");
    ToyKey("r ");
    ToyKey("f ");
  }

  /** The tables of `MainRun` after each of its first two rounds. */
  lemma MainTables()
    ensures RealTable(MainRun(), 1) == map["a" := "r"] && FakeTable(MainRun(), 1) == map["b" := "f"]
    ensures RealTable(MainRun(), 2) == map["a" := "r", "b" := "r "]
    ensures FakeTable(MainRun(), 2) == map["b" := "f", "c" := "f "]
    ensures RealKey(MainRun(), 0) == "a" && RealKey(MainRun(), 1) == "b"
    ensures FakeKey(MainRun(), 0) == "b" && FakeKey(MainRun(), 1) == "c"
    ensures MainRun().realRound(1) == "r " && MainRun().fakeRound(1) == "f "
  {
    var a := MainRun();
    MainKeys();
    TablesStep(a, 0);
    TablesStep(a, 1);
    assert RealTable(a, 0) == map[] && FakeTable(a, 0) == map[];
  }

  /** line_spaces_mvp.py run on the one-line lists ["r"] and ["f"]. */
  function MvpRun(): Attack<seq<string>>
  {
    Attack(LineSpacesMvp.RoundsOf(["r"]), LineSpacesMvp.RoundsOf(["f"]), JoinLines, ToyHash, 1)
  }

  /** Rounds 0 and 1 hash the originals and miss; round 2 hashes ["r "] and
      ["f "] and hits on "b", the key of ["r "] and of the fake list ["f"]
      from round 0. Lines 70-73 then write "r " and "f ", which do not share
      a key; the lists stored under "b" do. */
  lemma MvpWritesUnmatchedFake()
    ensures Decision(MvpRun(), 0).None? && Decision(MvpRun(), 1).None?
    ensures Decision(MvpRun(), 2) == Some("b")
    ensures LineSpacesMvp.WrittenAsIs(MvpRun(), 2) == Collision("b", "r ", "f ")
    ensures MatchKey(ToyHash, 1, "f ") == "c" != "b"
    ensures EmitShared(RealTable(MvpRun(), 3), FakeTable(MvpRun(), 3), "b", JoinLines) == Collision("b", "r ", "f")
  {
    MvpKeys();
    MvpRealTables();
    MvpFakeTables();
    ToyKey("f ");
    assert WriteLines(["r "]) == "r " && WriteLines(["f "]) == "f ";
    assert JoinLines(["r "]) == "r " && JoinLines(["f"]) == "f";
  }

  /** The keys of the first three rounds of `MvpRun`. */
  lemma MvpKeys()
    ensures MvpRun().realRound(0) == MvpRun().realRound(1) == ["r"] && MvpRun().realRound(2) == ["r "]
    ensures MvpRun().fakeRound(0) == MvpRun().fakeRound(1) == ["f"] && MvpRun().fakeRound(2) == ["f "]
    ensures RealKey(MvpRun(), 0) == RealKey(MvpRun(), 1) == "a" && RealKey(MvpRun(), 2) == "b"
    ensures FakeKey(MvpRun(), 0) == FakeKey(MvpRun(), 1) == "b" && FakeKey(MvpRun(), 2) == "c"
  {
    MvpRounds("r");
    MvpRounds("f");
    assert MvpRun().realRound(2) == LineSpacesMvp.Cumulative(["r"], 2);
    assert MvpRun().fakeRound(2) == LineSpacesMvp.Cumulative(["f"], 2);
    assert "r" + " " == "r " && "f" + " " == "f ";
    ToyKey("r");
    ToyKey("f");
    ToyKey("r ");
    ToyKey("f ");
    assert JoinLines(["r"]) == "r" && JoinLines(["f"]) == "f";
    assert JoinLines(["r "]) == "r " && JoinLines(["f "]) == "f ";
  }

  /** The real table of `MvpRun` after each of its first three rounds. */
  lemma MvpRealTables()
    ensures RealTable(MvpRun(), 1) == RealTable(MvpRun(), 2) == map["a" := ["r"]]
    ensures RealTable(MvpRun(), 3) == map["a" := ["r"], "b" := ["r "]]
  {
    MvpKeys();
    MvpRealTable1();
    TablesStep(MvpRun(), 1);
    TablesStep(MvpRun(), 2);
  }

  lemma MvpRealTable1()
    ensures RealTable(MvpRun(), 1) == map["a" := ["r"]]
  {
    MvpKeys();
    TablesStep(MvpRun(), 0);
    assert RealTable(MvpRun(), 0) == map[];
  }

  /** The fake table of `MvpRun` after each of its first three rounds. */
  lemma MvpFakeTables()
    ensures FakeTable(MvpRun(), 1) == FakeTable(MvpRun(), 2) == map["b" := ["f"]]
    ensures FakeTable(MvpRun(), 3) == map["b" := ["f"], "c" := ["f "]]
  {
    MvpKeys();
    MvpFakeTable1();
    TablesStep(MvpRun(), 1);
    TablesStep(MvpRun(), 2);
  }

  lemma MvpFakeTable1()
    ensures FakeTable(MvpRun(), 1) == map["b" := ["f"]]
  {
    MvpKeys();
    TablesStep(MvpRun(), 0);
    assert FakeTable(MvpRun(), 0) == map[];
  }

  /** The first three rounds of a one-line list: the line, the line again,
      then the line with one space. */
  lemma MvpRounds(line: string)
    ensures LineSpacesMvp.Cumulative([line], 0) == [line]
    ensures LineSpacesMvp.Cumulative([line], 1) == [line]
    ensures LineSpacesMvp.Cumulative([line], 2) == [line + " "]
  {
    LineSpacesMvp.FirstUpdateIsIdentity([line]);
    LineSpacesMvp.CumulativeLine([line], 2, 0);
    assert LineSpacesMvp.SetBitCount(2, 0) == 1;
    assert Spaces(1) == " ";
  }

  /** Lines 71 and 73 write `writelines` of a list, but the list was hashed as
      its `"\n"` join. Whenever a document has two or more lines, the written
      text is not the hashed one, in every round. */
  lemma MvpWritesOtherText(realOg: seq<string>, fakeOg: seq<string>, h: Hasher, numChars: KeyLength, t: nat)
    ensures var a := Attack(LineSpacesMvp.RoundsOf(realOg), LineSpacesMvp.RoundsOf(fakeOg), JoinLines, h, numChars);
      (|realOg| >= 2 ==> LineSpacesMvp.WrittenAsIs(a, t).realText != JoinLines(LineSpacesMvp.Cumulative(realOg, t))) &&
      (|fakeOg| >= 2 ==> LineSpacesMvp.WrittenAsIs(a, t).fakeText != JoinLines(LineSpacesMvp.Cumulative(fakeOg, t)))
  {
    if |realOg| >= 2 {
      JoinLinesLength(LineSpacesMvp.Cumulative(realOg, t));
    }
    if |fakeOg| >= 2 {
      JoinLinesLength(LineSpacesMvp.Cumulative(fakeOg, t));
    }
  }
}
