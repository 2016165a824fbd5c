# Birthday-attack collision search, modelled in Dafny

The repository holds four scripts that run the same birthday attack. Each one
takes a "real" and a "fake" document and pads both with spaces, round after
round. Each round it hashes both padded texts with SHA-256 and keeps only the
last `num_chars` hex characters of the digest, the match key. Two tables map
keys to texts, one per side, and a later insert under the same key overwrites
an earlier one. The search stops when a key of one side is already in the
other side's table. It then writes out two texts that are meant to share that
key.

The scripts differ in how they pad and in what they write out:

- `line_spaces_v2.py` pads lines. For counter `i` and a document of `n` lines,
  `mask = i % 2**n` picks the lines and `level = i // 2**n + 1` is the number
  of spaces each picked line gets. The check goes both ways. It writes the
  `"\n"` join of the lists stored under the chosen key.
- `line_spaces_mvp.py` pads lines cumulatively. Each round adds `(i >> j) & 1`
  spaces to line `j` of the previous list. The check goes both ways. It writes
  `writelines` of the lists stored under each side's own current key.
- `trailing_spaces.py` appends one space to each whole text per round. The
  check goes both ways. It writes the texts stored under the chosen key.
- `main.py` pads like `trailing_spaces.py`, but its check looks only for the
  real key in the fake table. It writes the real text stored under the real
  key and the current fake text.

The model has one module per concern:

- `Digest`: the digest as a parameter `h: Hasher`, a total function to
  64-character hex strings, and the match key `MatchKey`.
- `Text`: spaces, `"\n".join` (`JoinLines`) and `writelines` (`WriteLines`).
- `Bits`: powers of two, bits, shifts and low bits.
- `Tables`: a table after a sequence of inserts (`Tabulate`), its invariant
  (`Keyed`), the bidirectional check with its key choice (`ChooseKey`) and
  the emitted pair.
- `Driver`: one run fixed up front (`Attack`: what each side hashes in each
  round), the tables after `t` rounds, and the check of round `t`. `Decision`
  is the bidirectional check and `ForwardDecision` is the check of `main.py`.
- `LineSpacesV2`, `LineSpacesMvp`, `TrailingSpaces` and `MainScript`: each
  script's padding rule as pure functions, plus a `Search` class.
  - The class fields are the script's variables. Its two maps are the
    dictionaries.
  - `Step` is one pass of the `while True` body, and `Run` is the loop cut off
    after a number of rounds.
  - `Valid()` ties the fields to the round functions and to the tables of the
    `Driver`.
- `Findings`: concrete runs under a small stand-in hasher that show the
  output defects listed below.

On the three points below, the stated design of the attack and its code
disagree, and the model follows the code. The written pair of `main.py` and
`line_spaces_mvp.py` is different: the classes return the corrected pair, and
the code as written is modelled beside it (see "## Findings").

- A document with zero lines is not rejected. The line encoders then yield
  the empty list in every round.
- The line encoder of `line_spaces_v2.py` is not injective. The original
  document is hashed again at every multiple of `2**n`, and twice at the
  start (`OriginalRecurs`). Two counters give the same list only when both
  masks are zero (`OriginalRecurs`, `VariantInjective`).
- `line_spaces_mvp.py` reads lines with `readlines()`, so its lines keep
  their terminators. The spaces land after the `"\n"` (`CumulativePadded`).

## Model

| member | source | states |
|---|---|---|
| Digest.MatchKey | line_spaces_v2.py:63-64 | the key of a text has exactly `num_chars` characters |
| Digest.MatchKeyIsDigestSuffix | main.py:32-33 | the key is the slice `digest[64 - num_chars:]`, made only of hex digits |
| Text.JoinLinesLength | line_spaces_mvp.py:53-54 | `"\n".join` is one character longer per line boundary than `writelines`, so the two differ for two or more lines |
| Text.PaddedWithSpaces | trailing_spaces.py:64-65 | appending `n` spaces keeps the text as a prefix, adds `n` characters and adds only spaces |
| Tables.TabulateKeyed | line_spaces_v2.py:71-72 | every value in a table digests to its key, whatever the inserts were |
| Tables.TabulateLookup | line_spaces_v2.py:71-72 | a key is present iff some insert had it, and it holds the last such insert (last write wins) |
| Tables.SharedKeyCollides | trailing_spaces.py:56-59 | a key present in both tables names two values that both digest to it |
| Tables.ChooseKey | line_spaces_v2.py:75-76 | a hit iff the real key is in the fake table or the fake key is in the real table; the real key wins when it hits; a chosen key is in both tables once both inserts are done |
| Tables.SameRoundKeysHit | line_spaces_v2.py:71-75 | inserting before checking makes equal keys of the same round a hit on that key |
| Driver.HistoryStep | line_spaces_v2.py:62-72 | each round appends its own value to what the earlier rounds inserted and leaves those in place |
| Driver.TablesStep | line_spaces_v2.py:71-72 | round `t` overwrites each side's entry under its current key and leaves every other entry unchanged |
| Driver.TablesKeyed | line_spaces_v2.py:71-72 | the invariant holds for both tables after any number of rounds |
| Driver.TableLookup | line_spaces_v2.py:71-72 | a key is in a side's table after `t` rounds iff some round `r < t` produced it, and it holds the value of the last such round |
| Driver.ForwardDecision | main.py:45 | a hit iff the real key is in the fake table; a hit is a bidirectional hit on the same key; a miss is a bidirectional hit iff the fake key is in the real table, so a fake-side hit does not stop `main.py` |
| Driver.DecisionHits | trailing_spaces.py:50 | round `t` hits iff its real key came from some fake round up to `t` or its fake key from some real round up to `t` |
| Driver.DecisionCollides | trailing_spaces.py:50-59 | a hit names a key of both tables, both stored values digest to it, and each was produced by some round up to `t` |
| LineSpacesV2.MaskAndLevel | line_spaces_v2.py:95-96 | the mask is `i % 2**n` and the level is `i // 2**n + 1` |
| LineSpacesV2.Variant | line_spaces_v2.py:104-121 | a variant has as many lines as the original |
| LineSpacesV2.VariantLine | line_spaces_v2.py:104-121 | line `j` of a variant is the original line followed only by spaces, `level` of them when bit `j` of the mask is set and none otherwise |
| LineSpacesV2.MaskZeroGivesOriginal | line_spaces_v2.py:95-121 | a zero mask gives back the original lines |
| LineSpacesV2.OriginalRecurs | line_spaces_v2.py:95-122 | every multiple of `2**n` gives the original, and rounds 0 and 1 hash the same lists |
| LineSpacesV2.NonZeroMaskDiffers | line_spaces_v2.py:95-121 | a counter with a non-zero mask pads some line, so its variant differs from the original |
| LineSpacesV2.VariantInjective | line_spaces_v2.py:95-121 | two counters with the same variant are equal unless both masks are zero |
| LineSpacesV2.FirstLevelDistinct | line_spaces_v2.py:95-121 | the counters `0 .. 2**n - 1` give pairwise distinct lists |
| LineSpacesV2.LevelStep | line_spaces_v2.py:109-122 | the level rises by exactly one when `i + 1` is a multiple of `2**n` and stays put otherwise |
| LineSpacesV2.LevelMonotone | line_spaces_v2.py:109-122 | the level never decreases as `i` grows |
| LineSpacesV2.Search.constructor | line_spaces_v2.py:32-59 | the copies equal the originals, both tables are empty, `i = 0`, and the invariant holds |
| LineSpacesV2.Search.EmittedCollides | line_spaces_v2.py:76-84 | the written texts are the joins of lists that both digest to the printed key, each the list of some round up to the last |
| LineSpacesV2.Search.Step | line_spaces_v2.py:63-122 | keeps the invariant; updates both tables under the current keys; stops iff the check hits, returning the emitted pair; otherwise moves `i` on by one and builds the variants of the old `i` |
| LineSpacesV2.Search.Insert | line_spaces_v2.py:63-72 | stores both current lists under their keys and changes nothing else |
| LineSpacesV2.Search.Stop | line_spaces_v2.py:75-86 | on a hit, returns the lists stored under the chosen key, joined, and stops; nothing else changes |
| LineSpacesV2.Search.Advance | line_spaces_v2.py:95-122 | after a miss, the lists become the variants of `i`, `i` grows by one, and the tables stay unchanged |
| LineSpacesV2.Search.Pad | line_spaces_v2.py:95-121 | both lists become the variants of `i`, and nothing else changes |
| LineSpacesV2.Search.Run | line_spaces_v2.py:62-122 | within the round budget it either stops with the emitted pair of a hitting round or runs every round with no hit |
| LineSpacesMvp.Update | line_spaces_mvp.py:81-96 | an update keeps the number of lines |
| LineSpacesMvp.UpdateLine | line_spaces_mvp.py:81-96 | an update appends exactly `(i >> j) & 1` spaces to line `j` and nothing else |
| LineSpacesMvp.CumulativeLine | line_spaces_mvp.py:81-97 | after the updates for `0 .. n-1`, line `j` is the original followed by one space per counter below `n` with bit `j` set |
| LineSpacesMvp.CumulativePadded | line_spaces_mvp.py:31-36 | the original line stays a prefix, and a line ending in `"\n"` keeps it in place with the spaces after it |
| LineSpacesMvp.FirstUpdateIsIdentity | line_spaces_mvp.py:81-97 | the update for counter 0 changes nothing, so rounds 0 and 1 hash the same lists |
| LineSpacesMvp.WrittenAsIs | line_spaces_mvp.py:67-73 | the written texts are `writelines` of the two lists inserted in the stopping round, and the printed key is the real key |
| LineSpacesMvp.Search.constructor | line_spaces_mvp.py:30-49 | the copies equal the originals, both tables are empty, `i = 0`, and the invariant holds |
| LineSpacesMvp.Search.EmittedCollides | line_spaces_mvp.py:61-73 | the pair stored under the chosen key, joined as it was hashed, digests to the printed key on both sides |
| LineSpacesMvp.Search.WrittenIsCurrent | line_spaces_mvp.py:67-73 | for a stopped run, what lines 67-73 write is `writelines` of the current lists, under the key of the current real list |
| LineSpacesMvp.Search.Step | line_spaces_mvp.py:53-97 | keeps the invariant; updates both tables; stops iff the check hits; otherwise applies the update for the old `i` to both lists |
| LineSpacesMvp.Search.Insert | line_spaces_mvp.py:53-62 | stores both current lists under their keys and changes nothing else |
| LineSpacesMvp.Search.Stop | line_spaces_mvp.py:65-75 | on a hit, returns the corrected pair stored under the chosen key and stops; nothing else changes |
| LineSpacesMvp.Search.Advance | line_spaces_mvp.py:81-97 | after a miss, each list becomes its update by the old `i`, `i` grows by one, and the tables stay unchanged |
| LineSpacesMvp.Search.Pad | line_spaces_mvp.py:81-96 | both lists become their updates by `i`, and nothing else changes |
| LineSpacesMvp.Search.Run | line_spaces_mvp.py:52-97 | within the round budget it either stops with the emitted pair or runs every round with no hit |
| TrailingSpaces.RoundText | trailing_spaces.py:25-28 | round `t` hashes the original followed by `t` spaces, of length `|og| + t` |
| TrailingSpaces.RoundTextStep | trailing_spaces.py:64-65 | `+= " "` moves a side from round `t` to round `t + 1`, and the text stays the original padded with spaces |
| TrailingSpaces.RoundTextsDistinct | trailing_spaces.py:45-46 | the texts of two rounds of one side are equal iff the rounds are equal |
| TrailingSpaces.Search.constructor | trailing_spaces.py:25-33 | the texts as read, empty tables, and the invariant holds |
| TrailingSpaces.Search.EmittedCollides | trailing_spaces.py:51-59 | both written texts digest to the chosen key, each the text of some round up to the last |
| TrailingSpaces.Search.Step | trailing_spaces.py:37-65 | keeps the invariant; updates both tables; stops iff the bidirectional check hits; otherwise appends one space to each text |
| TrailingSpaces.Search.Insert | trailing_spaces.py:37-46 | stores both current texts under their keys and changes nothing else |
| TrailingSpaces.Search.Stop | trailing_spaces.py:50-61 | on a hit, returns the texts stored under the chosen key and stops; nothing else changes |
| TrailingSpaces.Search.Advance | trailing_spaces.py:64-65 | after a miss, each text gains one space and the tables stay unchanged |
| TrailingSpaces.Search.Run | trailing_spaces.py:36-65 | within the round budget it either stops with the emitted pair or runs every round with no hit |
| MainScript.WrittenAsIs | main.py:52-55 | the written texts are the real and fake texts of the stopping round itself, and the printed key is the real key |
| MainScript.Search.constructor | main.py:20-28 | the texts as read, empty tables, and the invariant holds |
| MainScript.Search.EmittedCollides | main.py:45-55 | the real text and the fake text stored under the real key both digest to the printed key |
| MainScript.Search.WrittenIsCurrent | main.py:52-55 | for a stopped run, what lines 52-55 write is the current real and fake texts, under the key of the current real text |
| MainScript.Search.Step | main.py:32-61 | keeps the invariant; updates both tables; stops iff the real key is in the fake table; otherwise appends one space to each text |
| MainScript.Search.Insert | main.py:32-41 | stores both current texts under their keys and changes nothing else |
| MainScript.Search.Stop | main.py:45-57 | on a forward hit, returns the corrected pair stored under the real key and stops; nothing else changes |
| MainScript.Search.Advance | main.py:60-61 | after a miss, each text gains one space and the tables stay unchanged |
| MainScript.Search.Run | main.py:31-61 | within the round budget it either stops with the emitted pair or runs every round with no forward hit |
| Findings.MainWritesUnmatchedFake | main.py:40-55 | on "r" and "f" the stand-in hasher hits in round 1 on key "b", and the written fake text "f " has key "c" |
| Findings.MvpWritesUnmatchedFake | line_spaces_mvp.py:61-73 | on ["r"] and ["f"] the stand-in hasher hits in round 2 on key "b", and the written fake text "f " has key "c" |
| Findings.MvpWritesOtherText | line_spaces_mvp.py:53-73 | for a document of two or more lines the written text is never the hashed one |

## Left out

- Argument parsing, the usage message and the exit are process I/O.
- File reading and writing are I/O, and so are the `.out` names.
  - This includes the hard-coded output names of `main.py` and the
    `{fake_file}.txt.out` name of `trailing_spaces.py` (line 58).
  - The classes take the documents as parameters. For `line_spaces_v2.py`
    and `trailing_spaces.py`, a stopped `Step` returns the pair the script
    writes. For the other two scripts it returns the corrected pair; see the
    two lines below.
- The collision notices and the `pprint` debug output are printed output.
- SHA-256 and `.encode()` are foreign library calls. The digest is the
  parameter `h`.
- `num_chars` is a `KeyLength` between 1 and 64. No script validates it, and
  Python's `[-0:]` or an oversized slice would give the whole digest. Those
  values are not modelled.
- `while True` runs until a collision, which depends on the digests. `Run`
  takes a round budget, and nothing proves that a collision is ever found.
- `TrailingSpaces.Search` and `MainScript.Search`: these scripts keep no round
  counter, so the classes carry a ghost `round` for their invariant.
- `LineSpacesV2.Search`, `LineSpacesMvp.Search`: the serialiser is a `const
  render` that the constructor sets to `JoinLines`. It is not a call in the
  method bodies.
- `MainScript.Search.Stop`: returns the corrected pair, the real and fake
  texts stored under `real_hash`, not what line 55 writes. The as-written
  output is `MainScript.WrittenAsIs`, and `MainScript.Search.WrittenIsCurrent`
  ties a stopped run to it.
- `LineSpacesMvp.Search.Stop`: returns the corrected pair, the `"\n"` joins
  of the lists stored under the chosen key, not what lines 67-73 print and
  write. The as-written output is `LineSpacesMvp.WrittenAsIs`, and
  `LineSpacesMvp.Search.WrittenIsCurrent` ties a stopped run to it.
- Python lists are copied values in the model. The `.copy()` calls and any
  aliasing between `real_og` and `real_modified` are not modelled.

## Findings

| source | as written | input that shows it | evidently intended | confidence | as-written member | corrected member |
|---|---|---|---|---|---|---|
| main.py:55 | the fake file gets `all_fake_hashes[fake_hash]`, the current fake text, not the fake text stored under the colliding `real_hash` | real "r", fake "f", `num_chars = 1`, digests ending in a for "r", b for "f" and "r ", c otherwise: round 1 hits on "b", and the fake text written is "f ", with key "c" | write `all_fake_hashes[real_hash]`, as `trailing_spaces.py` does with `hash` | not executed | MainScript.WrittenAsIs, Findings.MainWritesUnmatchedFake | MainScript.Search.EmittedCollides |
| line_spaces_mvp.py:70-73 | each file gets the list stored under that side's own current key, not the list stored under the key that hit | lists ["r"] and ["f"] with the same digests: round 2 hits on the key "b" of ["r "] and ["f"], and the fake text written is "f ", with key "c" | write the lists stored under the chosen key, as `line_spaces_v2.py` does | not executed | LineSpacesMvp.WrittenAsIs, Findings.MvpWritesUnmatchedFake | LineSpacesMvp.Search.EmittedCollides |
| line_spaces_mvp.py:71,73 | `writelines(list)` concatenates the lines, but the list was hashed as its `"\n"` join | any document of two or more lines, e.g. ["x\n", "y"]: hashed "x\n\ny", written "x\ny" | write the `"\n"` join, as `line_spaces_v2.py` does | not executed | LineSpacesMvp.WrittenAsIs, Findings.MvpWritesOtherText | LineSpacesMvp.Search.EmittedCollides |
