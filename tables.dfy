/** The two key -> text tables every script keeps (`all_real_hashes`,
    `all_fake_hashes`), the cross-table check and the choice of emitted texts.
    A table after a run is described by `Tabulate`: the texts in the order they
    were inserted, each stored under its match key, a later insert overwriting
    an earlier one. */
module Tables {
  import opened Digest

  datatype Option<T> = None | Some(value: T)

  /** What a script reports on termination: the shared key and the two texts
      it writes out. */
  datatype Collision = Collision(key: string, realText: string, fakeText: string)

  /** Match key of a stored value, `render` giving the bytes that were hashed. */
  function KeyOf<T>(x: T, render: T -> string, h: Hasher, numChars: KeyLength): string
  {
    MatchKey(h, numChars, render(x))
  }

  /** The table invariant: every stored value digests to its key. */
  ghost predicate Keyed<T>(table: map<string, T>, render: T -> string, h: Hasher, numChars: KeyLength)
  {
    forall k :: k in table ==> KeyOf(table[k], render, h, numChars) == k
  }

  /** The table after `table[key(x)] = x` for every `x` of `texts`, in order,
      starting from `{}`. */
  function Tabulate<T>(texts: seq<T>, render: T -> string, h: Hasher, numChars: KeyLength): map<string, T>
    decreases |texts|
  {
    if |texts| == 0 then map[]
    else
      var last := texts[|texts| - 1];
      Tabulate(texts[..|texts| - 1], render, h, numChars)[KeyOf(last, render, h, numChars) := last]
  }

  /** No text after position `t` has key `k`. */
  ghost predicate LastWith<T>(texts: seq<T>, t: nat, k: string, render: T -> string, h: Hasher, numChars: KeyLength)
  {
    t < |texts| && KeyOf(texts[t], render, h, numChars) == k &&
    forall u :: t < u < |texts| ==> KeyOf(texts[u], render, h, numChars) != k
  }

  lemma {:induction false} TabulateKeyed<T>(texts: seq<T>, render: T -> string, h: Hasher, numChars: KeyLength)
    ensures Keyed(Tabulate(texts, render, h, numChars), render, h, numChars)
  {
    if |texts| > 0 {
      TabulateKeyed(texts[..|texts| - 1], render, h, numChars);
    }
  }

  /** A key is present exactly when some inserted text has it, and it then holds
      the LAST inserted text with that key (last write wins). */
  lemma {:induction false} TabulateLookup<T>(texts: seq<T>, render: T -> string, h: Hasher, numChars: KeyLength, k: string)
    ensures var table := Tabulate(texts, render, h, numChars);
      k in table <==> exists t :: 0 <= t < |texts| && KeyOf(texts[t], render, h, numChars) == k
    ensures var table := Tabulate(texts, render, h, numChars);
      k in table ==> exists t: nat :: LastWith(texts, t, k, render, h, numChars) && table[k] == texts[t]
  {
    if |texts| > 0 {
      var init := texts[..|texts| - 1];
      var last := texts[|texts| - 1];
      TabulateLookup(init, render, h, numChars, k);
      if KeyOf(last, render, h, numChars) == k {
        assert LastWith(texts, |texts| - 1, k, render, h, numChars);
      } else {
        var table := Tabulate(init, render, h, numChars);
        if k in table {
          var t: nat :| LastWith(init, t, k, render, h, numChars) && table[k] == init[t];
          assert LastWith(texts, t, k, render, h, numChars);
        }
        if exists t :: 0 <= t < |texts| && KeyOf(texts[t], render, h, numChars) == k {
          var t :| 0 <= t < |texts| && KeyOf(texts[t], render, h, numChars) == k;
          assert init[t] == texts[t];
        }
      }
    }
  }

  /** A key present in both tables: both stored values digest to it. */
  lemma SharedKeyCollides<T>(reals: seq<T>, fakes: seq<T>, render: T -> string, h: Hasher, numChars: KeyLength, k: string)
    requires k in Tabulate(reals, render, h, numChars) && k in Tabulate(fakes, render, h, numChars)
    ensures MatchKey(h, numChars, render(Tabulate(reals, render, h, numChars)[k])) == k
    ensures MatchKey(h, numChars, render(Tabulate(fakes, render, h, numChars)[k])) == k
  {
    TabulateKeyed(reals, render, h, numChars);
    TabulateKeyed(fakes, render, h, numChars);
  }

  /** The bidirectional check and the key selection of line_spaces_v2.py and
      trailing_spaces.py: a hit when either current key is already present in
      the other side's table; the real key wins when both hit. */
  function ChooseKey<T>(realKey: string, fakeKey: string, reals: map<string, T>, fakes: map<string, T>): (r: Option<string>)
    ensures r.Some? <==> realKey in fakes || fakeKey in reals
    ensures r.Some? && realKey in reals && fakeKey in fakes ==> r.value in reals && r.value in fakes
    ensures r.Some? ==> (r.value == realKey && realKey in fakes) || (r.value == fakeKey && realKey !in fakes)
  {
    if realKey in fakes then Some(realKey)
    else if fakeKey in reals then Some(fakeKey)
    else None
  }

  /** Insertion precedes the check, so two equal keys computed in the same round
      are a hit at once. */
  lemma SameRoundKeysHit<T>(reals: map<string, T>, fakes: map<string, T>, realValue: T, fakeValue: T, k: string)
    ensures ChooseKey(k, k, reals[k := realValue], fakes[k := fakeValue]) == Some(k)
  {
  }

  /** Emit the two values stored under the shared key `k`, rendered as they were hashed. */
  function EmitShared<T>(reals: map<string, T>, fakes: map<string, T>, k: string, render: T -> string): (c: Collision)
    requires k in reals && k in fakes
    ensures c.key == k
    ensures c.realText == render(reals[k]) && c.fakeText == render(fakes[k])
  {
    Collision(k, render(reals[k]), render(fakes[k]))
  }
}
