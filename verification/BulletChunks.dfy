/** Splitting a long text into bullets of bounded length, without breaking a word. */
module BulletChunks {
  import opened Text

  /** Words `a` to `b` on one line. */
  function Chunk(ws: seq<string>, a: nat, b: nat): string
    requires a <= b <= |ws|
  {
    Join(ws[a..b], " ")
  }

  /** A chunk is short enough, or it is one word that cannot be. */
  predicate Fits(ws: seq<string>, maxChars: int, a: nat, b: nat) {
    a < b <= |ws| && (b == a + 1 || |Chunk(ws, a, b)| <= maxChars)
  }

  /** `cuts` marks where each chunk starts, beginning with the first word. */
  predicate Marks(ws: seq<string>, maxChars: int, cuts: seq<nat>) {
    && |cuts| > 0 && cuts[0] == 0 && cuts[|cuts| - 1] <= |ws|
    && forall k :: 0 < k < |cuts| ==> Fits(ws, maxChars, cuts[k - 1], cuts[k])
  }

  /** The chunks put every word, in order, into exactly one chunk that fits. */
  predicate IsSplit(ws: seq<string>, maxChars: int, cuts: seq<nat>) {
    Marks(ws, maxChars, cuts) && cuts[|cuts| - 1] == |ws|
  }

  /** No chunk before a cut could have taken one more word. */
  predicate Full(ws: seq<string>, maxChars: int, cuts: seq<nat>) {
    forall k :: 0 < k < |cuts| && cuts[k] < |ws| ==> !Fits(ws, maxChars, cuts[k - 1], cuts[k] + 1)
  }

  predicate IsChunk(ws: seq<string>, a: nat, b: nat, text: string) {
    a <= b <= |ws| && text == Chunk(ws, a, b)
  }

  predicate ChunksAt(ws: seq<string>, cuts: seq<nat>, out: seq<string>) {
    && |cuts| == |out| + 1
    && forall k :: 0 <= k < |out| ==> IsChunk(ws, cuts[k], cuts[k + 1], out[k])
  }

  /** A split into chunks that fit, none of which could have taken its next word. */
  predicate GreedySplit(ws: seq<string>, maxChars: int, cuts: seq<nat>, out: seq<string>) {
    IsSplit(ws, maxChars, cuts) && Full(ws, maxChars, cuts) && ChunksAt(ws, cuts, out)
  }

  // ---------------------------------------------------------------- the loop

  method BulletChunks(text: string, maxChars: int) returns (out: seq<string>)
    ensures exists cuts :: GreedySplit(Words(text), maxChars, cuts, out)
  {
    var clean := Clean(text);
    CleanKeepsWords(text);
    CleanIsJoin(text);
    WordsAreWords(text);
    var words := Words(clean);
    assert words[0..|words|] == words;
    if clean == "" {
      assert GreedySplit(words, maxChars, [0], []);
      return [];
    }
    if |clean| <= maxChars {
      assert GreedySplit(words, maxChars, [0, |words|], [clean]);
      return [clean];
    }
    out := Pack(words, maxChars);
  }

  /** The chunk being filled: the words since the last cut. */
  predicate Growing(ws: seq<string>, maxChars: int, start: nat, i: nat, current: string) {
    && start <= i <= |ws| && current == Chunk(ws, start, i)
    && (current == "" <==> start == i)
    && (start < i ==> Fits(ws, maxChars, start, i))
    && (start == i ==> i == 0)
  }

  /** The loop over the words. */
  method Pack(words: seq<string>, maxChars: int) returns (out: seq<string>)
    requires AllWords(words)
    ensures exists cuts :: GreedySplit(words, maxChars, cuts, out)
  {
    out := [];
    ghost var cuts: seq<nat> := [0];
    var current := "";
    for i := 0 to |words|
      invariant Closed(words, maxChars, cuts, out)
      invariant Growing(words, maxChars, cuts[|cuts| - 1], i, current)
    {
      var candidate := Strip(current + " " + words[i]);
      AddWord(words, cuts[|cuts| - 1], i, current);
      if current != "" && |candidate| > maxChars {
        CloseChunk(words, maxChars, cuts, out, i, current);
        out := out + [current];
        cuts := cuts + [i];
        current := words[i];
      } else {
        current := candidate;
      }
    }
    if current != "" {
      CloseChunk(words, maxChars, cuts, out, |words|, current);
      out := out + [current];
      cuts := cuts + [|words|];
    }
    assert GreedySplit(words, maxChars, cuts, out);
  }

  predicate Closed(ws: seq<string>, maxChars: int, cuts: seq<nat>, out: seq<string>) {
    Marks(ws, maxChars, cuts) && Full(ws, maxChars, cuts) && ChunksAt(ws, cuts, out)
  }

  lemma CloseChunk(ws: seq<string>, maxChars: int, cuts: seq<nat>, out: seq<string>, i: nat, current: string)
    requires Closed(ws, maxChars, cuts, out) && Growing(ws, maxChars, cuts[|cuts| - 1], i, current)
    requires current != "" && (i < |ws| ==> |Chunk(ws, cuts[|cuts| - 1], i + 1)| > maxChars)
    ensures Closed(ws, maxChars, cuts + [i], out + [current])
  {
    var more, text := cuts + [i], out + [current];
    var n := |cuts|;
    forall k | 0 < k < |more|
      ensures Fits(ws, maxChars, more[k - 1], more[k])
      ensures more[k] < |ws| ==> !Fits(ws, maxChars, more[k - 1], more[k] + 1)
    {
      assert more[k - 1] == cuts[k - 1] && (k < n ==> more[k] == cuts[k]);
    }
    forall k | 0 <= k < |text| ensures IsChunk(ws, more[k], more[k + 1], text[k]) {
      assert k < n - 1 ==> IsChunk(ws, cuts[k], cuts[k + 1], out[k]);
    }
  }

  lemma AddWord(ws: seq<string>, start: nat, i: nat, current: string)
    requires AllWords(ws) && start <= i < |ws| && current == Chunk(ws, start, i)
    requires current == "" <==> start == i
    ensures Strip(current + " " + ws[i]) == Chunk(ws, start, i + 1) && Chunk(ws, start, i + 1) != ""
    ensures Chunk(ws, i, i + 1) == ws[i] && ws[i] != ""
  {
    var last := ws[i..i + 1];
    assert last == [ws[i]] && Join(last, " ") == ws[i];
    assert ws[start..i + 1] == ws[start..i] + last;
    StripOfJoin(ws[start..i + 1]);
    StripOfJoin(last);
    JoinEnds(ws[start..i + 1]);
    assert IsWord(ws[i]);
    if start == i {
      assert current + " " + ws[i] == " " + ws[i];
    } else {
      JoinConcat(ws[start..i], last, " ");
    }
  }

  // ---------------------------------------------------------------- nothing is lost

  /** The chunks on one line are the cleaned text again. */
  lemma {:induction false} ChunksKeepText(ws: seq<string>, maxChars: int, cuts: seq<nat>, out: seq<string>)
    requires Marks(ws, maxChars, cuts) && ChunksAt(ws, cuts, out)
    ensures Join(out, " ") == Chunk(ws, 0, cuts[|cuts| - 1])
  {
    var n := |out|;
    if n == 0 {
      assert ws[0..0] == [];
    } else {
      var front := out[..n - 1];
      forall k | 0 <= k < n - 1 ensures IsChunk(ws, cuts[..n][k], cuts[..n][k + 1], front[k]) {
        assert IsChunk(ws, cuts[k], cuts[k + 1], out[k]);
      }
      ChunksKeepText(ws, maxChars, cuts[..n], front);
      assert Fits(ws, maxChars, cuts[n - 1], cuts[n]);
      assert IsChunk(ws, cuts[n - 1], cuts[n - 1 + 1], out[n - 1]);
      if n > 1 {
        assert Fits(ws, maxChars, cuts[n - 2], cuts[n - 1]);
      }
      OneMoreChunk(ws, cuts[n - 1], cuts[n], front, out[n - 1]);
      assert out == front + [out[n - 1]];
    }
  }

  lemma OneMoreChunk(ws: seq<string>, a: nat, b: nat, front: seq<string>, last: string)
    requires a < b && IsChunk(ws, a, b, last)
    requires Join(front, " ") == Chunk(ws, 0, a) && (front == [] <==> a == 0)
    ensures Join(front + [last], " ") == Chunk(ws, 0, b)
  {
    if front == [] {
      assert front + [last] == [last];
    } else {
      JoinConcat(front, [last], " ");
      JoinConcat(ws[0..a], ws[a..b], " ");
      assert ws[0..b] == ws[0..a] + ws[a..b];
    }
  }

  /** Whatever the limit, putting the bullets of a text together gives back its words. */
  lemma SplitKeepsEveryWord(text: string, maxChars: int, cuts: seq<nat>, out: seq<string>)
    requires GreedySplit(Words(text), maxChars, cuts, out)
    ensures Join(out, " ") == Clean(text) && Words(Join(out, " ")) == Words(text)
  {
    var ws := Words(text);
    ChunksKeepText(ws, maxChars, cuts, out);
    assert ws[0..|ws|] == ws;
    CleanIsJoin(text);
    WordsAreWords(text);
    WordsOfJoin(ws);
  }

  // ---------------------------------------------------------------- no split has fewer chunks

  lemma ShorterStretch(ws: seq<string>, a: nat, b: nat, c: nat, d: nat)
    requires a <= c < d <= b <= |ws|
    ensures |Chunk(ws, c, d)| <= |Chunk(ws, a, b)|
  {
    if a < c {
      assert ws[a..b] == ws[a..c] + ws[c..b];
      JoinConcat(ws[a..c], ws[c..b], " ");
    }
    if d < b {
      assert ws[c..b] == ws[c..d] + ws[d..b];
      JoinConcat(ws[c..d], ws[d..b], " ");
    }
  }

  /** A chunk that starts no later than a full one ends no later. */
  lemma FullEndsLast(ws: seq<string>, maxChars: int, start: nat, cut: nat, a: nat, b: nat)
    requires Fits(ws, maxChars, start, cut) && (cut < |ws| ==> !Fits(ws, maxChars, start, cut + 1))
    requires a <= start && Fits(ws, maxChars, a, b)
    ensures b <= cut
  {
    if cut < b {
      ShorterStretch(ws, a, b, start, cut + 1);
    }
  }

  /** Chunk by chunk, the greedy split is at least as far as any other. */
  lemma {:induction false} StaysAhead(ws: seq<string>, maxChars: int, cuts: seq<nat>, other: seq<nat>, k: nat)
    requires IsSplit(ws, maxChars, cuts) && Full(ws, maxChars, cuts) && IsSplit(ws, maxChars, other)
    requires k < |cuts| && k < |other|
    ensures other[k] <= cuts[k]
  {
    if k == 0 {
    } else {
      StaysAhead(ws, maxChars, cuts, other, k - 1);
      assert Fits(ws, maxChars, cuts[k - 1], cuts[k]) && Fits(ws, maxChars, other[k - 1], other[k]);
      FullEndsLast(ws, maxChars, cuts[k - 1], cuts[k], other[k - 1], other[k]);
    }
  }

  lemma {:induction false} CutsIncrease(ws: seq<string>, maxChars: int, cuts: seq<nat>, j: nat, k: nat)
    requires Marks(ws, maxChars, cuts) && j < k < |cuts|
    ensures cuts[j] < cuts[k]
  {
    assert Fits(ws, maxChars, cuts[k - 1], cuts[k]);
    if j == k - 1 {
    } else {
      CutsIncrease(ws, maxChars, cuts, j, k - 1);
    }
  }

  /** The bullets are as few as the limit allows. */
  lemma GreedyIsMinimal(ws: seq<string>, maxChars: int, cuts: seq<nat>, other: seq<nat>)
    requires IsSplit(ws, maxChars, cuts) && Full(ws, maxChars, cuts) && IsSplit(ws, maxChars, other)
    ensures |cuts| <= |other|
  {
    if |other| < |cuts| {
      StaysAhead(ws, maxChars, cuts, other, |other| - 1);
      CutsIncrease(ws, maxChars, cuts, |other| - 1, |cuts| - 1);
    }
  }

  /** A split that leaves no room is the only one of its kind: the loop has one possible answer. */
  lemma GreedyIsUnique(ws: seq<string>, maxChars: int, cuts: seq<nat>, other: seq<nat>)
    requires IsSplit(ws, maxChars, cuts) && Full(ws, maxChars, cuts)
    requires IsSplit(ws, maxChars, other) && Full(ws, maxChars, other)
    ensures cuts == other
  {
    GreedyIsMinimal(ws, maxChars, cuts, other);
    GreedyIsMinimal(ws, maxChars, other, cuts);
    forall k | 0 <= k < |cuts| ensures cuts[k] == other[k] {
      StaysAhead(ws, maxChars, cuts, other, k);
      StaysAhead(ws, maxChars, other, cuts, k);
    }
  }
}
