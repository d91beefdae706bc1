/**
 * Focal-letter selection of the backend (`FocalLetterPredictor` and
 * `FocalLetterExtractor`).
 *
 * The floating-point importance score of each character, and its
 * normalisation by the maximum, are not modelled: a word's scores are an
 * arbitrary sequence of reals, and the result of `np.argsort` on them is an
 * arbitrary ordering of the positions by ascending score (numpy does not fix
 * how ties are broken). Together they form a `Ranking`.
 */
module FocalModel {

  /** One entry of `get_focal_letters`: a position, the one-character string there, its weight. */
  datatype FocalLetter = FocalLetter(index: int, ch: string, weight: real)

  /** The scores of a word's characters and one `argsort` order of them. */
  datatype Ranking = Ranking(scores: seq<real>, order: seq<int>)

  /** `order` lists each position 0 .. n-1 exactly once. */
  predicate IsPermutation(order: seq<int>, n: nat)
  {
    && |order| == n
    && (forall i | 0 <= i < n :: 0 <= order[i] < n)
    && (forall i, j | 0 <= i < j < n :: order[i] != order[j])
    && (forall p | 0 <= p < n :: p in order)
  }

  /** What `argsort` guarantees: a permutation of the positions, ascending by score. */
  predicate ValidRanking(word: string, rk: Ranking)
  {
    && |rk.scores| == |word|
    && IsPermutation(rk.order, |word|)
    && forall i, j | 0 <= i < j < |word| :: rk.scores[rk.order[i]] <= rk.scores[rk.order[j]]
  }

  // ---------------------------------------------------------------------
  // Optimal viewing position

  /**
   * `calculate_ovp`: `int(n * 0.35)`, `int(n * 0.37)` and `int(n * 0.40)`
   * written as exact integer divisions by 100 (see README for how this
   * relates to the floating-point products).
   */
  function CalculateOvp(wordLength: nat): (ovp: nat)
    ensures wordLength > 0 ==> ovp < wordLength
  {
    if wordLength <= 3 then wordLength / 2
    else if wordLength <= 5 then wordLength * 35 / 100
    else if wordLength <= 8 then wordLength * 37 / 100
    else wordLength * 40 / 100
  }

  /** The position rule in integers: 1 for lengths 4-5, 2 for 6-8, floor(2n/5) from 9 on. */
  lemma OvpTable(n: nat)
    ensures n <= 3 ==> CalculateOvp(n) == n / 2
    ensures 4 <= n <= 5 ==> CalculateOvp(n) == 1
    ensures 6 <= n <= 8 ==> CalculateOvp(n) == 2
    ensures 9 <= n ==> CalculateOvp(n) == 2 * n / 5
  {
    if 9 <= n {
      var q, r := 2 * n / 5, 2 * n % 5;
      assert n * 40 == 100 * q + 20 * r;
      DivHundred(n * 40, q, 20 * r);
    }
  }

  lemma DivHundred(a: int, q: int, r: int)
    requires a == 100 * q + r && 0 <= r < 100
    ensures a / 100 == q
  {
  }

  // ---------------------------------------------------------------------
  // How many letters are chosen

  function Min(a: int, b: int): int { if a <= b then a else b }

  /** `num_focal` of `identify_focal_letters`. */
  function NumFocal(n: nat): (k: nat)
    ensures 1 <= k <= 3
    ensures n >= 1 ==> k <= n
  {
    if n <= 4 then 1
    else if n <= 8 then (if n >= 6 then 2 else 1)
    else Min(3, n / 4)
  }

  lemma NumFocalTable(n: nat)
    ensures n <= 5 ==> NumFocal(n) == 1
    ensures 6 <= n <= 8 ==> NumFocal(n) == 2
    ensures 9 <= n <= 11 ==> NumFocal(n) == 2
    ensures 12 <= n ==> NumFocal(n) == 3
  {
  }

  // ---------------------------------------------------------------------
  // Python's `sorted` on a list of positions

  predicate Sorted(s: seq<int>)
  {
    forall i, j | 0 <= i < j < |s| :: s[i] <= s[j]
  }

  predicate StrictlyIncreasing(s: seq<int>)
  {
    forall i, j | 0 <= i < j < |s| :: s[i] < s[j]
  }

  predicate Distinct(s: seq<int>)
  {
    forall i, j | 0 <= i < j < |s| :: s[i] != s[j]
  }

  function Insert(x: int, s: seq<int>): (r: seq<int>)
    requires Sorted(s)
    ensures Sorted(r)
    ensures multiset(r) == multiset(s) + multiset{x}
  {
    if s == [] || x <= s[0] then
      SortedCons(x, s);
      [x] + s
    else
      var rest := Insert(x, s[1..]);
      assert s == [s[0]] + s[1..];
      BoundedByMultiset(s[0], rest, s);
      SortedCons(s[0], rest);
      [s[0]] + rest
  }

  lemma SortedCons(h: int, t: seq<int>)
    requires Sorted(t) && (t == [] || h <= t[0])
    ensures Sorted([h] + t)
  {
    var r := [h] + t;
    forall i, j | 0 <= i < j < |r| ensures r[i] <= r[j] {
      if i > 0 {
        assert r[i] == t[i - 1] && r[j] == t[j - 1];
      } else {
        assert r[j] == t[j - 1];
      }
    }
  }

  /** Every element of r comes from s or is x; all of them are at least s[0] when s is sorted and x >= s[0]. */
  lemma BoundedByMultiset(lo: int, r: seq<int>, s: seq<int>)
    requires Sorted(s) && s != [] && lo == s[0]
    requires forall y | y in multiset(r) :: y in multiset(s) || lo <= y
    ensures r == [] || lo <= r[0]
  {
    if r != [] {
      assert r[0] in multiset(r);
      if r[0] in multiset(s) {
        var k :| 0 <= k < |s| && s[k] == r[0];
      }
    }
  }

  function SortAscending(s: seq<int>): (r: seq<int>)
    ensures Sorted(r)
    ensures multiset(r) == multiset(s)
  {
    if s == [] then []
    else
      assert s == [s[0]] + s[1..];
      Insert(s[0], SortAscending(s[1..]))
  }

  lemma {:induction false} DistinctCount(t: seq<int>, x: int)
    requires Distinct(t)
    ensures multiset(t)[x] <= 1
  {
    if t != [] {
      assert t == [t[0]] + t[1..];
      assert Distinct(t[1..]) by {
        forall i, j | 0 <= i < j < |t[1..]| ensures t[1..][i] != t[1..][j] {
          assert t[1..][i] == t[i + 1] && t[1..][j] == t[j + 1];
        }
      }
      DistinctCount(t[1..], x);
      if t[0] == x {
        assert x !in t[1..] by {
          forall k | 0 <= k < |t[1..]| ensures t[1..][k] != x {
            assert t[1..][k] == t[k + 1];
          }
        }
      }
    }
  }

  lemma RepeatedCount(r: seq<int>, i: nat, j: nat)
    requires i < j < |r| && r[i] == r[j]
    ensures multiset(r)[r[i]] >= 2
  {
    assert r == r[..i] + [r[i]] + r[i + 1..j] + [r[j]] + r[j + 1..];
  }

  /** Sorting a list without repetitions gives a strictly increasing list. */
  lemma SortedDistinctIsStrict(r: seq<int>, t: seq<int>)
    requires Sorted(r) && multiset(r) == multiset(t) && Distinct(t)
    ensures StrictlyIncreasing(r)
  {
    forall i, j | 0 <= i < j < |r| ensures r[i] < r[j] {
      if r[i] == r[j] {
        RepeatedCount(r, i, j);
        DistinctCount(t, r[i]);
      }
    }
  }

  // ---------------------------------------------------------------------
  // identify_focal_letters

  /** The positions `argsort(scores)[-k:]` ranks highest: the last k entries of the order. */
  function TopOfOrder(word: string, rk: Ranking): (top: seq<int>)
    requires ValidRanking(word, rk) && |word| >= 2
    ensures |top| == NumFocal(|word|)
    ensures Distinct(top)
    ensures forall x | x in top :: 0 <= x < |word|
  {
    var n := |word|;
    var top := rk.order[n - NumFocal(n)..];
    assert forall a, b | 0 <= a < b < |top| :: top[a] == rk.order[n - NumFocal(n) + a] && top[b] == rk.order[n - NumFocal(n) + b];
    top
  }

  /** The chosen positions: the top of the order, sorted (`sorted(...)` in the source). */
  function ChosenPositions(word: string, rk: Ranking): (indices: seq<int>)
    requires ValidRanking(word, rk) && |word| >= 2
    ensures |indices| == NumFocal(|word|)
    ensures multiset(indices) == multiset(TopOfOrder(word, rk))
    ensures StrictlyIncreasing(indices)
    ensures forall i | 0 <= i < |indices| :: 0 <= indices[i] < |word|
  {
    var top := TopOfOrder(word, rk);
    var indices := SortAscending(top);
    SortedDistinctIsStrict(indices, top);
    SameElementsInRange(indices, top, |word|);
    indices
  }

  lemma SameElementsInRange(r: seq<int>, t: seq<int>, n: int)
    requires multiset(r) == multiset(t)
    requires forall x | x in t :: 0 <= x < n
    ensures |r| == |t|
    ensures forall i | 0 <= i < |r| :: 0 <= r[i] < n
  {
    assert |r| == |multiset(r)| == |multiset(t)| == |t|;
    forall i | 0 <= i < |r| ensures 0 <= r[i] < n {
      assert r[i] in multiset(t);
      assert r[i] in t;
    }
  }

  /**
   * `identify_focal_letters`: the chosen positions in ascending order and the
   * score of each one. Reversing the top of the order (`[::-1]`) before
   * sorting it does not change the sorted result, so it is not written out.
   */
  function IdentifyFocalLetters(word: string, rk: Ranking): (r: (seq<int>, seq<real>))
    requires ValidRanking(word, rk)
    ensures |r.0| == |r.1| == (if |word| == 0 then 0 else NumFocal(|word|))
    ensures StrictlyIncreasing(r.0)
    ensures forall i | 0 <= i < |r.0| :: 0 <= r.0[i] < |word|
    ensures |word| >= 2 ==> forall i | 0 <= i < |r.0| :: r.1[i] == rk.scores[r.0[i]]
    ensures |word| == 0 ==> r == ([], [])
    ensures |word| == 1 ==> r == ([0], [1.0])
  {
    var n := |word|;
    if n == 0 then ([], [])
    else if n == 1 then ([0], [1.0])
    else
      var indices := ChosenPositions(word, rk);
      (indices, seq(|indices|, i requires 0 <= i < |indices| => rk.scores[indices[i]]))
  }

  /**
   * The chosen positions are the best-scored ones: no position left out
   * scores higher than a chosen position.
   */
  lemma FocalLettersAreTopScored(word: string, rk: Ranking, p: int, q: int)
    requires ValidRanking(word, rk) && |word| >= 2
    requires p in IdentifyFocalLetters(word, rk).0
    requires 0 <= q < |word| && q !in IdentifyFocalLetters(word, rk).0
    ensures rk.scores[q] <= rk.scores[p]
  {
    var a := ChosenRank(word, rk, p);
    var b := LeftOutRank(word, rk, q);
  }

  /** A chosen position sits in the top part of the order. */
  lemma ChosenRank(word: string, rk: Ranking, p: int) returns (a: nat)
    requires ValidRanking(word, rk) && |word| >= 2
    requires p in ChosenPositions(word, rk)
    ensures |word| - NumFocal(|word|) <= a < |word| && rk.order[a] == p
  {
    var top := TopOfOrder(word, rk);
    assert p in multiset(ChosenPositions(word, rk));
    assert p in multiset(top);
    var k :| 0 <= k < |top| && top[k] == p;
    a := |word| - NumFocal(|word|) + k;
  }

  /** A position left out sits below the top part of the order. */
  lemma LeftOutRank(word: string, rk: Ranking, q: int) returns (b: nat)
    requires ValidRanking(word, rk) && |word| >= 2
    requires 0 <= q < |word| && q !in ChosenPositions(word, rk)
    ensures b < |word| - NumFocal(|word|) && rk.order[b] == q
  {
    var cut := |word| - NumFocal(|word|);
    var top := TopOfOrder(word, rk);
    assert q in rk.order;
    var k :| 0 <= k < |word| && rk.order[k] == q;
    var chosen := ChosenPositions(word, rk);
    forall j | cut <= j < |word| ensures rk.order[j] != q {
      assert top[j - cut] == rk.order[j];
      assert rk.order[j] in multiset(chosen);
      assert rk.order[j] in chosen;
    }
    b := k;
  }

  /** `get_primary_focal`: the first chosen position, or 0 when there is none. */
  function GetPrimaryFocal(word: string, rk: Ranking): (idx: int)
    requires ValidRanking(word, rk)
    ensures |word| == 0 ==> idx == 0
    ensures |word| > 0 ==> 0 <= idx < |word| && idx in IdentifyFocalLetters(word, rk).0
    ensures forall j | j in IdentifyFocalLetters(word, rk).0 :: idx <= j
  {
    var indices := IdentifyFocalLetters(word, rk).0;
    if |indices| > 0 then indices[0] else 0
  }

  /**
   * The primary position is the leftmost chosen one, not the best-scored one:
   * in a six-letter word whose best score is at position 4 and second best at
   * position 1, the primary position is 1.
   */
  lemma PrimaryIsLeftmostNotBest(rk: Ranking)
    requires rk == Ranking([0.1, 0.5, 0.2, 0.3, 1.0, 0.4], [0, 2, 3, 5, 1, 4])
    ensures ValidRanking("stream", rk)
    ensures IdentifyFocalLetters("stream", rk).0 == [1, 4]
    ensures GetPrimaryFocal("stream", rk) == 1
    ensures rk.scores[1] < rk.scores[4]
  {
    assert rk.scores[1] == 0.5 && rk.scores[4] == 1.0;
    ExampleRankingIsValid(rk);
    ExampleChosen(rk);
  }

  lemma ExampleChosen(rk: Ranking)
    requires rk == Ranking([0.1, 0.5, 0.2, 0.3, 1.0, 0.4], [0, 2, 3, 5, 1, 4])
    requires ValidRanking("stream", rk)
    ensures ChosenPositions("stream", rk) == [1, 4]
  {
    assert |"stream"| == 6 && NumFocal(6) == 2;
    assert TopOfOrder("stream", rk) == rk.order[4..] == [1, 4];
    SortTwo(1, 4);
  }

  lemma ExampleRankingIsValid(rk: Ranking)
    requires rk == Ranking([0.1, 0.5, 0.2, 0.3, 1.0, 0.4], [0, 2, 3, 5, 1, 4])
    ensures ValidRanking("stream", rk)
  {
    var ranked := seq(6, k requires 0 <= k < 6 => rk.scores[rk.order[k]]);
    assert ranked == [0.1, 0.2, 0.3, 0.4, 0.5, 1.0];
    assert forall p | 0 <= p < 6 :: p in rk.order by {
      assert rk.order[0] == 0 && rk.order[4] == 1 && rk.order[1] == 2;
      assert rk.order[2] == 3 && rk.order[5] == 4 && rk.order[3] == 5;
    }
  }

  lemma SortTwo(x: int, y: int)
    requires x <= y
    ensures SortAscending([x, y]) == [x, y]
  {
    assert [x, y][1..] == [y];
    assert [y][1..] == [];
    assert SortAscending([y]) == Insert(y, []) == [y];
  }

  // ---------------------------------------------------------------------
  // FocalLetterExtractor

  /** `get_focal_letters`: one entry per chosen position, with the character found there. */
  function GetFocalLetters(word: string, rk: Ranking): (letters: seq<FocalLetter>)
    requires ValidRanking(word, rk)
    ensures |word| == 0 ==> letters == []
    ensures var r := IdentifyFocalLetters(word, rk);
      && |letters| == |r.0|
      && forall i | 0 <= i < |letters| ::
        && letters[i].index == r.0[i]
        && 0 <= letters[i].index < |word|
        && letters[i].ch == [word[letters[i].index]]
        && letters[i].weight == r.1[i]
  {
    if |word| == 0 then []
    else
      var r := IdentifyFocalLetters(word, rk);
      seq(|r.0|, i requires 0 <= i < |r.0| => FocalLetter(r.0[i], [word[r.0[i]]], r.1[i]))
  }

  /**
   * `get_primary_focal_letter`. The source's last fallback (a non-empty word
   * with no focal letters) cannot happen: a non-empty word always gets at
   * least one focal letter.
   */
  function GetPrimaryFocalLetter(word: string, rk: Ranking): (f: FocalLetter)
    requires ValidRanking(word, rk)
    ensures |word| == 0 ==> f == FocalLetter(0, "", 0.0)
    ensures |word| > 0 ==>
      && f == GetFocalLetters(word, rk)[0]
      && f.index == GetPrimaryFocal(word, rk)
      && f.ch == [word[f.index]]
  {
    if |word| == 0 then FocalLetter(0, "", 0.0)
    else
      var idx := GetPrimaryFocal(word, rk);
      var letters := GetFocalLetters(word, rk);
      if |letters| > 0 then letters[0]
      else assert false; FocalLetter(idx, CharAt(word, idx), 1.0)
  }

  /** `word[i]` as a one-character string, or "" outside the word. */
  function CharAt(word: string, i: int): string
  {
    if 0 <= i < |word| then [word[i]] else ""
  }
}
