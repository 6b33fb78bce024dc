/** One block of SHA-256 computed in rows of eight rounds: the rows stand for the definition. */
module Sha256Rows {
  import opened Common
  import opened Fips180
  import opened ShaMessages

  // ----- A run of the rounds over one block -----

  /** In row `q` and the one before it, the word `i` places after the fourth last of `p`. */
  function Recent(p: Row, q: Row, i: nat): Word
    requires i < 12
  {
    Word(if i < 4 then Nth(p, 4 + i) else Nth(q, i - 4))
  }

  /** The variables after `i` of the rounds of rows `a` and `e`: b, c and d are what a was in the three
      rounds before, and f, g and h what e was. */
  function Vars(pa: Row, pe: Row, a: Row, e: Row, i: nat): Vars8
    requires i <= 8
  {
    Vars8(Recent(pa, a, i + 3), Recent(pa, a, i + 2), Recent(pa, a, i + 1), Recent(pa, a, i),
          Recent(pe, e, i + 3), Recent(pe, e, i + 2), Recent(pe, e, i + 1), Recent(pe, e, i))
  }

  predicate OneRound(pa: Row, pe: Row, k: seq<Word>, w: Row, a: Row, e: Row, i: nat)
    requires i < 8 == |k|
  {
    Round256(Vars(pa, pe, a, e, i), k[i], Word(Nth(w, i))) == Vars(pa, pe, a, e, i + 1)
  }

  predicate EightRounds(pa: Row, pe: Row, k: seq<Word>, w: Row, a: Row, e: Row)
    requires |k| == 8
  {
    && OneRound(pa, pe, k, w, a, e, 0) && OneRound(pa, pe, k, w, a, e, 1)
    && OneRound(pa, pe, k, w, a, e, 2) && OneRound(pa, pe, k, w, a, e, 3)
    && OneRound(pa, pe, k, w, a, e, 4) && OneRound(pa, pe, k, w, a, e, 5)
    && OneRound(pa, pe, k, w, a, e, 6) && OneRound(pa, pe, k, w, a, e, 7)
  }

  /** The same, over the one value of `u`, so that only RoundOfRow takes it apart. */
  ghost predicate RowRounds(pa: Row, pe: Row, k: seq<Word>, w: Row, a: Row, e: Row) {
    |k| == 8 && forall u {:trigger EightRounds(pa, pe, k, w, u, e)} :: u == a ==> EightRounds(pa, pe, k, w, u, e)
  }

  predicate OneWord(p: Row, q: Row, r: Row, i: nat)
    requires i < 8
  {
    NextWord256(Among(p, q, r, i + 14), Among(p, q, r, i + 9), Among(p, q, r, i + 1), Among(p, q, r, i))
    == Word(Nth(r, i))
  }

  predicate EightWords(p: Row, q: Row, r: Row) {
    && OneWord(p, q, r, 0) && OneWord(p, q, r, 1) && OneWord(p, q, r, 2) && OneWord(p, q, r, 3)
    && OneWord(p, q, r, 4) && OneWord(p, q, r, 5) && OneWord(p, q, r, 6) && OneWord(p, q, r, 7)
  }

  ghost predicate RowWords(p: Row, q: Row, r: Row) {
    forall u {:trigger EightWords(p, q, u)} :: u == r ==> EightWords(p, q, u)
  }

  lemma {:induction false} WordOfRow(p: Row, q: Row, r: Row, i: nat)
    requires i < 8 && RowWords(p, q, r)
    ensures OneWord(p, q, r, i)
  {
    assert EightWords(p, q, r);
    assert i in {0, 1, 2, 3, 4, 5, 6, 7};
  }

  lemma {:induction false} RoundOfRow(pa: Row, pe: Row, k: seq<Word>, w: Row, a: Row, e: Row, i: nat)
    requires i < 8 == |k| && RowRounds(pa, pe, k, w, a, e)
    ensures OneRound(pa, pe, k, w, a, e, i)
  {
    assert EightRounds(pa, pe, k, w, a, e);
    assert i in {0, 1, 2, 3, 4, 5, 6, 7};
  }

  // ----- From the rows to the definition -----

  /** Row `j` of the schedule, folded like the rows above. */
  ghost predicate WordAt(b: Block, j: nat, r: Row, i: nat)
    requires j < 8 && i < 8
  {
    forall u {:trigger Words256(u)} :: u == b ==> Words256(u)[8 * j + i] == Word(Nth(r, i))
  }

  ghost predicate WordsAt(b: Block, j: nat, r: Row) {
    j < 8 && forall i :: 0 <= i < 8 ==> WordAt(b, j, r, i)
  }

  /** The variables after `j` rows; likewise folded. */
  ghost predicate VarsAt(chain: Chain8, b: Block, j: nat, a: Row, e: Row) {
    j <= 8 && forall u {:trigger Words256(u)} :: u == b ==>
      Rounds256(chain, Words256(u)[..8 * j]) == Vars(a, e, a, e, 8)
  }

  lemma {:induction false} AmongIs(b: Block, j: nat, p: Row, q: Row, r: Row, i: nat, n: nat)
    requires 2 <= j < 8 && i < 8 && n < 16 + i && WordsAt(b, j - 2, p) && WordsAt(b, j - 1, q)
    requires forall m :: 0 <= m < i ==> WordAt(b, j, r, m)
    ensures Words256(b)[8 * (j - 2) + n] == Among(p, q, r, n)
  {
    if n < 8 { assert WordAt(b, j - 2, p, n); }
    else if n < 16 { assert WordAt(b, j - 1, q, n - 8); }
    else { assert WordAt(b, j, r, n - 16); }
  }

  lemma {:induction false} NextWord(b: Block, j: nat, p: Row, q: Row, r: Row, i: nat)
    requires 2 <= j < 8 && i < 8 && WordsAt(b, j - 2, p) && WordsAt(b, j - 1, q) && RowWords(p, q, r)
    requires forall m :: 0 <= m < i ==> WordAt(b, j, r, m)
    ensures WordAt(b, j, r, i)
  {
    AmongIs(b, j, p, q, r, i, i + 14);
    AmongIs(b, j, p, q, r, i, i + 9);
    AmongIs(b, j, p, q, r, i, i + 1);
    AmongIs(b, j, p, q, r, i, i);
    Recurrence(b, 8 * j + i);
    WordOfRow(p, q, r, i);
  }

  lemma {:induction false} Recurrence(b: Block, t: nat)
    requires 16 <= t < 64
    ensures var ws := Words256(b); ws[t] == NextWord256(ws[t - 2], ws[t - 7], ws[t - 15], ws[t - 16])
  {
  }

  lemma {:induction false} NextWords(b: Block, j: nat, p: Row, q: Row, r: Row, i: nat)
    requires 2 <= j < 8 && i <= 8 && WordsAt(b, j - 2, p) && WordsAt(b, j - 1, q) && RowWords(p, q, r)
    ensures forall m :: 0 <= m < i ==> WordAt(b, j, r, m)
  {
    if i > 0 {
      NextWords(b, j, p, q, r, i - 1);
      NextWord(b, j, p, q, r, i - 1);
    }
  }

  lemma {:induction false} NextRow(b: Block, j: nat, p: Row, q: Row, r: Row)
    requires 2 <= j < 8 && WordsAt(b, j - 2, p) && WordsAt(b, j - 1, q) && RowWords(p, q, r)
    ensures WordsAt(b, j, r)
  {
    NextWords(b, j, p, q, r, 8);
  }

  function KRow(j: nat): (k: seq<Word>)
    requires j < 8
    ensures |k| == 8
  {
    if j < 4 then if j == 0 then K256_0 else if j == 1 then K256_1 else if j == 2 then K256_2 else K256_3
    else if j == 4 then K256_4 else if j == 5 then K256_5 else if j == 6 then K256_6 else K256_7
  }

  function KRows(j: nat): (k: seq<Word>)
    requires j <= 8
    ensures |k| == 8 * j
  {
    if j == 0 then [] else KRows(j - 1) + KRow(j - 1)
  }

  lemma {:induction false} KRowAt(n: nat, j: nat, i: nat)
    requires j < n <= 8 && i < 8
    ensures KRows(n)[8 * j + i] == KRow(j)[i]
  {
    if j < n - 1 { KRowAt(n - 1, j, i); }
  }

  lemma {:induction false} AllKRows()
    ensures KRows(8) == K256
  {
    assert KRows(1) == K256_0;
    assert KRows(2) == K256_0 + K256_1;
    assert KRows(4) == K256_0 + K256_1 + K256_2 + K256_3;
    assert KRows(6) == K256_0 + K256_1 + K256_2 + K256_3 + K256_4 + K256_5;
  }

  lemma {:induction false} KAt(j: nat, i: nat)
    requires j < 8 && i < 8
    ensures K256[8 * j + i] == KRow(j)[i]
  {
    AllKRows();
    KRowAt(8, j, i);
  }

  lemma {:induction false} OneMore(chain: Chain8, ws: seq<Word>, t: nat, pa: Row, pe: Row, k: seq<Word>, w: Row, a: Row,
                                   e: Row, i: nat)
    requires t < |ws| <= 64 && i < 8 == |k| && RowRounds(pa, pe, k, w, a, e)
    requires k[i] == K256[t] && ws[t] == Word(Nth(w, i)) && Rounds256(chain, ws[..t]) == Vars(pa, pe, a, e, i)
    ensures Rounds256(chain, ws[..t + 1]) == Vars(pa, pe, a, e, i + 1)
  {
    assert ws[..t + 1][..t] == ws[..t];
    RoundOfRow(pa, pe, k, w, a, e, i);
  }

  lemma {:induction false} Seam(pa: Row, pe: Row, a: Row, e: Row)
    ensures Vars(pa, pe, a, e, 0) == Vars(pa, pe, pa, pe, 8) && Vars(pa, pe, a, e, 8) == Vars(a, e, a, e, 8)
  {
  }

  lemma {:induction false} NextVars(chain: Chain8, b: Block, j: nat, pa: Row, pe: Row, w: Row, a: Row, e: Row, i: nat)
    requires j < 8 && i <= 8 && VarsAt(chain, b, j, pa, pe) && WordsAt(b, j, w) && RowRounds(pa, pe, KRow(j), w, a, e)
    ensures Rounds256(chain, Words256(b)[..8 * j + i]) == Vars(pa, pe, a, e, i)
  {
    if i == 0 {
      Seam(pa, pe, a, e);
    } else {
      NextVars(chain, b, j, pa, pe, w, a, e, i - 1);
      KAt(j, i - 1);
      assert WordAt(b, j, w, i - 1);
      OneMore(chain, Words256(b), 8 * j + (i - 1), pa, pe, KRow(j), w, a, e, i - 1);
    }
  }

  lemma {:induction false} NextRounds(chain: Chain8, b: Block, j: nat, pa: Row, pe: Row, w: Row, a: Row, e: Row)
    requires j < 8 && VarsAt(chain, b, j, pa, pe) && WordsAt(b, j, w) && RowRounds(pa, pe, KRow(j), w, a, e)
    ensures VarsAt(chain, b, j + 1, a, e)
  {
    NextVars(chain, b, j, pa, pe, w, a, e, 8);
    Seam(pa, pe, a, e);
  }

  // ----- The two ends -----

  lemma {:induction false} Starts(chain: Chain8, b: Block, a: Row, e: Row)
    requires Vars(a, e, a, e, 8) ==
             Vars8(chain[0], chain[1], chain[2], chain[3], chain[4], chain[5], chain[6], chain[7])
    ensures VarsAt(chain, b, 0, a, e)
  {
  }

  lemma {:induction false} Ends(chain: Chain8, b: Block, a: Row, e: Row)
    requires VarsAt(chain, b, 8, a, e)
    ensures Compress256(chain, b) == FeedForward256(chain, Vars(a, e, a, e, 8))
  {
    assert Words256(b)[..64] == Words256(b);
  }

  lemma {:induction false} ParsedWord(b: Block, j: nat, r: Row, i: nat)
    requires j < 2 && i < 8 && RowIs(b, j, r)
    ensures WordAt(b, j, r, i)
  {
    RowWord(b, j, r, i);
    assert WordOf(b, 8 * j + i) == Word(Nth(r, i));
  }

  lemma {:induction false} Parsed(b: Block, j: nat, r: Row)
    requires j < 2 && RowIs(b, j, r)
    ensures WordsAt(b, j, r)
  {
    forall i | 0 <= i < 8 ensures WordAt(b, j, r, i) { ParsedWord(b, j, r, i); }
  }
}
