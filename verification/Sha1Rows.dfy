/** One block of SHA-1 computed in rows of eight rounds: the rows stand for the definition. */
module Sha1Rows {
  import opened Common
  import opened Fips180
  import opened ShaMessages

  // ----- A run of the rounds over one block -----

  /** In row `q` and the one before it, the word `i` places after the fifth last of `p`. */
  function Recent(p: Row, q: Row, i: nat): Word
    requires i < 13
  {
    Word(if i < 5 then Nth(p, 3 + i) else Nth(q, i - 5))
  }

  /** The variables after `i` of the rounds of row `a`: b is what a was in the round before, and c, d and e
      are rotated from what it was in the three rounds before that. */
  function Vars(p: Row, a: Row, i: nat): Vars5
    requires i <= 8
  {
    Vars5(Recent(p, a, i + 4), Recent(p, a, i + 3), Rotl30(Recent(p, a, i + 2)), Rotl30(Recent(p, a, i + 1)),
          Rotl30(Recent(p, a, i)))
  }

  function KOf(t: nat): (k: Word)
    requires t < 80
    ensures k == K1[t / 20]
  {
    if t < 20 then K1[0] else if t < 40 then K1[1] else if t < 60 then K1[2] else K1[3]
  }

  /** Round `8 * j + i`. */
  predicate OneRound(j: nat, p: Row, w: Row, a: Row, i: nat)
    requires i < 8 && j < 10
  {
    var v, t := Vars(p, a, i), 8 * j + i;
    Round1(v, F(t, v.b, v.c, v.d), KOf(t), Word(Nth(w, i))) == Vars(p, a, i + 1)
  }

  predicate EightRounds(j: nat, p: Row, w: Row, a: Row)
    requires j < 10
  {
    && OneRound(j, p, w, a, 0) && OneRound(j, p, w, a, 1) && OneRound(j, p, w, a, 2) && OneRound(j, p, w, a, 3)
    && OneRound(j, p, w, a, 4) && OneRound(j, p, w, a, 5) && OneRound(j, p, w, a, 6) && OneRound(j, p, w, a, 7)
  }

  /** The same, over the one value of `u`, so that only RoundOfRow takes it apart. */
  ghost predicate RowRounds(j: nat, p: Row, w: Row, a: Row) {
    j < 10 && forall u {:trigger EightRounds(j, p, w, u)} :: u == a ==> EightRounds(j, p, w, u)
  }

  predicate OneWord(p: Row, q: Row, r: Row, i: nat)
    requires i < 8
  {
    NextWord1(Among(p, q, r, i + 13), Among(p, q, r, i + 8), Among(p, q, r, i + 2), Among(p, q, r, i))
    == Word(Nth(r, i))
  }

  predicate EightWords(p: Row, q: Row, r: Row) {
    && OneWord(p, q, r, 0) && OneWord(p, q, r, 1) && OneWord(p, q, r, 2) && OneWord(p, q, r, 3)
    && OneWord(p, q, r, 4) && OneWord(p, q, r, 5) && OneWord(p, q, r, 6) && OneWord(p, q, r, 7)
  }

  ghost predicate RowWords(p: Row, q: Row, r: Row) {
    forall u {:trigger EightWords(p, q, u)} :: u == r ==> EightWords(p, q, u)
  }

  lemma {:induction false} WordOfRow(p: Row, q: Row, r: Row, i: nat)
    requires i < 8 && RowWords(p, q, r)
    ensures OneWord(p, q, r, i)
  {
    assert EightWords(p, q, r);
    assert i in {0, 1, 2, 3, 4, 5, 6, 7};
  }

  lemma {:induction false} RoundOfRow(j: nat, p: Row, w: Row, a: Row, i: nat)
    requires i < 8 && j < 10 && RowRounds(j, p, w, a)
    ensures OneRound(j, p, w, a, i)
  {
    assert EightRounds(j, p, w, a);
    assert i in {0, 1, 2, 3, 4, 5, 6, 7};
  }

  // ----- From the rows to the definition -----

  /** Row `j` of the schedule, folded like the rows above. */
  ghost predicate WordAt(b: Block, j: nat, r: Row, i: nat)
    requires j < 10 && i < 8
  {
    forall u {:trigger Words1(u)} :: u == b ==> Words1(u)[8 * j + i] == Word(Nth(r, i))
  }

  ghost predicate WordsAt(b: Block, j: nat, r: Row) {
    j < 10 && forall i :: 0 <= i < 8 ==> WordAt(b, j, r, i)
  }

  /** The variables after `j` rows; likewise folded. */
  ghost predicate VarsAt(chain: Chain5, b: Block, j: nat, a: Row) {
    j <= 10 && forall u {:trigger Words1(u)} :: u == b ==> Rounds1(chain, Words1(u)[..8 * j]) == Vars(a, a, 8)
  }

  lemma {:induction false} AmongIs(b: Block, j: nat, p: Row, q: Row, r: Row, i: nat, n: nat)
    requires 2 <= j < 10 && i < 8 && n < 16 + i && WordsAt(b, j - 2, p) && WordsAt(b, j - 1, q)
    requires forall m :: 0 <= m < i ==> WordAt(b, j, r, m)
    ensures Words1(b)[8 * (j - 2) + n] == Among(p, q, r, n)
  {
    if n < 8 { assert WordAt(b, j - 2, p, n); }
    else if n < 16 { assert WordAt(b, j - 1, q, n - 8); }
    else { assert WordAt(b, j, r, n - 16); }
  }

  lemma {:induction false} NextWord(b: Block, j: nat, p: Row, q: Row, r: Row, i: nat)
    requires 2 <= j < 10 && i < 8 && WordsAt(b, j - 2, p) && WordsAt(b, j - 1, q) && RowWords(p, q, r)
    requires forall m :: 0 <= m < i ==> WordAt(b, j, r, m)
    ensures WordAt(b, j, r, i)
  {
    AmongIs(b, j, p, q, r, i, i + 13);
    AmongIs(b, j, p, q, r, i, i + 8);
    AmongIs(b, j, p, q, r, i, i + 2);
    AmongIs(b, j, p, q, r, i, i);
    Recurrence(b, 8 * j + i);
    WordOfRow(p, q, r, i);
  }

  lemma {:induction false} Recurrence(b: Block, t: nat)
    requires 16 <= t < 80
    ensures var ws := Words1(b); ws[t] == NextWord1(ws[t - 3], ws[t - 8], ws[t - 14], ws[t - 16])
  {
  }

  lemma {:induction false} NextWords(b: Block, j: nat, p: Row, q: Row, r: Row, i: nat)
    requires 2 <= j < 10 && i <= 8 && WordsAt(b, j - 2, p) && WordsAt(b, j - 1, q) && RowWords(p, q, r)
    ensures forall m :: 0 <= m < i ==> WordAt(b, j, r, m)
  {
    if i > 0 {
      NextWords(b, j, p, q, r, i - 1);
      NextWord(b, j, p, q, r, i - 1);
    }
  }

  lemma {:induction false} NextRow(b: Block, j: nat, p: Row, q: Row, r: Row)
    requires 2 <= j < 10 && WordsAt(b, j - 2, p) && WordsAt(b, j - 1, q) && RowWords(p, q, r)
    ensures WordsAt(b, j, r)
  {
    NextWords(b, j, p, q, r, 8);
  }

  lemma {:induction false} OneMore(chain: Chain5, ws: seq<Word>, j: nat, p: Row, w: Row, a: Row, i: nat)
    requires 8 * j + i < |ws| <= 80 && i < 8 && RowRounds(j, p, w, a)
    requires ws[8 * j + i] == Word(Nth(w, i)) && Rounds1(chain, ws[..8 * j + i]) == Vars(p, a, i)
    ensures Rounds1(chain, ws[..8 * j + i + 1]) == Vars(p, a, i + 1)
  {
    assert ws[..8 * j + i + 1][..8 * j + i] == ws[..8 * j + i];
    RoundOfRow(j, p, w, a, i);
  }

  lemma {:induction false} Seam(p: Row, a: Row)
    ensures Vars(p, a, 0) == Vars(p, p, 8) && Vars(p, a, 8) == Vars(a, a, 8)
  {
  }

  lemma {:induction false} NextVars(chain: Chain5, b: Block, j: nat, p: Row, w: Row, a: Row, i: nat)
    requires j < 10 && i <= 8 && VarsAt(chain, b, j, p) && WordsAt(b, j, w) && RowRounds(j, p, w, a)
    ensures Rounds1(chain, Words1(b)[..8 * j + i]) == Vars(p, a, i)
  {
    if i == 0 {
      Seam(p, a);
    } else {
      NextVars(chain, b, j, p, w, a, i - 1);
      assert WordAt(b, j, w, i - 1);
      OneMore(chain, Words1(b), j, p, w, a, i - 1);
    }
  }

  lemma {:induction false} NextRounds(chain: Chain5, b: Block, j: nat, p: Row, w: Row, a: Row)
    requires j < 10 && VarsAt(chain, b, j, p) && WordsAt(b, j, w) && RowRounds(j, p, w, a)
    ensures VarsAt(chain, b, j + 1, a)
  {
    NextVars(chain, b, j, p, w, a, 8);
    Seam(p, a);
  }

  // ----- The two ends -----

  lemma {:induction false} Starts(chain: Chain5, b: Block, a: Row)
    requires Vars(a, a, 8) == Vars5(chain[0], chain[1], chain[2], chain[3], chain[4])
    ensures VarsAt(chain, b, 0, a)
  {
  }

  lemma {:induction false} Ends(chain: Chain5, b: Block, a: Row)
    requires VarsAt(chain, b, 10, a)
    ensures Compress1(chain, b) == FeedForward1(chain, Vars(a, a, 8))
  {
    assert Words1(b)[..80] == Words1(b);
  }

  lemma {:induction false} ParsedWord(b: Block, j: nat, r: Row, i: nat)
    requires j < 2 && i < 8 && RowIs(b, j, r)
    ensures WordAt(b, j, r, i)
  {
    RowWord(b, j, r, i);
    assert WordOf(b, 8 * j + i) == Word(Nth(r, i));
  }

  lemma {:induction false} Parsed(b: Block, j: nat, r: Row)
    requires j < 2 && RowIs(b, j, r)
    ensures WordsAt(b, j, r)
  {
    forall i | 0 <= i < 8 ensures WordAt(b, j, r, i) { ParsedWord(b, j, r, i); }
  }
}
