/** The combinatorics behind the schedule engine: words over worker indices in
    which worker w occurs a prescribed number of times.  A saved schedule is such
    a word read together with each worker's ordered sync-points. */
module Interleavings {

  type Word = seq<nat>

  function Sum(s: seq<nat>): nat {
    if s == [] then 0 else s[0] + Sum(s[1..])
  }

  function Occurrences(word: Word, letter: nat): nat {
    if word == [] then 0 else (if word[0] == letter then 1 else 0) + Occurrences(word[1..], letter)
  }

  function Prepend(letter: nat, words: seq<Word>): (r: seq<Word>)
    ensures |r| == |words|
    ensures forall i :: 0 <= i < |r| ==> r[i] == [letter] + words[i]
  {
    seq(|words|, i requires 0 <= i < |words| => [letter] + words[i])
  }

  /** All words that use letter w exactly remaining[w] times, smallest letter first. */
  function Words(remaining: seq<nat>): seq<Word>
    decreases Sum(remaining), |remaining| + 1
  {
    if Sum(remaining) == 0 then [[]] else WordsFrom(remaining, 0)
  }

  /** The words of Words(remaining) whose first letter is at least first. */
  function WordsFrom(remaining: seq<nat>, first: nat): seq<Word>
    requires first <= |remaining|
    decreases Sum(remaining), |remaining| - first
  {
    if first == |remaining| then []
    else Branch(remaining, first) + WordsFrom(remaining, first + 1)
  }

  /** The words of Words(remaining) that begin with letter. */
  function Branch(remaining: seq<nat>, letter: nat): seq<Word>
    requires letter < |remaining|
    decreases Sum(remaining), 0
  {
    if remaining[letter] == 0 then []
    else
      SumUpdate(remaining, letter, remaining[letter] - 1);
      Prepend(letter, Words(remaining[letter := remaining[letter] - 1]))
  }

  lemma {:induction false} SumUpdate(s: seq<nat>, i: nat, x: nat)
    requires i < |s|
    ensures Sum(s[i := x]) == Sum(s) - s[i] + x
  {
    if i == 0 {
      assert s[i := x][1..] == s[1..];
    } else {
      SumUpdate(s[1..], i - 1, x);
      assert s[i := x][1..] == s[1..][i - 1 := x];
    }
  }

  lemma {:induction false} SumZero(s: seq<nat>)
    ensures Sum(s) == 0 <==> forall i :: 0 <= i < |s| ==> s[i] == 0
  {
    if s != [] {
      SumZero(s[1..]);
      assert forall i :: 0 <= i < |s| ==> s[i] == if i == 0 then s[0] else s[1..][i - 1];
    }
  }

  // ----- Membership -----

  /** A word that spells exactly the given number of occurrences of each letter. */
  ghost predicate Spells(word: Word, remaining: seq<nat>) {
    && (forall k :: 0 <= k < |word| ==> word[k] < |remaining|)
    && (forall w :: 0 <= w < |remaining| ==> Occurrences(word, w) == remaining[w])
  }

  lemma {:induction false} SpellsStep(word: Word, remaining: seq<nat>)
    requires word != [] && word[0] < |remaining|
    ensures Spells(word, remaining)
       <==> remaining[word[0]] > 0
            && Spells(word[1..], remaining[word[0] := remaining[word[0]] - (if remaining[word[0]] > 0 then 1 else 0)])
  {
    var a := word[0];
    if remaining[a] > 0 {
      var less := remaining[a := remaining[a] - 1];
      if Spells(word[1..], less) {
        forall k | 0 <= k < |word| ensures word[k] < |remaining| {
          if k > 0 { assert word[k] == word[1..][k - 1]; }
        }
        forall w | 0 <= w < |remaining| ensures Occurrences(word, w) == remaining[w] {
          assert Occurrences(word[1..], w) == less[w];
        }
      }
      if Spells(word, remaining) {
        forall w | 0 <= w < |less| ensures Occurrences(word[1..], w) == less[w] {
          assert Occurrences(word, w) == remaining[w];
        }
      }
    } else {
      assert Occurrences(word, a) >= 1;
    }
  }

  /** Words lists every word with the prescribed letter counts, and nothing else. */
  lemma {:induction false} WordsAreSpellings(word: Word, remaining: seq<nat>)
    ensures word in Words(remaining) <==> Spells(word, remaining)
    decreases Sum(remaining), |remaining| + 1
  {
    if Sum(remaining) == 0 {
      SumZero(remaining);
      if word != [] && word[0] < |remaining| {
        assert Occurrences(word, word[0]) > 0;
      }
    } else {
      WordsFromAreSpellings(word, remaining, 0);
      if word == [] {
        SumZero(remaining);
      }
    }
  }

  lemma {:induction false} WordsFromAreSpellings(word: Word, remaining: seq<nat>, first: nat)
    requires first <= |remaining|
    ensures word in WordsFrom(remaining, first) <==> word != [] && word[0] >= first && Spells(word, remaining)
    decreases Sum(remaining), |remaining| - first
  {
    if first < |remaining| {
      WordsFromAreSpellings(word, remaining, first + 1);
      BranchIsSpellings(word, remaining, first);
    }
  }

  lemma {:induction false} BranchIsSpellings(word: Word, remaining: seq<nat>, letter: nat)
    requires letter < |remaining|
    ensures word in Branch(remaining, letter) <==> word != [] && word[0] == letter && Spells(word, remaining)
    decreases Sum(remaining), 0
  {
    if word != [] && word[0] == letter {
      SpellsStep(word, remaining);
      if remaining[letter] > 0 {
        var less := remaining[letter := remaining[letter] - 1];
        SumUpdate(remaining, letter, remaining[letter] - 1);
        WordsAreSpellings(word[1..], less);
        if word[1..] in Words(less) {
          var i :| 0 <= i < |Words(less)| && Words(less)[i] == word[1..];
          assert Branch(remaining, letter)[i] == [letter] + word[1..] == word;
        }
      }
    }
  }

  // ----- Order -----

  /** Strict lexicographic order on words of equal length. */
  predicate LexLess(a: Word, b: Word) {
    a != [] && b != [] && (a[0] < b[0] || (a[0] == b[0] && LexLess(a[1..], b[1..])))
  }

  ghost predicate StrictlySorted(words: seq<Word>) {
    forall i, j :: 0 <= i < j < |words| ==> LexLess(words[i], words[j])
  }

  /** Words lists its members in strictly increasing lexicographic order. */
  lemma {:induction false} WordsAreSorted(remaining: seq<nat>)
    ensures StrictlySorted(Words(remaining))
    decreases Sum(remaining), |remaining| + 1
  {
    if Sum(remaining) != 0 {
      WordsFromAreSorted(remaining, 0);
    }
  }

  lemma {:induction false} WordsFromAreSorted(remaining: seq<nat>, first: nat)
    requires first <= |remaining|
    ensures StrictlySorted(WordsFrom(remaining, first))
    decreases Sum(remaining), |remaining| - first
  {
    if first < |remaining| {
      var head, tail := Branch(remaining, first), WordsFrom(remaining, first + 1);
      WordsFromAreSorted(remaining, first + 1);
      if remaining[first] > 0 {
        var less := remaining[first := remaining[first] - 1];
        SumUpdate(remaining, first, remaining[first] - 1);
        WordsAreSorted(less);
        forall i, j | 0 <= i < j < |head| ensures LexLess(head[i], head[j]) {
          assert head[i][1..] == Words(less)[i] && head[j][1..] == Words(less)[j];
        }
      }
      forall i, j | 0 <= i < |head| && 0 <= j < |tail| ensures LexLess(head[i], tail[j]) {
        assert head[i] in head && tail[j] in tail;
        BranchIsSpellings(head[i], remaining, first);
        WordsFromAreSpellings(tail[j], remaining, first + 1);
      }
    }
  }

  lemma {:induction false} LexLessIrreflexive(a: Word)
    ensures !LexLess(a, a)
  {
    if a != [] { LexLessIrreflexive(a[1..]); }
  }

  // ----- Counting -----

  function Factorial(n: nat): (f: nat)
    ensures f > 0
  {
    if n == 0 then 1 else Product(n, Factorial(n - 1))
  }

  /** Multiplication of two naturals, kept as a function so that proofs name the facts they use. */
  function Product(a: nat, b: nat): (p: nat)
    ensures a > 0 && b > 0 ==> p > 0
  {
    if a > 0 && b > 0 then Positive(a, b); a * b else a * b
  }

  lemma Positive(a: nat, b: nat)
    requires a > 0 && b > 0
    ensures a * b > 0
  {}

  function FactorialProduct(s: seq<nat>): (f: nat)
    ensures f > 0
  {
    if s == [] then 1 else Product(Factorial(s[0]), FactorialProduct(s[1..]))
  }

  lemma {:induction false} FactorialProductUpdate(s: seq<nat>, i: nat)
    requires i < |s| && s[i] > 0
    ensures FactorialProduct(s) == Product(s[i], FactorialProduct(s[i := s[i] - 1]))
  {
    var less := s[i := s[i] - 1];
    if i == 0 {
      assert less[1..] == s[1..];
      Associate(s[0], Factorial(s[0] - 1), FactorialProduct(s[1..]));
    } else {
      FactorialProductUpdate(s[1..], i - 1);
      assert less[1..] == s[1..][i - 1 := s[1..][i - 1] - 1];
      Swap(Factorial(s[0]), s[i], FactorialProduct(less[1..]));
    }
  }

  lemma Associate(a: nat, b: nat, c: nat)
    ensures Product(Product(a, b), c) == Product(a, Product(b, c))
  {
    assert (a * b) * c == a * (b * c);
  }

  lemma Swap(a: nat, b: nat, c: nat)
    ensures Product(a, Product(b, c)) == Product(b, Product(a, c))
  {
    assert a * (b * c) == b * (a * c);
  }

  /** The multinomial law: the number of words, times the factorials of the letter
      counts, is the factorial of the word length. */
  lemma {:induction false} WordCount(remaining: seq<nat>)
    ensures Product(|Words(remaining)|, FactorialProduct(remaining)) == Factorial(Sum(remaining))
    decreases Sum(remaining), |remaining| + 1
  {
    if Sum(remaining) == 0 {
      FactorialProductZero(remaining);
    } else {
      WordsFromCount(remaining, 0);
      assert remaining[0..] == remaining;
    }
  }

  lemma {:induction false} FactorialProductZero(s: seq<nat>)
    requires Sum(s) == 0
    ensures FactorialProduct(s) == 1
  {
    if s != [] { FactorialProductZero(s[1..]); }
  }

  lemma {:induction false} WordsFromCount(remaining: seq<nat>, first: nat)
    requires first <= |remaining| && Sum(remaining) > 0
    ensures Product(|WordsFrom(remaining, first)|, FactorialProduct(remaining))
         == Product(Sum(remaining[first..]), Factorial(Sum(remaining) - 1))
    decreases Sum(remaining), |remaining| - first
  {
    if first < |remaining| {
      WordsFromCount(remaining, first + 1);
      BranchCount(remaining, first);
      Distribute(|Branch(remaining, first)|, |WordsFrom(remaining, first + 1)|, FactorialProduct(remaining));
      Distribute(remaining[first], Sum(remaining[first + 1..]), Factorial(Sum(remaining) - 1));
      assert remaining[first..][1..] == remaining[first + 1..];
    }
  }

  lemma Distribute(a: nat, b: nat, c: nat)
    ensures Product(a + b, c) == Product(a, c) + Product(b, c)
  {
    assert (a + b) * c == a * c + b * c;
  }

  lemma {:induction false} BranchCount(remaining: seq<nat>, letter: nat)
    requires letter < |remaining| && Sum(remaining) > 0
    ensures Product(|Branch(remaining, letter)|, FactorialProduct(remaining))
         == Product(remaining[letter], Factorial(Sum(remaining) - 1))
    decreases Sum(remaining), 0
  {
    if remaining[letter] > 0 {
      var less := remaining[letter := remaining[letter] - 1];
      SumUpdate(remaining, letter, remaining[letter] - 1);
      WordCount(less);
      FactorialProductUpdate(remaining, letter);
      Swap(|Words(less)|, remaining[letter], FactorialProduct(less));
    }
  }
}
