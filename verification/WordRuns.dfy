/** Words and the single spaces between them: what both text normalisers keep. */
module WordRuns {

  /** The words of a text: its longest runs of characters that belong in words. */
  function Words(text: seq<char>, inWord: char -> bool): (words: seq<seq<char>>)
    ensures text != [] && inWord(text[|text| - 1]) ==> words != []
  {
    if text == [] then []
    else
      var front, last := text[..|text| - 1], text[|text| - 1];
      var words := Words(front, inWord);
      if !inWord(last) then words
      else if front != [] && inWord(front[|front| - 1]) then
        words[..|words| - 1] + [words[|words| - 1] + [last]]
      else words + [[last]]
  }

  /** A word spelled out; one character may become several. */
  function Spelled(word: seq<char>, spell: char -> seq<char>): seq<char> {
    if word == [] then [] else Spelled(word[..|word| - 1], spell) + spell(word[|word| - 1])
  }

  /** The words spelled out with one space between each two. */
  function Spaced(words: seq<seq<char>>, spell: char -> seq<char>): seq<char> {
    if words == [] then []
    else if |words| == 1 then Spelled(words[0], spell)
    else Spaced(words[..|words| - 1], spell) + [' '] + Spelled(words[|words| - 1], spell)
  }

  ghost predicate NoEmptyWord(words: seq<seq<char>>) {
    forall i :: 0 <= i < |words| ==> words[i] != []
  }

  lemma {:induction false} WordsAreNotEmpty(text: seq<char>, inWord: char -> bool)
    ensures NoEmptyWord(Words(text, inWord))
    decreases |text|
  {
    if text != [] { WordsAreNotEmpty(text[..|text| - 1], inWord); }
  }

  lemma {:induction false} SpacedIsNotEmpty(words: seq<seq<char>>, spell: char -> seq<char>)
    requires NoEmptyWord(words) && forall c :: spell(c) != []
    ensures Spaced(words, spell) == [] <==> words == []
  {
    if |words| == 1 {
      assert Spelled(words[0], spell) != [];
    }
  }

  lemma SpelledGrows(word: seq<char>, c: char, spell: char -> seq<char>)
    ensures Spelled(word + [c], spell) == Spelled(word, spell) + spell(c)
  {
    assert (word + [c])[..|word|] == word;
  }

  lemma SpacedOf(front: seq<seq<char>>, word: seq<char>, spell: char -> seq<char>)
    ensures Spaced(front + [word], spell)
         == (if front == [] then [] else Spaced(front, spell) + [' ']) + Spelled(word, spell)
  {
    hide Spelled;
    assert (front + [word])[..|front|] == front;
  }

  lemma NewWord(words: seq<seq<char>>, c: char, spell: char -> seq<char>)
    ensures words == [] ==> Spaced(words + [[c]], spell) == spell(c)
    ensures words != [] ==> Spaced(words + [[c]], spell) == Spaced(words, spell) + [' '] + spell(c)
  {
    hide Spaced;
    SpacedOf(words, [c], spell);
    SpelledGrows([], c, spell);
    assert [] + [c] == [c];
  }

  lemma LongerWord(front: seq<seq<char>>, last: seq<char>, c: char, spell: char -> seq<char>)
    ensures Spaced(front + [last + [c]], spell) == Spaced(front + [last], spell) + spell(c)
  {
    hide Spaced, Spelled;
    SpacedOf(front, last + [c], spell);
    SpacedOf(front, last, spell);
    SpelledGrows(last, c, spell);
    Associative(if front == [] then [] else Spaced(front, spell) + [' '], Spelled(last, spell), spell(c));
  }

  /** What one more character does to the words of a text, set out. */
  lemma OneMoreCharacter(text: seq<char>, c: char, inWord: char -> bool, spell: char -> seq<char>)
    requires forall d :: spell(d) != []
    ensures
      var before, after := Spaced(Words(text, inWord), spell), Spaced(Words(text + [c], inWord), spell);
      && (!inWord(c) ==> after == before)
      && (inWord(c) && before == [] ==> after == spell(c))
      && (inWord(c) && before != [] ==>
            after == before + (if inWord(text[|text| - 1]) then [] else [' ']) + spell(c))
  {
    hide Spaced, Words;
    if text == [] { NothingSpaced(text, inWord, spell); }
    if !inWord(c) {
      SeparatorAddsNoWord(text, c, inWord);
    } else {
      if text != [] && inWord(text[|text| - 1]) {
        LetterAdded(text, c, inWord, spell);
      } else {
        WordAdded(text, c, inWord, spell);
      }
    }
  }

  lemma LetterAdded(text: seq<char>, c: char, inWord: char -> bool, spell: char -> seq<char>)
    requires text != [] && inWord(text[|text| - 1]) && inWord(c)
    requires forall d :: spell(d) != []
    ensures Spaced(Words(text, inWord), spell) != []
    ensures Spaced(Words(text + [c], inWord), spell) == Spaced(Words(text, inWord), spell) + spell(c)
  {
    hide Spaced, Spelled, Words, NoEmptyWord;
    var front, last := WordGrows(text, c, inWord);
    WordsAreNotEmpty(text, inWord);
    SpacedIsNotEmpty(Words(text, inWord), spell);
    LongerWord(front, last, c, spell);
  }

  lemma WordGrows(text: seq<char>, c: char, inWord: char -> bool) returns (front: seq<seq<char>>, last: seq<char>)
    requires text != [] && inWord(text[|text| - 1]) && inWord(c)
    ensures Words(text, inWord) == front + [last] && Words(text + [c], inWord) == front + [last + [c]]
    ensures Words(text, inWord) != []
  {
    var words := Words(text, inWord);
    front, last := words[..|words| - 1], words[|words| - 1];
    assert (text + [c])[..|text|] == text;
  }

  lemma WordAdded(text: seq<char>, c: char, inWord: char -> bool, spell: char -> seq<char>)
    requires (text == [] || !inWord(text[|text| - 1])) && inWord(c)
    requires forall d :: spell(d) != []
    ensures
      var before := Spaced(Words(text, inWord), spell);
      Spaced(Words(text + [c], inWord), spell) == if before == [] then spell(c) else before + [' '] + spell(c)
  {
    hide Spaced, Spelled;
    var words := Words(text, inWord);
    WordsAreNotEmpty(text, inWord);
    SpacedIsNotEmpty(words, spell);
    NewWord(words, c, spell);
    assert Words(text + [c], inWord) == words + [[c]] by { assert (text + [c])[..|text|] == text; }
  }

  lemma Associative(a: seq<char>, b: seq<char>, c: seq<char>)
    ensures a + (b + c) == (a + b) + c
  {
  }

  // ---- normalising twice ----------------------------------------------------

  lemma SeparatorAddsNoWord(text: seq<char>, c: char, inWord: char -> bool)
    requires !inWord(c)
    ensures Words(text + [c], inWord) == Words(text, inWord)
  {
    assert (text + [c])[..|text|] == text;
  }

  lemma {:induction false} RunAddsAWord(text: seq<char>, word: seq<char>, inWord: char -> bool)
    requires text == [] || !inWord(text[|text| - 1])
    requires word != [] && forall c :: c in word ==> inWord(c)
    ensures Words(text + word, inWord) == Words(text, inWord) + [word]
    decreases |word|
  {
    var front, last := word[..|word| - 1], word[|word| - 1];
    assert (text + word)[..|text + word| - 1] == text + front;
    assert word == front + [last];
    if front != [] {
      RunAddsAWord(text, front, inWord);
      assert front[|front| - 1] in word;
    } else {
      assert text + front == text;
    }
  }

  ghost predicate AreWords(words: seq<seq<char>>, inWord: char -> bool) {
    forall i :: 0 <= i < |words| ==> words[i] != [] && forall c :: c in words[i] ==> inWord(c)
  }

  lemma {:induction false} WordsAreWords(text: seq<char>, inWord: char -> bool)
    ensures AreWords(Words(text, inWord), inWord)
    decreases |text|
  {
    if text != [] { WordsAreWords(text[..|text| - 1], inWord); }
  }

  function AsIs(c: char): seq<char> {
    [c]
  }

  lemma {:induction false} SpelledAsIs(word: seq<char>)
    ensures Spelled(word, AsIs) == word
  {
    if word != [] {
      SpelledAsIs(word[..|word| - 1]);
      assert word == word[..|word| - 1] + [word[|word| - 1]];
    }
  }

  /** Words set out with single spaces are found again. */
  lemma {:induction false} WordsOfSpaced(words: seq<seq<char>>, inWord: char -> bool)
    requires AreWords(words, inWord) && !inWord(' ')
    ensures Words(Spaced(words, AsIs), inWord) == words
    decreases |words|
  {
    hide Spaced, Spelled, Words;
    if words == [] {
      NothingSpaced([], inWord, AsIs);
    } else {
      var front, last := words[..|words| - 1], words[|words| - 1];
      assert words == front + [last];
      WordsOfSpaced(front, inWord);
      SpacedOf(front, last, AsIs);
      SpelledAsIs(last);
      if front == [] {
        NothingSpaced([], inWord, AsIs);
        RunAddsAWord([], last, inWord);
        assert [] + last == last;
      } else {
        SeparatorAddsNoWord(Spaced(front, AsIs), ' ', inWord);
        RunAddsAWord(Spaced(front, AsIs) + [' '], last, inWord);
      }
    }
  }

  lemma NothingSpaced(text: seq<char>, inWord: char -> bool, spell: char -> seq<char>)
    requires text == []
    ensures Spaced([], spell) == [] && Words(text, inWord) == []
  {
  }
}
