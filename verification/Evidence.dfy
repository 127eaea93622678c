/** Literal-evidence checks: a quotation counts only where it stands as written,
    with no letter or digit running into it. */
module Evidence {
  import opened Domain
  import opened WordRuns

  // ---- whole occurrences ----------------------------------------------------

  predicate OccursAt(haystack: string, needle: string, position: nat) {
    position + |needle| <= |haystack| && haystack[position..position + |needle|] == needle
  }

  /** A letter or digit before the occurrence runs into a needle that starts
      with one, or one after it into a needle that ends with one. */
  predicate RunsOn(haystack: string, needle: string, position: nat, alphanumeric: char -> bool)
    requires OccursAt(haystack, needle, position)
  {
    var end := position + |needle|;
    needle != "" &&
    (|| (alphanumeric(needle[0]) && position > 0 && alphanumeric(haystack[position - 1]))
     || (alphanumeric(needle[|needle| - 1]) && end < |haystack| && alphanumeric(haystack[end])))
  }

  predicate OccursWholeAt(haystack: string, needle: string, position: nat, alphanumeric: char -> bool) {
    OccursAt(haystack, needle, position) && !RunsOn(haystack, needle, position, alphanumeric)
  }

  /** The first occurrence at or after `from`. */
  function Find(haystack: string, needle: string, from: nat): (found: Option<nat>)
    ensures found.Some? ==> from <= found.value && OccursAt(haystack, needle, found.value)
    ensures found.Some? ==> forall p :: from <= p < found.value ==> !OccursAt(haystack, needle, p)
    ensures found.None? ==> forall p :: from <= p ==> !OccursAt(haystack, needle, p)
    decreases |haystack| - from
  {
    if from + |needle| > |haystack| then None
    else if OccursAt(haystack, needle, from) then Some(from)
    else Find(haystack, needle, from + 1)
  }

  /** The needle between what comes before it and what comes after; no letter or digit
      meets one of its own. */
  ghost predicate StandsBetween(haystack: string, front: string, needle: string, back: string, alphanumeric: char -> bool) {
    && haystack == front + needle + back
    && (needle != "" && front != "" ==> !alphanumeric(needle[0]) || !alphanumeric(front[|front| - 1]))
    && (needle != "" && back != "" ==> !alphanumeric(needle[|needle| - 1]) || !alphanumeric(back[0]))
  }

  lemma WholeStandsBetween(haystack: string, needle: string, position: nat, alphanumeric: char -> bool)
    requires OccursWholeAt(haystack, needle, position, alphanumeric)
    ensures StandsBetween(haystack, haystack[..position], needle, haystack[position + |needle|..], alphanumeric)
  {
    assert haystack == haystack[..position] + haystack[position..position + |needle|] + haystack[position + |needle|..];
  }

  lemma BetweenIsWhole(haystack: string, front: string, needle: string, back: string, alphanumeric: char -> bool)
    requires StandsBetween(haystack, front, needle, back, alphanumeric)
    ensures OccursWholeAt(haystack, needle, |front|, alphanumeric)
  {
  }

  /** Looks at every occurrence in turn, overlapping ones included. */
  method ContainsWhole(haystack: string, needle: string, alphanumeric: char -> bool) returns (contains: bool)
    ensures contains <==> exists front: string, back: string :: StandsBetween(haystack, front, needle, back, alphanumeric)
  {
    hide StandsBetween;
    var wordStart := needle != "" && alphanumeric(needle[0]);
    var wordEnd := needle != "" && alphanumeric(needle[|needle| - 1]);
    var from := 0;
    while true
      invariant from <= |haystack|
      invariant forall p: nat :: p < from ==> !OccursWholeAt(haystack, needle, p, alphanumeric)
      decreases |haystack| - from
    {
      var found := Find(haystack, needle, from);
      if found.None? {
        forall front, back: string ensures !StandsBetween(haystack, front, needle, back, alphanumeric) {
          if StandsBetween(haystack, front, needle, back, alphanumeric) {
            BetweenIsWhole(haystack, front, needle, back, alphanumeric);
          }
        }
        return false;
      }
      var position := found.value;
      var end := position + |needle|;
      var beforeIsWord := wordStart && position > 0 && alphanumeric(haystack[position - 1]);
      var afterIsWord := wordEnd && end < |haystack| && alphanumeric(haystack[end]);
      if !beforeIsWord && !afterIsWord {
        WholeStandsBetween(haystack, needle, position, alphanumeric);
        return true;
      }
      from := position + 1;
    }
  }

  // ---- whitespace -----------------------------------------------------------

  /** Collapses whitespace to single spaces and drops it at both ends. What is
      left are the words of the text in order, and collapsing it again changes
      nothing. */
  method CollapseWhitespace(characters: string, whitespace: char -> bool) returns (result: string)
    requires whitespace(' ')
    ensures result == Spaced(Words(characters, c => !whitespace(c)), AsIs)
    ensures Words(result, c => !whitespace(c)) == Words(characters, c => !whitespace(c))
  {
    hide Spaced, Words;
    ghost var inWord := c => !whitespace(c);
    NothingSpaced(characters[..0], inWord, AsIs);
    result := "";
    var pendingSpace := false;
    for i := 0 to |characters|
      invariant result == Spaced(Words(characters[..i], inWord), AsIs)
      invariant pendingSpace <==> i > 0 && result != "" && !inWord(characters[i - 1])
    {
      var c := characters[i];
      OneMoreCharacter(characters[..i], c, inWord, AsIs);
      assert characters[..i + 1] == characters[..i] + [c];
      if whitespace(c) {
        pendingSpace := result != "";
      } else {
        if pendingSpace {
          result := result + " ";
          pendingSpace := false;
        }
        result := result + [c];
      }
    }
    assert characters[..|characters|] == characters;
    WordsAreWords(characters, inWord);
    WordsOfSpaced(Words(characters, inWord), inWord);
  }
}
