/** Names the mover makes up: the numbered name an apply falls back to when the
    requested one is taken, and the temporary name a copy is written under. */
module DestinationNames {
  import opened Counting
  import opened Domain
  import opened Numerals

  // ---- numbered names -------------------------------------------------------

  /** The place of the dot that starts an extension: the last one, unless it is
      the first character of the name. */
  function ExtensionDot(name: string, end: nat): (dot: Option<nat>)
    requires end <= |name|
    ensures dot.Some? ==> 0 < dot.value < end && name[dot.value] == '.'
    ensures forall i :: (if dot.Some? then dot.value else 0) < i < end ==> name[i] != '.'
    decreases end
  {
    if end <= 1 then None
    else if name[end - 1] == '.' then Some(end - 1)
    else ExtensionDot(name, end - 1)
  }

  function Stem(name: string): string {
    var dot := ExtensionDot(name, |name|);
    if dot.Some? then name[..dot.value] else name
  }

  /** The extension with its dot, or nothing. */
  function Suffix(name: string): string {
    var dot := ExtensionDot(name, |name|);
    if dot.Some? then name[dot.value..] else ""
  }

  lemma StemAndSuffix(name: string)
    ensures Stem(name) + Suffix(name) == name
  {
  }

  /** The `index`-th name to try: the requested one, then "stem (2).ext" on. */
  function Candidate(requested: Path, index: nat): Path {
    if index <= 1 then requested
    else Path(requested.folder, Stem(requested.name) + " (" + Decimal(index) + ")" + Suffix(requested.name))
  }

  /** A numbered name keeps the folder and the extension: the number stands before the
      last dot, or at the end of a name that has none but perhaps in front. */
  lemma NumberKeepsExtension(requested: Path, k: nat, stem: string, extension: string)
    requires k >= 2
    ensures Candidate(requested, k).folder == requested.folder
    ensures requested.name == stem + "." + extension && stem != "" && '.' !in extension ==>
      Candidate(requested, k).name == stem + " (" + Decimal(k) + ")." + extension
    ensures requested.name == stem && (forall i :: 0 < i < |stem| ==> stem[i] != '.') ==>
      Candidate(requested, k).name == stem + " (" + Decimal(k) + ")"
    ensures Value(Decimal(k)) == k && Decimal(k)[0] != '0'
  {
    var name := requested.name;
    var dot := ExtensionDot(name, |name|);
    ValueOfDecimal(k);
    NoLeadingZero(k);
    if name == stem + "." + extension && stem != "" && '.' !in extension {
      assert name[|stem|] == '.';
      forall i | |stem| < i < |name| ensures name[i] != '.' {
        assert name[i] == extension[i - |stem| - 1];
      }
      assert dot == Some(|stem|);
      assert name[..|stem|] == stem && name[|stem|..] == "." + extension;
      assert ")" + ("." + extension) == ")." + extension;
    }
  }

  lemma NumberedIsLonger(requested: Path, i: nat)
    ensures i > 1 ==> |Candidate(requested, i).name| > |requested.name|
  {
    StemAndSuffix(requested.name);
  }

  lemma NumberedNamesDiffer(requested: Path, i: nat, j: nat)
    requires 1 <= i && 1 <= j && Candidate(requested, i) == Candidate(requested, j)
    ensures i == j
  {
    var stem, suffix := Stem(requested.name), Suffix(requested.name);
    NumberedIsLonger(requested, i);
    NumberedIsLonger(requested, j);
    if i > 1 && j > 1 {
      var front, back := stem + " (", ")" + suffix;
      assert Candidate(requested, i).name == front + Decimal(i) + back;
      assert Candidate(requested, j).name == front + Decimal(j) + back;
      MiddleIsDetermined(front, Decimal(i), Decimal(j), back);
      ValueOfDecimal(i);
      ValueOfDecimal(j);
    }
  }

  lemma MiddleIsDetermined(front: string, a: string, b: string, back: string)
    requires front + a + back == front + b + back
    ensures a == b
  {
    var whole := front + a + back;
    assert |whole| == |front| + |a| + |back| && |whole| == |front| + |b| + |back|;
    assert whole[|front|..|front| + |a|] == a;
    assert whole[|front|..|front| + |b|] == b;
  }

  /** The names tried before the `n + 1`-st. */
  ghost function Tried(requested: Path, n: nat): (names: set<Path>)
    ensures |names| == n
    ensures forall p :: p in names <==> exists i {:trigger Candidate(requested, i)} :: 1 <= i <= n && p == Candidate(requested, i)
  {
    if n == 0 then {}
    else
      var before := Tried(requested, n - 1);
      assert Candidate(requested, n) !in before by {
        if Candidate(requested, n) in before {
          var i: nat :| 1 <= i <= n - 1 && Candidate(requested, n) == Candidate(requested, i);
          NumberedNamesDiffer(requested, n, i);
        }
      }
      before + {Candidate(requested, n)}
  }

  /** Pigeonhole: if the first `n` names are all taken, there are `n` files. */
  lemma TakenNamesAreFiles(requested: Path, taken: set<Path>, n: nat)
    requires forall i {:trigger Candidate(requested, i)} :: 1 <= i <= n ==> Candidate(requested, i) in taken
    ensures n <= |taken|
  {
    var tried := Tried(requested, n);
    assert tried <= taken;
    SubsetIsNoLarger(tried, taken);
  }

  // ---- temporary names ------------------------------------------------------

  /** The hidden name a copy is written under, beside its destination. The token
      stands for process, clock and sequence number. */
  function TemporaryPath(destination: Path, token: string): Path {
    Path(destination.folder, "." + destination.name + "." + token + ".intern-tmp")
  }

  /** A name that could be a temporary of this token. */
  predicate UsesToken(p: Path, token: string) {
    var tail := "." + token + ".intern-tmp";
    |tail| <= |p.name| && p.name[|p.name| - |tail|..] == tail
  }

  /** No file has a name this token could give a temporary. */
  predicate FreshToken<T>(files: map<Path, T>, token: string) {
    forall p :: p in files ==> !UsesToken(p, token)
  }

  lemma FreshTokenIsFresh<T>(files: map<Path, T>, destination: Path, token: string)
    requires FreshToken(files, token)
    ensures TemporaryPath(destination, token) !in files
  {
    var tail := "." + token + ".intern-tmp";
    var name := TemporaryPath(destination, token).name;
    assert name == "." + destination.name + tail;
    assert UsesToken(TemporaryPath(destination, token), token);
  }

  /** A copy is written in the destination's folder, under a hidden name. */
  lemma TemporaryIsBeside(destination: Path, token: string)
    ensures TemporaryPath(destination, token).folder == destination.folder
    ensures TemporaryPath(destination, token).name[0] == '.'
    ensures UsesToken(TemporaryPath(destination, token), token)
    ensures destination.name <= TemporaryPath(destination, token).name[1..]
  {
    var tail := "." + token + ".intern-tmp";
    var name := TemporaryPath(destination, token).name;
    assert name == "." + destination.name + tail;
    assert name[1..] == destination.name + tail;
  }

  lemma TemporaryIsNotDestination(destination: Path, token: string)
    ensures TemporaryPath(destination, token) != destination
  {
    assert |TemporaryPath(destination, token).name| > |destination.name|;
  }
}
