/** House style: a spelling learned from one edit of a proposed name, and the
    rules applied to later proposals. */
module HouseStyle {
  import opened Domain

  datatype RuleKind = Party | DocumentType

  datatype HouseRule = HouseRule(kind: RuleKind, from: string, to: string)

  datatype PartyRelation = Between | For | With | From | To | Unrelated

  datatype Proposal = Proposal(documentType: Option<string>, parties: seq<string>, relation: PartyRelation)

  /** The text handling the module borrows: what a segment of a name may carry,
      the segment of a document type, the form spellings are matched under, and
      what counts as white space. */
  datatype Naming = Naming(
    segment: string -> Option<string>,
    typeSegment: string -> Option<string>,
    key: string -> string,
    whitespace: char -> bool)

  const DEFAULT_TYPE := "Document"

  // ---- strings --------------------------------------------------------------

  function StripPrefix(text: string, prefix: string): (rest: Option<string>)
    ensures rest.Some? <==> prefix <= text
    ensures rest.Some? ==> text == prefix + rest.value
  {
    if prefix <= text then Some(text[|prefix|..]) else None
  }

  function StripSuffix(text: string, suffix: string): (rest: Option<string>)
    ensures rest.Some? <==> |suffix| <= |text| && text[|text| - |suffix|..] == suffix
    ensures rest.Some? ==> text == rest.value + suffix
  {
    if |suffix| <= |text| && text[|text| - |suffix|..] == suffix then Some(text[..|text| - |suffix|]) else None
  }

  function TrimStart(text: string, whitespace: char -> bool): string {
    if text != "" && whitespace(text[0]) then TrimStart(text[1..], whitespace) else text
  }

  function TrimEnd(text: string, whitespace: char -> bool): string {
    if text != "" && whitespace(text[|text| - 1]) then TrimEnd(text[..|text| - 1], whitespace) else text
  }

  function Trim(text: string, whitespace: char -> bool): string {
    TrimEnd(TrimStart(text, whitespace), whitespace)
  }

  /** What is left has no white space at its ends, and only white space is gone. */
  lemma {:induction false} TrimStartIsRight(text: string, whitespace: char -> bool) returns (front: string)
    ensures text == front + TrimStart(text, whitespace) && forall c :: c in front ==> whitespace(c)
    ensures TrimStart(text, whitespace) != "" ==> !whitespace(TrimStart(text, whitespace)[0])
  {
    if text != "" && whitespace(text[0]) {
      var rest := TrimStartIsRight(text[1..], whitespace);
      front := [text[0]] + rest;
      assert text == [text[0]] + text[1..];
    } else {
      front := "";
    }
  }

  lemma {:induction false} TrimEndIsRight(text: string, whitespace: char -> bool) returns (back: string)
    ensures text == TrimEnd(text, whitespace) + back && forall c :: c in back ==> whitespace(c)
    ensures
      var left := TrimEnd(text, whitespace);
      left != "" ==> !whitespace(left[|left| - 1]) && left[0] == text[0]
  {
    if text != "" && whitespace(text[|text| - 1]) {
      var rest := TrimEndIsRight(text[..|text| - 1], whitespace);
      back := rest + [text[|text| - 1]];
      assert text == text[..|text| - 1] + [text[|text| - 1]];
    } else {
      back := "";
    }
  }

  lemma TrimIsRight(text: string, whitespace: char -> bool) returns (front: string, back: string)
    ensures
      var left := Trim(text, whitespace);
      && text == front + left + back
      && (forall c :: c in front || c in back ==> whitespace(c))
      && (left != "" ==> !whitespace(left[0]) && !whitespace(left[|left| - 1]))
  {
    hide TrimStart, TrimEnd;
    front := TrimStartIsRight(text, whitespace);
    back := TrimEndIsRight(TrimStart(text, whitespace), whitespace);
  }

  function NewRule(n: Naming, kind: RuleKind, from: string, to: string): HouseRule {
    HouseRule(kind, Trim(from, n.whitespace), Trim(to, n.whitespace))
  }

  /** A rule that would change nothing, or whose spelling no name can carry,
      teaches nothing. */
  predicate IsMeaningful(n: Naming, rule: HouseRule) {
    n.key(rule.from) != "" && n.key(rule.to) != n.key(rule.from) && n.segment(rule.to).Some?
  }

  // ---- the grammar of a composed name ---------------------------------------

  /** A party as the proposal spells it, and the segment it gives the name. */
  datatype Named = Named(spelling: string, segment: string)

  datatype Clause = Clause(connector: string, parties: seq<Named>)
  {
    predicate WellFormed() {
      |parties| == 1 || |parties| == 2
    }

    function Text(): string
      requires WellFormed()
    {
      if |parties| == 1 then parties[0].segment else parties[0].segment + " and " + parties[1].segment
    }
  }

  datatype Shape = Shape(typeSegment: string, clause: Option<Clause>)
  {
    predicate WellFormed() {
      clause.Some? ==> clause.value.WellFormed()
    }

    function Stem(): string
      requires WellFormed()
    {
      if clause.None? then typeSegment
      else typeSegment + Connecting(clause.value) + clause.value.Text()
    }
  }

  function Connecting(clause: Clause): string {
    " " + clause.connector + " "
  }

  function ConnectorWord(relation: PartyRelation): string {
    match relation
    case Between => "between"
    case For => "for"
    case With => "with"
    case From => "from"
    case To => "to"
    case Unrelated => "-"
  }

  function TypeSegment(p: Proposal, n: Naming): string {
    if p.documentType.Some? && n.typeSegment(p.documentType.value).Some? then n.typeSegment(p.documentType.value).value
    else DEFAULT_TYPE
  }

  /** The parties that give the name a segment. */
  function NamedParties(parties: seq<string>, n: Naming): seq<Named> {
    if parties == [] then []
    else
      var front, last := NamedParties(parties[..|parties| - 1], n), parties[|parties| - 1];
      if n.segment(last).Some? then front + [Named(last, n.segment(last).value)] else front
  }

  /** The clauses naming may have composed, in the order it sheds detail. */
  function Candidates(parties: seq<Named>, relation: PartyRelation): (clauses: seq<Clause>)
    ensures forall i :: 0 <= i < |clauses| ==> clauses[i].WellFormed()
  {
    (if |parties| >= 2 && relation.Between? then [Clause("between", parties[..2])] else [])
    + (if |parties| >= 1 then
         var word :=
           match relation
           case Between => "with"
           case With => "with"
           case For => "for"
           case From => "from"
           case To => "to"
           case Unrelated => "-";
         [Clause(word, parties[..1])]
       else [])
  }

  /** A name: the type, the connecting word, and one party or two. */
  ghost predicate Composes(typeSegment: string, clause: Clause, stem: string) {
    || (|clause.parties| == 1 && stem == typeSegment + " " + clause.connector + " " + clause.parties[0].segment)
    || (|clause.parties| == 2
        && stem == typeSegment + " " + clause.connector + " " + clause.parties[0].segment + " and " + clause.parties[1].segment)
  }

  /** The type's segment, or the word that stands for an unstated or unspeakable one. */
  ghost predicate NamesType(p: Proposal, n: Naming, typeSegment: string) {
    if p.documentType.Some? && n.typeSegment(p.documentType.value).Some? then
      n.typeSegment(p.documentType.value) == Some(typeSegment)
    else typeSegment == "Document"
  }

  /** The first candidate that composes the stem; the type alone if it does;
      nothing if the proposal composes no such stem. */
  ghost predicate Reads(p: Proposal, n: Naming, stem: string, shape: Option<Shape>) {
    exists typeSegment :: NamesType(p, n, typeSegment) && ReadsAs(p, n, typeSegment, stem, shape)
  }

  ghost predicate ReadsAs(p: Proposal, n: Naming, typeSegment: string, stem: string, shape: Option<Shape>) {
    var clauses := Candidates(NamedParties(p.parties, n), p.relation);
    if exists i :: 0 <= i < |clauses| && Composes(typeSegment, clauses[i], stem) then
      && shape.Some? && shape.value.typeSegment == typeSegment && shape.value.clause.Some?
      && (exists i :: 0 <= i < |clauses| && shape.value.clause.value == clauses[i]
            && Composes(typeSegment, clauses[i], stem)
            && forall j :: 0 <= j < i ==> !Composes(typeSegment, clauses[j], stem))
    else if stem == typeSegment then shape == Some(Shape(typeSegment, None))
    else shape == None
  }

  lemma StemComposes(typeSegment: string, clause: Clause, stem: string)
    requires clause.WellFormed()
    ensures Composes(typeSegment, clause, stem) <==> Shape(typeSegment, Some(clause)).Stem() == stem
  {
    var text, front := clause.Text(), typeSegment + Connecting(clause);
    assert front == typeSegment + " " + clause.connector + " ";
    if |clause.parties| == 2 {
      assert front + text == front + clause.parties[0].segment + " and " + clause.parties[1].segment;
    }
  }

  method NameShapeOf(p: Proposal, n: Naming, stem: string) returns (shape: Option<Shape>)
    ensures Reads(p, n, stem, shape)
    ensures shape.Some? ==> shape.value.WellFormed() && shape.value.Stem() == stem
  {
    var typeSegment := TypeSegment(p, n);
    var parties: seq<Named> := [];
    for i := 0 to |p.parties|
      invariant parties == NamedParties(p.parties[..i], n)
    {
      assert p.parties[..i + 1][..i] == p.parties[..i];
      var segment := n.segment(p.parties[i]);
      if segment.Some? { parties := parties + [Named(p.parties[i], segment.value)]; }
    }
    assert p.parties[..|p.parties|] == p.parties;
    var candidates: seq<Clause> := [];
    if |parties| >= 2 && p.relation.Between? {
      candidates := candidates + [Clause(ConnectorWord(Between), parties[..2])];
    }
    if |parties| >= 1 {
      candidates := candidates + [Clause(ConnectorWord(if p.relation.Between? then With else p.relation), parties[..1])];
    }
    assert candidates == Candidates(parties, p.relation);
    assert NamesType(p, n, typeSegment);
    for i := 0 to |candidates|
      invariant forall j :: 0 <= j < i ==> !Composes(typeSegment, candidates[j], stem)
    {
      StemComposes(typeSegment, candidates[i], stem);
      if stem == Shape(typeSegment, Some(candidates[i])).Stem() {
        assert ReadsAs(p, n, typeSegment, stem, Some(Shape(typeSegment, Some(candidates[i]))));
        return Some(Shape(typeSegment, Some(candidates[i])));
      }
    }
    shape := if stem == typeSegment then Some(Shape(typeSegment, None)) else None;
    assert ReadsAs(p, n, typeSegment, stem, shape);
  }

  // ---- the lesson of an edit ------------------------------------------------

  /** The one party the edit respelled, if exactly one was. */
  function PartyLesson(n: Naming, clause: Clause, approved: string): Option<HouseRule>
    requires clause.WellFormed()
  {
    var first := clause.parties[0];
    if |clause.parties| == 1 then Some(NewRule(n, Party, first.spelling, approved))
    else
      var second := clause.parties[1];
      var secondChanged := StripPrefix(approved, first.segment + " and ");
      var firstChanged := StripSuffix(approved, " and " + second.segment);
      if secondChanged.Some? && secondChanged.value != second.segment then
        Some(NewRule(n, Party, second.spelling, secondChanged.value))
      else if firstChanged.Some? then Some(NewRule(n, Party, first.spelling, firstChanged.value))
      else None
  }

  /** What an edit of a stem of this shape says, before asking whether the rule
      is worth keeping. */
  function RawLesson(p: Proposal, n: Naming, shape: Shape, after: string): Option<HouseRule>
    requires shape.WellFormed()
  {
    if shape.clause.None? then TypeLesson(p, n, after)
    else
      var clause := shape.clause.value;
      var typeUnchanged := StripPrefix(after, shape.typeSegment + Connecting(clause));
      var clauseUnchanged := StripSuffix(after, Connecting(clause) + clause.Text());
      if typeUnchanged.Some? && typeUnchanged.value != clause.Text() then PartyLesson(n, clause, typeUnchanged.value)
      else if clauseUnchanged.Some? then TypeLesson(p, n, clauseUnchanged.value)
      else None
  }

  function TypeLesson(p: Proposal, n: Naming, newType: string): Option<HouseRule> {
    if p.documentType.Some? then Some(NewRule(n, DocumentType, p.documentType.value, newType)) else None
  }

  /** `before` and `after` are the stems of the proposed and the approved name. */
  method LessonFromEdit(p: Proposal, n: Naming, before: string, after: string) returns (lesson: Option<HouseRule>)
    ensures lesson.Some? ==>
      && before != after && after != ""
      && exists shape :: Reads(p, n, before, Some(shape)) && Learned(p, n, shape, after, lesson.value)
    ensures lesson.None? ==>
      || before == after || after == ""
      || exists shape :: Reads(p, n, before, shape) && NothingLearned(p, n, shape, after)
  {
    hide Reads, RawLesson;
    var shape := NameShapeOf(p, n, before);
    if before == after || after == "" { return None; }
    if shape.None? { return None; }
    var rule := RawLesson(p, n, shape.value, after);
    if rule.None? || !IsMeaningful(n, rule.value) { return None; }
    LessonReplays(p, n, shape.value, after);
    lesson := rule;
  }

  /** The rule is what the edit says, is worth keeping, and replays the edit. */
  ghost predicate Learned(p: Proposal, n: Naming, shape: Shape, after: string, rule: HouseRule) {
    && shape.WellFormed() && RawLesson(p, n, shape, after) == Some(rule)
    && n.key(rule.from) != "" && n.key(rule.to) != n.key(rule.from) && n.segment(rule.to).Some?
    && Replays(p, n, shape, rule, after)
  }

  /** The name was not composed, or the edit says nothing worth keeping. */
  ghost predicate NothingLearned(p: Proposal, n: Naming, shape: Option<Shape>, after: string) {
    shape.Some? ==>
      && shape.value.WellFormed()
      && var rule := RawLesson(p, n, shape.value, after);
         rule.Some? ==>
           || n.key(rule.value.from) == "" || n.key(rule.value.to) == n.key(rule.value.from)
           || n.segment(rule.value.to).None?
  }

  // ---- what a lesson means --------------------------------------------------

  datatype Field = TypeField | PartyField(index: nat)

  predicate HasField(shape: Shape, field: Field) {
    match field
    case TypeField => true
    case PartyField(i) => shape.clause.Some? && i < |shape.clause.value.parties|
  }

  /** The shape with one field spelled anew and every other part as it was. */
  function Respelled(shape: Shape, field: Field, spelling: string): (result: Shape)
    requires shape.WellFormed() && HasField(shape, field)
    ensures result.WellFormed()
  {
    match field
    case TypeField => shape.(typeSegment := spelling)
    case PartyField(i) =>
      var clause := shape.clause.value;
      shape.(clause := Some(clause.(parties := clause.parties[i := clause.parties[i].(segment := spelling)])))
  }

  /** The rule is about this field of the proposal. */
  predicate Teaches(p: Proposal, n: Naming, shape: Shape, field: Field, rule: HouseRule)
    requires HasField(shape, field)
  {
    match field
    case TypeField =>
      rule.kind.DocumentType? && p.documentType.Some? && rule.from == Trim(p.documentType.value, n.whitespace)
    case PartyField(i) =>
      rule.kind.Party? && rule.from == Trim(shape.clause.value.parties[i].spelling, n.whitespace)
  }

  /** Putting the rule's spelling, with some white space around it, into the one
      field it names composes exactly the approved stem. */
  ghost predicate ReplaysAs(p: Proposal, n: Naming, shape: Shape, rule: HouseRule, after: string, field: Field, spelling: string) {
    && shape.WellFormed() && HasField(shape, field)
    && Teaches(p, n, shape, field, rule)
    && Trim(spelling, n.whitespace) == rule.to
    && Respelled(shape, field, spelling).Stem() == after
  }

  ghost predicate Replays(p: Proposal, n: Naming, shape: Shape, rule: HouseRule, after: string) {
    exists field, spelling :: ReplaysAs(p, n, shape, rule, after, field, spelling)
  }

  lemma PartyLessonReplays(n: Naming, clause: Clause, approved: string) returns (i: nat, spelling: string)
    requires clause.WellFormed() && PartyLesson(n, clause, approved).Some?
    ensures i < |clause.parties|
    ensures PartyLesson(n, clause, approved) == Some(NewRule(n, Party, clause.parties[i].spelling, spelling))
    ensures clause.(parties := clause.parties[i := clause.parties[i].(segment := spelling)]).Text() == approved
  {
    if |clause.parties| == 1 {
      i, spelling := 0, approved;
    } else {
      var first, second := clause.parties[0], clause.parties[1];
      var secondChanged := StripPrefix(approved, first.segment + " and ");
      var firstChanged := StripSuffix(approved, " and " + second.segment);
      if secondChanged.Some? && secondChanged.value != second.segment {
        i, spelling := 1, secondChanged.value;
      } else {
        i, spelling := 0, firstChanged.value;
        assert approved == spelling + " and " + second.segment;
      }
    }
  }

  /** A lesson explains exactly the approved stem. */
  lemma LessonReplays(p: Proposal, n: Naming, shape: Shape, after: string)
    requires shape.WellFormed() && RawLesson(p, n, shape, after).Some?
    ensures Replays(p, n, shape, RawLesson(p, n, shape, after).value, after)
  {
    hide PartyLesson, Trim, Clause.Text;
    var rule := RawLesson(p, n, shape, after).value;
    if shape.clause.None? {
      assert ReplaysAs(p, n, shape, rule, after, TypeField, after);
    } else {
      var clause := shape.clause.value;
      var typeUnchanged := StripPrefix(after, shape.typeSegment + Connecting(clause));
      var clauseUnchanged := StripSuffix(after, Connecting(clause) + clause.Text());
      if typeUnchanged.Some? && typeUnchanged.value != clause.Text() {
        var i, spelling := PartyLessonReplays(n, clause, typeUnchanged.value);
        assert Respelled(shape, PartyField(i), spelling).Stem() == after;
        assert ReplaysAs(p, n, shape, rule, after, PartyField(i), spelling);
      } else {
        var spelling := clauseUnchanged.value;
        assert spelling + (Connecting(clause) + clause.Text()) == spelling + Connecting(clause) + clause.Text();
        assert ReplaysAs(p, n, shape, rule, after, TypeField, spelling);
      }
    }
  }

  // ---- when an edit teaches -------------------------------------------------

  /** The approved stem still starts with the type and the connecting word. */
  predicate KeepsType(shape: Shape, after: string) {
    shape.clause.Some? && shape.typeSegment + Connecting(shape.clause.value) <= after
  }

  /** Some one field, spelled anew, composes the approved stem; where the type is
      that field, the proposal must have stated one. */
  ghost predicate OneFieldChanged(p: Proposal, shape: Shape, after: string, field: Field, spelling: string) {
    && shape.WellFormed() && HasField(shape, field)
    && (field.TypeField? ==> p.documentType.Some?)
    && Respelled(shape, field, spelling).Stem() == after
  }

  lemma PartyTextTeaches(n: Naming, clause: Clause, i: nat, spelling: string)
    requires clause.WellFormed() && i < |clause.parties|
    ensures PartyLesson(n, clause, clause.(parties := clause.parties[i := clause.parties[i].(segment := spelling)]).Text()).Some?
  {
    var text := clause.(parties := clause.parties[i := clause.parties[i].(segment := spelling)]).Text();
    if |clause.parties| == 2 {
      var first, second := clause.parties[0], clause.parties[1];
      if i == 1 {
        assert StripPrefix(text, first.segment + " and ") == Some(spelling);
      } else {
        assert text == spelling + (" and " + second.segment);
        assert StripSuffix(text, " and " + second.segment) == Some(spelling);
      }
    }
  }

  lemma PartyEditTeaches(p: Proposal, n: Naming, shape: Shape, after: string, i: nat, spelling: string)
    requires OneFieldChanged(p, shape, after, PartyField(i), spelling) && after != shape.Stem()
    ensures RawLesson(p, n, shape, after).Some?
  {
    hide PartyLesson, Clause.Text;
    var clause := shape.clause.value;
    var front := shape.typeSegment + Connecting(clause);
    var text := Respelled(shape, PartyField(i), spelling).clause.value.Text();
    assert after == front + text;
    assert StripPrefix(after, front) == Some(text);
    PartyTextTeaches(n, clause, i, spelling);
  }

  lemma TypeEditTeaches(p: Proposal, n: Naming, shape: Shape, after: string, spelling: string)
    requires OneFieldChanged(p, shape, after, TypeField, spelling) && !KeepsType(shape, after)
    ensures RawLesson(p, n, shape, after) == Some(NewRule(n, DocumentType, p.documentType.value, spelling))
  {
    if shape.clause.Some? {
      var clause := shape.clause.value;
      var back := Connecting(clause) + clause.Text();
      assert after == spelling + back;
      assert StripSuffix(after, back) == Some(spelling);
    }
  }

  /** Exactly when an edit says something: some party was spelled anew, or the
      type was and the approved stem does not still start with the old type and
      the connecting word. */
  lemma LessonExactlyWhen(p: Proposal, n: Naming, shape: Shape, after: string)
    requires shape.WellFormed() && after != shape.Stem()
    ensures
      RawLesson(p, n, shape, after).Some? <==>
        || (exists i: nat, spelling :: OneFieldChanged(p, shape, after, PartyField(i), spelling))
        || (!KeepsType(shape, after) && exists spelling :: OneFieldChanged(p, shape, after, TypeField, spelling))
  {
    hide Trim, Clause.Text;
    if RawLesson(p, n, shape, after).Some? {
      var rule := RawLesson(p, n, shape, after).value;
      LessonReplays(p, n, shape, after);
      var field, spelling :| ReplaysAs(p, n, shape, rule, after, field, spelling);
      assert OneFieldChanged(p, shape, after, field, spelling);
      if field.TypeField? { TypeRuleMeansNewType(p, n, shape, after); }
    }
    if i: nat, spelling :| OneFieldChanged(p, shape, after, PartyField(i), spelling) {
      PartyEditTeaches(p, n, shape, after, i, spelling);
    }
    if spelling :| !KeepsType(shape, after) && OneFieldChanged(p, shape, after, TypeField, spelling) {
      TypeEditTeaches(p, n, shape, after, spelling);
    }
  }

  lemma TypeRuleMeansNewType(p: Proposal, n: Naming, shape: Shape, after: string)
    requires shape.WellFormed() && after != shape.Stem()
    requires RawLesson(p, n, shape, after).Some? && RawLesson(p, n, shape, after).value.kind.DocumentType?
    ensures !KeepsType(shape, after)
  {
  }

  /** A new type can go unnoticed: "Lease between" became "Lease", but the party
      is called "between", so the stem still starts with the old type. The stem
      proposed is one this proposal composes, wherever its three names pass as
      they are. */
  lemma TypeEditCanGoUnnoticed(n: Naming)
    requires n.typeSegment("Lease between") == Some("Lease between")
    requires n.segment("between") == Some("between") && n.segment("Q") == Some("Q")
    ensures
      var p := Proposal(Some("Lease between"), ["between", "Q"], Between);
      var shape := Shape("Lease between", Some(Clause("between", [Named("between", "between"), Named("Q", "Q")])));
      var after := "Lease between between and Q";
      && Reads(p, n, shape.Stem(), Some(shape)) && after != shape.Stem() && after != ""
      && OneFieldChanged(p, shape, after, TypeField, "Lease")
      && RawLesson(p, n, shape, after) == None
  {
    var p := Proposal(Some("Lease between"), ["between", "Q"], Between);
    var clause := Clause("between", [Named("between", "between"), Named("Q", "Q")]);
    var shape := Shape("Lease between", Some(clause));
    UnnoticedIsRead(p, n, clause, shape);
    UnnoticedIsAnEdit(clause, shape);
    UnnoticedIsATypeEdit(p, clause, shape);
    UnnoticedTeachesNothing(p, n, clause, shape);
  }

  lemma UnnoticedIsRead(p: Proposal, n: Naming, clause: Clause, shape: Shape)
    requires n.typeSegment("Lease between") == Some("Lease between")
    requires n.segment("between") == Some("between") && n.segment("Q") == Some("Q")
    requires p == Proposal(Some("Lease between"), ["between", "Q"], Between)
    requires clause == Clause("between", [Named("between", "between"), Named("Q", "Q")])
    requires shape == Shape("Lease between", Some(clause))
    ensures Reads(p, n, shape.Stem(), Some(shape))
  {
    var parties := clause.parties;
    assert p.parties[..1] == ["between"] && p.parties[..1][..0] == [];
    assert NamedParties(["between"], n) == [Named("between", "between")];
    assert NamedParties(p.parties, n) == parties;
    assert parties[..2] == parties;
    assert Candidates(parties, Between)[0] == clause;
    StemComposes("Lease between", clause, shape.Stem());
    assert NamesType(p, n, "Lease between") && ReadsAs(p, n, "Lease between", shape.Stem(), Some(shape));
  }

  lemma UnnoticedTeachesNothing(p: Proposal, n: Naming, clause: Clause, shape: Shape)
    requires clause == Clause("between", [Named("between", "between"), Named("Q", "Q")])
    requires shape == Shape("Lease between", Some(clause))
    ensures RawLesson(p, n, shape, "Lease between between and Q") == None
  {
    var front := "Lease between" + Connecting(clause);
    assert front == "Lease between between ";
    assert "Lease between between and Q" == front + "and Q";
    assert StripPrefix("Lease between between and Q", front) == Some("and Q");
    assert StripPrefix("and Q", "between and ") == None;
    assert "between" + " and " == "between and ";
    assert StripSuffix("and Q", " and Q") == None;
    assert " and " + "Q" == " and Q";
    assert PartyLesson(n, clause, "and Q") == None;
    assert |clause.Text()| == 13;
  }

  lemma UnnoticedIsATypeEdit(p: Proposal, clause: Clause, shape: Shape)
    requires p.documentType.Some?
    requires clause == Clause("between", [Named("between", "between"), Named("Q", "Q")])
    requires shape == Shape("Lease between", Some(clause))
    ensures OneFieldChanged(p, shape, "Lease between between and Q", TypeField, "Lease")
  {
    assert clause.Text() == "between" + " and " + "Q";
    assert Respelled(shape, TypeField, "Lease").Stem() == "Lease" + Connecting(clause) + clause.Text();
    assert "Lease" + Connecting(clause) + clause.Text() == "Lease between between and Q";
  }

  lemma UnnoticedIsAnEdit(clause: Clause, shape: Shape)
    requires clause == Clause("between", [Named("between", "between"), Named("Q", "Q")])
    requires shape == Shape("Lease between", Some(clause))
    ensures "Lease between between and Q" != shape.Stem()
  {
    assert |clause.Text()| == 13;
    assert |shape.Stem()| == 13 + |Connecting(clause)| + 13;
    assert |"Lease between between and Q"| == 27;
  }

  // ---- applying the rules ---------------------------------------------------

  predicate Matches(n: Naming, rule: HouseRule, kind: RuleKind, value: string) {
    rule.kind == kind && n.key(value) != "" && n.key(value) == n.key(rule.from)
  }

  /** The first rule in force for a spelling. */
  function RuleFor(rules: seq<HouseRule>, n: Naming, kind: RuleKind, value: string): (rule: Option<HouseRule>)
    ensures rule.Some? ==> rule.value in rules && Matches(n, rule.value, kind, value)
  {
    if rules == [] then None
    else if Matches(n, rules[0], kind, value) then Some(rules[0])
    else
      assert rules == [rules[0]] + rules[1..];
      RuleFor(rules[1..], n, kind, value)
  }

  /** A rule applies to spellings of its kind that read like what it was learned from;
      one that reads like nothing is left alone. */
  ghost predicate AppliesTo(n: Naming, rule: HouseRule, kind: RuleKind, value: string) {
    rule.kind == kind && n.key(value) == n.key(rule.from) && n.key(value) != ""
  }

  /** Of the rules that apply the first is taken, and none only if none does. */
  lemma {:induction false} FirstRuleApplies(rules: seq<HouseRule>, n: Naming, kind: RuleKind, value: string)
    ensures
      match RuleFor(rules, n, kind, value)
      case None => forall i :: 0 <= i < |rules| ==> !AppliesTo(n, rules[i], kind, value)
      case Some(rule) =>
        exists i :: 0 <= i < |rules| && rules[i] == rule && AppliesTo(n, rules[i], kind, value)
                    && forall j :: 0 <= j < i ==> !AppliesTo(n, rules[j], kind, value)
  {
    if rules != [] && !Matches(n, rules[0], kind, value) {
      FirstRuleApplies(rules[1..], n, kind, value);
      assert rules == [rules[0]] + rules[1..];
      var rule := RuleFor(rules[1..], n, kind, value);
      if rule.Some? {
        var i :| 0 <= i < |rules[1..]| && rules[1..][i] == rule.value && AppliesTo(n, rules[1..][i], kind, value)
                 && forall j :: 0 <= j < i ==> !AppliesTo(n, rules[1..][j], kind, value);
        assert rules[i + 1] == rule.value;
        forall j | 0 <= j < i + 1 ensures !AppliesTo(n, rules[j], kind, value) {
          if j > 0 { assert rules[1..][j - 1] == rules[j]; }
        }
      } else {
        forall j | 0 <= j < |rules| ensures !AppliesTo(n, rules[j], kind, value) {
          if j > 0 { assert rules[1..][j - 1] == rules[j]; }
        }
      }
    } else if rules != [] {
      assert rules[0] == RuleFor(rules, n, kind, value).value;
    }
  }

  function Spell(rules: seq<HouseRule>, n: Naming, kind: RuleKind, value: string): string {
    var rule := RuleFor(rules, n, kind, value);
    if rule.Some? then rule.value.to else value
  }

  predicate HasKey(parties: seq<string>, n: Naming, key: string) {
    exists i :: 0 <= i < |parties| && n.key(parties[i]) == key
  }

  /** The parties respelled, one of each key, first come first kept. */
  function StyledParties(rules: seq<HouseRule>, n: Naming, parties: seq<string>): seq<string> {
    if parties == [] then []
    else
      var front := StyledParties(rules, n, parties[..|parties| - 1]);
      var spelled := Spell(rules, n, Party, parties[|parties| - 1]);
      if HasKey(front, n, n.key(spelled)) then front else front + [spelled]
  }

  /** The rules that fired, party by party. */
  function Fired(rules: seq<HouseRule>, n: Naming, parties: seq<string>): seq<HouseRule> {
    if parties == [] then []
    else
      var rule := RuleFor(rules, n, Party, parties[|parties| - 1]);
      Fired(rules, n, parties[..|parties| - 1]) + (if rule.Some? then [rule.value] else [])
  }

  method Apply(rules: seq<HouseRule>, n: Naming, p: Proposal) returns (styled: Proposal, applied: seq<HouseRule>)
    ensures styled.relation == p.relation && styled.parties == StyledParties(rules, n, p.parties)
    ensures styled.documentType
         == if p.documentType.Some? then Some(Spell(rules, n, DocumentType, p.documentType.value)) else None
    ensures
      var typeRule := if p.documentType.Some? then RuleFor(rules, n, DocumentType, p.documentType.value) else None;
      applied == (if typeRule.Some? then [typeRule.value] else []) + Fired(rules, n, p.parties)
  {
    hide HasKey, RuleFor;
    styled, applied := p, [];
    if p.documentType.Some? {
      var rule := RuleFor(rules, n, DocumentType, p.documentType.value);
      if rule.Some? {
        styled := styled.(documentType := Some(rule.value.to));
        applied := [rule.value];
      }
    }
    ghost var typeApplied := applied;
    var parties: seq<string> := [];
    for i := 0 to |p.parties|
      invariant parties == StyledParties(rules, n, p.parties[..i])
      invariant applied == typeApplied + Fired(rules, n, p.parties[..i])
    {
      assert p.parties[..i + 1][..i] == p.parties[..i];
      var party := p.parties[i];
      var rule := RuleFor(rules, n, Party, party);
      var spelled := party;
      if rule.Some? {
        applied := applied + [rule.value];
        spelled := rule.value.to;
      }
      if !HasKey(parties, n, n.key(spelled)) { parties := parties + [spelled]; }
    }
    assert p.parties[..|p.parties|] == p.parties;
    styled := styled.(parties := parties);
  }

  lemma {:induction false} StyledPartiesKeepKeys(rules: seq<HouseRule>, n: Naming, parties: seq<string>)
    ensures
      var styled := StyledParties(rules, n, parties);
      && (forall i, j :: 0 <= i < j < |styled| ==> n.key(styled[i]) != n.key(styled[j]))
      && (forall i :: 0 <= i < |parties| ==> HasKey(styled, n, n.key(Spell(rules, n, Party, parties[i]))))
      && (forall i :: 0 <= i < |styled| ==> exists j :: 0 <= j < |parties| && styled[i] == Spell(rules, n, Party, parties[j]))
    decreases |parties|
  {
    hide Spell;
    if parties != [] {
      var front, last := parties[..|parties| - 1], parties[|parties| - 1];
      StyledPartiesKeepKeys(rules, n, front);
      var before, styled := StyledParties(rules, n, front), StyledParties(rules, n, parties);
      var spelled := Spell(rules, n, Party, last);
      forall i | 0 <= i < |parties| ensures HasKey(styled, n, n.key(Spell(rules, n, Party, parties[i]))) {
        if i < |front| {
          assert front[i] == parties[i];
          var k :| 0 <= k < |before| && n.key(before[k]) == n.key(Spell(rules, n, Party, front[i]));
          assert styled[k] == before[k];
        } else if !HasKey(before, n, n.key(spelled)) {
          assert styled[|before|] == spelled;
        }
      }
      forall i | 0 <= i < |styled|
        ensures exists j :: 0 <= j < |parties| && styled[i] == Spell(rules, n, Party, parties[j])
      {
        if i < |before| {
          var j :| 0 <= j < |front| && before[i] == Spell(rules, n, Party, front[j]);
          assert parties[j] == front[j];
        } else {
          assert parties[|front|] == last;
        }
      }
    }
  }

  /** The styled parties are told apart by their keys; each is the spelling of
      one of the document's, and each of the document's is among them. */
  lemma StyledPartiesAreFaithful(rules: seq<HouseRule>, n: Naming, parties: seq<string>)
    ensures
      var styled := StyledParties(rules, n, parties);
      && (forall i, j :: 0 <= i < j < |styled| ==> n.key(styled[i]) != n.key(styled[j]))
      && (forall i :: 0 <= i < |parties| ==>
            exists k :: 0 <= k < |styled| && n.key(styled[k]) == n.key(Spell(rules, n, Party, parties[i])))
      && (forall i :: 0 <= i < |styled| ==> exists j :: 0 <= j < |parties| && styled[i] == Spell(rules, n, Party, parties[j]))
  {
    StyledPartiesKeepKeys(rules, n, parties);
    var styled := StyledParties(rules, n, parties);
    forall i | 0 <= i < |parties|
      ensures exists k :: 0 <= k < |styled| && n.key(styled[k]) == n.key(Spell(rules, n, Party, parties[i]))
    {
      assert HasKey(styled, n, n.key(Spell(rules, n, Party, parties[i])));
    }
  }

  /** A lesson put in force spells its own field the way the edit did. */
  lemma LessonTakesHold(p: Proposal, n: Naming, shape: Shape, after: string, rules: seq<HouseRule>)
    requires shape.WellFormed() && RawLesson(p, n, shape, after).Some?
    requires IsMeaningful(n, RawLesson(p, n, shape, after).value)
    requires forall text :: n.key(Trim(text, n.whitespace)) == n.key(text)
    ensures
      var rule := RawLesson(p, n, shape, after).value;
      exists field, spelling ::
        && ReplaysAs(p, n, shape, rule, after, field, spelling)
        && (field.TypeField? ==> Spell([rule] + rules, n, DocumentType, p.documentType.value) == Trim(spelling, n.whitespace))
        && (field.PartyField? ==>
              Spell([rule] + rules, n, Party, shape.clause.value.parties[field.index].spelling)
                == Trim(spelling, n.whitespace))
  {
    hide RawLesson, Trim;
    var rule := RawLesson(p, n, shape, after).value;
    LessonReplays(p, n, shape, after);
    var field, spelling :| ReplaysAs(p, n, shape, rule, after, field, spelling);
    assert ([rule] + rules)[0] == rule;
  }
}
