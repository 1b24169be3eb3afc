/**
 * The clarification planner (context/clarification_planner.rs): which inputs each candidate
 * report still misses, and how questions common to all candidates are asked only once.
 */
module Planner {
  import opened Wrappers
  import opened Contract

  datatype Key = Key(name: string)

  datatype LimitKind = All | Default | Limit | TopN

  /** Values of other kinds satisfy no input. */
  datatype Fact =
    | LimitFact(mode: LimitKind) | IntegerFact(value: int) | DateFact(date: string) | PersonFact(person: string)
    | OtherFact(text: string)

  type Patch = map<ConstraintField, Fact>

  datatype Validation = Validation(
    minInteger: Option<int>, maxInteger: Option<int>, maxLength: Option<nat>, maxRangeDays: Option<nat>)

  datatype Input = Input(id: Key, parameters: seq<Key>, kind: Key, caption: string, required: bool,
                         validation: Validation)

  datatype Parameter = Parameter(name: Key, required: bool, source: Option<Key>)

  datatype Report = Report(
    id: Key, parameters: seq<Parameter>, defaultLimit: Option<int>, maxLimit: Option<int>, maxRangeDays: Option<nat>)

  datatype Field = Field(
    key: Key, caption: string, kind: Key, required: bool, value: Option<(Option<string>, Option<string>)>,
    defaultValue: Option<string>, validation: Validation)

  datatype Candidate = Candidate(id: Key, missing: seq<Field>, defaults: Patch)

  const DATE_RANGE := Key("date_range")
  const LIMIT := Key("limit")
  const SEARCH := Key("search")
  const OTHER := Key("others")

  // -------------------------------------------------------------------- required inputs

  predicate IsAsked(p: Parameter) {
    p.required && p.source != Some(Key("authorized_scope")) && p.source != Some(Key("transient_sensitive_input"))
  }

  function FindInput(inputs: seq<Input>, name: Key): Option<Input> {
    if inputs == [] then None
    else if name in inputs[0].parameters then Some(inputs[0])
    else FindInput(inputs[1..], name)
  }

  predicate HasInput(inputs: seq<Input>, id: Key) {
    exists i :: i in inputs && i.id == id
  }

  function RequiredInputs(parameters: seq<Parameter>, inputs: seq<Input>): seq<Input> {
    if parameters == [] then []
    else
      var before, p := RequiredInputs(parameters[..|parameters| - 1], inputs), parameters[|parameters| - 1];
      if !IsAsked(p) then before
      else
        match FindInput(inputs, p.name)
        case None => before
        case Some(input) => if HasInput(before, input.id) then before else before + [input]
  }

  method CollectInputs(parameters: seq<Parameter>, inputs: seq<Input>) returns (result: seq<Input>)
    ensures result == RequiredInputs(parameters, inputs)
  {
    result := [];
    for i := 0 to |parameters|
      invariant result == RequiredInputs(parameters[..i], inputs)
    {
      assert parameters[..i + 1][..i] == parameters[..i];
      if IsAsked(parameters[i]) {
        match FindInput(inputs, parameters[i].name) {
          case None =>
          case Some(input) =>
            if !HasInput(result, input.id) {
              result := result + [input];
            }
        }
      }
    }
    assert parameters[..|parameters|] == parameters;
  }

  ghost predicate DistinctInputs(inputs: seq<Input>) {
    forall i, j | 0 <= i < j < |inputs| :: inputs[i].id != inputs[j].id
  }

  lemma {:induction false} FindInputIsFirst(inputs: seq<Input>, name: Key)
    ensures FirstOf(inputs, (i: Input) => name in i.parameters, FindInput(inputs, name))
  {
    if inputs != [] {
      FindInputIsFirst(inputs[1..], name);
      FirstOfNext(inputs, (i: Input) => name in i.parameters, FindInput(inputs[1..], name));
    }
  }

  /**
   * A required parameter that neither the caller's scope nor a sensitive input provides takes
   * its value from the first input that lists it.
   */
  ghost predicate TakesFrom(p: Parameter, inputs: seq<Input>, id: Key) {
    && p.required && p.source != Some(Key("authorized_scope")) && p.source != Some(Key("transient_sensitive_input"))
    && exists i :: FirstOf(inputs, (x: Input) => p.name in x.parameters, Some(i)) && i.id == id
  }

  lemma TakesIffFound(p: Parameter, inputs: seq<Input>, id: Key)
    ensures TakesFrom(p, inputs, id) <==>
            IsAsked(p) && FindInput(inputs, p.name).Some? && FindInput(inputs, p.name).value.id == id
  {
    var found := FindInput(inputs, p.name);
    FindInputIsFirst(inputs, p.name);
    forall i | FirstOf(inputs, (x: Input) => p.name in x.parameters, Some(i)) ensures found == Some(i) {
      FirstIsDetermined(inputs, (x: Input) => p.name in x.parameters, found, Some(i));
    }
  }

  ghost predicate Needs(parameters: seq<Parameter>, inputs: seq<Input>, id: Key) {
    exists p :: p in parameters && TakesFrom(p, inputs, id)
  }

  lemma NeedsOneMore(parameters: seq<Parameter>, inputs: seq<Input>, id: Key)
    requires parameters != []
    ensures
      var init, p := parameters[..|parameters| - 1], parameters[|parameters| - 1];
      Needs(parameters, inputs, id) <==>
      Needs(init, inputs, id) ||
      (IsAsked(p) && FindInput(inputs, p.name).Some? && FindInput(inputs, p.name).value.id == id)
  {
    var init, p := parameters[..|parameters| - 1], parameters[|parameters| - 1];
    assert parameters == init + [p];
    TakesIffFound(p, inputs, id);
  }

  /** Each needed input is asked for once, and nothing else is. */
  lemma {:induction false} RequiredInputsExact(parameters: seq<Parameter>, inputs: seq<Input>)
    ensures DistinctInputs(RequiredInputs(parameters, inputs))
    ensures forall id :: HasInput(RequiredInputs(parameters, inputs), id) <==> Needs(parameters, inputs, id)
  {
    if parameters != [] {
      var init, p := parameters[..|parameters| - 1], parameters[|parameters| - 1];
      RequiredInputsExact(init, inputs);
      var before, after := RequiredInputs(init, inputs), RequiredInputs(parameters, inputs);
      forall id ensures HasInput(after, id) <==> Needs(parameters, inputs, id) {
        NeedsOneMore(parameters, inputs, id);
        assert before == after || after == before + [after[|after| - 1]];
        if HasInput(before, id) {
          var i :| i in before && i.id == id;
          assert i in after;
        }
      }
      forall i, j | 0 <= i < j < |after| ensures after[i].id != after[j].id {
        if j == |before| { assert after[i] in before; }
      }
    }
  }

  // ------------------------------------------------------------------------- candidates

  function FindById(inputs: seq<Input>, id: Key): Option<Input> {
    if inputs == [] then None else if inputs[0].id == id then Some(inputs[0]) else FindById(inputs[1..], id)
  }

  predicate TakesTopN(r: Report) {
    exists p :: p in r.parameters && p.name == Key("top_n")
  }

  function OrElse(o: Option<int>, otherwise: int): int {
    match o case None => otherwise case Some(v) => v
  }

  function LimitDefault(r: Report, inputs: seq<Input>): Patch {
    match r.defaultLimit
    case None => map[]
    case Some(limit) =>
      match FindById(inputs, LIMIT)
      case None => map[]
      case Some(input) =>
        if limit < OrElse(input.validation.minInteger, 1)
           || (r.maxLimit.Some? && limit > r.maxLimit.value)
           || (input.validation.maxInteger.Some? && limit > input.validation.maxInteger.value)
        then map[]
        else map[LimitMode := LimitFact(if TakesTopN(r) then TopN else Limit), LimitValue := IntegerFact(limit)]
  }

  function Lookup(facts: Patch, field: ConstraintField): Option<Fact> {
    if field in facts then Some(facts[field]) else None
  }

  /** A stated fact hides the default, even one of the wrong kind. */
  function LookupOr(facts: Patch, defaults: Patch, field: ConstraintField): Option<Fact> {
    if field in facts then Some(facts[field]) else Lookup(defaults, field)
  }

  predicate IsDate(f: Option<Fact>) { f.Some? && f.value.DateFact? }

  predicate Satisfied(input: Input, facts: Patch, defaults: Patch) {
    if input.id == DATE_RANGE then IsDate(Lookup(facts, FromDate)) && IsDate(Lookup(facts, ToDate))
    else if input.id == LIMIT then
      var mode, value := LookupOr(facts, defaults, LimitMode), LookupOr(facts, defaults, LimitValue);
      mode.Some? && mode.value.LimitFact? && mode.value.mode in {TopN, Limit} && value.Some? && value.value.IntegerFact?
    else input.id == SEARCH && Lookup(facts, PersonName).Some? && facts[PersonName].PersonFact?
  }

  function Min(a: nat, b: nat): nat { if a < b then a else b }

  function DateOf(facts: Patch, field: ConstraintField): Option<string> {
    if IsDate(Lookup(facts, field)) then Some(facts[field].date) else None
  }

  function FieldFor(input: Input, facts: Patch, r: Report): Field {
    var v := input.validation;
    Field(input.id, input.caption, input.kind, input.required,
          if input.id == DATE_RANGE then Some((DateOf(facts, FromDate), DateOf(facts, ToDate))) else None, None,
          if input.id == DATE_RANGE && r.maxRangeDays.Some?
          then v.(maxRangeDays := Some(match v.maxRangeDays
                                       case None => r.maxRangeDays.value
                                       case Some(current) => Min(current, r.maxRangeDays.value)))
          else v)
  }

  function Missing(inputs: seq<Input>, facts: Patch, defaults: Patch, r: Report): seq<Field> {
    if inputs == [] then []
    else
      var before, last := Missing(inputs[..|inputs| - 1], facts, defaults, r), inputs[|inputs| - 1];
      if Satisfied(last, facts, defaults) then before else before + [FieldFor(last, facts, r)]
  }

  function CandidateFor(r: Report, inputs: seq<Input>, facts: Patch): Candidate {
    var required := RequiredInputs(r.parameters, inputs);
    var defaults := LimitDefault(r, required);
    Candidate(r.id, Missing(required, facts, defaults, r), defaults)
  }

  function CandidatesFor(reports: seq<Report>, inputs: seq<Input>, facts: Patch): (r: seq<Candidate>)
    ensures |r| == |reports| && forall i | 0 <= i < |r| :: r[i] == CandidateFor(reports[i], inputs, facts)
  {
    if reports == [] then []
    else CandidatesFor(reports[..|reports| - 1], inputs, facts) + [CandidateFor(reports[|reports| - 1], inputs, facts)]
  }

  ghost predicate DistinctKeys(fields: seq<Field>) {
    forall i, j | 0 <= i < j < |fields| :: fields[i].key != fields[j].key
  }

  ghost predicate HasKey(fields: seq<Field>, key: Key) {
    exists f :: f in fields && f.key == key
  }

  lemma {:induction false} MissingExact(inputs: seq<Input>, facts: Patch, defaults: Patch, r: Report)
    requires DistinctInputs(inputs)
    ensures DistinctKeys(Missing(inputs, facts, defaults, r))
    ensures forall key :: HasKey(Missing(inputs, facts, defaults, r), key) <==>
              exists i :: i in inputs && i.id == key && !Satisfied(i, facts, defaults)
  {
    if inputs != [] {
      var init, last := inputs[..|inputs| - 1], inputs[|inputs| - 1];
      assert inputs == init + [last];
      MissingExact(init, facts, defaults, r);
      var before, after := Missing(init, facts, defaults, r), Missing(inputs, facts, defaults, r);
      forall key
        ensures HasKey(after, key) <==> HasKey(before, key) || (key == last.id && !Satisfied(last, facts, defaults))
      {
        if HasKey(before, key) {
          var f :| f in before && f.key == key;
          assert f in after;
        }
      }
      forall i, j | 0 <= i < j < |after| ensures after[i].key != after[j].key {
        if j == |before| { assert after[i] in before && HasKey(before, after[i].key); }
      }
    }
  }

  /**
   * Answering helps only for three inputs: for every other one there are no facts at all
   * that satisfy it, so it is asked for on every turn whatever the user has said.
   */
  lemma AnswerableIff(input: Input, defaults: Patch)
    ensures (exists facts: Patch :: Satisfied(input, facts, defaults)) <==>
            input.id == DATE_RANGE || input.id == LIMIT || input.id == SEARCH
  {
    KeysDiffer();
    if input.id == DATE_RANGE {
      assert Satisfied(input, map[FromDate := DateFact(""), ToDate := DateFact("")], defaults);
    } else if input.id == LIMIT {
      assert Satisfied(input, map[LimitMode := LimitFact(TopN), LimitValue := IntegerFact(1)], defaults);
    } else if input.id == SEARCH {
      assert Satisfied(input, map[PersonName := PersonFact("")], defaults);
    }
  }

  lemma KeysDiffer()
    ensures DATE_RANGE != LIMIT && DATE_RANGE != SEARCH && LIMIT != SEARCH
  {
    assert "date_range"[0] == 'd' && "limit"[0] == 'l' && "search"[0] == 's';
  }

  lemma {:induction false} FoundById(inputs: seq<Input>, id: Key)
    ensures FindById(inputs, id).Some? ==> FindById(inputs, id).value in inputs && FindById(inputs, id).value.id == id
  {
    if inputs != [] { FoundById(inputs[1..], id); }
  }

  lemma {:induction false} FindByIdIsFirst(inputs: seq<Input>, id: Key)
    ensures FirstOf(inputs, (i: Input) => i.id == id, FindById(inputs, id))
  {
    if inputs != [] {
      FindByIdIsFirst(inputs[1..], id);
      FirstOfNext(inputs, (i: Input) => i.id == id, FindById(inputs[1..], id));
    }
  }

  /**
   * A default is approved if and only if the report has one, needs the limit, and both the
   * report and the first input for it allow the value; it then says how many, and whether of
   * the top.
   */
  lemma ApprovedIff(r: Report, inputs: seq<Input>)
    ensures
      var approved := LimitDefault(r, inputs);
      if exists i :: FirstOf(inputs, (x: Input) => x.id.name == "limit", Some(i)) && WithinBounds(r, i) then
        && approved.Keys == {LimitMode, LimitValue} && approved[LimitValue] == IntegerFact(r.defaultLimit.value)
        && approved[LimitMode] ==
             LimitFact(if exists p :: p in r.parameters && p.name.name == "top_n" then TopN else Limit)
      else approved == map[]
  {
    var fits, found := (x: Input) => x.id.name == "limit", FindById(inputs, LIMIT);
    FindByIdIsFirst(inputs, LIMIT);
    assert forall x: Input :: x.id == LIMIT <==> x.id.name == "limit";
    assert FirstOf(inputs, fits, found);
    forall i | FirstOf(inputs, fits, Some(i)) ensures found == Some(i) {
      FirstIsDetermined(inputs, fits, found, Some(i));
    }
    assert TakesTopN(r) <==> exists p :: p in r.parameters && p.name.name == "top_n";
  }

  /**
   * A default limit is only approved within the bounds of the report and of the input, and
   * an approved one answers the limit question unless a stated fact hides it.
   */
  lemma ApprovedLimitAnswers(r: Report, inputs: seq<Input>, facts: Patch, input: Input)
    requires LimitDefault(r, inputs) != map[] && input.id == LIMIT
    ensures exists i :: i in inputs && i.id == LIMIT && WithinBounds(r, i)
    ensures LimitMode !in facts && LimitValue !in facts ==> Satisfied(input, facts, LimitDefault(r, inputs))
  {
    FoundById(inputs, LIMIT);
    KeysDiffer();
    assert WithinBounds(r, FindById(inputs, LIMIT).value);
  }

  predicate WithinBounds(r: Report, input: Input) {
    && r.defaultLimit.Some?
    && (match input.validation.minInteger case None => 1 case Some(least) => least) <= r.defaultLimit.value
    && (r.maxLimit.Some? ==> r.defaultLimit.value <= r.maxLimit.value)
    && (input.validation.maxInteger.Some? ==> r.defaultLimit.value <= input.validation.maxInteger.value)
  }

  /** The date range a user may enter respects both the input's bound and the report's. */
  lemma RangeBoundsRespected(input: Input, facts: Patch, r: Report, days: nat)
    requires input.id == DATE_RANGE
    ensures
      var allowed := FieldFor(input, facts, r).validation.maxRangeDays;
      (allowed.None? || days <= allowed.value) <==>
      (input.validation.maxRangeDays.None? || days <= input.validation.maxRangeDays.value) &&
      (r.maxRangeDays.None? || days <= r.maxRangeDays.value)
  {
  }

  /**
   * What a field shows: the caption, kind and need of its input, and for the date range the
   * days that are known already, so that one known end need not be entered again.
   */
  ghost predicate IsFieldOf(f: Field, i: Input, facts: Patch) {
    && f.key == i.id && f.caption == i.caption && f.kind == i.kind && f.required == i.required
    && f.defaultValue.None? && (f.value.Some? <==> i.id.name == "date_range")
    && (f.value.Some? ==>
          && (forall day :: f.value.value.0 == Some(day) <==> Lookup(facts, FromDate) == Some(DateFact(day)))
          && (forall day :: f.value.value.1 == Some(day) <==> Lookup(facts, ToDate) == Some(DateFact(day))))
  }

  lemma FieldIsOf(i: Input, facts: Patch, r: Report)
    ensures IsFieldOf(FieldFor(i, facts, r), i, facts)
  {
    assert i.id == Key(i.id.name);
  }

  lemma {:induction false} MissingAt(inputs: seq<Input>, facts: Patch, defaults: Patch, r: Report, p: nat)
      returns (i: nat)
    requires p < |Missing(inputs, facts, defaults, r)|
    ensures i < |inputs| && IsFieldOf(Missing(inputs, facts, defaults, r)[p], inputs[i], facts)
  {
    var init, last := inputs[..|inputs| - 1], inputs[|inputs| - 1];
    if p < |Missing(init, facts, defaults, r)| {
      i := MissingAt(init, facts, defaults, r, p);
    } else {
      i := |init|;
      FieldIsOf(last, facts, r);
    }
  }

  /** Missing inputs are shown in the order in which they were collected. */
  lemma {:induction false} MissingInOrder(inputs: seq<Input>, facts: Patch, defaults: Patch, r: Report, p: nat, q: nat)
      returns (i: nat, j: nat)
    requires p < q < |Missing(inputs, facts, defaults, r)|
    ensures i < j < |inputs|
    ensures IsFieldOf(Missing(inputs, facts, defaults, r)[p], inputs[i], facts)
    ensures IsFieldOf(Missing(inputs, facts, defaults, r)[q], inputs[j], facts)
  {
    var init, last := inputs[..|inputs| - 1], inputs[|inputs| - 1];
    if q < |Missing(init, facts, defaults, r)| {
      i, j := MissingInOrder(init, facts, defaults, r, p, q);
    } else {
      i := MissingAt(init, facts, defaults, r, p);
      j := |init|;
      FieldIsOf(last, facts, r);
    }
  }

  // ---------------------------------------------------------------- asking what is common

  /** The part of a field that decides whether two questions are the same. */
  datatype Question = Question(key: Key, kind: Key, required: bool, defaultValue: Option<string>,
                               validation: Validation)

  function QuestionOf(f: Field): Question {
    Question(f.key, f.kind, f.required, f.defaultValue, f.validation)
  }

  function Questions(fields: seq<Field>): (r: seq<Question>)
    ensures |r| == |fields| && forall i | 0 <= i < |fields| :: r[i] == QuestionOf(fields[i])
  {
    if fields == [] then [] else Questions(fields[..|fields| - 1]) + [QuestionOf(fields[|fields| - 1])]
  }

  predicate SameInput(a: Field, b: Field) {
    && a.key == b.key && a.kind == b.kind && a.required == b.required
    && a.defaultValue == b.defaultValue && a.validation == b.validation
  }

  predicate AsksLike(fields: seq<Field>, f: Field) {
    exists other :: other in fields && SameInput(f, other)
  }

  predicate AllAskLike(candidates: seq<Candidate>, f: Field) {
    forall c :: c in candidates ==> AsksLike(c.missing, f)
  }

  function Shared(fields: seq<Field>, candidates: seq<Candidate>): seq<Field> {
    if fields == [] then []
    else
      var before, last := Shared(fields[..|fields| - 1], candidates), fields[|fields| - 1];
      if AllAskLike(candidates, last) then before + [last] else before
  }

  function CommonFields(candidates: seq<Candidate>): seq<Field> {
    if candidates == [] then [] else Shared(candidates[0].missing, candidates)
  }

  function Own(fields: seq<Field>, common: seq<Field>): seq<Field> {
    if fields == [] then []
    else
      var before, last := Own(fields[..|fields| - 1], common), fields[|fields| - 1];
      if AsksLike(common, last) then before else before + [last]
  }

  function CommonDefaults(candidates: seq<Candidate>): Patch {
    if candidates == [] then map[]
    else
      map field | field in candidates[0].defaults
                  && (forall c :: c in candidates ==> Lookup(c.defaults, field) == Some(candidates[0].defaults[field]))
                :: candidates[0].defaults[field]
  }

  datatype Choice = Choice(id: Key, fields: seq<Field>)

  datatype Plan =
    | Complete(report: Key, approved: Patch)
    | CollectFields(fields: seq<Field>, approved: Patch)
    | SelectOption(choices: seq<Choice>, fields: seq<Field>, approved: Patch)

  function Choices(candidates: seq<Candidate>, common: seq<Field>): (r: seq<Choice>)
    ensures |r| == |candidates|
    ensures forall i | 0 <= i < |r| :: r[i] == Choice(candidates[i].id, Own(candidates[i].missing, common))
  {
    if candidates == [] then []
    else Choices(candidates[..|candidates| - 1], common)
         + [Choice(candidates[|candidates| - 1].id, Own(candidates[|candidates| - 1].missing, common))]
  }

  function PlanFor(candidates: seq<Candidate>): Plan {
    if |candidates| == 1 && candidates[0].missing == [] then Plan.Complete(candidates[0].id, CommonDefaults(candidates))
    else if |candidates| == 1 then CollectFields(candidates[0].missing, CommonDefaults(candidates))
    else SelectOption(Choices(candidates, CommonFields(candidates)) + [Choice(OTHER, [])], CommonFields(candidates),
                      CommonDefaults(candidates))
  }

  // ---------------------------------------------------------------- nothing lost, nothing twice

  lemma AsksIffListed(fields: seq<Field>, f: Field)
    ensures AsksLike(fields, f) <==> QuestionOf(f) in Questions(fields)
  {
    if other :| other in fields && SameInput(f, other) {
      var i :| 0 <= i < |fields| && fields[i] == other;
      assert Questions(fields)[i] == QuestionOf(f);
    }
    if QuestionOf(f) in Questions(fields) {
      var i :| 0 <= i < |fields| && Questions(fields)[i] == QuestionOf(f);
      assert fields[i] in fields && SameInput(f, fields[i]);
    }
  }

  lemma {:induction false} SharedExact(fields: seq<Field>, candidates: seq<Candidate>)
    ensures forall f :: f in Shared(fields, candidates) <==> f in fields && AllAskLike(candidates, f)
    ensures DistinctKeys(fields) ==> DistinctKeys(Shared(fields, candidates))
  {
    if fields != [] {
      var init, last := fields[..|fields| - 1], fields[|fields| - 1];
      assert fields == init + [last];
      SharedExact(init, candidates);
      if DistinctKeys(fields) {
        assert DistinctKeys(init);
        forall f | f in init ensures f.key != last.key {
          var i :| 0 <= i < |init| && init[i] == f;
          assert fields[i] == f;
        }
      }
    }
  }

  ghost predicate AskedByAll(candidates: seq<Candidate>, q: Question) {
    forall c :: c in candidates ==> q in Questions(c.missing)
  }

  lemma AllAskLikeIffAsked(candidates: seq<Candidate>, f: Field)
    ensures AllAskLike(candidates, f) <==> AskedByAll(candidates, QuestionOf(f))
  {
    forall c | c in candidates ensures AsksLike(c.missing, f) <==> QuestionOf(f) in Questions(c.missing) {
      AsksIffListed(c.missing, f);
    }
  }

  lemma QuestionHasField(fields: seq<Field>, q: Question)
    ensures q in Questions(fields) <==> exists f :: f in fields && QuestionOf(f) == q
  {
  }

  /** A question is lifted exactly when every candidate asks it. */
  lemma LiftedIffAskedByAll(candidates: seq<Candidate>, q: Question)
    requires candidates != []
    ensures q in Questions(CommonFields(candidates)) <==> AskedByAll(candidates, q)
  {
    var missing, common := candidates[0].missing, CommonFields(candidates);
    assert candidates[0] in candidates;
    SharedExact(missing, candidates);
    QuestionHasField(common, q);
    QuestionHasField(missing, q);
    if f :| f in missing && QuestionOf(f) == q { AllAskLikeIffAsked(candidates, f); }
    if f :| f in common && QuestionOf(f) == q { AllAskLikeIffAsked(candidates, f); }
  }

  ghost predicate Distinct<T>(s: seq<T>) {
    forall i, j | 0 <= i < j < |s| :: s[i] != s[j]
  }

  lemma {:induction false} DistinctCounts<T>(s: seq<T>, x: T)
    requires Distinct(s)
    ensures multiset(s)[x] == if x in s then 1 else 0
  {
    if s != [] {
      var init, last := s[..|s| - 1], s[|s| - 1];
      assert s == init + [last];
      DistinctCounts(init, x);
    }
  }

  lemma {:induction false} OwnCounts(fields: seq<Field>, common: seq<Field>, q: Question)
    ensures multiset(Questions(Own(fields, common)))[q] ==
            if q in Questions(common) then 0 else multiset(Questions(fields))[q]
  {
    if fields != [] {
      var init, last := fields[..|fields| - 1], fields[|fields| - 1];
      OwnCounts(init, common, q);
      AsksIffListed(common, last);
      assert Questions(fields) == Questions(init) + [QuestionOf(last)];
      assert Own(fields, common) != Own(init, common) ==>
          Questions(Own(fields, common)) == Questions(Own(init, common)) + [QuestionOf(last)];
    }
  }

  /**
   * A list of distinct questions that contains the common ones is exactly the common ones
   * and its own, each once.
   */
  lemma SplitsExactly(fields: seq<Field>, common: seq<Field>)
    requires DistinctKeys(fields) && DistinctKeys(common)
    requires forall q :: q in Questions(common) ==> q in Questions(fields)
    ensures multiset(Questions(fields)) == multiset(Questions(common)) + multiset(Questions(Own(fields, common)))
  {
    forall q
      ensures multiset(Questions(fields))[q]
              == (multiset(Questions(common)) + multiset(Questions(Own(fields, common))))[q]
    {
      OwnCounts(fields, common, q);
      DistinctCounts(Questions(fields), q);
      DistinctCounts(Questions(common), q);
    }
  }

  ghost predicate WellMade(candidates: seq<Candidate>) {
    forall c :: c in candidates ==> DistinctKeys(c.missing)
  }

  /** Candidates made from reports never ask for the same key twice. */
  lemma CandidatesAreWellMade(reports: seq<Report>, inputs: seq<Input>, facts: Patch)
    ensures WellMade(CandidatesFor(reports, inputs, facts))
  {
    forall r | r in reports ensures DistinctKeys(CandidateFor(r, inputs, facts).missing) {
      var required := RequiredInputs(r.parameters, inputs);
      RequiredInputsExact(r.parameters, inputs);
      MissingExact(required, facts, LimitDefault(r, required), r);
    }
  }

  /**
   * Whichever report the user picks, the shared questions and the questions of its option
   * are together exactly what that report still misses: none lost, none asked twice.
   */
  lemma LiftingLosesNothing(candidates: seq<Candidate>, i: nat)
    requires WellMade(candidates) && |candidates| != 1 && i < |candidates|
    ensures PlanFor(candidates).SelectOption? && PlanFor(candidates).choices[i].id == candidates[i].id
    ensures multiset(Questions(candidates[i].missing)) ==
            multiset(Questions(PlanFor(candidates).fields)) + multiset(Questions(PlanFor(candidates).choices[i].fields))
  {
    var common := CommonFields(candidates);
    assert candidates[i] in candidates && candidates[0] in candidates;
    SharedExact(candidates[0].missing, candidates);
    forall q | q in Questions(common) ensures q in Questions(candidates[i].missing) {
      LiftedIffAskedByAll(candidates, q);
    }
    SplitsExactly(candidates[i].missing, common);
    assert PlanFor(candidates).choices[i] == Choices(candidates, common)[i];
  }

  lemma {:induction false} OwnIsPart(fields: seq<Field>, common: seq<Field>, f: Field)
    ensures f in Own(fields, common) <==> f in fields && !AsksLike(common, f)
  {
    if fields != [] {
      var init, last := fields[..|fields| - 1], fields[|fields| - 1];
      assert fields == init + [last];
      OwnIsPart(init, common, f);
    }
  }

  /** No key is asked both in common and by an option, not even with other constraints. */
  lemma KeysAskedOnce(candidates: seq<Candidate>, i: nat, f: Field, g: Field)
    requires WellMade(candidates) && |candidates| != 1 && i < |candidates|
    requires f in PlanFor(candidates).fields && g in PlanFor(candidates).choices[i].fields
    ensures f.key != g.key
  {
    var common, missing := CommonFields(candidates), candidates[i].missing;
    assert PlanFor(candidates).choices[i] == Choices(candidates, common)[i] && candidates[i] in candidates;
    SharedExact(candidates[0].missing, candidates);
    OwnIsPart(missing, common, g);
    var other :| other in missing && SameInput(f, other);
    var a :| 0 <= a < |missing| && missing[a] == other;
    var b :| 0 <= b < |missing| && missing[b] == g;
    assert f.key == g.key ==> a == b;
  }

  // ------------------------------------------------------------------------- defaults

  ghost predicate SubPatch(a: Patch, b: Patch) {
    forall field :: field in a ==> field in b && b[field] == a[field]
  }

  /** The approved defaults are the largest patch that every candidate's defaults contain. */
  lemma DefaultsAreLargestCommon(candidates: seq<Candidate>, p: Patch)
    requires candidates != []
    ensures SubPatch(p, CommonDefaults(candidates)) <==> forall c :: c in candidates ==> SubPatch(p, c.defaults)
  {
  }

  ghost predicate AllSatisfied(inputs: seq<Input>, facts: Patch, defaults: Patch) {
    forall i :: i in inputs ==> Satisfied(i, facts, defaults)
  }

  lemma {:induction false} NothingMissing(inputs: seq<Input>, facts: Patch, defaults: Patch, r: Report)
    ensures Missing(inputs, facts, defaults, r) == [] <==> AllSatisfied(inputs, facts, defaults)
  {
    if inputs != [] {
      var init, last := inputs[..|inputs| - 1], inputs[|inputs| - 1];
      assert inputs == init + [last];
      NothingMissing(init, facts, defaults, r);
      assert AllSatisfied(inputs, facts, defaults) <==>
          AllSatisfied(init, facts, defaults) && Satisfied(last, facts, defaults);
    }
  }

  /** A single report needs no question exactly when every input it needs is satisfied. */
  lemma CompleteIffSatisfied(r: Report, inputs: seq<Input>, facts: Patch)
    ensures
      var required := RequiredInputs(r.parameters, inputs);
      PlanFor([CandidateFor(r, inputs, facts)]).Complete? <==> AllSatisfied(required, facts, LimitDefault(r, required))
  {
    var required := RequiredInputs(r.parameters, inputs);
    NothingMissing(required, facts, LimitDefault(r, required), r);
  }

  // ---------------------------------------------------------------------------- the plan

  /** What the facts and the approved default must say for an input of this id not to be asked for. */
  ghost predicate Answered(id: Key, facts: Patch, defaults: Patch) {
    || (id.name == "date_range" && exists a, b ::
          Lookup(facts, FromDate) == Some(DateFact(a)) && Lookup(facts, ToDate) == Some(DateFact(b)))
    || (id.name == "limit" && exists mode, n | mode in {TopN, Limit} ::
          Stands(facts, defaults, LimitMode, LimitFact(mode)) && Stands(facts, defaults, LimitValue, IntegerFact(n)))
    || (id.name == "search" && exists who :: Lookup(facts, PersonName) == Some(PersonFact(who)))
  }

  /** The field is stated to be this, or not stated at all and by default this. */
  predicate Stands(facts: Patch, defaults: Patch, field: ConstraintField, f: Fact) {
    if field in facts then facts[field] == f else field in defaults && defaults[field] == f
  }

  lemma SatisfiedIffAnswered(input: Input, facts: Patch, defaults: Patch)
    ensures Satisfied(input, facts, defaults) <==> Answered(input.id, facts, defaults)
  {
    KeysDiffer();
    assert forall k: Key :: k == Key(k.name);
    if Satisfied(input, facts, defaults) && input.id == LIMIT {
      var mode, value := LookupOr(facts, defaults, LimitMode), LookupOr(facts, defaults, LimitValue);
      assert Stands(facts, defaults, LimitMode, LimitFact(mode.value.mode))
          && Stands(facts, defaults, LimitValue, IntegerFact(value.value.value));
    }
  }

  /** A report asks for exactly the inputs that it needs and that have no answer, each once. */
  lemma AskedIff(r: Report, inputs: seq<Input>, facts: Patch, key: Key)
    ensures
      var c := CandidateFor(r, inputs, facts);
      && DistinctKeys(c.missing)
      && (HasKey(c.missing, key) <==> Needs(r.parameters, inputs, key) && !Answered(key, facts, c.defaults))
  {
    var required := RequiredInputs(r.parameters, inputs);
    RequiredInputsExact(r.parameters, inputs);
    MissingExact(required, facts, LimitDefault(r, required), r);
    forall i | i in required { SatisfiedIffAnswered(i, facts, LimitDefault(r, required)); }
  }

  /** One candidate: nothing is chosen, and exactly what it misses is asked for. */
  lemma PlanOfOne(c: Candidate)
    ensures c.missing == [] ==> PlanFor([c]) == Plan.Complete(c.id, c.defaults)
    ensures c.missing != [] ==> PlanFor([c]) == CollectFields(c.missing, c.defaults)
  {
    assert CommonDefaults([c]) == c.defaults;
  }

  /**
   * A single report completes without a question if every input it needs has an answer, and
   * is otherwise asked exactly for those that have none, each once.
   */
  lemma PlanOfReport(r: Report, inputs: seq<Input>, facts: Patch)
    ensures
      var c := CandidateFor(r, inputs, facts);
      var plan := PlanFor([c]);
      var open := (key: Key) => Needs(r.parameters, inputs, key) && !Answered(key, facts, c.defaults);
      if forall key :: !open(key) then plan == Plan.Complete(r.id, c.defaults)
      else
        && plan.CollectFields? && DistinctKeys(plan.fields) && plan.approved == c.defaults
        && forall key :: HasKey(plan.fields, key) <==> open(key)
  {
    var c := CandidateFor(r, inputs, facts);
    PlanOfOne(c);
    forall key
      ensures DistinctKeys(c.missing)
      ensures HasKey(c.missing, key) <==> Needs(r.parameters, inputs, key) && !Answered(key, facts, c.defaults)
    {
      AskedIff(r, inputs, facts, key);
    }
    var open := (key: Key) => Needs(r.parameters, inputs, key) && !Answered(key, facts, c.defaults);
    if c.missing != [] {
      assert HasKey(c.missing, c.missing[0].key);
      assert open(c.missing[0].key);
    } else {
      forall key ensures !open(key) {
        assert !HasKey(c.missing, key);
      }
    }
  }

  /** Whatever is planned, the approved patch is the largest that the defaults of all candidates contain. */
  lemma ApprovesLargestCommon(candidates: seq<Candidate>, p: Patch)
    requires candidates != []
    ensures SubPatch(p, PlanFor(candidates).approved) <==> forall c :: c in candidates ==> SubPatch(p, c.defaults)
  {
    DefaultsAreLargestCommon(candidates, p);
  }

  /**
   * Any other number of candidates, none included, is a choice: one option for each in their
   * order, and last one further option without fields for something else.
   */
  lemma PlanOfMany(candidates: seq<Candidate>, f: Field)
    requires |candidates| != 1
    ensures
      var plan := PlanFor(candidates);
      && plan.SelectOption? && |plan.choices| == |candidates| + 1
      && (forall i | 0 <= i < |candidates| :: plan.choices[i].id == candidates[i].id)
      && plan.choices[|candidates|] == Choice(Key("others"), [])
      && (candidates == [] ==> plan.fields == [] && plan.approved == map[])
      && (candidates != [] && f in plan.fields ==> f in candidates[0].missing)
      && (forall i | 0 <= i < |candidates| && f in plan.choices[i].fields :: f in candidates[i].missing)
  {
    if candidates != [] { SharedExact(candidates[0].missing, candidates); }
    forall i | 0 <= i < |candidates| { OwnIsPart(candidates[i].missing, CommonFields(candidates), f); }
  }
}
