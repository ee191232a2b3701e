/**
 * The Course model's field rules: `title` and `description` must be non-null and
 * non-empty, each rule with its own message; `estimatedTime` and
 * `materialsNeeded` may be null; the `userId` foreign key may not be null.
 * The ORM reports the violations of one validation in a fixed order: first every
 * not-null violation, in attribute order, then every not-empty violation.
 */
module CourseModel {
  import opened Wrappers
  import opened OrmErrors
  import opened UserModel

  /** The attributes of a course row, in the order the model declares them. */
  datatype Attr = Title | Description | EstimatedTime | MaterialsNeeded | UserId

  const AllAttrs: set<Attr> := {Title, Description, EstimatedTime, MaterialsNeeded, UserId}

  /** The attribute name an error item's `path` carries. */
  function Name(a: Attr): string {
    match a
    case Title => "title"
    case Description => "description"
    case EstimatedTime => "estimatedTime"
    case MaterialsNeeded => "materialsNeeded"
    case UserId => "userId"
  }

  /** A course row's attribute values (`None` is NULL); its primary key is the key it is stored under. */
  datatype Course = Course(
    title: Option<string>,
    description: Option<string>,
    estimatedTime: Option<string>,
    materialsNeeded: Option<string>,
    userId: Option<nat>)

  /** The body of a create or update request, member by member. */
  datatype CourseBody = CourseBody(
    title: Field<string>,
    description: Field<string>,
    estimatedTime: Field<string>,
    materialsNeeded: Field<string>,
    userId: Field<nat>)

  const TitleRequired: string := "A title is required"
  const TitleEmpty: string := "Please provide a course name"
  const DescriptionRequired: string := "A description is require is require"
  const DescriptionEmpty: string := "please provide a last name"
  /** `userId` declares no message of its own, so the ORM's default not-null message is used. */
  const UserIdRequired: string := "Course.userId cannot be null"

  /** The characters `\s` matches in a JavaScript regular expression. */
  predicate IsSpace(ch: char) {
    || ch == ' ' || ch == '\t' || ch == '\n' || ch == '\r'
    || ch == '\U{000B}' || ch == '\U{000C}' || ch == '\U{00A0}' || ch == '\U{1680}'
    || ('\U{2000}' <= ch <= '\U{200A}')
    || ch == '\U{2028}' || ch == '\U{2029}' || ch == '\U{202F}' || ch == '\U{205F}'
    || ch == '\U{3000}' || ch == '\U{FEFF}'
  }

  /** The strings the ORM's `notEmpty` rule refuses: those made of white space only, "" among them. */
  predicate IsBlank(s: string) {
    forall i :: 0 <= i < |s| ==> IsSpace(s[i])
  }

  /** What the field rules demand of a row, rule by rule. */
  predicate IsValid(c: Course) {
    && c.title.Some? && !IsBlank(c.title.value)
    && c.description.Some? && !IsBlank(c.description.value)
    && c.userId.Some?
  }

  /** The rules the model declares, in the order a validation reports them. */
  datatype Rule = TitleNotNull | DescriptionNotNull | UserIdNotNull | TitleNotEmpty | DescriptionNotEmpty

  /** The attribute a rule is about. */
  function AttrOf(rule: Rule): Attr {
    match rule
    case TitleNotNull => Title
    case TitleNotEmpty => Title
    case DescriptionNotNull => Description
    case DescriptionNotEmpty => Description
    case UserIdNotNull => UserId
  }

  predicate IsNullRule(rule: Rule) {
    rule.TitleNotNull? || rule.DescriptionNotNull? || rule.UserIdNotNull?
  }

  /** A rule's place in the reporting order. */
  function Rank(rule: Rule): nat {
    match rule
    case TitleNotNull => 0
    case DescriptionNotNull => 1
    case UserIdNotNull => 2
    case TitleNotEmpty => 3
    case DescriptionNotEmpty => 4
  }

  /** Rules listed in strictly increasing reporting order. */
  predicate Ascending(r: seq<Rule>) {
    forall i, j :: 0 <= i < j < |r| ==> Rank(r[i]) < Rank(r[j])
  }

  /** The message the client is shown for a violated rule. */
  function RuleMessage(rule: Rule): string {
    match rule
    case TitleNotNull => TitleRequired
    case TitleNotEmpty => TitleEmpty
    case DescriptionNotNull => DescriptionRequired
    case DescriptionNotEmpty => DescriptionEmpty
    case UserIdNotNull => UserIdRequired
  }

  /** Whether `c` violates `rule`; the not-empty rules apply to non-null values only. */
  predicate Violated(c: Course, rule: Rule) {
    match rule
    case TitleNotNull => c.title.None?
    case TitleNotEmpty => c.title.Some? && IsBlank(c.title.value)
    case DescriptionNotNull => c.description.None?
    case DescriptionNotEmpty => c.description.Some? && IsBlank(c.description.value)
    case UserIdNotNull => c.userId.None?
  }

  /**
   * Every rule, in the order a validation reports violations: the not-null
   * checks of all attributes come first, then the not-empty checks.
   */
  const Rules: seq<Rule> := [TitleNotNull, DescriptionNotNull, UserIdNotNull, TitleNotEmpty, DescriptionNotEmpty]

  /** Putting the head of an ascending list before ascending rules drawn from its tail keeps the order. */
  lemma AscendingCons(rules: seq<Rule>, rest: seq<Rule>)
    requires rules != []
    requires Ascending(rules) ==> Ascending(rest)
    requires forall rule :: rule in rest ==> rule in rules[1..]
    ensures Ascending(rules) ==> Ascending([rules[0]] + rest)
  {
    if Ascending(rules) {
      forall y | y in rest ensures Rank(rules[0]) < Rank(y) {
        var k :| 0 <= k < |rules[1..]| && rules[1..][k] == y;
        assert rules[k + 1] == y;
      }
      var s := [rules[0]] + rest;
      forall i, j | 0 <= i < j < |s| ensures Rank(s[i]) < Rank(s[j]) {
        if i == 0 {
          assert s[j] in rest;
        } else {
          assert s[i] == rest[i - 1] && s[j] == rest[j - 1];
        }
      }
    }
  }

  /** The rule table is complete: it lists every rule, each about an attribute of the model. */
  lemma RuleListed(rule: Rule)
    ensures rule in Rules && AttrOf(rule) in AllAttrs
  {
    match rule
    case TitleNotNull => assert Rules[0] == rule;
    case DescriptionNotNull => assert Rules[1] == rule;
    case UserIdNotNull => assert Rules[2] == rule;
    case TitleNotEmpty => assert Rules[3] == rule;
    case DescriptionNotEmpty => assert Rules[4] == rule;
  }

  /** Two validations over the same rules report the same list when they agree on every rule. */
  lemma {:induction false} SameViolations(c1: Course, f1: set<Attr>, c2: Course, f2: set<Attr>, rules: seq<Rule>)
    requires forall rule :: rule in rules ==>
      (AttrOf(rule) in f1 && Violated(c1, rule)) == (AttrOf(rule) in f2 && Violated(c2, rule))
    ensures Violations(c1, rules, f1) == Violations(c2, rules, f2)
  {
    if rules != [] {
      assert forall rule :: rule in rules[1..] ==> rule in rules;
      SameViolations(c1, f1, c2, f2, rules[1..]);
    }
  }

  /** The rules of `rules` about an attribute in `fields` that `c` violates, in the order of `rules`. */
  function Violations(c: Course, rules: seq<Rule>, fields: set<Attr>): (r: seq<Rule>)
    ensures forall rule :: rule in r <==> rule in rules && AttrOf(rule) in fields && Violated(c, rule)
    ensures Ascending(rules) ==> Ascending(r)
  {
    if rules == [] then []
    else
      var rest := Violations(c, rules[1..], fields);
      if AttrOf(rules[0]) in fields && Violated(c, rules[0]) then
        AscendingCons(rules, rest);
        [rules[0]] + rest
      else
        assert Ascending(rules) ==> Ascending(rules[1..]);
        rest
  }

  /** The rules a validation restricted to `fields` finds violated, in the order it reports them. */
  function Check(c: Course, fields: set<Attr>): seq<Rule> {
    Violations(c, Rules, fields)
  }

  /** The rules a full validation, as run when a row is created, finds violated. */
  function Validate(c: Course): (r: seq<Rule>)
    ensures r == [] <==> IsValid(c)
    ensures forall rule :: rule in r <==> Violated(c, rule)
    ensures Ascending(r)
  {
    assert Ascending(Rules);
    assert forall rule :: rule in Rules && AttrOf(rule) in AllAttrs by {
      forall rule ensures rule in Rules && AttrOf(rule) in AllAttrs {
        RuleListed(rule);
      }
    }
    var r := Check(c, AllAttrs);
    assert r != [] ==> !IsValid(c) by {
      if r != [] {
        assert r[0] in r;
        ViolatedMeansInvalid(c, r[0]);
      }
    }
    assert !IsValid(c) ==> r != [] by {
      if !IsValid(c) {
        var rule :=
          if c.title.None? then TitleNotNull
          else if IsBlank(c.title.value) then TitleNotEmpty
          else if c.description.None? then DescriptionNotNull
          else if IsBlank(c.description.value) then DescriptionNotEmpty
          else UserIdNotNull;
        assert Violated(c, rule);
        assert rule in r;
      }
    }
    r
  }

  /** A row that violates any one rule is invalid. */
  lemma ViolatedMeansInvalid(c: Course, rule: Rule)
    requires Violated(c, rule)
    ensures !IsValid(c)
  {
    match rule
    case TitleNotNull =>
    case TitleNotEmpty =>
    case DescriptionNotNull =>
    case DescriptionNotEmpty =>
    case UserIdNotNull =>
  }

  /** The ORM's error item for a violated rule. */
  function Item(rule: Rule): ErrorItem {
    ErrorItem(RuleMessage(rule), Name(AttrOf(rule)))
  }

  /** The `errors` list of the validation error that reports `rules`. */
  function Items(rules: seq<Rule>): (r: seq<ErrorItem>)
    ensures |r| == |rules|
    ensures forall i :: 0 <= i < |rules| ==> r[i] == Item(rules[i])
  {
    if rules == [] then [] else [Item(rules[0])] + Items(rules[1..])
  }

  /** Distinct rules have distinct messages, so a message list tells the client which rules failed. */
  lemma MessagesIdentifyRules(r1: Rule, r2: Rule)
    requires r1 != r2
    ensures RuleMessage(r1) != RuleMessage(r2)
  {
  }

  /** An error list carries a rule's item exactly when the rule is among those it reports. */
  lemma ItemListed(rules: seq<Rule>, rule: Rule)
    ensures Item(rule) in Items(rules) <==> rule in rules
  {
    var items := Items(rules);
    if Item(rule) in items {
      var k :| 0 <= k < |items| && items[k] == Item(rule);
      ItemIdentifiesRule(rules[k], rule);
    }
    if rule in rules {
      var k :| 0 <= k < |rules| && rules[k] == rule;
      assert items[k] == Item(rule);
    }
  }

  /** A rule's item is among the items a validation of `c` reports exactly when `c` breaks the rule. */
  lemma ItemReported(c: Course, rule: Rule)
    ensures Item(rule) in Items(Validate(c)) <==> Violated(c, rule)
  {
    ItemListed(Validate(c), rule);
  }

  /**
   * The items a validation error carries for `c`, message by message: each
   * rule's message appears exactly when `c` breaks that rule.
   */
  lemma ReportedItems(c: Course)
    ensures ErrorItem(TitleRequired, "title") in Items(Validate(c)) <==> c.title.None?
    ensures ErrorItem(TitleEmpty, "title") in Items(Validate(c)) <==> c.title.Some? && IsBlank(c.title.value)
    ensures ErrorItem(DescriptionRequired, "description") in Items(Validate(c)) <==> c.description.None?
    ensures ErrorItem(DescriptionEmpty, "description") in Items(Validate(c))
        <==> c.description.Some? && IsBlank(c.description.value)
    ensures ErrorItem(UserIdRequired, "userId") in Items(Validate(c)) <==> c.userId.None?
  {
    ItemReported(c, TitleNotNull);
    ItemReported(c, TitleNotEmpty);
    ItemReported(c, DescriptionNotNull);
    ItemReported(c, DescriptionNotEmpty);
    ItemReported(c, UserIdNotNull);
  }

  /** A validation never reports a rule about an optional attribute. */
  lemma NoRuleOnOptionalAttributes(c: Course)
    ensures forall rule :: rule in Validate(c) ==> AttrOf(rule) != EstimatedTime && AttrOf(rule) != MaterialsNeeded
  {
    forall rule | rule in Validate(c) ensures AttrOf(rule) != EstimatedTime && AttrOf(rule) != MaterialsNeeded {
      match rule
      case TitleNotNull =>
      case TitleNotEmpty =>
      case DescriptionNotNull =>
      case DescriptionNotEmpty =>
      case UserIdNotNull =>
    }
  }

  /** Distinct rules give distinct items. */
  lemma ItemIdentifiesRule(r1: Rule, r2: Rule)
    requires Item(r1) == Item(r2)
    ensures r1 == r2
  {
    if r1 != r2 {
      MessagesIdentifyRules(r1, r2);
    }
  }

  /** Writes a body member over a row's value: an absent member keeps it, null clears it. */
  function Assign<T>(current: Option<T>, f: Field<T>): (r: Option<T>)
    ensures f.Absent? ==> r == current
    ensures f.Null? ==> r.None?
    ensures f.Given? ==> r == Some(f.value)
  {
    match f
    case Absent => current
    case Null => None
    case Given(v) => Some(v)
  }

  /** The row after `course.set(body)`. */
  function Apply(c: Course, b: CourseBody): Course {
    Course(
      Assign(c.title, b.title),
      Assign(c.description, b.description),
      Assign(c.estimatedTime, b.estimatedTime),
      Assign(c.materialsNeeded, b.materialsNeeded),
      Assign(c.userId, b.userId))
  }

  /** A row with every attribute NULL, as a fresh instance starts. */
  const Unset: Course := Course(None, None, None, None, None)

  /** The row `Course.create(body)` tries to insert: absent and null members both give NULL. */
  function Build(b: CourseBody): Course {
    Apply(Unset, b)
  }

  /** The attributes `course.update(body)` changes, the only ones it validates. */
  function Changed(c: Course, b: CourseBody): (r: set<Attr>)
    ensures Title in r <==> Apply(c, b).title != c.title
    ensures Description in r <==> Apply(c, b).description != c.description
    ensures EstimatedTime in r <==> Apply(c, b).estimatedTime != c.estimatedTime
    ensures MaterialsNeeded in r <==> Apply(c, b).materialsNeeded != c.materialsNeeded
    ensures UserId in r <==> Apply(c, b).userId != c.userId
  {
    var n := Apply(c, b);
    (if n.title != c.title then {Title} else {})
    + (if n.description != c.description then {Description} else {})
    + (if n.estimatedTime != c.estimatedTime then {EstimatedTime} else {})
    + (if n.materialsNeeded != c.materialsNeeded then {MaterialsNeeded} else {})
    + (if n.userId != c.userId then {UserId} else {})
  }

  /** No optional attribute can make a row invalid, whatever it holds. */
  lemma OptionalAttributesIgnored(c: Course, estimatedTime: Option<string>, materialsNeeded: Option<string>)
    ensures Validate(c.(estimatedTime := estimatedTime, materialsNeeded := materialsNeeded)) == Validate(c)
  {
    SameViolations(c.(estimatedTime := estimatedTime, materialsNeeded := materialsNeeded), AllAttrs, c, AllAttrs, Rules);
  }

  /**
   * A validation reports at most one message per attribute, and every not-null
   * violation before any not-empty one.
   */
  lemma ReportOrder(c: Course)
    ensures forall i, j :: 0 <= i < j < |Validate(c)| ==> AttrOf(Validate(c)[i]) != AttrOf(Validate(c)[j])
    ensures forall i, j :: 0 <= i < j < |Validate(c)| && IsNullRule(Validate(c)[j]) ==> IsNullRule(Validate(c)[i])
  {
    var r := Validate(c);
    forall i, j | 0 <= i < j < |r| ensures AttrOf(r[i]) != AttrOf(r[j]) {
      assert r[i] in r && r[j] in r;
    }
  }

  /**
   * An update of a valid row reports exactly the violations of the updated row:
   * validating only the changed attributes loses nothing.
   */
  lemma UpdateOfValidRow(c: Course, b: CourseBody)
    requires IsValid(c)
    ensures Check(Apply(c, b), Changed(c, b)) == Validate(Apply(c, b))
  {
    forall rule | rule in Rules
      ensures (AttrOf(rule) in Changed(c, b) && Violated(Apply(c, b), rule))
           == (AttrOf(rule) in AllAttrs && Violated(Apply(c, b), rule))
    {
      RuleListed(rule);
    }
    SameViolations(Apply(c, b), Changed(c, b), Apply(c, b), AllAttrs, Rules);
  }
}
