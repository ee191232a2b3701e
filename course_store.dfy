/**
 * The courses table behind the ORM: rows by primary key, created with the next
 * free key, validated before every write. Writes the database refuses for
 * reasons of its own (a foreign key, a lost connection) arrive as `fault`.
 */
module Persistence {
  import opened Wrappers
  import opened OrmErrors
  import opened CourseModel

  /** The table's contents and the key the next insert receives. */
  datatype Store = Store(courses: map<nat, Course>, nextId: nat)

  /** Every stored key was handed out before the next one. */
  predicate Valid(s: Store) {
    forall id :: id in s.courses ==> id < s.nextId
  }

  /** The validation error that reports `rules`. */
  function ValidationError(rules: seq<Rule>): DbError {
    DbError(ValidationErrorName, Items(rules))
  }

  /** What `Course.create` throws for row `c`, if anything: a validation error first, else the database's verdict. */
  function CreateError(c: Course, fault: Option<DbError>): (r: Option<DbError>)
    ensures !IsValid(c) ==> r == Some(ValidationError(Validate(c)))
    ensures IsValid(c) ==> r == fault
  {
    if Validate(c) != [] then Some(ValidationError(Validate(c))) else fault
  }

  /**
   * What `course.update(body)` throws for stored row `c`, if anything: the
   * violations of the attributes the body changes, else the database's verdict.
   */
  function UpdateError(c: Course, body: CourseBody, fault: Option<DbError>): (r: Option<DbError>)
    ensures IsValid(c) && !IsValid(Apply(c, body)) ==> r == Some(ValidationError(Validate(Apply(c, body))))
    ensures IsValid(Apply(c, body)) ==> r == fault
    ensures (exists rule :: AttrOf(rule) in Changed(c, body) && Violated(Apply(c, body), rule)) ==>
      && r.Some? && r.value.name == ValidationErrorName
      && forall rule :: Item(rule) in r.value.errors <==> AttrOf(rule) in Changed(c, body) && Violated(Apply(c, body), rule)
    ensures (exists rule :: AttrOf(rule) in Changed(c, body) && Violated(Apply(c, body), rule)) ==>
      r == Some(ValidationError(Check(Apply(c, body), Changed(c, body))))
    ensures (forall rule :: AttrOf(rule) in Changed(c, body) ==> !Violated(Apply(c, body), rule)) ==> r == fault
  {
    var n := Apply(c, body);
    var violations := Check(n, Changed(c, body));
    assert forall rule :: rule in violations <==> AttrOf(rule) in Changed(c, body) && Violated(n, rule) by {
      forall rule ensures rule in Rules {
        RuleListed(rule);
      }
    }
    assert forall rule :: Item(rule) in Items(violations) <==> rule in violations by {
      forall rule ensures Item(rule) in Items(violations) <==> rule in violations {
        ItemListed(violations, rule);
      }
    }
    assert violations == [] ==> forall rule :: AttrOf(rule) in Changed(c, body) ==> !Violated(n, rule);
    assert violations != [] ==> violations[0] in violations;
    assert IsValid(c) ==> violations == Validate(n) by {
      if IsValid(c) {
        UpdateOfValidRow(c, body);
      }
    }
    assert IsValid(n) ==> violations == [] by {
      if IsValid(n) && violations != [] {
        assert violations[0] in violations;
        ViolatedMeansInvalid(n, violations[0]);
      }
    }
    if violations != [] then Some(ValidationError(violations)) else fault
  }

  /** The courses table as a mutable object, the collaborator the course routes write through. */
  class CourseStore {
    var courses: map<nat, Course>
    var nextId: nat

    function State(): Store
      reads this
    {
      Store(courses, nextId)
    }

    constructor ()
      ensures State() == Store(map[], 0)
    {
      courses := map[];
      nextId := 0;
    }

    /** `Course.findByPk(id)`. */
    function FindByPk(id: nat): (r: Option<Course>)
      reads this
      ensures r.Some? <==> id in courses
      ensures r.Some? ==> r.value == courses[id]
    {
      Lookup(courses, id)
    }

    /** `Course.create(c)`: inserts under a fresh key unless validation or the database refuses. */
    method Create(c: Course, fault: Option<DbError>) returns (err: Option<DbError>, id: nat)
      requires Valid(State())
      modifies this
      ensures Valid(State())
      ensures err == CreateError(c, fault)
      ensures err.None? ==>
        && id == old(nextId) && id !in old(courses)
        && State() == Store(old(courses)[id := c], old(nextId) + 1)
      ensures err.Some? ==> State() == old(State())
    {
      err := CreateError(c, fault);
      id := nextId;
      if err.None? {
        courses := courses[id := c];
        nextId := nextId + 1;
      }
    }

    /** `course.update(body)` on the stored row `id`. */
    method Update(id: nat, body: CourseBody, fault: Option<DbError>) returns (err: Option<DbError>)
      requires Valid(State()) && id in courses
      modifies this
      ensures Valid(State())
      ensures err == UpdateError(old(courses)[id], body, fault)
      ensures err.None? ==> State() == Store(old(courses)[id := Apply(old(courses)[id], body)], old(nextId))
      ensures err.Some? ==> State() == old(State())
    {
      err := UpdateError(courses[id], body, fault);
      if err.None? {
        courses := courses[id := Apply(courses[id], body)];
      }
    }

    /** `course.destroy()` on the stored row `id`. */
    method Destroy(id: nat, fault: Option<DbError>) returns (err: Option<DbError>)
      requires Valid(State()) && id in courses
      modifies this
      ensures Valid(State())
      ensures err == fault
      ensures err.None? ==> State() == Store(old(courses) - {id}, old(nextId))
      ensures err.Some? ==> State() == old(State())
    {
      err := fault;
      if err.None? {
        courses := courses - {id};
      }
    }
  }
}
