/** `CourseController`: the validator, the GPA calculation and the in-memory
    course list with its request handlers. */
module Controller {
  import opened Api
  import opened Entities
  import opened JavaStrings
  import opened Streams

  /* ---------------------------------------------------------------- validation */

  /** The seven checks of `validateCourse`, in the order it makes them. */
  datatype Rule =
    | IdPresent | NamePresent | CreditPresent | CreditInRange
    | GradePresent | CoefficientPresent | NotePresent

  const Rules: seq<Rule> :=
    [IdPresent, NamePresent, CreditPresent, CreditInRange, GradePresent, CoefficientPresent, NotePresent]

  /** What each check demands of a course, read on its own. */
  predicate Holds(rule: Rule, c: Course) {
    match rule
    case IdPresent => c.id.Some?
    case NamePresent => c.name.Some? && !IsTrimmedEmpty(c.name.value)
    case CreditPresent => c.credit.Some?
    case CreditInRange => c.credit.Some? && 1 <= c.credit.value <= 4
    case GradePresent => c.grade.Some?
    case CoefficientPresent => c.grade.Some? && c.grade.value.coefficient.Some?
    case NotePresent => c.grade.Some? && c.grade.value.note.Some? && !IsTrimmedEmpty(c.grade.value.note.value)
  }

  /** The message each failed check reports. */
  function RuleMessage(rule: Rule): string {
    match rule
    case IdPresent => "Kurs id boş geçilemez."
    case NamePresent => "Kurs adı boş geçilemez."
    case CreditPresent => "Kurs kredisi belirtilmelidir."
    case CreditInRange => "Kurs kredisi 1 ile 4 arasında olmalıdır."
    case GradePresent => "Kurs grade bilgisi boş geçilemez."
    case CoefficientPresent => "Kurs grade katsayısı boş geçilemez."
    case NotePresent => "Kurs grade notu boş geçilemez."
  }

  function Broken(c: Course): Rule -> bool {
    rule => !Holds(rule, c)
  }

  /** A course every check accepts. */
  predicate IsValidCourse(c: Course) {
    c.id.Some? && c.name.Some? && !IsTrimmedEmpty(c.name.value) &&
    c.credit.Some? && 1 <= c.credit.value <= 4 &&
    c.grade.Some? && c.grade.value.coefficient.Some? &&
    c.grade.value.note.Some? && !IsTrimmedEmpty(c.grade.value.note.value)
  }

  function Reject(rule: Rule): Outcome {
    Fail(ApiError(RuleMessage(rule), BadRequest))
  }

  /** `validateCourse`: passes exactly the valid courses, and fails with 400 otherwise. */
  function ValidateCourse(c: Course): (r: Outcome)
    ensures r.Pass? <==> IsValidCourse(c)
    ensures r.Fail? ==> r.error.status == BadRequest
  {
    if c.id.None? then Reject(IdPresent)
    else if c.name.None? || IsTrimmedEmpty(c.name.value) then Reject(NamePresent)
    else if c.credit.None? then Reject(CreditPresent)
    else if c.credit.value < 1 || c.credit.value > 4 then Reject(CreditInRange)
    else if c.grade.None? then Reject(GradePresent)
    else if c.grade.value.coefficient.None? then Reject(CoefficientPresent)
    else if c.grade.value.note.None? || IsTrimmedEmpty(c.grade.value.note.value) then Reject(NotePresent)
    else Pass
  }

  /** A course that passes the checks before position `k` of `Rules` and
      breaks the one at `k` is rejected with that check's message. */
  lemma RejectedByFirstBrokenRule(c: Course, k: nat)
    requires k < |Rules| && !Holds(Rules[k], c)
    requires forall j :: 0 <= j < k ==> Holds(Rules[j], c)
    ensures ValidateCourse(c) == Reject(Rules[k])
  {
    assert Rules[0] == IdPresent && Rules[1] == NamePresent && Rules[2] == CreditPresent;
    assert Rules[3] == CreditInRange && Rules[4] == GradePresent;
    assert Rules[5] == CoefficientPresent && Rules[6] == NotePresent;
  }

  /** The first check in `Rules` that the course breaks decides the error;
      a course that breaks none passes. */
  lemma ValidateCourseFirstBrokenRule(c: Course)
    ensures ValidateCourse(c) == match FindFirst(Rules, Broken(c))
                                 case None => Pass
                                 case Some(i) => Reject(Rules[i])
  {
    var p := Broken(c);
    match FindFirst(Rules, p)
    case None =>
      assert forall j :: 0 <= j < |Rules| ==> Holds(Rules[j], c) by {
        forall j | 0 <= j < |Rules| ensures Holds(Rules[j], c) {
          assert !p(Rules[j]);
        }
      }
      assert Holds(Rules[1], c) && Holds(Rules[3], c) && Holds(Rules[5], c) && Holds(Rules[6], c);
    case Some(k) =>
      forall j | 0 <= j < k ensures Holds(Rules[j], c) {
        assert !p(Rules[j]);
      }
      RejectedByFirstBrokenRule(c, k);
  }

  /* ---------------------------------------------------------------- GPA */

  /** The scale constants of the three injected GPA beans (low, medium and
      high credit brackets); their values are configuration, not code. */
  datatype GpaScales = GpaScales(low: int, medium: int, high: int)

  const InvalidCredit := ApiError("Invalid credit value", BadRequest)

  /** `calculateTotalGpa`: credit up to 2 takes the low scale, 3..5 the medium
      one, 6..10 the high one, and anything above 10 is rejected; the result is
      `coefficient * credit * scale`. */
  function CalculateTotalGpa(c: Course, scales: GpaScales): (r: Result<real>)
    requires c.credit.Some? && c.grade.Some? && c.grade.value.coefficient.Some?
    ensures var credit, k := c.credit.value, c.grade.value.coefficient.value;
      && (credit <= 2 ==> r.Success? && r.value == k * credit as real * scales.low as real)
      && (3 <= credit <= 5 ==> r.Success? && r.value == k * credit as real * scales.medium as real)
      && (6 <= credit <= 10 ==> r.Success? && r.value == k * credit as real * scales.high as real)
      && (10 < credit ==> r == Failure(InvalidCredit))
  {
    var credit := c.credit.value;
    var gpa :=
      if credit <= 2 then Some(scales.low)
      else if credit <= 5 then Some(scales.medium)
      else if credit <= 10 then Some(scales.high)
      else None;
    match gpa
    case None => Failure(InvalidCredit)
    case Some(scale) => Success(c.grade.value.coefficient.value * credit as real * scale as real)
  }

  /** A course that passed validation has credit 1..4, so the GPA calculation
      never fails and only the low or medium scale is used. */
  lemma ValidatedCourseGpa(c: Course, scales: GpaScales)
    requires ValidateCourse(c).Pass?
    ensures CalculateTotalGpa(c, scales).Success?
    ensures CalculateTotalGpa(c, scales).value ==
      c.grade.value.coefficient.value * c.credit.value as real *
      (if c.credit.value <= 2 then scales.low else scales.medium) as real
  {
  }

  /* ---------------------------------------------------------------- the course list */

  /** The two blankness checks of `addCourse` differ: a course named by a single
      em space (U+2003) passes `validateCourse` but its name `isBlank`. */
  lemma NameBlankCheckReachable(id: int, credit: int, grade: Grade)
    requires 1 <= credit <= 4
    requires grade.coefficient.Some? && grade.note.Some? && !IsTrimmedEmpty(grade.note.value)
    ensures var c := Course(Some(id), Some("\U{2003}"), Some(credit), Some(grade));
      ValidateCourse(c).Pass? && IsBlank(c.name.value)
  {
    assert "\U{2003}"[0] > ' ' && IsWhitespace("\U{2003}"[0]);
  }

  datatype CourseResponse = CourseResponse(course: Course, totalGpa: real)

  const CourseNotDefined := ApiError("Course is not defined.", NotFound)
  const CourseNotFound := ApiError("Course bulunamadı.", NotFound)
  const NameBlank := ApiError("Course name is cannot be null or blank.", BadRequest)

  /** The filter of `getCourseByName`. */
  function NameIs(name: string): (matches: Course -> bool)
    ensures forall c: Course :: c.name == Some(name) ==> matches(c)
    ensures forall c: Course :: matches(c) ==> c.name.Some? && |c.name.value| == |name|
  {
    (c: Course) => c.name.Some? && EqualsIgnoreCase(c.name.value, name)
  }

  /** The filter of `updateCourse` and `deleteCourse`. */
  function IdIs(id: int): Course -> bool {
    (c: Course) => c.id == Some(id)
  }

  class CourseController {
    /** The `courses` list, in insertion order. */
    var courses: seq<Course>
    const scales: GpaScales

    /** Every stored course passed `validateCourse` when it was last written. */
    ghost predicate Valid()
      reads this
      ensures Valid() ==> forall i :: 0 <= i < |courses| ==> courses[i].id.Some? && courses[i].name.Some?
    {
      forall i :: 0 <= i < |courses| ==> IsValidCourse(courses[i])
    }

    constructor (scales: GpaScales)
      ensures Valid() && courses == [] && this.scales == scales
    {
      courses := [];
      this.scales := scales;
    }

    /** `getCourses`: the whole list, in insertion order. */
    method GetCourses() returns (r: seq<Course>)
      ensures r == courses
    {
      r := courses;
    }

    /** `getCourseByName`: the first course, in list order, whose name equals
        `name` ignoring case; 404 when there is none. */
    method GetCourseByName(name: string) returns (r: Result<Course>)
      requires Valid()
      ensures r.Failure? <==> forall j :: 0 <= j < |courses| ==> !EqualsIgnoreCase(courses[j].name.value, name)
      ensures r.Failure? ==> r.error == CourseNotDefined
      ensures r.Success? ==>
        (exists k :: 0 <= k < |courses| && r.value == courses[k] &&
          EqualsIgnoreCase(courses[k].name.value, name) &&
          (forall j :: 0 <= j < k ==> !EqualsIgnoreCase(courses[j].name.value, name)))
    {
      var matches := NameIs(name);
      assert forall j :: 0 <= j < |courses| ==> (matches(courses[j]) <==> EqualsIgnoreCase(courses[j].name.value, name));
      match FindFirst(courses, matches)
      case None =>
        r := Failure(CourseNotDefined);
      case Some(k) =>
        r := Success(courses[k]);
        assert EqualsIgnoreCase(courses[k].name.value, name);
    }

    /** `addCourse`: validate, reject a name that `isBlank`, then append the
        course and answer it with its GPA. */
    method AddCourse(course: Course) returns (r: Result<CourseResponse>)
      requires Valid()
      modifies this
      ensures Valid()
      ensures ValidateCourse(course).Fail? ==>
        r == Failure(ValidateCourse(course).error) && courses == old(courses)
      ensures IsValidCourse(course) && IsBlank(course.name.value) ==>
        r == Failure(NameBlank) && courses == old(courses)
      ensures IsValidCourse(course) && !IsBlank(course.name.value) ==>
        courses == old(courses) + [course] &&
        r == Success(CourseResponse(course, CalculateTotalGpa(course, scales).value)) &&
        r.value.totalGpa == course.grade.value.coefficient.value * course.credit.value as real *
          (if course.credit.value <= 2 then scales.low else scales.medium) as real
    {
      var v := ValidateCourse(course);
      if v.Fail? {
        return Failure(v.error);
      }
      if IsBlank(course.name.value) {
        return Failure(NameBlank);
      }
      courses := courses + [course];
      ValidatedCourseGpa(course, scales);
      var gpa := CalculateTotalGpa(course, scales);
      match gpa
      case Failure(e) => r := Failure(e);
      case Success(totalGpa) => r := Success(CourseResponse(course, totalGpa));
    }

    /** `updateCourse`: validate the body, find the first course with `id`
        (404 if none) and overwrite its name, credit and grade in place. */
    method UpdateCourse(id: int, course: Course) returns (r: Result<CourseResponse>)
      requires Valid()
      modifies this
      ensures Valid()
      ensures ValidateCourse(course).Fail? ==>
        r == Failure(ValidateCourse(course).error) && courses == old(courses)
      ensures IsValidCourse(course) && FindFirst(old(courses), IdIs(id)).None? ==>
        r == Failure(CourseNotFound) && courses == old(courses)
      ensures IsValidCourse(course) && FindFirst(old(courses), IdIs(id)).Some? ==>
        var k := FindFirst(old(courses), IdIs(id)).value;
        && |courses| == |old(courses)|
        && courses[k] == Course(Some(id), course.name, course.credit, course.grade)
        && (forall j :: 0 <= j < |courses| && j != k ==> courses[j] == old(courses)[j])
        && r == Success(CourseResponse(courses[k], CalculateTotalGpa(courses[k], scales).value))
    {
      var v := ValidateCourse(course);
      if v.Fail? {
        return Failure(v.error);
      }
      match FindFirst(courses, IdIs(id))
      case None =>
        r := Failure(CourseNotFound);
      case Some(k) =>
        var existing := courses[k].(name := course.name, credit := course.credit, grade := course.grade);
        courses := courses[k := existing];
        ValidatedCourseGpa(existing, scales);
        var gpa := CalculateTotalGpa(existing, scales);
        match gpa
        case Failure(e) => r := Failure(e);
        case Success(totalGpa) => r := Success(CourseResponse(existing, totalGpa));
    }

    /** `deleteCourse`: drop every course with `id`, keeping the rest in order. */
    method DeleteCourse(id: int)
      requires Valid()
      modifies this
      ensures Valid()
      ensures courses == RemoveIf(old(courses), IdIs(id))
      ensures forall j :: 0 <= j < |courses| ==> courses[j].id != Some(id)
      ensures (forall j :: 0 <= j < |old(courses)| ==> old(courses)[j].id != Some(id)) <==> courses == old(courses)
    {
      RemoveIfNoMatch(courses, IdIs(id));
      courses := RemoveIf(courses, IdIs(id));
    }

    /** `deleteAllCourses`: empty the list. */
    method DeleteAllCourses()
      requires Valid()
      modifies this
      ensures Valid()
      ensures courses == []
    {
      courses := [];
    }
  }
}
