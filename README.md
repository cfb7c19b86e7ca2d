# Course controller, modelled in Dafny

This project models `CourseController`, the only piece of logic in a small
Spring REST service for academic courses. Each course has an id, a name, a
credit count and a grade (a letter note with a numeric coefficient). The
controller keeps the courses in an in-memory list and serves six handlers:
list all, find by name ignoring case, add, update by id, delete by id and
delete all. Adding and updating first run a seven-step validator. They then
answer with the course and its GPA contribution: `coefficient * credit * scale`,
where the scale comes from one of three credit brackets.

Files:

- `api.dfy` (module `Api`): `ApiError(message, status)` stands for the
  application's `ApiException`. `Option` models a nullable Java reference, and
  `Result`/`Outcome` model a handler or a check that may throw.
- `entities.dfy` (module `Entities`): `Course` and `Grade`. Every field the
  Java entities may leave null is an `Option`.
- `java_strings.dfy` (module `JavaStrings`): the JDK string tests the
  controller depends on. These are `trim()` followed by `isEmpty()`,
  `isBlank()` with `Character.isWhitespace`, and `equalsIgnoreCase`.
- `streams.dfy` (module `Streams`): the idiom `stream().filter(p).findFirst()`
  as `FindFirst`, and `Collection.removeIf(p)` as `RemoveIf`.
- `controller.dfy` (module `Controller`): the validator, the GPA calculation
  and the class `CourseController`. The class holds `courses: seq<Course>`,
  and each handler is one method. The datatype `CourseResponse(course,
  totalGpa)` is the nested class of CourseController.java:113-129; the
  `AddCourse` and `UpdateCourse` rows below state what it holds.
- `scenarios.dfy` (module `Scenarios`): two clients that rely only on the
  handler contracts. The first creates a course and finds it by name in
  another case. The second deletes it by id and then finds it no more; it
  also shows an update of an absent id, a rejected credit and a clear.

Design points:

- The class invariant `Valid()` says that every stored course passes
  `validateCourse`. Adding and updating both validate before they write, so
  the invariant holds. It is also why the `getId().equals(..)` and
  `getName().equalsIgnoreCase(..)` calls on stored courses never meet a null.
- The validator has two forms. `ValidateCourse` follows the source's if-chain.
  `Rules` is the ordered table of its seven checks. `ValidateCourseFirstBrokenRule`
  proves that the if-chain rejects with the first rule in the table that the
  course breaks.
- `addCourse` checks name blankness twice, and the two checks differ. The
  validator uses `trim().isEmpty()`, which treats only characters up to
  U+0020 as blank. `addCourse` then uses `isBlank()`, which also treats the
  Unicode spaces as blank. So a name made only of em spaces (U+2003) passes
  validation and is then rejected with "Course name is cannot be null or
  blank." `updateCourse` has no second check, so it stores such a name.
- `addCourse` appends the course before it computes the GPA. The model keeps
  that order, together with the branch where `calculateTotalGpa` throws.
  `ValidatedCourseGpa` proves that branch dead: validated credit lies in
  1..4, so only the low and medium brackets can be reached.

## Model

| member | source | states |
|---|---|---|
| `JavaStrings.TrimLeading` | src/main/java/com/workintech/spring17challenge/controller/CourseController.java:93 | the leading-strip half of `trim()`: the result is a suffix of the input, every dropped character is at most U+0020, and the result is empty or starts above U+0020 |
| `JavaStrings.TrimTrailing` | src/main/java/com/workintech/spring17challenge/controller/CourseController.java:93 | the trailing-strip half of `trim()`: the result is a prefix of the input, every dropped character is at most U+0020, and the result is empty or ends above U+0020 |
| `JavaStrings.Trim` | src/main/java/com/workintech/spring17challenge/controller/CourseController.java:93 | `trim()` keeps no more than the input, and what it keeps is empty or starts and ends with a character above U+0020 |
| `JavaStrings.IsTrimmedEmpty` | src/main/java/com/workintech/spring17challenge/controller/CourseController.java:108 | the `trim().isEmpty()` test of lines 93 and 108; a string it accepts is also `isBlank` exactly when it holds no control character outside U+0009..U+000D and U+001C..U+001F |
| `JavaStrings.IsWhitespace` | src/main/java/com/workintech/spring17challenge/controller/CourseController.java:52 | `Character.isWhitespace`: every whitespace character is at most U+0020 or at least U+1680; the no-break spaces U+00A0, U+2007 and U+202F are not whitespace; space, tab, line feed and carriage return are |
| `JavaStrings.IsBlank` | src/main/java/com/workintech/spring17challenge/controller/CourseController.java:52 | `isBlank()`: every character of a blank string is at most U+0020 or at least U+1680 |
| `JavaStrings.EqualsIgnoreCase` | src/main/java/com/workintech/spring17challenge/controller/CourseController.java:42 | `equalsIgnoreCase` (ASCII folding): matching strings have the same length, and equal strings always match |
| `JavaStrings.TrimmedEmptyIff` | src/main/java/com/workintech/spring17challenge/controller/CourseController.java:93 | `trim().isEmpty()` holds exactly when every character is at most U+0020; a non-empty trim starts and ends above U+0020 |
| `JavaStrings.BlankButNotTrimmedEmpty` | src/main/java/com/workintech/spring17challenge/controller/CourseController.java:52 | a name that survives `trim().isEmpty()` but fails `isBlank()` contains a Unicode whitespace at or above U+1680 |
| `JavaStrings.EmSpaceIsBlankButNotTrimmedEmpty` | src/main/java/com/workintech/spring17challenge/controller/CourseController.java:52 | `trim()` keeps a lone U+2003, yet `isBlank()` holds for it |
| `JavaStrings.ToLowerAscii` | src/main/java/com/workintech/spring17challenge/controller/CourseController.java:42 | maps each upper-case ASCII letter to the lower-case letter at the same position of the alphabet, and leaves every other character alone |
| `JavaStrings.EqualsIgnoreCaseIsEquivalence` | src/main/java/com/workintech/spring17challenge/controller/CourseController.java:42 | name matching that ignores case is reflexive, symmetric and transitive |
| `JavaStrings.EqualsIgnoreCaseExample` | src/main/java/com/workintech/spring17challenge/controller/CourseController.java:42 | "CS101" matches "cs101", and "CS101" does not match "CS102" |
| `Streams.FindFirst` | src/main/java/com/workintech/spring17challenge/controller/CourseController.java:66-69 | `filter(p).findFirst()` gives an index whose element satisfies `p`, with no earlier element satisfying it; it gives none exactly when no element satisfies `p` |
| `Streams.FindFirstIsFirstMatch` | src/main/java/com/workintech/spring17challenge/controller/CourseController.java:41-43 | the first match is unique: an index that matches, with no match before it, is what `FindFirst` returns |
| `Streams.RemoveIf` | src/main/java/com/workintech/spring17challenge/controller/CourseController.java:81 | `removeIf(p)` never lengthens the list; every survivor comes from the list and fails `p`, and every element that fails `p` survives |
| `Streams.RemoveIfAppend` | src/main/java/com/workintech/spring17challenge/controller/CourseController.java:81 | removal works element by element and keeps the survivors' relative order: removing from `s + t` is removing from `s`, then from `t`, and concatenating |
| `Streams.RemoveIfNoMatch` | src/main/java/com/workintech/spring17challenge/controller/CourseController.java:81 | `removeIf` leaves the list unchanged exactly when no element matches |
| `Controller.ValidateCourse` | src/main/java/com/workintech/spring17challenge/controller/CourseController.java:89-111 | validation passes exactly when all seven conditions hold: id, a name that is not blank after trim, credit present and in 1..4, grade, coefficient, and a note that is not blank after trim; every failure has status 400 |
| `Controller.RejectedByFirstBrokenRule` | src/main/java/com/workintech/spring17challenge/controller/CourseController.java:89-111 | a course that passes the checks before position k and breaks check k is rejected with check k's message |
| `Controller.ValidateCourseFirstBrokenRule` | src/main/java/com/workintech/spring17challenge/controller/CourseController.java:89-111 | the checks run in a fixed order (id, name, credit, credit range, grade, coefficient, note), and the first broken one decides the error |
| `Controller.CalculateTotalGpa` | src/main/java/com/workintech/spring17challenge/controller/CourseController.java:131-143 | credit at most 2 uses the low scale, 3..5 the medium scale and 6..10 the high scale; the result is coefficient * credit * scale; credit above 10 fails with "Invalid credit value", status 400 |
| `Controller.ValidatedCourseGpa` | src/main/java/com/workintech/spring17challenge/controller/CourseController.java:131-142 | after a successful validation (credit in 1..4, line 99), the GPA calculation cannot fail and uses only the low or medium scale |
| `Controller.NameBlankCheckReachable` | src/main/java/com/workintech/spring17challenge/controller/CourseController.java:51-53 | a course named by one em space, and otherwise valid, passes `validateCourse`, but its name `isBlank`; so the second check in `addCourse` can fire |
| `Controller.NameIs` | src/main/java/com/workintech/spring17challenge/controller/CourseController.java:42 | the filter of `getCourseByName`: a course whose name equals the argument exactly always matches, and a matching course has a name of the argument's length |
| `Controller.CourseController.Valid` | src/main/java/com/workintech/spring17challenge/controller/CourseController.java:19 | the invariant of the `courses` list: every stored course passed validation, so every stored course has an id and a name |
| `Controller.CourseController.constructor` | src/main/java/com/workintech/spring17challenge/controller/CourseController.java:19-30 | the controller starts with an empty list and the three injected scales |
| `Controller.CourseController.GetCourses` | src/main/java/com/workintech/spring17challenge/controller/CourseController.java:34-36 | returns every stored course, in insertion order |
| `Controller.CourseController.GetCourseByName` | src/main/java/com/workintech/spring17challenge/controller/CourseController.java:40-45 | returns the first course, in list order, whose name equals the argument ignoring case; when no course matches, fails with "Course is not defined." and status 404; never changes the list |
| `Controller.CourseController.AddCourse` | src/main/java/com/workintech/spring17challenge/controller/CourseController.java:50-59 | a validation failure is returned with the list unchanged; a valid course whose name `isBlank` gets 400 with the list unchanged; otherwise the course is appended at the end, earlier entries are untouched, and the answer holds the course and coefficient * credit * (low or medium scale); the invariant is kept |
| `Controller.CourseController.UpdateCourse` | src/main/java/com/workintech/spring17challenge/controller/CourseController.java:63-77 | validation runs before lookup, so an invalid body gets 400 even when the id is absent; an absent id gets 404 with the list unchanged; otherwise only the first entry with the id gets the body's name, credit and grade; it keeps its id, and the length and every other entry stay as they were |
| `Controller.CourseController.DeleteCourse` | src/main/java/com/workintech/spring17challenge/controller/CourseController.java:80-82 | removes every course with the id and keeps the others in their relative order; no survivor has the id; the list is unchanged exactly when no course had it |
| `Controller.CourseController.DeleteAllCourses` | src/main/java/com/workintech/spring17challenge/controller/CourseController.java:85-87 | leaves the list empty |

## Left out

- Error rendering is not part of this model. The exception handler turns an
  `ApiException` into `{status, message, timestamp}`, turns any other
  exception into 500, and logs. It reads the wall clock and does nothing worth
  proving.
- Spring routing, the binding of path variables, and the JSON reading and
  writing of request and response bodies are not modelled: they are framework
  plumbing.
- `double` arithmetic is modelled as exact `real` arithmetic. Rounding is
  not modelled.
- The three GPA beans are not part of this model. Their `getGpa()` values
  appear as the constant integers of `GpaScales`.
- The `course == null` request body is not modelled. `validateCourse` would
  throw a `NullPointerException`, which the framework reports as a generic 500.
- Concurrent requests are not modelled. The source list has no locking; the
  model is sequential.
- `Controller.CourseController.GetCourseByName`: matches names with ASCII case
  folding only. Java's `equalsIgnoreCase` also folds non-ASCII letters (for
  example "É" and "é"); the model treats those as different.
- Object identity is not modelled. Courses are values, so the model does not
  capture sharing. In the source, `addCourse` stores the request object
  itself; its response refers to that same object, and a later `updateCourse`
  mutates it. `getCourses` also hands out the live list.
- Integers are unbounded. Java's `Integer` id and credit are 32-bit. The id
  is only compared for equality, and credit is compared with 1, 4, 2, 5 and
  10, so the width does not matter there. Credit is also a factor of the GPA
  product at CourseController.java:142, which the source computes in
  `double` and the model computes in `real`.
- Java strings are UTF-16 code units, while a Dafny `char` is a Unicode
  scalar value. The difference does not reach these checks. `trim` looks only
  at characters up to U+0020, and every character that `isWhitespace` accepts
  lies in the Basic Multilingual Plane.
