/** Clients of `CourseController` that rely on the handlers' contracts only. */
module Scenarios {
  import opened Api
  import opened Entities
  import opened JavaStrings
  import opened Controller

  function Algorithms(): Course {
    Course(Some(1), Some("Algorithms"), Some(3), Some(Grade(Some(4.0), Some("AA"))))
  }

  /** Create a course, then find it by name written in another case. */
  method CreateThenFind(scales: GpaScales)
  {
    var store := new CourseController(scales);
    var algorithms := Algorithms();
    assert IsValidCourse(algorithms) by {
      assert "Algorithms"[0] > ' ' && "AA"[0] > ' ';
    }
    assert !IsBlank("Algorithms") by {
      assert !IsWhitespace("Algorithms"[0]);
    }

    var created := store.AddCourse(algorithms);
    assert created == Success(CourseResponse(algorithms, 12.0 * scales.medium as real));
    assert store.courses == [algorithms];

    var found := store.GetCourseByName("algorithms");
    assert EqualsIgnoreCase("Algorithms", "algorithms") by {
      assert forall i :: 0 <= i < 10 ==> ToLowerAscii("Algorithms"[i]) == ToLowerAscii("algorithms"[i]);
    }
    assert found.Success? by {
      assert EqualsIgnoreCase(store.courses[0].name.value, "algorithms");
    }
    assert found == Success(algorithms);
  }

  /** Delete a stored course by id and find it no more; an update of the
      absent id is a 404, an out-of-range credit a 400, and a clear empties
      the list. */
  method DeleteThenMiss(scales: GpaScales)
  {
    var store := new CourseController(scales);
    var algorithms := Algorithms();
    assert IsValidCourse(algorithms) by {
      assert "Algorithms"[0] > ' ' && "AA"[0] > ' ';
    }
    assert !IsBlank("Algorithms") by {
      assert !IsWhitespace("Algorithms"[0]);
    }
    var created := store.AddCourse(algorithms);
    assert store.courses == [algorithms];

    store.DeleteCourse(1);
    assert store.courses == [];
    var missing := store.GetCourseByName("algorithms");
    assert missing == Failure(CourseNotDefined);

    var absent := store.UpdateCourse(1, algorithms);
    assert absent == Failure(CourseNotFound);
    var outOfRange := store.AddCourse(algorithms.(credit := Some(5)));
    assert outOfRange == Failure(ApiError("Kurs kredisi 1 ile 4 arasında olmalıdır.", BadRequest));
    store.DeleteAllCourses();
    var all := store.GetCourses();
    assert all == [];
  }
}
