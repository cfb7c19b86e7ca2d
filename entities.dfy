/** The request/response entities. Every reference-typed Java field may be null,
    so each one is an `Option`; `coefficient` is a `Double`, modelled as `real`. */
module Entities {
  import opened Api

  datatype Grade = Grade(coefficient: Option<real>, note: Option<string>)

  datatype Course = Course(id: Option<int>, name: Option<string>, credit: Option<int>, grade: Option<Grade>)
}
