/**
  The demo backend's in-memory student store (server.js): a module-level array of records,
  changed in place by the POST, PUT and DELETE handlers of /api/students and returned
  verbatim by GET. Every handler answers with a status code and a JSON body.
 */
module StudentStore {
  import opened Wrappers

  /** A stored record. The five business fields hold whatever the request carried
      (an update may write absent values); `createdAt` is absent on the seed record. */
  datatype Student = Student(
    id: int,
    name: Option<string>,
    age: Option<int>,
    gender: Option<string>,
    midterm: Option<real>,
    final: Option<real>,
    createdAt: Option<string>)

  /** The five business fields destructured from a request body. */
  datatype Fields = Fields(
    name: Option<string>,
    age: Option<int>,
    gender: Option<string>,
    midterm: Option<real>,
    final: Option<real>)

  /** The JSON body of a response. */
  datatype Reply =
    | Record(student: Student)
    | Records(students: seq<Student>)
    | Error(message: string)
    | Success

  datatype Response = Response(status: nat, reply: Reply)

  /** What a handler answers, together with the array it leaves behind. */
  datatype Outcome = Outcome(response: Response, students: seq<Student>)

  /** The one record the array starts with. */
  const Seed: Student :=
    Student(1, Some("John Doe"), Some(20), Some("M"), Some(85.5), Some(88.0), None)

  const AllFieldsRequired: string := "All fields required"
  const NotFound: string := "Student not found"

  /** A text field passes `!field` only when it is present and non-empty. */
  predicate Filled(s: Option<string>) {
    s.Some? && s.value != ""
  }

  /** The create handler's guard: name and gender truthy, the three numbers not null. */
  predicate Complete(f: Fields) {
    Filled(f.name) && f.age.Some? && Filled(f.gender) && f.midterm.Some? && f.final.Some?
  }

  /** `s.id === id`; an unparsable route id (NaN) equals nothing. */
  predicate Matches(st: Student, id: Option<int>) {
    id.Some? && st.id == id.value
  }

  /** `findIndex`: the first position whose record has the id, or -1. */
  function IndexOf(s: seq<Student>, id: Option<int>): (i: int)
    ensures -1 <= i < |s|
    ensures i == -1 <==> forall j :: 0 <= j < |s| ==> !Matches(s[j], id)
    ensures 0 <= i ==> Matches(s[i], id) && forall j :: 0 <= j < i ==> !Matches(s[j], id)
  {
    if |s| == 0 then -1
    else if Matches(s[0], id) then 0
    else
      var k := IndexOf(s[1..], id);
      if k == -1 then -1 else k + 1
  }

  /** The search loop behind `findIndex`. */
  method FindIndex(s: seq<Student>, id: Option<int>) returns (i: int)
    ensures i == IndexOf(s, id)
  {
    i := 0;
    while i < |s|
      invariant 0 <= i <= |s|
      invariant forall j :: 0 <= j < i ==> !Matches(s[j], id)
    {
      if Matches(s[i], id) {
        return;
      }
      i := i + 1;
    }
    i := -1;
  }

  /** `{...student, name, age, gender, midterm, final}`. */
  function WithFields(st: Student, f: Fields): Student {
    st.(name := f.name, age := f.age, gender := f.gender, midterm := f.midterm, final := f.final)
  }

  /** GET /api/students. */
  function ListOp(s: seq<Student>): (r: Response)
    ensures r.status == 200 && r.reply.Records?
    ensures |r.reply.students| == |s| && forall j :: 0 <= j < |s| ==> r.reply.students[j] == s[j]
  {
    Response(200, Records(s))
  }

  /** POST /api/students: validate, then append a record numbered one past the length. */
  function CreateOp(s: seq<Student>, f: Fields, now: string): (out: Outcome)
    ensures out.response.status == 400 <==> !Complete(f)
    ensures !Complete(f) ==> out == Outcome(Response(400, Error(AllFieldsRequired)), s)
    ensures Complete(f) ==>
      && |out.students| == |s| + 1
      && out.students[..|s|] == s
      && out.students[|s|]
         == Student(|s| + 1, f.name, f.age, f.gender, f.midterm, f.final, Some(now))
      && out.response == Response(201, Record(out.students[|s|]))
  {
    if !Complete(f) then
      Outcome(Response(400, Error(AllFieldsRequired)), s)
    else
      var created := Student(|s| + 1, f.name, f.age, f.gender, f.midterm, f.final, Some(now));
      Outcome(Response(201, Record(created)), s + [created])
  }

  /** PUT /api/students/:id: no field check; overwrite the five fields of the first match. */
  function UpdateOp(s: seq<Student>, id: Option<int>, f: Fields): (out: Outcome)
    ensures out.response.status == 200 || out.response.status == 404
    ensures out.response.status == 404 <==> forall j :: 0 <= j < |s| ==> !Matches(s[j], id)
    ensures out.response.status == 404 ==> out == Outcome(Response(404, Error(NotFound)), s)
    ensures out.response.status == 200 ==>
      var i := IndexOf(s, id);
      && 0 <= i < |s|
      && |out.students| == |s|
      && (forall j :: 0 <= j < |s| && j != i ==> out.students[j] == s[j])
      && out.students[i].id == s[i].id
      && out.students[i].createdAt == s[i].createdAt
      && out.students[i].name == f.name
      && out.students[i].age == f.age
      && out.students[i].gender == f.gender
      && out.students[i].midterm == f.midterm
      && out.students[i].final == f.final
      && out.response == Response(200, Record(out.students[i]))
  {
    var i := IndexOf(s, id);
    if i == -1 then
      Outcome(Response(404, Error(NotFound)), s)
    else
      var updated := WithFields(s[i], f);
      Outcome(Response(200, Record(updated)), s[i := updated])
  }

  /** DELETE /api/students/:id: splice out the first match. */
  function DeleteOp(s: seq<Student>, id: Option<int>): (out: Outcome)
    ensures out.response.status == 200 || out.response.status == 404
    ensures out.response.status == 404 <==> forall j :: 0 <= j < |s| ==> !Matches(s[j], id)
    ensures out.response.status == 404 ==> out == Outcome(Response(404, Error(NotFound)), s)
    ensures out.response.status == 200 ==>
      var i := IndexOf(s, id);
      && 0 <= i < |s|
      && |out.students| == |s| - 1
      && out.students[..i] == s[..i]
      && out.students[i..] == s[i + 1..]
      && multiset(out.students) + multiset{s[i]} == multiset(s)
      && out.response == Response(200, Success)
  {
    var i := IndexOf(s, id);
    if i == -1 then
      Outcome(Response(404, Error(NotFound)), s)
    else
      assert s == s[..i] + [s[i]] + s[i + 1..];
      Outcome(Response(200, Success), s[..i] + s[i + 1..])
  }

  /** The module-level `demoStudents` array and the handlers that change it. */
  class Store {
    var students: seq<Student>

    constructor ()
      ensures students == [Seed]
    {
      students := [Seed];
    }

    method List() returns (r: Response)
      ensures r == ListOp(students)
    {
      r := Response(200, Records(students));
    }

    method Create(f: Fields, now: string) returns (r: Response)
      modifies this
      ensures Outcome(r, students) == CreateOp(old(students), f, now)
    {
      if !Complete(f) {
        return Response(400, Error(AllFieldsRequired));
      }
      var created := Student(|students| + 1, f.name, f.age, f.gender, f.midterm, f.final, Some(now));
      students := students + [created];
      r := Response(201, Record(created));
    }

    method Update(id: Option<int>, f: Fields) returns (r: Response)
      modifies this
      ensures Outcome(r, students) == UpdateOp(old(students), id, f)
    {
      var i := FindIndex(students, id);
      if i == -1 {
        return Response(404, Error(NotFound));
      }
      students := students[i := WithFields(students[i], f)];
      r := Response(200, Record(students[i]));
    }

    method Delete(id: Option<int>) returns (r: Response)
      modifies this
      ensures Outcome(r, students) == DeleteOp(old(students), id)
    {
      var i := FindIndex(students, id);
      if i == -1 {
        return Response(404, Error(NotFound));
      }
      students := students[..i] + students[i + 1..];
      r := Response(200, Success);
    }
  }
}
