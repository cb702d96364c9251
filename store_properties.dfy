/**
  Properties of the in-memory store that relate several handler calls: lookups after an
  update, how many records a delete removes, and what the `length + 1` numbering does
  and does not guarantee.
 */
module StoreProperties {
  import opened Wrappers
  import opened StudentStore

  /** How many records carry the id. */
  function CountMatches(s: seq<Student>, id: Option<int>): nat {
    if |s| == 0 then 0
    else (if Matches(s[0], id) then 1 else 0) + CountMatches(s[1..], id)
  }

  lemma {:induction false} CountMatchesAppend(a: seq<Student>, b: seq<Student>, id: Option<int>)
    ensures CountMatches(a + b, id) == CountMatches(a, id) + CountMatches(b, id)
  {
    if |a| == 0 {
      assert a + b == b;
    } else {
      assert (a + b)[1..] == a[1..] + b;
      CountMatchesAppend(a[1..], b, id);
    }
  }

  /** No record has the id exactly when none is counted, exactly when `findIndex` gives -1. */
  lemma {:induction false} CountMatchesZero(s: seq<Student>, id: Option<int>)
    ensures CountMatches(s, id) == 0 <==> IndexOf(s, id) == -1
  {
    if |s| > 0 {
      CountMatchesZero(s[1..], id);
      if IndexOf(s[1..], id) == -1 {
        assert forall j :: 1 <= j < |s| ==> !Matches(s[j], id) by {
          forall j | 1 <= j < |s| ensures !Matches(s[j], id) {
            assert s[j] == s[1..][j - 1];
          }
        }
      } else {
        var k := IndexOf(s[1..], id);
        assert Matches(s[k + 1], id);
      }
    }
  }

  /** An update keeps every id where it was, so every later lookup finds the same position. */
  lemma UpdateKeepsLookup(s: seq<Student>, id: Option<int>, f: Fields, q: Option<int>)
    ensures IndexOf(UpdateOp(s, id, f).students, q) == IndexOf(s, q)
  {
    var t := UpdateOp(s, id, f).students;
    assert |t| == |s|;
    assert forall j :: 0 <= j < |s| ==> t[j].id == s[j].id;
    assert forall j :: 0 <= j < |s| ==> (Matches(t[j], q) <==> Matches(s[j], q));
  }

  /** A successful delete removes exactly one record carrying the id, and for any other id
      it removes a carrier only when the removed record carries it too. */
  lemma DeleteRemovesOneMatch(s: seq<Student>, id: Option<int>, q: Option<int>)
    requires DeleteOp(s, id).response.status == 200
    ensures CountMatches(DeleteOp(s, id).students, id) == CountMatches(s, id) - 1
    ensures var i := IndexOf(s, id);
      CountMatches(DeleteOp(s, id).students, q)
        == CountMatches(s, q) - (if Matches(s[i], q) then 1 else 0)
  {
    var i := IndexOf(s, id);
    var t := DeleteOp(s, id).students;
    assert s == s[..i] + ([s[i]] + s[i + 1..]);
    assert t == s[..i] + s[i + 1..];
    CountMatchesAppend(s[..i], [s[i]] + s[i + 1..], id);
    CountMatchesAppend([s[i]], s[i + 1..], id);
    CountMatchesAppend(s[..i], s[i + 1..], id);
    CountMatchesAppend(s[..i], [s[i]] + s[i + 1..], q);
    CountMatchesAppend([s[i]], s[i + 1..], q);
    CountMatchesAppend(s[..i], s[i + 1..], q);
  }

  /** When a single record carries the id, deleting it once makes a second delete answer 404. */
  lemma DeleteTwiceNotFound(s: seq<Student>, id: Option<int>)
    requires CountMatches(s, id) == 1
    ensures DeleteOp(s, id).response.status == 200
    ensures DeleteOp(DeleteOp(s, id).students, id).response == Response(404, Error(NotFound))
  {
    CountMatchesZero(s, id);
    DeleteRemovesOneMatch(s, id, id);
    CountMatchesZero(DeleteOp(s, id).students, id);
  }

  /** When no record already carries the number `length + 1`, the created record is what
      a lookup of the returned id finds. */
  lemma CreatedIsFound(s: seq<Student>, f: Fields, now: string)
    requires Complete(f)
    requires forall j :: 0 <= j < |s| ==> s[j].id != |s| + 1
    ensures var out := CreateOp(s, f, now);
      && out.response.status == 201
      && out.response.reply.Record?
      && var t := out.students;
         var id := Some(out.response.reply.student.id);
         IndexOf(t, id) == |s| && t[IndexOf(t, id)] == out.response.reply.student
  {
    var t := CreateOp(s, f, now).students;
    assert forall j :: 0 <= j < |s| ==> t[j] == s[j] by {
      assert t[..|s|] == s;
      forall j | 0 <= j < |s| ensures t[j] == s[j] {
        assert t[j] == t[..|s|][j];
      }
    }
  }

  const Amy: Fields := Fields(Some("Amy"), Some(21), Some("F"), Some(70.0), Some(80.0))
  const Bob: Fields := Fields(Some("Bob"), Some(23), Some("M"), Some(65.0), Some(75.0))

  /** Numbering by `length + 1` reuses ids: from the seed array, create, delete id 1 and
      create again, and two records carry id 2; an update of id 2 then reaches the first. */
  lemma IdsCanCollide(t1: string, t2: string)
    ensures var s1 := CreateOp([Seed], Amy, t1).students;
      var s2 := DeleteOp(s1, Some(1)).students;
      var s3 := CreateOp(s2, Bob, t2).students;
      && |s3| == 2
      && s3[0].id == 2 && s3[1].id == 2
      && s3[0].name == Some("Amy") && s3[1].name == Some("Bob")
      && CountMatches(s3, Some(2)) == 2
      && UpdateOp(s3, Some(2), Bob).students[1] == s3[1]
  {
    var a := Student(2, Amy.name, Amy.age, Amy.gender, Amy.midterm, Amy.final, Some(t1));
    var b := Student(2, Bob.name, Bob.age, Bob.gender, Bob.midterm, Bob.final, Some(t2));
    var s1 := CreateOp([Seed], Amy, t1).students;
    assert s1 == [Seed, a];
    assert IndexOf(s1, Some(1)) == 0;
    var s2 := DeleteOp(s1, Some(1)).students;
    assert s2 == [a];
    var s3 := CreateOp(s2, Bob, t2).students;
    assert s3 == [a, b];
    assert CountMatches([b], Some(2)) == 1 by {
      assert [b][1..] == [];
    }
    assert [a, b][1..] == [b];
    assert IndexOf(s3, Some(2)) == 0;
  }

  /** A create, an update of one field, a delete and a second delete, from the seed array. */
  lemma CreateUpdateDeleteScenario(now: string)
    ensures var c := CreateOp([Seed], Amy, now);
      var u := UpdateOp(c.students, Some(2), Amy.(age := Some(22)));
      var d := DeleteOp(u.students, Some(2));
      var d2 := DeleteOp(d.students, Some(2));
      && c.response.status == 201
      && c.response.reply == Record(Student(2, Amy.name, Amy.age, Amy.gender, Amy.midterm, Amy.final, Some(now)))
      && u.response.status == 200
      && u.response.reply.student.age == Some(22)
      && u.response.reply.student.id == 2
      && u.response.reply.student.createdAt == Some(now)
      && d.response == Response(200, Success)
      && d.students == [Seed]
      && d2.response == Response(404, Error(NotFound))
  {
    var c := CreateOp([Seed], Amy, now);
    assert c.students == [Seed, Student(2, Amy.name, Amy.age, Amy.gender, Amy.midterm, Amy.final, Some(now))];
    assert IndexOf(c.students, Some(2)) == 1;
    var u := UpdateOp(c.students, Some(2), Amy.(age := Some(22)));
    assert IndexOf(u.students, Some(2)) == 1;
    var d := DeleteOp(u.students, Some(2));
    assert d.students == [Seed];
  }
}
