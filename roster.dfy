/**
 * The records of src/App.jsx and the list transforms its handlers build
 * from spread, `filter`, `map` and `find`: the draft kept by `AddChildForm`,
 * the children of the roster and the subjects of a child.
 */
module Roster {
  import opened Wrappers
  import opened Utils

  /** A study subject; `duration` is in minutes. */
  datatype Subject = Subject(id: string, name: string, duration: int)

  /** The state of `AddChildForm`: what `onAdd` receives. */
  datatype Draft = Draft(name: string, birthDate: string, subjects: seq<Subject>, stars: int)

  /** A child of the roster; `stars == None` is a record without a `stars` field. */
  datatype Child = Child(
    id: string, name: string, birthDate: string, subjects: seq<Subject>,
    stars: Option<int>, createdAt: string)

  type Roster = seq<Child>

  /** The signed-in parent. */
  datatype Parent = Parent(id: string, name: string, email: string, createdAt: string)

  /** A `prompt` answer JavaScript treats as true: not cancelled and not empty. */
  predicate Answered(a: Option<string>) { a.Some? && a.value != "" }

  predicate HasSubject(subjects: seq<Subject>, id: string)
  {
    exists i :: 0 <= i < |subjects| && subjects[i].id == id
  }

  /**
   * `AddChildForm.addSubject`: when both prompts were answered, append a
   * subject with a fresh id, the sanitised name and the duration (`Number(dur)`,
   * given here as `duration`); otherwise leave the draft as it is.
   */
  function AddSubject(d: Draft, name: Option<string>, dur: Option<string>, duration: int, id: string): (r: Draft)
    ensures !(Answered(name) && Answered(dur)) ==> r == d
    ensures Answered(name) && Answered(dur) ==>
      && |r.subjects| == |d.subjects| + 1
      && r.subjects[..|d.subjects|] == d.subjects
      && r.subjects[|d.subjects|] == Subject(id, Sanitize(name.value), duration)
      && r.name == d.name && r.birthDate == d.birthDate && r.stars == d.stars
  {
    if !Answered(name) || !Answered(dur) then d
    else d.(subjects := d.subjects + [Subject(id, Sanitize(name.value), duration)])
  }

  /** `AddChildForm.removeSubject`: the draft with every subject carrying the id filtered out. */
  function RemoveSubject(d: Draft, id: string): (r: Draft)
    ensures r.name == d.name && r.birthDate == d.birthDate && r.stars == d.stars
    ensures |r.subjects| <= |d.subjects|
    ensures forall i :: 0 <= i < |r.subjects| ==> r.subjects[i].id != id
  {
    d.(subjects := Filter(d.subjects, (s: Subject) => s.id != id))
  }

  /**
   * Exactly the subjects with the id go: every other subject stays as often
   * as it was there, and a draft without such a subject is unchanged.
   */
  lemma RemoveSubjectSpec(d: Draft, id: string, s: Subject)
    ensures s.id != id ==> multiset(RemoveSubject(d, id).subjects)[s] == multiset(d.subjects)[s]
    ensures s.id == id ==> multiset(RemoveSubject(d, id).subjects)[s] == 0
    ensures !HasSubject(d.subjects, id) ==> RemoveSubject(d, id) == d
  {
    FilterCount(d.subjects, (x: Subject) => x.id != id, s);
    FilterKeepsAll(d.subjects, (x: Subject) => x.id != id);
  }

  /** Removing a subject just added under a fresh id gives back the draft it was added to. */
  lemma RemoveSubjectUndoesAdd(d: Draft, name: Option<string>, dur: Option<string>, duration: int, id: string)
    requires !HasSubject(d.subjects, id)
    ensures RemoveSubject(AddSubject(d, name, dur, duration, id), id) == d
  {
    if Answered(name) && Answered(dur) {
      var s := Subject(id, Sanitize(name.value), duration);
      FilterConcat(d.subjects, [s], (x: Subject) => x.id != id);
      FilterKeepsAll(d.subjects, (x: Subject) => x.id != id);
      assert d.subjects + [s] == AddSubject(d, name, dur, duration, id).subjects;
    } else {
      FilterKeepsAll(d.subjects, (x: Subject) => x.id != id);
    }
  }

  /** The record `addChild` builds: the draft with a fresh id, the sanitised name and a creation time. */
  function NewChild(d: Draft, id: string, createdAt: string): (c: Child)
    ensures c.id == id && c.createdAt == createdAt && c.stars == Some(d.stars) && c.name == Sanitize(d.name)
    ensures c.birthDate == d.birthDate && c.subjects == d.subjects
    ensures |c.name| <= |d.name| && forall i :: 0 <= i < |c.name| ==> !IsAngle(c.name[i])
  {
    Child(id, Sanitize(d.name), d.birthDate, d.subjects, Some(d.stars), createdAt)
  }

  predicate HasChild(r: Roster, id: string)
  {
    exists i :: 0 <= i < |r| && r[i].id == id
  }

  /** `children.filter(c => c.id !== id)`. */
  function RemoveById(r: Roster, id: string): (r': Roster)
    ensures |r'| <= |r|
    ensures forall i :: 0 <= i < |r'| ==> r'[i].id != id
  {
    Filter(r, (c: Child) => c.id != id)
  }

  /**
   * Exactly the children with the id go: every other child stays as often as
   * it was there, and an unknown id leaves the roster unchanged.
   */
  lemma RemoveByIdSpec(r: Roster, id: string, c: Child)
    ensures c.id != id ==> multiset(RemoveById(r, id))[c] == multiset(r)[c]
    ensures c.id == id ==> multiset(RemoveById(r, id))[c] == 0
    ensures !HasChild(r, id) ==> RemoveById(r, id) == r
  {
    FilterCount(r, (x: Child) => x.id != id, c);
    FilterKeepsAll(r, (x: Child) => x.id != id);
  }

  /** Removal keeps the order of the children it keeps. */
  lemma RemoveByIdConcat(a: Roster, b: Roster, id: string)
    ensures RemoveById(a + b, id) == RemoveById(a, id) + RemoveById(b, id)
  {
    FilterConcat(a, b, (x: Child) => x.id != id);
  }

  /** Deleting a child just appended under a fresh id gives back the roster it was appended to. */
  lemma RemoveUndoesAppend(r: Roster, c: Child)
    requires !HasChild(r, c.id)
    ensures RemoveById(r + [c], c.id) == r
  {
    RemoveByIdConcat(r, [c], c.id);
    RemoveByIdSpec(r, c.id, c);
  }

  /** `c.stars || 0`. */
  function StarsOf(c: Child): int
  {
    if c.stars.Some? then c.stars.value else 0
  }

  /** `{ ...c, stars: (c.stars || 0) + 1 }`. */
  function Award(c: Child): Child
  {
    c.(stars := Some(StarsOf(c) + 1))
  }

  /** The `children.map(...)` of `addStar`: every child with the id gets one more star. */
  function AddStarTo(r: Roster, id: string): (r': Roster)
    ensures |r'| == |r|
  {
    if r == [] then []
    else [if r[0].id == id then Award(r[0]) else r[0]] + AddStarTo(r[1..], id)
  }

  /**
   * Position by position: a child with the id has `(stars || 0) + 1` stars
   * and is otherwise unchanged; every other child is unchanged.
   */
  lemma {:induction false} AddStarToAt(r: Roster, id: string, i: nat)
    requires i < |r|
    ensures r[i].id == id ==> AddStarTo(r, id)[i] == r[i].(stars := Some(StarsOf(r[i]) + 1))
    ensures r[i].id != id ==> AddStarTo(r, id)[i] == r[i]
  {
    if i > 0 {
      AddStarToAt(r[1..], id, i - 1);
    }
  }

  /** An id no child carries leaves the roster as it was. */
  lemma {:induction false} AddStarUnknown(r: Roster, id: string)
    requires !HasChild(r, id)
    ensures AddStarTo(r, id) == r
  {
    if r != [] {
      assert !HasChild(r[1..], id) by {
        forall i | 0 <= i < |r[1..]| ensures r[1..][i].id != id { assert r[1..][i] == r[i + 1]; }
      }
      AddStarUnknown(r[1..], id);
    }
  }

  function CountId(r: Roster, id: string): nat
  {
    if r == [] then 0 else (if r[0].id == id then 1 else 0) + CountId(r[1..], id)
  }

  function TotalStars(r: Roster): int
  {
    if r == [] then 0 else StarsOf(r[0]) + TotalStars(r[1..])
  }

  /** Each award adds exactly one star per child carrying the id, and nothing else. */
  lemma {:induction false} AddStarTotal(r: Roster, id: string)
    ensures TotalStars(AddStarTo(r, id)) == TotalStars(r) + CountId(r, id)
  {
    if r != [] {
      AddStarTotal(r[1..], id);
      assert AddStarTo(r, id)[1..] == AddStarTo(r[1..], id);
    }
  }

  predicate UniqueIds(r: Roster)
  {
    forall i, j :: 0 <= i < j < |r| ==> r[i].id != r[j].id
  }

  /** With distinct ids, one award raises the roster's total by exactly one when the id is present. */
  lemma {:induction false} CountIdUnique(r: Roster, id: string)
    requires UniqueIds(r)
    ensures CountId(r, id) == if HasChild(r, id) then 1 else 0
  {
    if r != [] {
      CountIdUnique(r[1..], id);
      if r[0].id == id {
        assert !HasChild(r[1..], id) by {
          forall i | 0 <= i < |r[1..]| ensures r[1..][i].id != id {
            assert r[1..][i] == r[i + 1];
          }
        }
      } else {
        assert HasChild(r, id) ==> HasChild(r[1..], id) by {
          if HasChild(r, id) {
            var i :| 0 <= i < |r| && r[i].id == id;
            assert r[1..][i - 1] == r[i];
          }
        }
        assert HasChild(r[1..], id) ==> HasChild(r, id) by {
          if HasChild(r[1..], id) {
            var i :| 0 <= i < |r[1..]| && r[1..][i].id == id;
            assert r[i + 1] == r[1..][i];
          }
        }
      }
    }
  }

  /** The test `c => c.id === id` that `addStar`'s `find` applies. */
  function WithId(id: string): Child -> bool
  {
    (c: Child) => c.id == id
  }

  /** `children.find(c => c.id === id)`. */
  function FindById(r: Roster, id: string): (o: Option<Child>)
    ensures o.Some? ==> o.value.id == id
  {
    Find(r, WithId(id))
  }

  /** `find` answers `undefined` exactly for an unknown id, and otherwise the first child with the id. */
  lemma FindByIdSpec(r: Roster, id: string)
    ensures FindById(r, id).None? <==> !HasChild(r, id)
    ensures FindById(r, id).Some? ==> IsFirst(r, WithId(id), FindById(r, id).value)
  {
    FindSpec(r, WithId(id));
  }
}
