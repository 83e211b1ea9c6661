/** The note record shared by both versions of the client, the actions they
    dispatch to their reducers, and a few facts about lists of notes. */
module Notes {

  datatype Option<T> = None | Some(value: T)

  /** A note as the client holds it. A field the client may leave undefined
      (the seeded placeholder has no description, no completion flag and no
      client id; notes fetched from the server or pushed by another client
      may lack a client id) is an Option. */
  datatype Note = Note(
    id: string,
    name: string,
    description: Option<string>,
    completed: Option<bool>,
    clientId: Option<string>)

  /** An action `type` string the reducer has no case for. */
  type UnknownKind = k: string | k != "SET_NOTES" && k != "ERROR" && k != "ADD_NOTE" witness ""

  /** The messages dispatched to a reducer, keyed in the source by their
      `type` string. Any other `type` is `Unrecognised`. */
  datatype Action =
    | SetNotes(notes: seq<Note>)
    | Error
    | AddNote(note: Note)
    | Unrecognised(kind: UnknownKind)

  /** How JavaScript reads an optional flag in a condition: an undefined
      flag is falsy, so only a literal `true` counts. */
  function Truthy(b: Option<bool>): (r: bool)
    ensures r <==> b == Some(true)
  {
    match b
    case None => false
    case Some(v) => v
  }

  predicate HasId(notes: seq<Note>, id: string)
  {
    exists k :: 0 <= k < |notes| && notes[k].id == id
  }

  /** No two entries of the list share an id. */
  predicate UniqueIds(notes: seq<Note>)
  {
    forall i, j :: 0 <= i < j < |notes| ==> notes[i].id != notes[j].id
  }

  /** The number of entries carrying the given id. */
  function Count(notes: seq<Note>, id: string): nat
  {
    if notes == [] then 0
    else (if notes[0].id == id then 1 else 0) + Count(notes[1..], id)
  }

  /** An id occurs nowhere exactly when it is counted zero times. */
  lemma {:induction false} CountZeroIffAbsent(notes: seq<Note>, id: string)
    ensures Count(notes, id) == 0 <==> !HasId(notes, id)
  {
    if notes != [] {
      CountZeroIffAbsent(notes[1..], id);
      if HasId(notes[1..], id) {
        var k :| 0 <= k < |notes[1..]| && notes[1..][k].id == id;
        assert notes[k + 1].id == id;
      }
      if HasId(notes, id) && notes[0].id != id {
        var k :| 0 <= k < |notes| && notes[k].id == id;
        assert notes[1..][k - 1].id == id;
      }
    }
  }

  /** In a list with unique ids, an id occurs at most once. */
  lemma {:induction false} UniqueCountAtMostOne(notes: seq<Note>, id: string)
    requires UniqueIds(notes)
    ensures Count(notes, id) <= 1
  {
    if notes != [] {
      assert UniqueIds(notes[1..]) by {
        forall i, j | 0 <= i < j < |notes[1..]|
          ensures notes[1..][i].id != notes[1..][j].id
        {
          assert notes[1..][i] == notes[i + 1] && notes[1..][j] == notes[j + 1];
        }
      }
      UniqueCountAtMostOne(notes[1..], id);
      if notes[0].id == id {
        assert !HasId(notes[1..], id) by {
          forall k | 0 <= k < |notes[1..]| ensures notes[1..][k].id != id {
            assert notes[1..][k] == notes[k + 1];
          }
        }
        CountZeroIffAbsent(notes[1..], id);
      }
    }
  }
}
