/** The App component of src/app.jsx: what each handler and the
    subscription callback dispatch, proved as steps on values, and the
    component itself as an object holding the reducer's state. */
module NotesApp {
  import opened Notes
  import opened NotesReducer
  import opened NoteLists

  /** How the first fetch settled. */
  datatype FetchOutcome = Fetched(items: seq<Note>) | FetchFailed

  /** How a remote write settled. Every handler dispatches the same action
      either way, so no step below looks at it. */
  datatype WriteOutcome = WriteSucceeded | WriteFailed

  // ---------------------------------------------------------------------
  // Each handler as a function from the state it starts in to the state
  // after its dispatch. The handlers of a create, a delete and a toggle
  // dispatch only once their remote call has settled.

  /** The effect's first dispatch: the placeholder list. */
  function SeedStep(s: State, placeholderId: string): State
  {
    Reduce(s, SetNotes([Placeholder(placeholderId)]))
  }

  /** The dispatch of the effect's fetch once it settles. */
  function FetchStep(s: State, outcome: FetchOutcome): State
  {
    match outcome
    case Fetched(items) => Reduce(s, SetNotes(items))
    case FetchFailed => Reduce(s, Error)
  }

  function CreateStep(s: State, clientId: string, name: string, description: string, id: string): State
  {
    Reduce(s, AddNote(NewNote(name, description, clientId, id)))
  }

  function DeleteStep(s: State, id: string): State
  {
    Reduce(s, SetNotes(Without(s.notes, id)))
  }

  function ToggleStep(s: State, id: string): State
  {
    Reduce(s, SetNotes(Toggled(s.notes, id)))
  }

  /** The subscription callback: an echo of this client's own note is
      dropped, any other pushed note is added. */
  function PushStep(s: State, clientId: string, note: Note): State
  {
    if note.clientId == Some(clientId) then s else Reduce(s, AddNote(note))
  }

  // ---------------------------------------------------------------------
  // What the steps do.

  /** Mounting shows the placeholder alone and, since the seed goes through
      `SetNotes`, ends loading before the fetch has answered. */
  lemma SeedShowsPlaceholder(placeholderId: string)
    ensures var r := SeedStep(InitialState, placeholderId);
      r.notes == [Note(placeholderId, "Hi there!", None, None, None)] && !r.loading && !r.error
  {
  }

  /** A successful fetch replaces the list wholesale; a failed one raises
      the flag and keeps the list. Either way loading is over. */
  lemma FetchSettles(s: State, outcome: FetchOutcome)
    ensures !FetchStep(s, outcome).loading
    ensures outcome.Fetched? ==> FetchStep(s, outcome) == State(outcome.items, false, s.error)
    ensures outcome.FetchFailed? ==> FetchStep(s, outcome) == State(s.notes, false, true)
  {
  }

  /** Once the remote create has settled, the new note is at the head: it
      carries the submitted fields, this client's id, `completed = false` and
      the given id. The flags are unchanged, and a fresh id keeps ids unique. */
  lemma CreatePrependsNewNote(s: State, clientId: string, name: string, description: string, id: string)
    ensures var r := CreateStep(s, clientId, name, description, id);
      |r.notes| == |s.notes| + 1 && r.notes[1..] == s.notes &&
      r.notes[0].id == id && r.notes[0].name == name &&
      r.notes[0].description == Some(description) &&
      r.notes[0].completed == Some(false) && r.notes[0].clientId == Some(clientId) &&
      r.loading == s.loading && r.error == s.error
    ensures UniqueIds(s.notes) && !HasId(s.notes, id) ==>
      UniqueIds(CreateStep(s, clientId, name, description, id).notes)
  {
    var r := CreateStep(s, clientId, name, description, id);
    if UniqueIds(s.notes) && !HasId(s.notes, id) {
      PrependKeepsUnique(s.notes, r.notes[0]);
    }
  }

  lemma PrependKeepsUnique(notes: seq<Note>, n: Note)
    requires UniqueIds(notes) && !HasId(notes, n.id)
    ensures UniqueIds([n] + notes)
  {
    var r := [n] + notes;
    forall i, j | 0 <= i < j < |r| ensures r[i].id != r[j].id {
      assert r[j] == notes[j - 1];
      if i > 0 { assert r[i] == notes[i - 1]; }
    }
  }

  /** Deleting leaves no note with the id and keeps every other note; the
      new list is the filter of the old one, which keeps relative order
      (`WithoutConcat`). An unknown id leaves the list as it was. Since the
      handler dispatches `SetNotes`, loading ends too. */
  lemma DeleteRemovesNote(s: State, id: string)
    ensures DeleteStep(s, id).notes == Without(s.notes, id)
    ensures var r := DeleteStep(s, id);
      !HasId(r.notes, id) && !r.loading && r.error == s.error &&
      (forall n :: n in r.notes <==> n in s.notes && n.id != id)
    ensures !HasId(s.notes, id) ==> DeleteStep(s, id).notes == s.notes
    ensures UniqueIds(s.notes) && HasId(s.notes, id) ==>
      |DeleteStep(s, id).notes| == |s.notes| - 1 && UniqueIds(DeleteStep(s, id).notes)
  {
    WithoutRemovesId(s.notes, id);
    WithoutMembers(s.notes, id);
    if !HasId(s.notes, id) {
      WithoutAbsent(s.notes, id);
    }
    if UniqueIds(s.notes) && HasId(s.notes, id) {
      WithoutLength(s.notes, id);
      WithoutKeepsUnique(s.notes, id);
      UniqueCountAtMostOne(s.notes, id);
      CountZeroIffAbsent(s.notes, id);
    }
  }

  /** Toggling negates the flag of the matching notes only and keeps
      length, order and every other field; an unknown id changes nothing in
      the list. */
  lemma ToggleFlipsMatching(s: State, id: string)
    ensures var r := ToggleStep(s, id);
      |r.notes| == |s.notes| && !r.loading && r.error == s.error &&
      forall k :: 0 <= k < |s.notes| ==>
        r.notes[k] == (if s.notes[k].id == id then s.notes[k].(completed := Some(!Truthy(s.notes[k].completed)))
                       else s.notes[k])
    ensures !HasId(s.notes, id) ==> ToggleStep(s, id).notes == s.notes
    ensures UniqueIds(s.notes) ==> UniqueIds(ToggleStep(s, id).notes)
  {
    ToggledPointwise(s.notes, id);
    if !HasId(s.notes, id) {
      ToggledAbsent(s.notes, id);
    }
  }

  /** An echo of this client's own note leaves the state as it was; any
      other pushed note is added exactly as `AddNote` does. */
  lemma PushFiltersEcho(s: State, clientId: string, note: Note)
    ensures note.clientId == Some(clientId) ==> PushStep(s, clientId, note) == s
    ensures note.clientId != Some(clientId) ==>
      var r := PushStep(s, clientId, note);
      r == Reduce(s, AddNote(note)) && |r.notes| == |s.notes| + 1 &&
      r.notes[0] == note && r.notes[1..] == s.notes
  {
  }

  /** A note created here and then pushed back by the subscription appears
      once, not twice. */
  lemma EchoAppearsOnce(s: State, clientId: string, name: string, description: string, id: string, echo: Note)
    requires !HasId(s.notes, id)
    requires echo.clientId == Some(clientId)
    ensures Count(PushStep(CreateStep(s, clientId, name, description, id), clientId, echo).notes, id) == 1
  {
    var r := PushStep(CreateStep(s, clientId, name, description, id), clientId, echo);
    assert r.notes[1..] == s.notes;
    CountZeroIffAbsent(s.notes, id);
  }

  /** Since `createNote` dispatches only after its remote call settles, the
      echo can arrive first. It is dropped then too, and the note still
      appears once. */
  lemma EchoBeforeCreateAppearsOnce(s: State, clientId: string, name: string, description: string, id: string, echo: Note)
    requires !HasId(s.notes, id)
    requires echo.clientId == Some(clientId)
    ensures Count(CreateStep(PushStep(s, clientId, echo), clientId, name, description, id).notes, id) == 1
  {
    var r := CreateStep(PushStep(s, clientId, echo), clientId, name, description, id);
    assert r.notes[1..] == s.notes;
    CountZeroIffAbsent(s.notes, id);
  }

  /** The fetched list and the pushes are not coordinated, and the push
      handler does not check ids, only the client id. So another client's
      note that reaches this one both in the fetched list and as a push is
      listed twice when the push comes after the fetch has settled. */
  lemma FetchedThenPushedTwice(clientId: string, placeholderId: string, b: Note)
    requires b.clientId != Some(clientId)
    ensures Count(PushStep(FetchStep(SeedStep(InitialState, placeholderId), Fetched([b])), clientId, b).notes, b.id) == 2
  {
    var r := PushStep(FetchStep(SeedStep(InitialState, placeholderId), Fetched([b])), clientId, b);
    assert r.notes == [b, b];
    assert r.notes[1..] == [b] && r.notes[1..][1..] == [];
    assert Count([b], b.id) == 1 + Count([], b.id);
  }

  /** In the other order the fetch's `SET_NOTES` replaces the list that held
      the pushed copy, so the note is listed once. */
  lemma PushedThenFetchedOnce(clientId: string, placeholderId: string, b: Note)
    requires b.clientId != Some(clientId)
    ensures Count(FetchStep(PushStep(SeedStep(InitialState, placeholderId), clientId, b), Fetched([b])).notes, b.id) == 1
  {
    var r := FetchStep(PushStep(SeedStep(InitialState, placeholderId), clientId, b), Fetched([b]));
    assert r.notes == [b] && r.notes[1..] == [];
  }

  /** A note pushed by another client, or created here, before the first
      fetch settles is on the list until the fetch replaces it; it is lost
      when the fetched list does not carry its id. */
  lemma FetchDiscardsEarlierNotes(s: State, clientId: string, b: Note, name: string, description: string,
                                  id: string, items: seq<Note>)
    requires b.clientId != Some(clientId)
    requires !HasId(items, b.id) && !HasId(items, id)
    ensures HasId(PushStep(s, clientId, b).notes, b.id)
    ensures !HasId(FetchStep(PushStep(s, clientId, b), Fetched(items)).notes, b.id)
    ensures HasId(CreateStep(s, clientId, name, description, id).notes, id)
    ensures !HasId(FetchStep(CreateStep(s, clientId, name, description, id), Fetched(items)).notes, id)
  {
    assert PushStep(s, clientId, b).notes[0] == b;
    assert CreateStep(s, clientId, name, description, id).notes[0].id == id;
  }

  /** A session from mount: the fetch returns one note "a"; a note is
      created, "a" is deleted, and another client's note "b" is pushed. */
  lemma SampleSession(clientId: string, placeholderId: string, newId: string)
    requires newId != "a"
    ensures var groceries := Note("a", "Groceries", None, Some(false), None);
      var gym := NewNote("Gym", "leg day", clientId, newId);
      var b := Note("b", "Swim", None, Some(false), None);
      var s0 := FetchStep(SeedStep(InitialState, placeholderId), Fetched([groceries]));
      var s1 := CreateStep(s0, clientId, "Gym", "leg day", newId);
      var s2 := DeleteStep(s1, "a");
      var s3 := PushStep(s2, clientId, b);
      s0.notes == [groceries] && s1.notes == [gym, groceries] &&
      s2.notes == [gym] && s3.notes == [b, gym] && !s3.loading && !s3.error
  {
    var gym := NewNote("Gym", "leg day", clientId, newId);
    var groceries := Note("a", "Groceries", None, Some(false), None);
    assert Without([gym, groceries], "a") == [gym] + Without([groceries], "a");
  }

  // ---------------------------------------------------------------------
  // Sessions: any sequence of user intents, pushed notes and the settling
  // of the first fetch.

  datatype Event =
    | Create(name: string, description: string, id: string)
    | Delete(id: string)
    | Toggle(id: string)
    | Pushed(note: Note)
    | Settled(outcome: FetchOutcome)

  function Apply(s: State, clientId: string, e: Event): State
  {
    match e
    case Create(name, description, id) => CreateStep(s, clientId, name, description, id)
    case Delete(id) => DeleteStep(s, id)
    case Toggle(id) => ToggleStep(s, id)
    case Pushed(note) => PushStep(s, clientId, note)
    case Settled(outcome) => FetchStep(s, outcome)
  }

  function Replay(s: State, clientId: string, events: seq<Event>): State
    decreases |events|
  {
    if events == [] then s else Replay(Apply(s, clientId, events[0]), clientId, events[1..])
  }

  /** Every new id a session brings in is fresh when it arrives: the id of
      each created note and the id of each pushed note that is not an echo;
      and a fetched list has unique ids. */
  ghost predicate FreshIds(s: State, clientId: string, events: seq<Event>)
    decreases |events|
  {
    events != [] ==>
      (match events[0]
       case Create(_, _, id) => !HasId(s.notes, id)
       case Pushed(note) => note.clientId == Some(clientId) || !HasId(s.notes, note.id)
       case Settled(outcome) => outcome.Fetched? ==> UniqueIds(outcome.items)
       case _ => true) &&
      FreshIds(Apply(s, clientId, events[0]), clientId, events[1..])
  }

  lemma ApplyKeepsUnique(s: State, clientId: string, e: Event)
    requires UniqueIds(s.notes)
    requires e.Create? ==> !HasId(s.notes, e.id)
    requires e.Pushed? ==> e.note.clientId == Some(clientId) || !HasId(s.notes, e.note.id)
    requires e.Settled? && e.outcome.Fetched? ==> UniqueIds(e.outcome.items)
    ensures UniqueIds(Apply(s, clientId, e).notes)
  {
    match e
    case Create(name, description, id) => CreatePrependsNewNote(s, clientId, name, description, id);
    case Delete(id) => DeleteRemovesNote(s, id);
    case Toggle(id) => ToggleFlipsMatching(s, id);
    case Pushed(note) =>
      if note.clientId != Some(clientId) {
        PrependKeepsUnique(s.notes, note);
      }
    case Settled(outcome) =>
  }

  /** No session of creates, deletes, toggles, pushes and fetch results with
      fresh ids ever puts two notes with one id in the list. */
  lemma {:induction false} ReplayKeepsUnique(s: State, clientId: string, events: seq<Event>)
    requires UniqueIds(s.notes)
    requires FreshIds(s, clientId, events)
    ensures UniqueIds(Replay(s, clientId, events).notes)
    decreases |events|
  {
    if events != [] {
      ApplyKeepsUnique(s, clientId, events[0]);
      ReplayKeepsUnique(Apply(s, clientId, events[0]), clientId, events[1..]);
    }
  }

  /** After any session the failure flag is up exactly when it was up or a
      fetch of the session failed; no session turns loading back on. */
  lemma {:induction false} ReplayKeepsFlags(s: State, clientId: string, events: seq<Event>)
    ensures Replay(s, clientId, events).error <==>
      s.error || exists k :: 0 <= k < |events| && events[k] == Settled(FetchFailed)
    ensures Replay(s, clientId, events).loading ==> s.loading
    decreases |events|
  {
    if events != [] {
      var tail := events[1..];
      ReplayKeepsFlags(Apply(s, clientId, events[0]), clientId, tail);
      if exists k :: 0 <= k < |tail| && tail[k] == Settled(FetchFailed) {
        var k :| 0 <= k < |tail| && tail[k] == Settled(FetchFailed);
        assert events[k + 1] == Settled(FetchFailed);
      }
      if exists k :: 0 <= k < |events| && events[k] == Settled(FetchFailed) {
        var k :| 0 <= k < |events| && events[k] == Settled(FetchFailed);
        if k > 0 { assert tail[k - 1] == Settled(FetchFailed); }
      }
    }
  }

  // ---------------------------------------------------------------------
  // The component.

  /** One mounted App: the client id (in the source a module-level constant
      shared by every mounted App) and the state `useReducer` holds. */
  class App {
    const clientId: string
    var state: State

    constructor (clientId: string)
      ensures this.clientId == clientId && state == InitialState
    {
      this.clientId := clientId;
      state := InitialState;
    }

    method Dispatch(a: Action)
      modifies this
      ensures state == Reduce(old(state), a)
    {
      state := Reduce(state, a);
    }

    /** The effect on mount: seed the placeholder. */
    method Seed(placeholderId: string)
      modifies this
      ensures state == SeedStep(old(state), placeholderId)
      ensures state.notes == [Placeholder(placeholderId)] && !state.loading
    {
      Dispatch(SetNotes([Placeholder(placeholderId)]));
    }

    /** The effect's fetch, once it has settled. */
    method SettleFetch(outcome: FetchOutcome)
      modifies this
      ensures state == FetchStep(old(state), outcome)
    {
      match outcome {
        case Fetched(items) => Dispatch(SetNotes(items));
        case FetchFailed => Dispatch(Error);
      }
    }

    /** `createNote`: build the note, send it, and once the remote call has
      settled add it, whatever the answer. `freshId` stands for the
      generated id. */
    method CreateNote(name: string, description: string, freshId: string, remote: WriteOutcome)
      requires !HasId(state.notes, freshId)
      modifies this
      ensures state == CreateStep(old(state), clientId, name, description, freshId)
      ensures state.notes == [NewNote(name, description, clientId, freshId)] + old(state.notes)
      ensures UniqueIds(old(state.notes)) ==> UniqueIds(state.notes)
    {
      var note := NewNote(name, description, clientId, freshId);
      Dispatch(AddNote(note));
      if UniqueIds(old(state.notes)) {
        PrependKeepsUnique(old(state.notes), note);
      }
    }

    /** `deleteNote`: filter the id out and, once the remote call has settled,
      dispatch the rest, whatever the answer. */
    method DeleteNote(id: string, remote: WriteOutcome)
      modifies this
      ensures state == DeleteStep(old(state), id)
      ensures !HasId(state.notes, id)
      ensures !HasId(old(state.notes), id) ==> state.notes == old(state.notes)
    {
      var notes := Without(state.notes, id);
      DeleteRemovesNote(state, id);
      Dispatch(SetNotes(notes));
    }

    /** `updateNote`: toggle the flag of the matching note, dispatch the new
      list once the remote call has settled, whatever the answer, and return
      the flag value sent in the update request. */
    method UpdateNote(id: string, remote: WriteOutcome) returns (completed: Option<bool>)
      modifies this
      ensures state == ToggleStep(old(state), id)
      ensures completed == ToggledFlag(old(state.notes), id)
      ensures completed.Some? <==> HasId(old(state.notes), id)
    {
      var notes;
      notes, completed := ToggleCompleted(state.notes, id);
      ToggledFlagDefined(state.notes, id);
      Dispatch(SetNotes(notes));
    }

    /** The subscription's `next` callback. */
    method OnCreateNote(note: Note)
      modifies this
      ensures state == PushStep(old(state), clientId, note)
      ensures note.clientId == Some(clientId) ==> state == old(state)
    {
      if note.clientId == Some(clientId) {
        return;
      }
      Dispatch(AddNote(note));
    }
  }
}
