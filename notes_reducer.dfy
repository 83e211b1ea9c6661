/** The state of the note-list client and the reducer every change goes
    through (src/app.jsx). */
module NotesReducer {
  import opened Notes

  /** What the view renders: the list, whether the first fetch is still
      pending, and whether it failed. */
  datatype State = State(notes: seq<Note>, loading: bool, error: bool)

  const InitialState: State := State([], true, false)

  /** One reducer step. `SetNotes` replaces the list and ends loading,
      `Error` ends loading and raises the failure flag, `AddNote` prepends,
      anything else leaves the state as it is. */
  function Reduce(s: State, a: Action): (r: State)
    ensures r.error <==> s.error || a.Error?
    ensures r.loading <==> s.loading && !a.SetNotes? && !a.Error?
    ensures !a.SetNotes? && !a.AddNote? ==> r.notes == s.notes
  {
    match a
    case SetNotes(ns) => s.(notes := ns, loading := false)
    case Error => s.(loading := false, error := true)
    case AddNote(n) => s.(notes := [n] + s.notes)
    case Unrecognised(_) => s
  }

  /** The state after dispatching the actions in order. */
  function Run(s: State, acts: seq<Action>): State
    decreases |acts|
  {
    if acts == [] then s else Run(Reduce(s, acts[0]), acts[1..])
  }

  lemma SetNotesReplacesList(s: State, ns: seq<Note>)
    ensures Reduce(s, SetNotes(ns)).notes == ns
    ensures !Reduce(s, SetNotes(ns)).loading
    ensures Reduce(s, SetNotes(ns)).error == s.error
  {
  }

  lemma ErrorRaisesFlag(s: State)
    ensures Reduce(s, Error) == State(s.notes, false, true)
  {
  }

  /** The new note becomes the head and the old list the tail. */
  lemma AddNotePrepends(s: State, n: Note)
    ensures var r := Reduce(s, AddNote(n));
      |r.notes| == |s.notes| + 1 && r.notes[0] == n && r.notes[1..] == s.notes &&
      r.loading == s.loading && r.error == s.error
  {
  }

  lemma UnrecognisedIsIdentity(s: State, kind: UnknownKind)
    ensures Reduce(s, Unrecognised(kind)) == s
  {
  }

  /** After any run, the failure flag is up exactly when it was up before or
      some action of the run was `Error`: no action lowers it. */
  lemma {:induction false} RunError(s: State, acts: seq<Action>)
    ensures Run(s, acts).error <==>
      s.error || exists k :: 0 <= k < |acts| && acts[k].Error?
    decreases |acts|
  {
    if acts != [] {
      RunError(Reduce(s, acts[0]), acts[1..]);
      if exists k :: 0 <= k < |acts[1..]| && acts[1..][k].Error? {
        var k :| 0 <= k < |acts[1..]| && acts[1..][k].Error?;
        assert acts[k + 1].Error?;
      }
      if exists k :: 0 <= k < |acts| && acts[k].Error? {
        var k :| 0 <= k < |acts| && acts[k].Error?;
        if k > 0 { assert acts[1..][k - 1].Error?; }
      }
    }
  }

  /** The failure flag is sticky. */
  lemma ErrorIsSticky(s: State, acts: seq<Action>)
    requires s.error
    ensures Run(s, acts).error
  {
    RunError(s, acts);
  }

  /** Loading is still on after a run exactly when it was on and no action
      of the run was `SetNotes` or `Error`: nothing turns it back on. */
  lemma {:induction false} RunLoading(s: State, acts: seq<Action>)
    ensures Run(s, acts).loading <==>
      s.loading && forall k :: 0 <= k < |acts| ==> !acts[k].SetNotes? && !acts[k].Error?
    decreases |acts|
  {
    if acts != [] {
      RunLoading(Reduce(s, acts[0]), acts[1..]);
      if Run(s, acts).loading {
        forall k | 0 <= k < |acts| ensures !acts[k].SetNotes? && !acts[k].Error? {
          if k > 0 { assert acts[k] == acts[1..][k - 1]; }
        }
      } else if s.loading && !acts[0].SetNotes? && !acts[0].Error? {
        var k :| 0 <= k < |acts[1..]| && (acts[1..][k].SetNotes? || acts[1..][k].Error?);
        assert acts[k + 1] == acts[1..][k];
      }
    }
  }

  /** A failed state is never loading. */
  ghost predicate Consistent(s: State)
  {
    s.error ==> !s.loading
  }

  /** Every state reachable from the initial state is consistent. */
  lemma {:induction false} RunKeepsConsistent(s: State, acts: seq<Action>)
    requires Consistent(s)
    ensures Consistent(Run(s, acts))
    decreases |acts|
  {
    if acts != [] {
      RunKeepsConsistent(Reduce(s, acts[0]), acts[1..]);
    }
  }

  lemma ReachableIsConsistent(acts: seq<Action>)
    ensures Consistent(Run(InitialState, acts))
  {
    RunKeepsConsistent(InitialState, acts);
  }
}
