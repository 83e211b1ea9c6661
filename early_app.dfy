/** The earlier component of src/app.js: the same state plus a form, and a
    reducer that knows only `SET_NOTES` and `ERROR`. */
module EarlyApp {
  import opened Notes
  import NotesReducer

  datatype Form = Form(name: string, description: string)

  datatype EarlyState = EarlyState(notes: seq<Note>, loading: bool, error: bool, form: Form)

  const EarlyInitialState: EarlyState := EarlyState([], true, false, Form("", ""))

  /** `SetNotes` replaces the list and ends loading, `Error` ends loading and
      raises the flag; every other action, `AddNote` included, falls to the
      default case. */
  function EarlyReduce(s: EarlyState, a: Action): (r: EarlyState)
    ensures r.form == s.form
    ensures r.error <==> s.error || a.Error?
    ensures r.loading <==> s.loading && !a.SetNotes? && !a.Error?
  {
    match a
    case SetNotes(ns) => s.(notes := ns, loading := false)
    case Error => s.(loading := false, error := true)
    case _ => s
  }

  function EarlyRun(s: EarlyState, acts: seq<Action>): EarlyState
    decreases |acts|
  {
    if acts == [] then s else EarlyRun(EarlyReduce(s, acts[0]), acts[1..])
  }

  lemma EarlyInitialIsEmpty()
    ensures EarlyInitialState.notes == [] && EarlyInitialState.loading
    ensures !EarlyInitialState.error && EarlyInitialState.form == Form("", "")
  {
  }

  lemma EarlySetNotesReplacesList(s: EarlyState, ns: seq<Note>)
    ensures EarlyReduce(s, SetNotes(ns)) == EarlyState(ns, false, s.error, s.form)
  {
  }

  lemma EarlyErrorRaisesFlag(s: EarlyState)
    ensures EarlyReduce(s, Error) == EarlyState(s.notes, false, true, s.form)
  {
  }

  /** The default case: anything but the two known actions is ignored. */
  lemma EarlyDefaultIsIdentity(s: EarlyState, a: Action)
    requires !a.SetNotes? && !a.Error?
    ensures EarlyReduce(s, a) == s
  {
  }

  /** No run of actions touches the form. */
  lemma {:induction false} EarlyFormConstant(s: EarlyState, acts: seq<Action>)
    ensures EarlyRun(s, acts).form == s.form
    decreases |acts|
  {
    if acts != [] {
      EarlyFormConstant(EarlyReduce(s, acts[0]), acts[1..]);
    }
  }

  /** No run of actions lowers the failure flag. */
  lemma {:induction false} EarlyErrorIsSticky(s: EarlyState, acts: seq<Action>)
    requires s.error
    ensures EarlyRun(s, acts).error
    decreases |acts|
  {
    if acts != [] {
      EarlyErrorIsSticky(EarlyReduce(s, acts[0]), acts[1..]);
    }
  }

  /** The state without its form. */
  function Core(s: EarlyState): NotesReducer.State
  {
    NotesReducer.State(s.notes, s.loading, s.error)
  }

  /** Apart from the form, the earlier reducer is the later one with
      `AddNote` ignored: on every run without `AddNote` both agree. */
  lemma {:induction false} EarlyRunAgrees(s: EarlyState, acts: seq<Action>)
    requires forall k :: 0 <= k < |acts| ==> !acts[k].AddNote?
    ensures Core(EarlyRun(s, acts)) == NotesReducer.Run(Core(s), acts)
    decreases |acts|
  {
    if acts != [] {
      assert !acts[0].AddNote?;
      assert forall k :: 0 <= k < |acts[1..]| ==> !acts[1..][k].AddNote? by {
        forall k | 0 <= k < |acts[1..]| ensures !acts[1..][k].AddNote? {
          assert acts[1..][k] == acts[k + 1];
        }
      }
      EarlyRunAgrees(EarlyReduce(s, acts[0]), acts[1..]);
    }
  }
}
