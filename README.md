# Note-list client: reducer, handlers and echo suppression

This project models the state machine of a small notes client in Dafny. The
client is a React app over a managed GraphQL API. The modelled part is the
state `useReducer` holds: the list of notes, the `loading` flag and
the sticky `error` flag. It also covers what each event handler dispatches
into that state:

- mounting seeds a placeholder note and starts the first fetch;
- creating builds a note with this client's id and prepends it;
- deleting filters the id out;
- toggling maps over the list and negates one flag;
- the creation subscription drops echoes of this client's own notes and
  prepends everyone else's.

The earlier, smaller component in `src/app.js` has the same reducer without
`ADD_NOTE` and with an extra `form` field. It is modelled as well.

Files and modules:

- `notes.dfy` (`Notes`): the `Note` record, the dispatched `Action`s,
  JavaScript truthiness of an optional flag, id uniqueness and counting.
- `notes_reducer.dfy` (`NotesReducer`): `State`, `InitialState`, the reducer
  `Reduce`, runs of actions, and the flag invariants.
- `note_lists.dfy` (`NoteLists`): the note a submission builds, the
  placeholder, delete (`Without`), toggle (`Toggled`, `ToggledFlag`) and the
  loop method `ToggleCompleted` that is proved against them.
- `notes_app.dfy` (`NotesApp`): each handler as a step function on `State`,
  the lemmas about those steps, sessions of events, and the class `App`
  whose methods dispatch through the reducer.
- `early_app.dfy` (`EarlyApp`): the reducer of `src/app.js`.

A field the JavaScript may leave undefined is an `Option`. The placeholder
has no description, flag or client id, and fetched or pushed notes may lack a
client id. `!undefined` is `true` in JavaScript, so toggling a note with no
flag gives it `completed = true`. Because of this, toggling twice is an
inverse only when the matching notes have a defined flag (`ToggledTwice`).

Behaviour of the code that a reader of an optimistic client might not
expect, as the model states it:

- One would expect the placeholder to be shown while `loading` is still on.
  The seed goes through `SET_NOTES`, which clears `loading` at once
  (`SeedShowsPlaceholder`).
- `deleteNote` and `updateNote` also dispatch `SET_NOTES`, so they clear
  `loading` as well. An unknown id leaves the list unchanged, but not
  necessarily `loading` (`DeleteRemovesNote`, `ToggleFlipsMatching`).
- None of the three handlers is optimistic. `createNote`, `deleteNote` and
  `updateNote` dispatch only after their `await` on the remote call has
  settled (src/app.jsx:107-119, 125-137, 151-163). The model's handler
  methods therefore take the settled `WriteOutcome`. Because of the `await`,
  the echo of a created note can arrive before its `ADD_NOTE`. The note
  appears once in either order (`EchoAppearsOnce`, `EchoBeforeCreateAppearsOnce`).
- Ids stay unique only while every id brought in is fresh: generated ids,
  the ids of pushed foreign notes, and a fetched list with unique ids.
  `ReplayKeepsUnique` proves uniqueness for any session under exactly those
  hypotheses. The session may include the fetch settling after creates and
  pushes. The hypotheses are not always met. The fetched list
  (src/app.jsx:69-83) and the pushes (85-94) are not coordinated, and
  the push handler does not check ids, only the client id (87-92). So
  another client's note can arrive both in the fetched list and as a push,
  and if the push comes after the fetch has settled, the note is listed twice
  (`FetchedThenPushedTwice`). If the push comes first, the fetch's `SET_NOTES`
  replaces the list and the note is listed once (`PushedThenFetchedOnce`).
- The first fetch replaces the list wholesale (src/app.jsx:73, 27). A note
  pushed by another client, or created here, before the fetch settles is
  lost when the fetched list does not carry it (`FetchDiscardsEarlierNotes`).
- `updateNote`'s `completed` is assigned by the map callback each time it
  meets the id, so it is the new, negated flag of the last matching note
  (`ToggledFlagIsLast`). With unique ids it is the flag stored in the new list
  (`ToggledFlagOfUnique`).

Remote calls are parameters. `FetchOutcome` is the settled first fetch.
`WriteOutcome` is a settled create, delete or update; every handler
dispatches the same thing whatever it is. The client id is the `App`
constructor's argument. Generated ids (`uuid()`) are arguments too.

## Model

| member | source | states |
|---|---|---|
| Notes.Truthy | src/app.jsx:145 | an optional flag reads as true exactly when it is a literal `true`; undefined is falsy |
| NotesReducer.InitialState | src/app.jsx:18-22 | no notes, loading on, no error; it satisfies `error ==> !loading`, which `ReachableIsConsistent` shows every reachable state keeps |
| NotesReducer.Reduce | src/app.jsx:24-36 | after any action, `error` is up iff it was up or the action is `ERROR`; `loading` stays on iff it was on and the action is neither `SET_NOTES` nor `ERROR`; only `SET_NOTES` and `ADD_NOTE` change the list |
| NotesReducer.SetNotesReplacesList | src/app.jsx:26-27 | `SET_NOTES` makes the list exactly the given one, turns loading off and keeps `error` |
| NotesReducer.ErrorRaisesFlag | src/app.jsx:28-29 | `ERROR` turns loading off, raises `error` and keeps the list |
| NotesReducer.AddNotePrepends | src/app.jsx:30-31 | `ADD_NOTE` makes the note the head and the old list the tail (length + 1) and keeps both flags |
| NotesReducer.UnrecognisedIsIdentity | src/app.jsx:33-34 | any unrecognised action returns the state unchanged |
| NotesReducer.RunError | src/app.jsx:24-36 | after any run, `error` is up iff it was up before or the run contains `ERROR` |
| NotesReducer.ErrorIsSticky | src/app.jsx:24-36 | once `error` is up, no run of actions lowers it |
| NotesReducer.RunLoading | src/app.jsx:18-36 | after any run, `loading` is on iff it was on and the run has no `SET_NOTES` and no `ERROR`; nothing turns it back on |
| NotesReducer.RunKeepsConsistent | src/app.jsx:24-36 | every run keeps "a failed state is not loading" |
| NotesReducer.ReachableIsConsistent | src/app.jsx:18-36 | every state reachable from the initial state (empty, loading, no error) is not loading once it has failed |
| NoteLists.NewNote | src/app.jsx:100-105 | the submitted name and description, this client's id, `completed = false` and the generated id; stated by `CreatePrependsNewNote` |
| NoteLists.Placeholder | src/app.jsx:80 | a note with the generated id and the name "Hi there!" only; stated by `SeedShowsPlaceholder` |
| NoteLists.Without | src/app.jsx:123 | the filter never lengthens the list and leaves no note with the id; the lemmas below give membership, order and length |
| NoteLists.WithoutMembers | src/app.jsx:123 | a note survives the delete filter iff it was in the list and has another id |
| NoteLists.WithoutRemovesId | src/app.jsx:123 | no note with the deleted id remains |
| NoteLists.WithoutConcat | src/app.jsx:123 | the filter distributes over concatenation, so the remaining notes keep their relative order |
| NoteLists.WithoutAbsent | src/app.jsx:123 | deleting an id that no note has leaves the list unchanged |
| NoteLists.WithoutLength | src/app.jsx:123 | the list shrinks by exactly the number of notes with the id |
| NoteLists.WithoutKeepsUnique | src/app.jsx:123 | the filter keeps ids unique |
| NoteLists.Flip | src/app.jsx:145-146 | every field but `completed` is kept; the new flag is defined and truthy iff the old one was not |
| NoteLists.ToggleIfMatch | src/app.jsx:144-148 | the id is kept, and the note changes iff it has the id |
| NoteLists.Toggled | src/app.jsx:143-149 | the map keeps the length; `ToggledAt` gives each position |
| NoteLists.ToggledFlag | src/app.jsx:141-145 | when defined, the reported flag is the negated flag of some note with the id; `ToggledFlagIsLast` says which |
| NoteLists.ToggledFlagIsLast | src/app.jsx:141-149 | for a note with the id that no later note shares, the reported flag is that note's negated flag: the callback's last assignment wins |
| NoteLists.ToggledAt | src/app.jsx:143-149 | the toggle map keeps the length; at every position it negates the flag of a matching note, keeps all its other fields, and leaves other notes unchanged |
| NoteLists.ToggledPointwise | src/app.jsx:143-149 | the same, for all positions at once |
| NoteLists.ToggledAbsent | src/app.jsx:141-149 | with no matching id, the list is unchanged and `completed` stays undefined |
| NoteLists.ToggledFlagDefined | src/app.jsx:141-149 | the reported `completed` is defined iff some note has the id |
| NoteLists.ToggledFlagOfUnique | src/app.jsx:141-149 | with unique ids, the reported `completed` is the negated old flag of the matching note, and equals that note's flag in the new list |
| NoteLists.ToggledTwice | src/app.jsx:143-149 | toggling twice restores the list when every matching note has a defined flag |
| NoteLists.ToggledKeepsUnique | src/app.jsx:143-149 | the toggle keeps ids unique |
| NoteLists.ToggleCompleted | src/app.jsx:141-149 | the loop builds exactly the toggled list and leaves in `completed` the last matching note's negated flag (undefined if none) |
| NotesApp.SeedStep | src/app.jsx:80-81 | the seed dispatch; stated by `SeedShowsPlaceholder` |
| NotesApp.FetchStep | src/app.jsx:69-77 | the fetch's dispatch for either outcome; stated by `FetchSettles` |
| NotesApp.CreateStep | src/app.jsx:99-120 | the dispatch of `createNote`; stated by `CreatePrependsNewNote` |
| NotesApp.DeleteStep | src/app.jsx:122-138 | the dispatch of `deleteNote`; stated by `DeleteRemovesNote` |
| NotesApp.ToggleStep | src/app.jsx:140-164 | the dispatch of `updateNote`; stated by `ToggleFlipsMatching` |
| NotesApp.PushStep | src/app.jsx:87-93 | the subscription callback; stated by `PushFiltersEcho` |
| NotesApp.SeedShowsPlaceholder | src/app.jsx:80-81 | mounting shows exactly the placeholder note (name "Hi there!", nothing else set), with loading already off and no error |
| NotesApp.FetchSettles | src/app.jsx:69-77 | a successful fetch replaces the list and keeps `error`; a failed one raises `error` and keeps the list; either way loading is off |
| NotesApp.CreatePrependsNewNote | src/app.jsx:99-120 | creating prepends a note with the submitted name and description, this client's id, `completed = false` and the given id, keeps the flags and the old list as tail, and keeps ids unique when the id is fresh |
| NotesApp.PrependKeepsUnique | src/app.jsx:30-31 | prepending a note with a fresh id keeps ids unique |
| NotesApp.DeleteRemovesNote | src/app.jsx:122-138 | deleting sets the list to the order-keeping filter of the old one, leaves no note with the id, keeps exactly the other notes, leaves the list unchanged for an unknown id, shrinks it by one when ids are unique and the id is present, and turns loading off |
| NotesApp.ToggleFlipsMatching | src/app.jsx:140-164 | toggling negates the flag of the matching notes only, keeps length, order and every other field, leaves the list unchanged for an unknown id, keeps ids unique and turns loading off |
| NotesApp.PushFiltersEcho | src/app.jsx:86-93 | a pushed note with this client's id leaves the state unchanged; any other is prepended exactly as `ADD_NOTE` does |
| NotesApp.EchoAppearsOnce | src/app.jsx:86-120 | a note created here with a fresh id and then echoed back by the subscription is in the list exactly once |
| NotesApp.EchoBeforeCreateAppearsOnce | src/app.jsx:86-120 | the same when the echo arrives before the create's delayed `ADD_NOTE` |
| NotesApp.FetchedThenPushedTwice | src/app.jsx:69-93 | another client's note that arrives in the fetched list and is pushed after the fetch has settled is listed twice |
| NotesApp.PushedThenFetchedOnce | src/app.jsx:69-93 | when the push comes before the fetch settles, the fetch's `SET_NOTES` replaces the list and the note is listed once |
| NotesApp.FetchDiscardsEarlierNotes | src/app.jsx:69-120 | a note pushed or created before the fetch settles is on the list until then, and absent afterwards when the fetched list lacks its id |
| NotesApp.SampleSession | src/app.jsx:68-138 | fetch `[a]`, create, delete `a`, push a foreign `b`: the lists are `[a]`, `[new, a]`, `[new]`, `[b, new]` |
| NotesApp.ApplyKeepsUnique | src/app.jsx:69-164 | each handler step and fetch result keeps ids unique when the ids it brings in are fresh |
| NotesApp.ReplayKeepsUnique | src/app.jsx:69-164 | no session of creates, deletes, toggles, pushes and fetch results with fresh ids ever holds two notes with one id |
| NotesApp.ReplayKeepsFlags | src/app.jsx:69-164 | after any session `error` is up iff it was up or a fetch failed; no session turns loading back on |
| NotesApp.App.constructor | src/app.jsx:16-66 | a new component holds the initial state and the client id it is given |
| NotesApp.App.Dispatch | src/app.jsx:66 | dispatch replaces the state with the reducer applied to it |
| NotesApp.App.Seed | src/app.jsx:80-81 | the mount effect's seed dispatch: the placeholder alone, loading off |
| NotesApp.App.SettleFetch | src/app.jsx:69-77 | the fetch's dispatch: `SET_NOTES` of the items on success, `ERROR` on failure |
| NotesApp.App.CreateNote | src/app.jsx:99-120 | once the remote call has settled, whatever the answer, the new state has the built note at the head of the old list, and ids stay unique |
| NotesApp.App.DeleteNote | src/app.jsx:122-138 | once the remote call has settled, whatever the answer, the new state is the filtered list; no note with the id remains; an unknown id leaves the list unchanged |
| NotesApp.App.UpdateNote | src/app.jsx:140-164 | once the remote call has settled, whatever the answer, the new state is the toggled list; the value sent is the last matching note's negated flag, defined iff the id is present |
| NotesApp.App.OnCreateNote | src/app.jsx:86-93 | an echo leaves the state unchanged; any other note goes through `ADD_NOTE` |
| EarlyApp.EarlyInitialState | src/app.js:7-12 | no notes, loading on, no error, an empty form; stated by `EarlyInitialIsEmpty` |
| EarlyApp.EarlyReduce | src/app.js:14-23 | no action changes the form; `error` is up iff it was up or the action is `ERROR`; `loading` stays on iff the action is neither `SET_NOTES` nor `ERROR` |
| EarlyApp.EarlyInitialIsEmpty | src/app.js:7-12 | the initial state has no notes, is loading, has no error and an empty form |
| EarlyApp.EarlySetNotesReplacesList | src/app.js:16-17 | `SET_NOTES` replaces the list, turns loading off and keeps `error` and the form |
| EarlyApp.EarlyErrorRaisesFlag | src/app.js:18-19 | `ERROR` turns loading off, raises `error` and keeps the list and the form |
| EarlyApp.EarlyDefaultIsIdentity | src/app.js:20-21 | every other action, `ADD_NOTE` included, returns the state unchanged |
| EarlyApp.EarlyFormConstant | src/app.js:7-23 | no run of actions changes the form |
| EarlyApp.EarlyErrorIsSticky | src/app.js:14-23 | once `error` is up, no run of actions lowers it |
| EarlyApp.EarlyRunAgrees | src/app.js:14-23 | apart from the form, the earlier reducer agrees with the later one on every run without `ADD_NOTE` |

## Left out

- The Amplify GraphQL calls and the query, mutation and subscription documents are remote I/O. Their results are the `FetchOutcome` and `WriteOutcome` parameters. No handler's dispatch depends on a write's outcome.
- Subscribing on mount and unsubscribing on unmount are remote I/O. Only the `next` callback is modelled (`App.OnCreateNote`).
- `uuid()` is a foreign library. The client id and every generated id are arguments.
- The client id is a module-level constant in the source (src/app.jsx:16), so every `App` mounted in one page shares it. The model hands each `App` the id it is constructed with. It does not capture that two mounted components would drop each other's notes as echoes.
- NotesApp.App.CreateNote: requires the generated id to be absent from the list, which stands in for `uuid()` producing a fresh id.
- Asynchronous interleaving is not modelled. The source's `deleteNote` and `updateNote` compute from the `state.notes` captured before their `await`. The model applies each handler to the state it is called with, so it does not capture a stale list overwriting a concurrent change.
- React hooks, rendering, styled-components, antd widgets and `console.log` are view layer.
- The Formik/Yup form and its "required" validation are a library-driven view layer. The handlers do not re-check the name and description, so neither does the model.
- The mount effect of `src/app.js` (a placeholder with id `foo`, then the fetch) is left out. It has the same shape as the later effect, which `SeedStep` and `FetchStep` model.
