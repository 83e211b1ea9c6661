/** The list transforms the handlers of src/app.jsx compute before they
    dispatch: the note a submission builds, the filter of a delete, and the
    map of a completion toggle. */
module NoteLists {
  import opened Notes

  /** The note a form submission becomes: the submitted fields, this
      client's id, not completed, and a fresh id. */
  function NewNote(name: string, description: string, clientId: string, id: string): Note
  {
    Note(id, name, Some(description), Some(false), Some(clientId))
  }

  /** The note seeded before the first fetch answers. It has a name only. */
  function Placeholder(id: string): Note
  {
    Note(id, "Hi there!", None, None, None)
  }

  // ---------------------------------------------------------------------
  // Delete: keep every note whose id differs.

  function Without(notes: seq<Note>, id: string): (r: seq<Note>)
    ensures |r| <= |notes|
    ensures forall k :: 0 <= k < |r| ==> r[k].id != id
  {
    if notes == [] then []
    else (if notes[0].id == id then [] else [notes[0]]) + Without(notes[1..], id)
  }

  /** A note survives exactly when it was in the list and has another id. */
  lemma {:induction false} WithoutMembers(notes: seq<Note>, id: string)
    ensures forall n :: n in Without(notes, id) <==> n in notes && n.id != id
  {
    if notes != [] {
      WithoutMembers(notes[1..], id);
      assert notes == [notes[0]] + notes[1..];
    }
  }

  lemma WithoutRemovesId(notes: seq<Note>, id: string)
    ensures !HasId(Without(notes, id), id)
  {
    WithoutMembers(notes, id);
    var r := Without(notes, id);
    forall k | 0 <= k < |r| ensures r[k].id != id {
      assert r[k] in r;
    }
  }

  /** Filtering distributes over concatenation, so the survivors keep their
      relative order. */
  lemma {:induction false} WithoutConcat(xs: seq<Note>, ys: seq<Note>, id: string)
    ensures Without(xs + ys, id) == Without(xs, id) + Without(ys, id)
  {
    if xs == [] {
      assert xs + ys == ys;
    } else {
      assert (xs + ys)[0] == xs[0] && (xs + ys)[1..] == xs[1..] + ys;
      WithoutConcat(xs[1..], ys, id);
    }
  }

  /** Deleting an id no note carries changes nothing. */
  lemma {:induction false} WithoutAbsent(notes: seq<Note>, id: string)
    requires !HasId(notes, id)
    ensures Without(notes, id) == notes
  {
    if notes != [] {
      assert notes[0].id != id;
      assert !HasId(notes[1..], id) by {
        forall k | 0 <= k < |notes[1..]| ensures notes[1..][k].id != id {
          assert notes[1..][k] == notes[k + 1];
        }
      }
      WithoutAbsent(notes[1..], id);
      assert notes == [notes[0]] + notes[1..];
    }
  }

  /** Exactly the entries carrying the id are dropped. */
  lemma {:induction false} WithoutLength(notes: seq<Note>, id: string)
    ensures |Without(notes, id)| == |notes| - Count(notes, id)
  {
    if notes != [] {
      WithoutLength(notes[1..], id);
    }
  }

  /** The remaining notes never acquire a shared id. */
  lemma {:induction false} WithoutKeepsUnique(notes: seq<Note>, id: string)
    requires UniqueIds(notes)
    ensures UniqueIds(Without(notes, id))
  {
    if notes != [] {
      var tail := notes[1..];
      assert UniqueIds(tail) by {
        forall i, j | 0 <= i < j < |tail| ensures tail[i].id != tail[j].id {
          assert tail[i] == notes[i + 1] && tail[j] == notes[j + 1];
        }
      }
      WithoutKeepsUnique(tail, id);
      WithoutMembers(tail, id);
      var rest := Without(tail, id);
      if notes[0].id != id {
        var r := [notes[0]] + rest;
        forall i, j | 0 <= i < j < |r| ensures r[i].id != r[j].id {
          if i == 0 {
            assert r[j] == rest[j - 1] && rest[j - 1] in tail;
            var k :| 0 <= k < |tail| && tail[k] == rest[j - 1];
            assert notes[k + 1] == tail[k];
          } else {
            assert r[i] == rest[i - 1] && r[j] == rest[j - 1];
          }
        }
      }
    }
  }

  // ---------------------------------------------------------------------
  // Toggle: negate `completed` on every note with the id.

  /** JavaScript's `{ ...note, completed: !note.completed }`: an undefined
      flag negates to true. */
  function Flip(n: Note): (r: Note)
    ensures r.(completed := n.completed) == n
    ensures r.completed.Some? && (Truthy(r.completed) <==> !Truthy(n.completed))
  {
    n.(completed := Some(!Truthy(n.completed)))
  }

  /** A note changes exactly when it has the id. */
  function ToggleIfMatch(n: Note, id: string): (r: Note)
    ensures r.id == n.id
    ensures r == n <==> n.id != id
  {
    if n.id == id then Flip(n) else n
  }

  /** The list the toggle's `map` builds. */
  function Toggled(notes: seq<Note>, id: string): (r: seq<Note>)
    ensures |r| == |notes|
  {
    if notes == [] then [] else [ToggleIfMatch(notes[0], id)] + Toggled(notes[1..], id)
  }

  /** The value the map's callback leaves in the outer `completed`: the
      negated flag of the last note with the id, undefined if none has it. */
  function ToggledFlag(notes: seq<Note>, id: string): (r: Option<bool>)
    ensures r.Some? ==>
      exists k :: 0 <= k < |notes| && notes[k].id == id && r == Some(!Truthy(notes[k].completed))
  {
    if notes == [] then None
    else if notes[|notes| - 1].id == id then Some(!Truthy(notes[|notes| - 1].completed))
    else ToggledFlag(notes[..|notes| - 1], id)
  }

  /** The toggle keeps length and order: a matching note has its flag
      negated and every other field kept; any other note is untouched. */
  lemma {:induction false} ToggledAt(notes: seq<Note>, id: string, k: nat)
    requires k < |notes|
    ensures |Toggled(notes, id)| == |notes|
    ensures Toggled(notes, id)[k] ==
      if notes[k].id == id then notes[k].(completed := Some(!Truthy(notes[k].completed)))
      else notes[k]
  {
    if k > 0 {
      ToggledAt(notes[1..], id, k - 1);
    } else if |notes| > 1 {
      ToggledAt(notes[1..], id, 0);
    }
  }

  lemma ToggledPointwise(notes: seq<Note>, id: string)
    ensures |Toggled(notes, id)| == |notes|
    ensures forall k :: 0 <= k < |notes| ==> Toggled(notes, id)[k] == ToggleIfMatch(notes[k], id)
  {
    if notes == [] {
    } else {
      ToggledAt(notes, id, 0);
      forall k | 0 <= k < |notes| ensures Toggled(notes, id)[k] == ToggleIfMatch(notes[k], id) {
        ToggledAt(notes, id, k);
      }
    }
  }

  /** Toggling an id no note carries changes nothing and reports undefined. */
  lemma ToggledAbsent(notes: seq<Note>, id: string)
    requires !HasId(notes, id)
    ensures Toggled(notes, id) == notes
    ensures ToggledFlag(notes, id) == None
  {
    ToggledPointwise(notes, id);
    ToggledFlagDefined(notes, id);
  }

  /** The reported flag is defined exactly when some note has the id. */
  lemma {:induction false} ToggledFlagDefined(notes: seq<Note>, id: string)
    ensures ToggledFlag(notes, id).Some? <==> HasId(notes, id)
    decreases |notes|
  {
    if notes != [] {
      var init := notes[..|notes| - 1];
      ToggledFlagDefined(init, id);
      if HasId(init, id) {
        var k :| 0 <= k < |init| && init[k].id == id;
        assert notes[k].id == id;
      }
      if HasId(notes, id) && notes[|notes| - 1].id != id {
        var k :| 0 <= k < |notes| && notes[k].id == id;
        assert init[k].id == id;
      }
    }
  }

  /** The reported flag is the negated flag of the last note with the id:
      for the note at `k`, when no note after it has the id. */
  lemma {:induction false} ToggledFlagIsLast(notes: seq<Note>, id: string, k: nat)
    requires k < |notes| && notes[k].id == id
    requires forall j :: k < j < |notes| ==> notes[j].id != id
    ensures ToggledFlag(notes, id) == Some(!Truthy(notes[k].completed))
    decreases |notes|
  {
    var last := |notes| - 1;
    if k < last {
      var init := notes[..last];
      assert init[k] == notes[k];
      forall j | k < j < |init| ensures init[j].id != id {
        assert init[j] == notes[j];
      }
      ToggledFlagIsLast(init, id, k);
    }
  }

  /** With unique ids, the reported flag is the new flag of the one note
      that has the id, as it stands in the toggled list. */
  lemma {:induction false} ToggledFlagOfUnique(notes: seq<Note>, id: string, j: nat)
    requires UniqueIds(notes)
    requires j < |notes| && notes[j].id == id
    ensures ToggledFlag(notes, id) == Some(!Truthy(notes[j].completed))
    ensures |Toggled(notes, id)| == |notes| && ToggledFlag(notes, id) == Toggled(notes, id)[j].completed
    decreases |notes|
  {
    ToggledAt(notes, id, j);
    var last := |notes| - 1;
    if j < last {
      assert notes[last].id != id;
      var init := notes[..last];
      assert UniqueIds(init) by {
        forall a, b | 0 <= a < b < |init| ensures init[a].id != init[b].id {
          assert init[a] == notes[a] && init[b] == notes[b];
        }
      }
      assert init[j] == notes[j];
      ToggledFlagOfUnique(init, id, j);
      ToggledAt(init, id, j);
    }
  }

  /** Toggling twice restores the list when every matching note has a
      defined flag; an undefined flag comes back as `false`. */
  lemma {:induction false} ToggledTwice(notes: seq<Note>, id: string)
    requires forall k :: 0 <= k < |notes| && notes[k].id == id ==> notes[k].completed.Some?
    ensures Toggled(Toggled(notes, id), id) == notes
  {
    ToggledPointwise(notes, id);
    ToggledPointwise(Toggled(notes, id), id);
    forall k | 0 <= k < |notes| ensures Toggled(Toggled(notes, id), id)[k] == notes[k] {
      if notes[k].id == id {
        assert notes[k].completed.Some?;
      }
    }
  }

  /** Toggling keeps every id in place, so unique ids stay unique. */
  lemma ToggledKeepsUnique(notes: seq<Note>, id: string)
    requires UniqueIds(notes)
    ensures UniqueIds(Toggled(notes, id))
  {
    ToggledPointwise(notes, id);
  }

  /** The toggle's `map`, with its callback assigning the outer
      `completed` each time it meets the id. */
  method ToggleCompleted(notes: seq<Note>, id: string) returns (result: seq<Note>, completed: Option<bool>)
    ensures result == Toggled(notes, id)
    ensures completed == ToggledFlag(notes, id)
  {
    result, completed := [], None;
    var i := 0;
    while i < |notes|
      invariant 0 <= i <= |notes|
      invariant |result| == i
      invariant forall k :: 0 <= k < i ==> result[k] == ToggleIfMatch(notes[k], id)
      invariant completed == ToggledFlag(notes[..i], id)
    {
      var note := notes[i];
      if note.id == id {
        completed := Some(!Truthy(note.completed));
        note := note.(completed := completed);
      }
      assert notes[..i + 1][..i] == notes[..i];
      result := result + [note];
      i := i + 1;
    }
    assert notes[..i] == notes;
    ToggledPointwise(notes, id);
  }
}
