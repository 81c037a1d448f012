/** The home view's local list state: the readings, the reading being
    edited and whether the form is shown, with the handlers as transitions. */
module Home {
  import opened Wrappers
  import opened Seqs
  import opened Readings

  datatype HomeState = HomeState(readings: seq<Reading>, editing: Option<Reading>, showForm: bool)

  predicate HasId(rs: seq<Reading>, id: string)
  {
    exists i :: 0 <= i < |rs| && rs[i].id == id
  }

  /** `handleAddReading`: the new reading goes first and the form closes. */
  function AddReading(st: HomeState, r: Reading): (st': HomeState)
    ensures |st'.readings| == |st.readings| + 1
    ensures st'.readings[0] == r && st'.readings[1..] == st.readings
    ensures st'.editing == st.editing && !st'.showForm
  {
    HomeState([r] + st.readings, st.editing, false)
  }

  /** `handleUpdateReading`, keyed on the reading's `_id`: every reading with
      the updated reading's id is replaced by it, editing ends and the form
      closes. */
  function UpdateReading(st: HomeState, u: Reading): (st': HomeState)
    ensures |st'.readings| == |st.readings|
    ensures forall i :: 0 <= i < |st.readings| && st.readings[i].id != u.id ==>
      st'.readings[i] == st.readings[i]
    ensures forall i :: 0 <= i < |st.readings| && st.readings[i].id == u.id ==> st'.readings[i] == u
    ensures st'.editing == None && !st'.showForm
  {
    HomeState(Map(st.readings, (r: Reading) => if r.id == u.id then u else r), None, false)
  }

  /** `handleDeleteReading`, keyed on `_id`, after the user's answer to the
      confirmation: on "yes", every reading with that id goes, the others
      keep their order, and editing ends if the edited reading was the one
      deleted. */
  function DeleteReading(st: HomeState, id: string, confirmed: bool): (st': HomeState)
    ensures !confirmed ==> st' == st
    ensures confirmed ==> !HasId(st'.readings, id)
    ensures confirmed ==> forall i :: 0 <= i < |st.readings| && st.readings[i].id != id ==>
      st.readings[i] in st'.readings
    ensures confirmed ==> forall x ::
      multiset(st'.readings)[x] == if x.id == id then 0 else multiset(st.readings)[x]
    ensures confirmed && st.editing.Some? && st.editing.value.id == id ==>
      st'.editing == None && !st'.showForm
    ensures !(st.editing.Some? && st.editing.value.id == id) ==>
      st'.editing == st.editing && st'.showForm == st.showForm
  {
    if !confirmed then st
    else
      var kept := Filter(st.readings, (r: Reading) => r.id != id);
      DeleteCounts(st.readings, id);
      if st.editing.Some? && st.editing.value.id == id then HomeState(kept, None, false)
      else HomeState(kept, st.editing, st.showForm)
  }

  /** Deleting by id keeps every other reading as often as it occurred and
      no reading with that id. */
  lemma DeleteCounts(rs: seq<Reading>, id: string)
    ensures forall x ::
      multiset(Filter(rs, (r: Reading) => r.id != id))[x] == if x.id == id then 0 else multiset(rs)[x]
  {
    forall x
      ensures multiset(Filter(rs, (r: Reading) => r.id != id))[x] ==
        if x.id == id then 0 else multiset(rs)[x]
    {
      FilterMultiset(rs, (r: Reading) => r.id != id, x);
    }
  }

  /** `handleEdit`: the reading goes into the form, which opens; the list is
      untouched. */
  function Edit(st: HomeState, r: Reading): (st': HomeState)
    ensures st'.readings == st.readings
    ensures st'.editing == Some(r) && st'.showForm
  {
    HomeState(st.readings, Some(r), true)
  }

  /** `handleCancelEdit`: editing ends and the form closes; the list is
      untouched. */
  function CancelEdit(st: HomeState): (st': HomeState)
    ensures st'.readings == st.readings
    ensures st'.editing == None && !st'.showForm
  {
    HomeState(st.readings, None, false)
  }

  /** `handleAddClick`: editing ends and the form toggles. */
  function AddClick(st: HomeState): (st': HomeState)
    ensures st'.readings == st.readings && st'.editing == None
    ensures st'.showForm != st.showForm
  {
    HomeState(st.readings, None, !st.showForm)
  }

  /** The form submits to the update handler while a reading is being edited
      and to the add handler otherwise. */
  function Submit(st: HomeState, r: Reading): (st': HomeState)
    ensures st.editing.None? ==> st'.readings == [r] + st.readings
    ensures st.editing.Some? ==> |st'.readings| == |st.readings| && st'.editing == None
    ensures st.editing.Some? ==> forall i :: 0 <= i < |st.readings| ==>
      st'.readings[i] == if st.readings[i].id == r.id then r else st.readings[i]
    ensures !st'.showForm
  {
    if st.editing.Some? then UpdateReading(st, r) else AddReading(st, r)
  }

  // ---------------------------------------------------------------------
  // Properties

  /** Deleting a just-added reading whose id was new restores the list. */
  lemma DeleteUndoesAdd(st: HomeState, r: Reading)
    requires !HasId(st.readings, r.id)
    ensures DeleteReading(AddReading(st, r), r.id, true).readings == st.readings
  {
    var p := (x: Reading) => x.id != r.id;
    assert AddReading(st, r).readings == [r] + st.readings;
    FilterAll(st.readings, p);
  }

  /** Deleting from a list made of two parts deletes from each part and
      keeps them in order. */
  lemma DeleteDistributes(a: seq<Reading>, b: seq<Reading>, id: string, editing: Option<Reading>, showForm: bool)
    ensures DeleteReading(HomeState(a + b, editing, showForm), id, true).readings
         == DeleteReading(HomeState(a, editing, showForm), id, true).readings
          + DeleteReading(HomeState(b, editing, showForm), id, true).readings
  {
    FilterAppend(a, b, (r: Reading) => r.id != id);
  }

  /** An update whose id matches nothing leaves the list as it was. */
  lemma UpdateWithoutMatch(st: HomeState, u: Reading)
    requires !HasId(st.readings, u.id)
    ensures UpdateReading(st, u).readings == st.readings
  {
  }

  /** Applying the same update twice is applying it once. */
  lemma UpdateIdempotent(st: HomeState, u: Reading)
    ensures UpdateReading(UpdateReading(st, u), u).readings == UpdateReading(st, u).readings
  {
  }

  /** Deleting a reading after updating it is deleting it. */
  lemma {:induction false} DeleteAfterUpdate(st: HomeState, u: Reading)
    ensures DeleteReading(UpdateReading(st, u), u.id, true).readings
         == DeleteReading(st, u.id, true).readings
  {
    DeleteAfterUpdateList(st.readings, u);
  }

  lemma {:induction false} DeleteAfterUpdateList(rs: seq<Reading>, u: Reading)
    ensures Filter(Map(rs, (r: Reading) => if r.id == u.id then u else r), (r: Reading) => r.id != u.id)
         == Filter(rs, (r: Reading) => r.id != u.id)
  {
    if |rs| > 0 {
      DeleteAfterUpdateList(rs[1..], u);
    }
  }

  /** Clicking the add button twice leaves the form as it was, with no
      reading being edited. */
  lemma AddClickTwice(st: HomeState)
    ensures AddClick(AddClick(st)) == HomeState(st.readings, None, st.showForm)
  {
  }

  /** A submitted edit replaces the edited reading in place and closes the
      form. */
  lemma SubmitWhileEditing(st: HomeState, e: Reading, u: Reading)
    ensures Submit(Edit(st, e), u) == UpdateReading(st, u)
  {
  }

  // ---------------------------------------------------------------------
  // As written: the handlers read `r.id`, a property the record does not
  // have (its id is `_id`), so every such read is `undefined`.

  /** The value of the property `id` on a reading of the declared shape. */
  function UndeclaredId(r: Reading): Option<string>
  {
    None
  }

  function UpdateAsWritten(st: HomeState, u: Reading): HomeState
  {
    HomeState(Map(st.readings, (r: Reading) => if UndeclaredId(r) == UndeclaredId(u) then u else r), None, false)
  }

  function DeleteAsWritten(st: HomeState, id: string, confirmed: bool): HomeState
  {
    if !confirmed then st
    else
      var kept := Filter(st.readings, (r: Reading) => UndeclaredId(r) != Some(id));
      if st.editing.Some? && UndeclaredId(st.editing.value) == Some(id) then HomeState(kept, None, false)
      else HomeState(kept, st.editing, st.showForm)
  }

  /** As written, an update overwrites every reading with the updated one. */
  lemma UpdateAsWrittenOverwritesAll(st: HomeState, u: Reading)
    ensures var rs := UpdateAsWritten(st, u).readings;
      |rs| == |st.readings| && forall i :: 0 <= i < |rs| ==> rs[i] == u
  {
  }

  /** As written, a confirmed delete removes nothing and never ends editing. */
  lemma DeleteAsWrittenKeepsAll(st: HomeState, id: string)
    ensures DeleteAsWritten(st, id, true) == st
  {
    FilterAll(st.readings, (r: Reading) => UndeclaredId(r) != Some(id));
  }

  /** Two readings with different ids: updating the first overwrites both as
      written, and only the first once keyed on `_id`. */
  lemma UpdateCounterexample(a: Reading, b: Reading, u: Reading)
    requires a.id == u.id && b.id != u.id
    ensures UpdateAsWritten(HomeState([a, b], None, true), u).readings == [u, u]
    ensures UpdateReading(HomeState([a, b], None, true), u).readings == [u, b]
  {
  }
}
