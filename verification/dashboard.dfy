/**
 * The product dashboard page: a controller holding the listed rows, a loading
 * flag, the dialog's open flag, the product being edited and the grid's row
 * selection, driven by the Add, Edit, Delete, Save and Cancel handlers.
 *
 * Every handler is one atomic transition. The outcome of each HTTP request it
 * makes (did it succeed, and with what data) is an input, and the handler
 * returns the requests it issued, in order.
 */
module DashboardPage {
  import opened Wrappers

  /** A product as the page holds it. */
  datatype Row = Row(id: int, name: string, price: real, stock: int)

  /** The body of a save request: a product without its id. */
  datatype Payload = Payload(name: string, price: real, stock: int)

  /** The HTTP requests the page issues against `/products`. */
  datatype Request =
    | Get                              // GET /products
    | Post(body: Payload)              // POST /products
    | Put(id: int, body: Payload)      // PUT /products/{id}
    | Delete(id: int)                  // DELETE /products/{id}

  const AddTitle := "Add Product"
  const EditTitle := "Edit Product"

  /** The draft the Add button opens the dialog with. */
  const NewDraft := Row(0, "", 0.0, 0)

  /** JavaScript truthiness of a numeric id: only 0 is falsy. */
  predicate Truthy(id: int) {
    id != 0
  }

  /** A row selection is a set: no id occurs twice. */
  predicate Distinct(ids: seq<int>) {
    forall i, j :: 0 <= i < j < |ids| ==> ids[i] != ids[j]
  }

  /** `rows.find(r => r.id === id)`: the first row with that id, if any. */
  function FindRow(rows: seq<Row>, id: int): (r: Option<Row>)
    ensures r.None? <==> forall i :: 0 <= i < |rows| ==> rows[i].id != id
    ensures r.Some? ==> exists i :: 0 <= i < |rows| && rows[i] == r.value && r.value.id == id &&
                                    forall j :: 0 <= j < i ==> rows[j].id != id
  {
    if rows == [] then None
    else if rows[0].id == id then Some(rows[0])
    else
      var r := FindRow(rows[1..], id);
      assert r.Some? ==> exists i :: 0 < i < |rows| && rows[i] == r.value && r.value.id == id &&
                                     forall j :: 0 <= j < i ==> rows[j].id != id by {
        if r.Some? {
          var i :| 0 <= i < |rows[1..]| && rows[1..][i] == r.value && r.value.id == id &&
                   forall j :: 0 <= j < i ==> rows[1..][j].id != id;
          assert forall j :: 0 < j < i + 1 ==> rows[j] == rows[1..][j - 1];
        }
      }
      r
  }

  /**
   * The request Save issues for the product being edited: PUT keyed by its id
   * when that id is truthy, POST otherwise. The body never carries an id.
   */
  function SaveRequest(editing: Option<Row>, payload: Payload): (r: Request)
    ensures r.Put? <==> editing.Some? && editing.value.id != 0
    ensures r.Put? ==> r.id == editing.value.id
    ensures r.Post? <==> !r.Put?
    ensures (r.Post? || r.Put?) && r.body == payload
  {
    if editing.Some? && Truthy(editing.value.id) then Put(editing.value.id, payload) else Post(payload)
  }

  class Dashboard {
    var rows: seq<Row>
    var loading: bool
    var open: bool
    var editing: Option<Row>
    /** The selected row ids, in the order they were selected. */
    var selection: seq<int>

    /** The selection is a set, and the dialog is only ever open on a draft. */
    ghost predicate Valid()
      reads this
    {
      Distinct(selection) && (open ==> editing.Some?)
    }

    /** The initial state: no rows, loading, dialog closed, nothing edited or selected. */
    constructor ()
      ensures Valid()
      ensures rows == [] && loading && !open && editing == None && selection == []
    {
      rows, loading, open, editing, selection := [], true, false, None, [];
    }

    /** `selectedId`: the first id selected, undefined when nothing is. */
    function SelectedId(): (r: Option<int>)
      reads this
      ensures r.None? <==> |selection| == 0
      ensures r.Some? ==> r.value in selection && r.value == selection[0]
    {
      if |selection| > 0 then Some(selection[0]) else None
    }

    /** Edit and Delete are enabled when `selectedId` is truthy, so a selected id 0 disables them. */
    function ActionsEnabled(): (b: bool)
      reads this
      ensures b <==> |selection| > 0 && selection[0] != 0
      ensures b ==> SelectedId().Some?
    {
      SelectedId().Some? && Truthy(SelectedId().value)
    }

    /** The dialog title: "Edit Product" exactly when the edited product has a truthy id. */
    function DialogTitle(): (t: string)
      reads this
      ensures t == EditTitle <==> editing.Some? && editing.value.id != 0
      ensures t == AddTitle <==> !(editing.Some? && editing.value.id != 0)
    {
      if editing.Some? && Truthy(editing.value.id) then EditTitle else AddTitle
    }

    /** The grid reports a new selection. */
    method SetSelection(ids: seq<int>)
      requires Valid() && Distinct(ids)
      modifies this
      ensures Valid()
      ensures selection == ids
      ensures rows == old(rows) && loading == old(loading) && open == old(open) && editing == old(editing)
    {
      selection := ids;
    }

    /**
     * `fetchData`: sets the loading flag and issues GET. On success (`fetched`
     * holds the response) the rows are replaced wholesale and loading ends; on
     * failure the rows stay and the loading flag stays set.
     */
    method FetchData(fetched: Option<seq<Row>>) returns (issued: seq<Request>)
      requires Valid()
      modifies this
      ensures Valid()
      ensures issued == [Get]
      ensures rows == (if fetched.Some? then fetched.value else old(rows))
      ensures loading == fetched.None?
      ensures open == old(open) && editing == old(editing) && selection == old(selection)
    {
      loading := true;
      issued := [Get];
      if fetched.Some? {
        rows := fetched.value;
        loading := false;
      }
    }

    /** `onAdd`, from any state: opens the dialog on a blank draft with id 0. */
    method OnAdd()
      requires Valid()
      modifies this
      ensures Valid()
      ensures editing == Some(NewDraft) && open
      ensures rows == old(rows) && loading == old(loading) && selection == old(selection)
    {
      editing := Some(NewDraft);
      open := true;
    }

    /**
     * `onEdit`: without a selected id, or when no row has it, nothing changes;
     * otherwise the dialog opens on the first row with that id. It issues no request.
     */
    method OnEdit()
      requires Valid()
      modifies this
      ensures Valid()
      ensures old(SelectedId()).None? ==> open == old(open) && editing == old(editing)
      ensures old(SelectedId()).Some? ==>
        var item := FindRow(old(rows), old(SelectedId()).value);
        && (item.None? ==> open == old(open) && editing == old(editing))
        && (item.Some? ==> open && editing == item)
      ensures rows == old(rows) && loading == old(loading) && selection == old(selection)
    {
      var id := SelectedId();
      if id.None? {
        return;
      }
      var item := FindRow(rows, id.value);
      if item.Some? {
        editing := item;
        open := true;
      }
    }

    /**
     * `onDelete`: without a selected id, nothing. Otherwise issues DELETE for it
     * and, only when that succeeds, refreshes the list.
     */
    method OnDelete(deleted: bool, fetched: Option<seq<Row>>) returns (issued: seq<Request>)
      requires Valid()
      modifies this
      ensures Valid()
      ensures old(SelectedId()).None? ==> issued == [] && rows == old(rows) && loading == old(loading)
      ensures old(SelectedId()).Some? ==>
        issued == [Delete(old(SelectedId()).value)] + (if deleted then [Get] else [])
      ensures old(SelectedId()).Some? && deleted ==>
        rows == (if fetched.Some? then fetched.value else old(rows)) && loading == fetched.None?
      ensures !deleted ==> rows == old(rows) && loading == old(loading)
      ensures open == old(open) && editing == old(editing) && selection == old(selection)
    {
      var id := SelectedId();
      if id.None? {
        return [];
      }
      issued := [Delete(id.value)];
      if deleted {
        var refresh := FetchData(fetched);
        issued := issued + refresh;
      }
    }

    /**
     * `onSave`: issues the save request for the form's values. Only when it
     * succeeds does the dialog close, the draft clear and one refresh start.
     */
    method OnSave(form: Payload, saved: bool, fetched: Option<seq<Row>>) returns (issued: seq<Request>)
      requires Valid()
      modifies this
      ensures Valid()
      ensures issued == [SaveRequest(old(editing), form)] + (if saved then [Get] else [])
      ensures saved ==> !open && editing == None
      ensures saved ==> rows == (if fetched.Some? then fetched.value else old(rows)) && loading == fetched.None?
      ensures !saved ==> open == old(open) && editing == old(editing)
      ensures !saved ==> rows == old(rows) && loading == old(loading)
      ensures selection == old(selection)
    {
      issued := [SaveRequest(editing, form)];
      if saved {
        open := false;
        editing := None;
        var refresh := FetchData(fetched);
        issued := issued + refresh;
      }
    }

    /** The dialog's close and Cancel handlers: close the dialog, keep the draft. */
    method Close()
      requires Valid()
      modifies this
      ensures Valid()
      ensures !open
      ensures editing == old(editing) && rows == old(rows) && loading == old(loading) && selection == old(selection)
    {
      open := false;
    }
  }

  /**
   * A selected id of 0 disables Edit and Delete, yet it is a selected id, so
   * the handlers' own `== null` guard lets it through.
   */
  lemma ZeroSelectionQuirk(d: Dashboard)
    requires |d.selection| > 0 && d.selection[0] == 0
    ensures !d.ActionsEnabled()
    ensures d.SelectedId() == Some(0)
  {
  }

  /** An edited product with id 0 is saved with POST, and its dialog reads "Add Product". */
  lemma ZeroIdDraftIsPosted(d: Dashboard, form: Payload)
    requires d.editing.Some? && d.editing.value.id == 0
    ensures SaveRequest(d.editing, form) == Post(form)
    ensures d.DialogTitle() == AddTitle
  {
  }

  /**
   * The dialog is only open on a draft, and its title tells what Save will do:
   * "Edit Product" exactly when Save issues PUT for the draft's id, "Add
   * Product" exactly when it issues POST.
   */
  lemma OpenDialogTitleMatchesSave(d: Dashboard, form: Payload)
    requires d.Valid() && d.open
    ensures d.editing.Some?
    ensures d.DialogTitle() == EditTitle <==> SaveRequest(d.editing, form) == Put(d.editing.value.id, form)
    ensures d.DialogTitle() == AddTitle <==> SaveRequest(d.editing, form) == Post(form)
  {
  }
}
