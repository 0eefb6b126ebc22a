/** The edit form of the closet viewer (frontend/src/app/closet/ClothViewEditForm.tsx):
    the style editor seeded from the item's stored style names, the save
    payload, and the two-step delete confirmation. */
module ClothViewEditForm {
  import opened Common
  import opened ClosetTypes
  import opened StyleTags

  /** The item as the viewer passes it: its stored styles are plain names. */
  datatype EditItem = EditItem(id: int, name: string, colour: string, kind: string, styles: Option<seq<string>>)

  /** `AddUpdateClothPayload` as `handleSave` fills it. */
  datatype UpdatePayload = UpdatePayload(id: int, name: string, colour: string, kind: string, styles: seq<StyleTag>)

  /** An id is truthy when it is not 0. */
  predicate TruthyId(id: int) { id != 0 }

  class EditForm {
    const item: Option<EditItem>
    var name: string
    var colour: string
    var kind: string
    var selectedStyles: seq<StyleTag>
    var newStyles: seq<StyleTag>
    var allStylesUI: seq<StyleTag>
    var newStyleInput: string
    var isDeleteModalOpen: bool
    var itemToDeleteId: Option<int>

    /** The initial field values fall back to "" and to the first type. */
    constructor (item: Option<EditItem>)
      ensures this.item == item
      ensures item.Some? ==> name == item.value.name && colour == item.value.colour
      ensures item.None? ==> name == "" && colour == ""
      ensures kind == if item.Some? && item.value.kind != "" then item.value.kind else "top"
      ensures selectedStyles == [] && newStyles == [] && allStylesUI == [] && newStyleInput == ""
      ensures !isDeleteModalOpen && itemToDeleteId == None
    {
      this.item := item;
      name := if item.Some? then item.value.name else "";
      colour := if item.Some? then item.value.colour else "";
      kind := if item.Some? && item.value.kind != "" then item.value.kind else "top";
      selectedStyles, newStyles, allStylesUI, newStyleInput := [], [], [], "";
      isDeleteModalOpen, itemToDeleteId := false, None;
    }

    function Editor(): Editor
      reads this
    {
      StyleTags.Editor(selectedStyles, newStyles, allStylesUI, newStyleInput)
    }

    /** The effect on `dbTagStyles`: a non-empty list replaces the choices. */
    method SyncDbStyles(db: seq<StyleTag>)
      modifies this
      ensures allStylesUI == if |db| > 0 then db else old(allStylesUI)
      ensures selectedStyles == old(selectedStyles) && newStyles == old(newStyles) && newStyleInput == old(newStyleInput)
      ensures name == old(name) && colour == old(colour) && kind == old(kind)
      ensures isDeleteModalOpen == old(isDeleteModalOpen) && itemToDeleteId == old(itemToDeleteId)
    {
      if |db| > 0 {
        allStylesUI := db;
      }
    }

    /** The effect on `item` and `dbTagStyles`: the selection becomes the
        item's stored names matched against the database tags. */
    method SeedSelection(db: seq<StyleTag>)
      modifies this
      ensures item.None? ==> selectedStyles == old(selectedStyles)
      ensures item.Some? ==> selectedStyles == InitialSelection(if item.value.styles.Some? then item.value.styles.value else [], db)
      ensures newStyles == old(newStyles) && allStylesUI == old(allStylesUI) && newStyleInput == old(newStyleInput)
      ensures isDeleteModalOpen == old(isDeleteModalOpen) && itemToDeleteId == old(itemToDeleteId)
    {
      if item.None? {
        return;
      }
      var names := if item.value.styles.Some? then item.value.styles.value else [];
      selectedStyles := InitialSelection(names, db);
    }

    method Type(text: string)
      modifies this
      ensures newStyleInput == text
      ensures selectedStyles == old(selectedStyles) && newStyles == old(newStyles) && allStylesUI == old(allStylesUI)
    {
      newStyleInput := text;
    }

    /** `handleAddNewStyle`, as in the older add form: no validation. */
    method AddNewStyle()
      modifies this
      ensures Editor() == AddTyped(old(Editor()))
      ensures isDeleteModalOpen == old(isDeleteModalOpen) && itemToDeleteId == old(itemToDeleteId)
    {
      var e := AddTyped(Editor());
      selectedStyles, newStyles, allStylesUI, newStyleInput := e.selected, e.added, e.shown, e.input;
    }

    method ToggleStyle(style: StyleTag)
      modifies this
      ensures selectedStyles == Toggle(old(selectedStyles), style)
      ensures newStyles == old(newStyles) && allStylesUI == old(allStylesUI) && newStyleInput == old(newStyleInput)
    {
      selectedStyles := Toggle(selectedStyles, style);
    }

    /** `handleSave`'s payload; it reads `item.id`, so an item must be present. */
    function SavePayload(): (p: UpdatePayload)
      requires item.Some?
      reads this
      ensures p.id == item.value.id && p.styles == selectedStyles
      ensures (p.name, p.colour, p.kind) == (name, colour, kind)
    {
      UpdatePayload(item.value.id, name, colour, kind, selectedStyles)
    }

    /** `handleDeleteClick`: a falsy id opens nothing. */
    method DeleteClick(itemId: int)
      modifies this
      ensures TruthyId(itemId) ==> isDeleteModalOpen && itemToDeleteId == Some(itemId)
      ensures !TruthyId(itemId) ==> isDeleteModalOpen == old(isDeleteModalOpen) && itemToDeleteId == old(itemToDeleteId)
      ensures Editor() == old(Editor())
    {
      if !TruthyId(itemId) {
        return;
      }
      itemToDeleteId := Some(itemId);
      isDeleteModalOpen := true;
    }

    /** `handleConfirmDelete`: `onDelete` runs only for a truthy id; the modal
        is always closed and the id cleared. */
    method ConfirmDelete() returns (deleted: Option<int>)
      modifies this
      ensures deleted.Some? <==> old(itemToDeleteId).Some? && TruthyId(old(itemToDeleteId).value)
      ensures deleted.Some? ==> deleted == old(itemToDeleteId)
      ensures !isDeleteModalOpen && itemToDeleteId == None
      ensures Editor() == old(Editor())
    {
      deleted := None;
      if itemToDeleteId.Some? && TruthyId(itemToDeleteId.value) {
        deleted := itemToDeleteId;
      }
      isDeleteModalOpen := false;
      itemToDeleteId := None;
    }
  }

  /** Opening the modal on an item and confirming deletes exactly that item and
      leaves the modal closed. */
  method ClickThenConfirm(f: EditForm, itemId: int) returns (deleted: Option<int>)
    requires TruthyId(itemId)
    modifies f
    ensures deleted == Some(itemId) && !f.isDeleteModalOpen && f.itemToDeleteId == None
  {
    f.DeleteClick(itemId);
    deleted := f.ConfirmDelete();
  }
}
