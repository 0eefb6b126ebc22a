/** The older add form (my-ootd/src/app/closet/AddClothForm.tsx): new tags are
    taken as typed, with no validation, and the image is uploaded before the
    cloth row is inserted.  The category is an input here: the table this form
    imports is not exported by the older Gallery. */
module OotdAddClothForm {
  import opened Common
  import opened ClosetTypes
  import opened StyleTags
  import New = FrontendAddClothForm

  /** What the services answer.  A `None` call throws; `publicUrl` is what
      `uploadImageToSupabase` returns, `None` when the upload reports an
      error, and a falsy URL throws before the cloth is inserted. */
  datatype Responses = Responses(
    savedNew: Option<seq<StyleTag>>,
    publicUrl: Option<string>,
    clothId: Option<nat>,
    linked: bool)

  /** How far a submit gets: each stage needs the ones before it. */
  predicate TagsSaved(added: seq<StyleTag>, resp: Responses) {
    |added| == 0 || resp.savedNew.Some?
  }

  predicate UrlKnown(added: seq<StyleTag>, resp: Responses) {
    TagsSaved(added, resp) && resp.publicUrl.Some? && resp.publicUrl.value != ""
  }

  predicate ClothSaved(added: seq<StyleTag>, resp: Responses) {
    UrlKnown(added, resp) && resp.clothId.Some?
  }

  /** `savedNewStyles`: [] when no tag was typed in. */
  function SavedNew(added: seq<StyleTag>, resp: Responses): seq<StyleTag> {
    if |added| > 0 && resp.savedNew.Some? then resp.savedNew.value else []
  }

  /** `${Date.now()}-${sanitizeFileName(file.name)}`. */
  function UploadName(now: nat, fileName: string): (r: string)
    ensures SplitOnce(r, '-').Some? && SplitOnce(r, '-').value.0 == NatToString(now)
  {
    var r := NatToString(now) + "-" + Sanitize(fileName);
    assert forall k :: 0 <= k < |NatToString(now)| ==> NatToString(now)[k] != '-';
    UniqueSplit(r, NatToString(now), Sanitize(fileName));
    r
  }

  /** The calls from the upload on: a truthy URL lets the cloth be inserted
      with it, and an inserted cloth gets its style links. */
  function FromUpload(name: string, kind: string, category: string, colour: string, selected: seq<StyleTag>,
                      saved: seq<StyleTag>, n: string, resp: Responses): (o: New.Outcome)
    ensures var url := resp.publicUrl.Some? && resp.publicUrl.value != "";
      |o.calls| == 1 + (if url then 1 else 0) + (if url && resp.clothId.Some? then 1 else 0)
    ensures o.calls[0] == New.UploadImage(n)
    ensures resp.publicUrl.Some? && resp.publicUrl.value != "" ==>
      o.calls[1] == New.AddCloth(New.NewCloth(name, kind, category, colour, resp.publicUrl.value))
    ensures resp.publicUrl.Some? && resp.publicUrl.value != "" && resp.clothId.Some? ==>
      o.calls[2] == New.AddClothStyles(StyleRows(Num(resp.clothId.value), StyleIds(selected, saved)))
    ensures o.ok <==> resp.publicUrl.Some? && resp.publicUrl.value != "" && resp.clothId.Some? && resp.linked
  {
    var up := New.UploadImage(n);
    if resp.publicUrl.None? || resp.publicUrl.value == "" then New.Outcome([up], false)
    else
      var add := New.AddCloth(New.NewCloth(name, kind, category, colour, resp.publicUrl.value));
      if resp.clothId.None? then New.Outcome([up, add], false)
      else New.Outcome([up, add, New.AddClothStyles(StyleRows(Num(resp.clothId.value), StyleIds(selected, saved)))],
                       resp.linked)
  }

  /** `handleSubmit` once an image is chosen: typed-in tags are created first,
      then the image is uploaded, and only with a truthy URL is the cloth
      inserted and linked; the first call that throws ends the submit. */
  function Plan(name: string, kind: string, category: string, colour: string, selected: seq<StyleTag>,
                added: seq<StyleTag>, resp: Responses, now: nat, fileName: string): (o: New.Outcome)
    ensures |o.calls| == New.Lead(added) + (if TagsSaved(added, resp) then 1 else 0)
                         + (if UrlKnown(added, resp) then 1 else 0) + (if ClothSaved(added, resp) then 1 else 0)
    ensures |added| > 0 ==> o.calls[0] == New.AddStyleTags(Names(added))
    ensures TagsSaved(added, resp) ==> o.calls[New.Lead(added)] == New.UploadImage(UploadName(now, fileName))
    ensures UrlKnown(added, resp) ==>
      o.calls[New.Lead(added) + 1] == New.AddCloth(New.NewCloth(name, kind, category, colour, resp.publicUrl.value))
    ensures ClothSaved(added, resp) ==>
      o.calls[New.Lead(added) + 2] == New.AddClothStyles(StyleRows(Num(resp.clothId.value), StyleIds(selected, SavedNew(added, resp))))
    ensures o.ok <==> ClothSaved(added, resp) && resp.linked
  {
    if |added| > 0 && resp.savedNew.None? then New.Outcome([New.AddStyleTags(Names(added))], false)
    else
      var rest := FromUpload(name, kind, category, colour, selected, SavedNew(added, resp), UploadName(now, fileName), resp);
      if |added| > 0 then
        assert ([New.AddStyleTags(Names(added))] + rest.calls)[1..] == rest.calls;
        New.Outcome([New.AddStyleTags(Names(added))] + rest.calls, rest.ok)
      else rest
  }

  /** A throwing `addStyleTags` is the only call: nothing is uploaded,
      inserted or linked. */
  lemma TagFailureStops(name: string, kind: string, category: string, colour: string, selected: seq<StyleTag>,
                        added: seq<StyleTag>, resp: Responses, now: nat, fileName: string)
    requires |added| > 0 && resp.savedNew.None?
    ensures Plan(name, kind, category, colour, selected, added, resp, now, fileName)
         == New.Outcome([New.AddStyleTags(Names(added))], false)
  {
  }

  /** A throwing `addCloth` is the last call: no style is linked. */
  lemma ClothFailureStops(name: string, kind: string, category: string, colour: string, selected: seq<StyleTag>,
                          added: seq<StyleTag>, resp: Responses, now: nat, fileName: string)
    requires UrlKnown(added, resp) && resp.clothId.None?
    ensures var o := Plan(name, kind, category, colour, selected, added, resp, now, fileName);
      !o.ok && o.calls[|o.calls| - 1] == New.AddCloth(New.NewCloth(name, kind, category, colour, resp.publicUrl.value))
      && forall c :: c in o.calls ==> !c.AddClothStyles?
  {
  }

  /** The cloth is inserted only with a truthy URL from the upload. */
  lemma InsertNeedsUrl(name: string, kind: string, category: string, colour: string, selected: seq<StyleTag>,
                       added: seq<StyleTag>, resp: Responses, now: nat, fileName: string)
    ensures var o := Plan(name, kind, category, colour, selected, added, resp, now, fileName);
      (exists k :: 0 <= k < |o.calls| && o.calls[k].AddCloth?) ==> UrlKnown(added, resp)
  {
    var o := Plan(name, kind, category, colour, selected, added, resp, now, fileName);
    if !UrlKnown(added, resp) {
      forall k | 0 <= k < |o.calls| ensures !o.calls[k].AddCloth? {
        assert k < New.Lead(added) || k == New.Lead(added);
      }
    }
  }

  class AddClothForm {
    var selectedStyles: seq<StyleTag>
    var newStyles: seq<StyleTag>
    var allStylesUI: seq<StyleTag>
    var newStyleInput: string

    constructor ()
      ensures selectedStyles == [] && newStyles == [] && allStylesUI == [] && newStyleInput == ""
    {
      selectedStyles, newStyles, allStylesUI, newStyleInput := [], [], [], "";
    }

    function Editor(): Editor
      reads this
    {
      StyleTags.Editor(selectedStyles, newStyles, allStylesUI, newStyleInput)
    }

    /** The effect on `dbTagStyles`: a non-empty list replaces the choices. */
    method SyncDbStyles(db: seq<StyleTag>)
      modifies this
      ensures allStylesUI == if |db| > 0 then db else old(allStylesUI)
      ensures selectedStyles == old(selectedStyles) && newStyles == old(newStyles) && newStyleInput == old(newStyleInput)
    {
      if |db| > 0 {
        allStylesUI := db;
      }
    }

    method Type(text: string)
      modifies this
      ensures newStyleInput == text
      ensures selectedStyles == old(selectedStyles) && newStyles == old(newStyles) && allStylesUI == old(allStylesUI)
    {
      newStyleInput := text;
    }

    /** `handleAddNewStyle`: the raw, case-sensitive input. */
    method AddNewStyle()
      modifies this
      ensures Editor() == AddTyped(old(Editor()))
    {
      var e := AddTyped(Editor());
      selectedStyles, newStyles, allStylesUI, newStyleInput := e.selected, e.added, e.shown, e.input;
    }

    method ToggleStyle(style: StyleTag)
      modifies this
      ensures selectedStyles == Toggle(old(selectedStyles), style)
      ensures newStyles == old(newStyles) && allStylesUI == old(allStylesUI) && newStyleInput == old(newStyleInput)
    {
      selectedStyles := Toggle(selectedStyles, style);
    }

    /** `handleSubmit`: nothing is uploaded or saved without an image.  The
        form is closed on success and never reset. */
    method Submit(hasImage: bool, name: string, kind: string, category: string, colour: string,
                  resp: Responses, now: nat, fileName: string) returns (sent: Option<New.Outcome>)
      ensures sent.None? <==> !hasImage
      ensures hasImage ==> sent.value == Plan(name, kind, category, colour, selectedStyles, newStyles,
                                              resp, now, fileName)
      ensures hasImage ==> (sent.value.ok <==> ClothSaved(newStyles, resp) && resp.linked)
    {
      if !hasImage {
        return None;
      }
      sent := Some(Plan(name, kind, category, colour, selectedStyles, newStyles, resp, now, fileName));
    }
  }

  /** Typing a name that differs only in case from a selected one adds a second
      tag: the check compares the exact text. */
  method CaseSensitiveDuplicate() returns (f: AddClothForm)
    ensures |f.selectedStyles| == 2 && f.selectedStyles[0].name == "casual" && f.selectedStyles[1].name == "Casual"
  {
    f := new AddClothForm();
    f.Type("casual");
    f.AddNewStyle();
    f.Type("Casual");
    assert !HasName([StyleTag("", "casual")], "Casual");
    f.AddNewStyle();
  }
}
