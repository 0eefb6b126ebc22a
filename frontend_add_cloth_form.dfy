/** The newer add form (frontend/src/app/closet/AddClothForm.tsx): its style
    editor state and what a submit sends.  The storage and database calls are
    abstracted; their results are parameters of `Submit`. */
module FrontendAddClothForm {
  import opened Common
  import opened ClosetTypes
  import opened StyleTags

  /** The cloth row `addCloth` receives; the image URL is filled in later. */
  datatype NewCloth = NewCloth(name: string, kind: string, category: string, colour: string, imageUrl: string)

  /** The service calls of a submit. */
  datatype Call =
    | AddStyleTags(names: seq<string>)
    | AddCloth(cloth: NewCloth)
    | AddClothStyles(rows: seq<ClothStyleRow>)
    /** The storage listing that looks for a file of that name. */
    | ListImages(search: string)
    | UploadImage(fileName: string)
    | UpdateClothImage(clothId: nat, url: string)

  /** What the services answer.  `None` or `false` is a call that throws (or,
      for `userId`, a signed-out user, whose `user!.id` throws). */
  datatype Responses = Responses(
    savedNew: Option<seq<StyleTag>>,
    clothId: Option<nat>,
    linked: bool,
    userId: Option<string>,
    /** The listing found a file with the composed name: its URL is reused. */
    existing: bool,
    /** The upload reported no error. */
    uploaded: bool,
    /** The URL `getPublicUrl` gives for the name. */
    publicUrl: string,
    imageUpdated: bool)

  /** The calls made, in order, and whether the submit succeeded. */
  datatype Outcome = Outcome(calls: seq<Call>, ok: bool)

  /** How far a submit gets: each stage needs the ones before it. */
  predicate TagsSaved(added: seq<StyleTag>, resp: Responses) {
    |added| == 0 || resp.savedNew.Some?
  }

  predicate ClothSaved(added: seq<StyleTag>, resp: Responses) {
    TagsSaved(added, resp) && resp.clothId.Some?
  }

  predicate UploadStarts(added: seq<StyleTag>, resp: Responses) {
    ClothSaved(added, resp) && resp.linked && resp.userId.Some?
  }

  /** `uploadImageToSupabase` gave a truthy URL. */
  predicate UrlKnown(added: seq<StyleTag>, resp: Responses) {
    UploadStarts(added, resp) && (resp.existing || resp.uploaded) && resp.publicUrl != ""
  }

  /** `savedNewStyles`: [] when no tag was typed in. */
  function SavedNew(added: seq<StyleTag>, resp: Responses): seq<StyleTag> {
    if |added| > 0 && resp.savedNew.Some? then resp.savedNew.value else []
  }

  /** The number of calls before `addCloth`. */
  function Lead(added: seq<StyleTag>): nat {
    if |added| > 0 then 1 else 0
  }

  /** The calls from the storage listing on, once the cloth has id `id` and the
      user is known: a found file is reused, otherwise it is uploaded; a URL
      that is falsy throws before the cloth's image is updated. */
  function FromUpload(id: nat, n: string, resp: Responses): (o: Outcome)
    ensures var found := resp.existing || resp.uploaded;
      |o.calls| == (if resp.existing then 1 else 2) + (if found && resp.publicUrl != "" then 1 else 0)
    ensures o.calls[0] == ListImages(n)
    ensures !resp.existing ==> o.calls[1] == UploadImage(n)
    ensures (resp.existing || resp.uploaded) && resp.publicUrl != "" ==>
      o.calls[|o.calls| - 1] == UpdateClothImage(id, resp.publicUrl)
    ensures o.ok <==> (resp.existing || resp.uploaded) && resp.publicUrl != "" && resp.imageUpdated
  {
    var last := if (resp.existing || resp.uploaded) && resp.publicUrl != "" then [UpdateClothImage(id, resp.publicUrl)] else [];
    var ok := (resp.existing || resp.uploaded) && resp.publicUrl != "" && resp.imageUpdated;
    if resp.existing then Outcome([ListImages(n)] + last, ok)
    else Outcome([ListImages(n), UploadImage(n)] + last, ok)
  }

  /** The calls from `addCloth` on. */
  function FromCloth(name: string, kind: string, colour: string, selected: seq<StyleTag>, added: seq<StyleTag>,
                     resp: Responses, fileName: string, today: string): (o: Outcome)
    requires TagsSaved(added, resp)
    ensures |o.calls| >= 1 && (resp.clothId.Some? ==> |o.calls| >= 2)
    ensures o.calls[0] == AddCloth(NewCloth(name, kind, CategoryFor(kind), colour, ""))
    ensures resp.clothId.None? ==> o == Outcome([o.calls[0]], false)
    ensures resp.clothId.Some? ==>
      o.calls[1] == AddClothStyles(StyleRows(Num(resp.clothId.value), StyleIds(selected, SavedNew(added, resp))))
    ensures resp.clothId.Some? && !(resp.linked && resp.userId.Some?) ==> |o.calls| == 2 && !o.ok
    ensures UploadStarts(added, resp) ==>
      o.calls[2..] == FromUpload(resp.clothId.value, UploadName(resp.userId.value, resp.clothId.value, fileName, today), resp).calls
      && o.ok == FromUpload(resp.clothId.value, UploadName(resp.userId.value, resp.clothId.value, fileName, today), resp).ok
  {
    var c1 := AddCloth(NewCloth(name, kind, CategoryFor(kind), colour, ""));
    if resp.clothId.None? then Outcome([c1], false)
    else
      var id := resp.clothId.value;
      var c2 := AddClothStyles(StyleRows(Num(id), StyleIds(selected, SavedNew(added, resp))));
      if !resp.linked || resp.userId.None? then Outcome([c1, c2], false)
      else
        var rest := FromUpload(id, UploadName(resp.userId.value, id, fileName, today), resp);
        assert ([c1, c2] + rest.calls)[2..] == rest.calls;
        Outcome([c1, c2] + rest.calls, rest.ok)
  }

  /** `handleSubmit` once an image is chosen: the calls are made in order and
      the first one that throws ends the submit, so every later call is left
      out. */
  function Plan(name: string, kind: string, colour: string, selected: seq<StyleTag>, added: seq<StyleTag>,
                resp: Responses, fileName: string, today: string): (o: Outcome)
    ensures var t := Lead(added);
      |o.calls| == t + (if TagsSaved(added, resp) then 1 else 0) + (if ClothSaved(added, resp) then 1 else 0)
                     + (if UploadStarts(added, resp) then (if resp.existing then 1 else 2) else 0)
                     + (if UrlKnown(added, resp) then 1 else 0)
    ensures |added| > 0 ==> o.calls[0] == AddStyleTags(Names(added))
    ensures TagsSaved(added, resp) ==> o.calls[Lead(added)] == AddCloth(NewCloth(name, kind, CategoryFor(kind), colour, ""))
    ensures ClothSaved(added, resp) ==>
      o.calls[Lead(added) + 1] == AddClothStyles(StyleRows(Num(resp.clothId.value), StyleIds(selected, SavedNew(added, resp))))
    ensures UploadStarts(added, resp) ==>
      var n := UploadName(resp.userId.value, resp.clothId.value, fileName, today);
      o.calls[Lead(added) + 2] == ListImages(n) && (!resp.existing ==> o.calls[Lead(added) + 3] == UploadImage(n))
    ensures UrlKnown(added, resp) ==> o.calls[|o.calls| - 1] == UpdateClothImage(resp.clothId.value, resp.publicUrl)
    ensures o.ok <==> UrlKnown(added, resp) && resp.imageUpdated
  {
    if |added| > 0 && resp.savedNew.None? then Outcome([AddStyleTags(Names(added))], false)
    else
      var rest := FromCloth(name, kind, colour, selected, added, resp, fileName, today);
      if |added| > 0 then
        assert ([AddStyleTags(Names(added))] + rest.calls)[1..] == rest.calls;
        Outcome([AddStyleTags(Names(added))] + rest.calls, rest.ok)
      else rest
  }

  /** A file found under the composed name is reused: nothing is uploaded. */
  lemma ExistingFileNotUploaded(name: string, kind: string, colour: string, selected: seq<StyleTag>, added: seq<StyleTag>,
                                resp: Responses, fileName: string, today: string)
    requires resp.existing
    ensures var o := Plan(name, kind, colour, selected, added, resp, fileName, today);
      forall k :: 0 <= k < |o.calls| ==> !o.calls[k].UploadImage?
  {
    var o := Plan(name, kind, colour, selected, added, resp, fileName, today);
    var t := Lead(added);
    forall k | 0 <= k < |o.calls| ensures !o.calls[k].UploadImage? {
      if k < t {
      } else if k == t {
      } else if k == t + 1 {
      } else if k == t + 2 {
      } else {
        assert k == t + 3 && UrlKnown(added, resp) && k == |o.calls| - 1;
      }
    }
  }

  /** A failing `addCloth` ends the submit with that call: no style is linked
      and no image is stored. */
  lemma ClothFailureStops(name: string, kind: string, colour: string, selected: seq<StyleTag>, added: seq<StyleTag>,
                          resp: Responses, fileName: string, today: string)
    requires TagsSaved(added, resp) && resp.clothId.None?
    ensures var o := Plan(name, kind, colour, selected, added, resp, fileName, today);
      !o.ok && o.calls[|o.calls| - 1] == AddCloth(NewCloth(name, kind, CategoryFor(kind), colour, ""))
      && forall c :: c in o.calls ==> !c.AddClothStyles? && !c.UploadImage? && !c.UpdateClothImage?
  {
  }

  /** The image URL is written only after an upload or a reused file gave one. */
  lemma ImageUpdateNeedsUrl(name: string, kind: string, colour: string, selected: seq<StyleTag>, added: seq<StyleTag>,
                            resp: Responses, fileName: string, today: string)
    ensures var o := Plan(name, kind, colour, selected, added, resp, fileName, today);
      (exists k :: 0 <= k < |o.calls| && o.calls[k].UpdateClothImage?) ==> UrlKnown(added, resp)
  {
    var o := Plan(name, kind, colour, selected, added, resp, fileName, today);
    if !UrlKnown(added, resp) {
      var t := Lead(added);
      forall k | 0 <= k < |o.calls| ensures !o.calls[k].UpdateClothImage? {
        if k < t {
        } else if k == t {
        } else if k == t + 1 {
        } else if k == t + 2 {
        } else {
          assert k == t + 3 && !resp.existing;
        }
      }
    }
  }

  /** Only tags with a database id are linked: with no saved new tags, a
      selection that holds typed-in tags only links nothing. */
  lemma TypedTagsLinkNothing(name: string, kind: string, colour: string, typed: seq<StyleTag>,
                             resp: Responses, fileName: string, today: string)
    requires forall k :: 0 <= k < |typed| ==> typed[k].id == ""
    requires ClothSaved(typed, resp) && (resp.savedNew.Some? ==> resp.savedNew.value == [])
    ensures Plan(name, kind, colour, typed, typed, resp, fileName, today).calls[Lead(typed) + 1] == AddClothStyles([])
  {
    FakeIdsDropped([], typed);
    assert [] + typed == typed;
  }

  class AddClothForm {
    var name: string
    var colour: string
    var kind: string
    var selectedStyles: seq<StyleTag>
    var newStyles: seq<StyleTag>
    var allStylesUI: seq<StyleTag>
    var newStyleInput: string
    var addStyleError: string
    /** The chosen file, by its name; `None` is `null`. */
    var image: Option<string>

    constructor (existingName: string, existingColour: string)
      ensures name == existingName && colour == existingColour && kind == "top" && image == None
      ensures selectedStyles == [] && newStyles == [] && allStylesUI == [] && newStyleInput == "" && addStyleError == ""
    {
      name, colour, kind, image := existingName, existingColour, "top", None;
      selectedStyles, newStyles, allStylesUI := [], [], [];
      newStyleInput, addStyleError := "", "";
    }

    function Editor(): Editor
      reads this
    {
      StyleTags.Editor(selectedStyles, newStyles, allStylesUI, newStyleInput)
    }

    /** The effect on `dbTagStyles`: a non-empty list replaces the choices. */
    method SyncDbStyles(db: seq<StyleTag>)
      modifies this
      ensures allStylesUI == if |db| > 0 then db else old(allStylesUI)
      ensures selectedStyles == old(selectedStyles) && newStyles == old(newStyles)
      ensures newStyleInput == old(newStyleInput) && addStyleError == old(addStyleError)
    {
      if |db| > 0 {
        allStylesUI := db;
      }
    }

    /** `handleAddNewStyle`. */
    method AddNewStyle()
      modifies this
      ensures Editor() == AddChecked(old(Editor()))
      ensures var m := ErrorFor(CheckNewStyleName(old(newStyleInput)));
        addStyleError == if m.Some? then m.value else old(addStyleError)
      ensures name == old(name) && colour == old(colour) && kind == old(kind)
    {
      var m := ErrorFor(CheckNewStyleName(newStyleInput));
      var err := if m.Some? then m.value else addStyleError;
      var e := AddChecked(Editor());
      selectedStyles, newStyles, allStylesUI, newStyleInput, addStyleError := e.selected, e.added, e.shown, e.input, err;
    }

    /** `handleStyleToggle`. */
    method ToggleStyle(style: StyleTag)
      modifies this
      ensures selectedStyles == Toggle(old(selectedStyles), style)
      ensures newStyles == old(newStyles) && allStylesUI == old(allStylesUI)
      ensures newStyleInput == old(newStyleInput) && addStyleError == old(addStyleError)
      ensures name == old(name) && colour == old(colour) && kind == old(kind)
    {
      selectedStyles := Toggle(selectedStyles, style);
    }

    /** The file input: `e.target.files?.[0] || null`. */
    method PickImage(file: Option<string>)
      modifies this
      ensures image == file
      ensures name == old(name) && colour == old(colour) && kind == old(kind)
      ensures selectedStyles == old(selectedStyles) && newStyles == old(newStyles) && allStylesUI == old(allStylesUI)
      ensures newStyleInput == old(newStyleInput) && addStyleError == old(addStyleError)
    {
      image := file;
    }

    /** The fields `resetForm` clears. */
    function Fields(): (string, string, string, seq<StyleTag>, seq<StyleTag>, string, Option<string>)
      reads this
    {
      (name, colour, kind, selectedStyles, newStyles, newStyleInput, image)
    }

    predicate Cleared()
      reads this
    {
      Fields() == ("", "", "top", [], [], "", None)
    }

    /** `resetForm`: the type goes back to the first table entry. */
    method Reset()
      modifies this
      ensures Cleared()
      ensures allStylesUI == old(allStylesUI) && addStyleError == old(addStyleError)
    {
      name, colour, kind, image := "", "", "top", None;
      selectedStyles, newStyles, newStyleInput := [], [], "";
    }

    /** `handleSubmit`: without an image nothing is sent.  A submit that
        succeeds closes the form, resetting it; a failed one leaves the form
        as it was.  The choices and the error text stay in both cases. */
    method Submit(resp: Responses, today: string) returns (sent: Option<Outcome>)
      modifies this
      ensures sent.None? <==> old(image).None?
      ensures old(image).Some? ==> sent.value == Plan(old(name), old(kind), old(colour), old(selectedStyles), old(newStyles),
                                                       resp, old(image).value, today)
      ensures sent.Some? && sent.value.ok ==> Cleared()
      ensures !(sent.Some? && sent.value.ok) ==> Fields() == old(Fields())
      ensures allStylesUI == old(allStylesUI) && addStyleError == old(addStyleError)
    {
      if image.None? {
        return None;
      }
      var plan := Plan(name, kind, colour, selectedStyles, newStyles, resp, image.value, today);
      sent := Some(plan);
      if plan.ok {
        Reset();
      }
    }
  }

  /** A successful submit clears the chosen file, so submitting again sends
      nothing until a new image is picked. */
  method ResubmitNeedsNewImage(f: AddClothForm, resp: Responses, again: Responses, today: string)
      returns (first: Option<Outcome>, second: Option<Outcome>)
    modifies f
    ensures first.Some? && first.value.ok ==> second.None?
    ensures old(f.image).None? ==> first.None? && second.None?
  {
    first := f.Submit(resp, today);
    second := f.Submit(again, today);
  }
}
