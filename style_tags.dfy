/** The style-tag rules shared by the closet forms (frontend/src/app/closet/
    AddClothForm.tsx, its older copy in my-ootd, and ClothViewEditForm.tsx):
    selection toggling, the checks on a typed-in tag name, extraction of
    numeric style ids, file-name sanitising and the type-to-category table. */
module StyleTags {
  import opened Common
  import opened ClosetTypes

  // ---------------------------------------------------------------------------
  // Selection
  // ---------------------------------------------------------------------------

  /** `xs.some(s => s.name === name)`. */
  predicate HasName(xs: seq<StyleTag>, name: string) {
    exists k :: 0 <= k < |xs| && xs[k].name == name
  }

  /** `xs.filter(s => s.name !== name)`. */
  function RemoveName(xs: seq<StyleTag>, name: string): (r: seq<StyleTag>)
    ensures |r| <= |xs|
    ensures forall t :: t in r <==> t in xs && t.name != name
  {
    if |xs| == 0 then []
    else if xs[0].name == name then RemoveName(xs[1..], name)
    else [xs[0]] + RemoveName(xs[1..], name)
  }

  lemma {:induction false} RemoveAbsentName(xs: seq<StyleTag>, name: string)
    requires !HasName(xs, name)
    ensures RemoveName(xs, name) == xs
  {
    if |xs| > 0 {
      forall k | 0 <= k < |xs[1..]| ensures xs[1..][k].name != name {
        assert xs[1..][k] == xs[k + 1];
      }
      RemoveAbsentName(xs[1..], name);
    }
  }

  /** `handleStyleToggle(style)`: deselect every tag with that name when one
      is selected, otherwise append the tag. */
  function Toggle(xs: seq<StyleTag>, style: StyleTag): (r: seq<StyleTag>)
    ensures HasName(xs, style.name) ==> forall t :: t in r <==> t in xs && t.name != style.name
    ensures !HasName(xs, style.name) ==> r == xs + [style]
  {
    if HasName(xs, style.name) then RemoveName(xs, style.name) else xs + [style]
  }

  /** A toggle flips whether the name is selected. */
  lemma ToggleFlips(xs: seq<StyleTag>, style: StyleTag)
    ensures HasName(Toggle(xs, style), style.name) <==> !HasName(xs, style.name)
  {
    var r := Toggle(xs, style);
    if HasName(xs, style.name) {
      forall k | 0 <= k < |r| ensures r[k].name != style.name {
        assert r[k] in r;
      }
    } else {
      assert r[|xs|].name == style.name;
    }
  }

  /** Toggling a tag that is not selected twice gives back the list. */
  lemma ToggleTwiceRestores(xs: seq<StyleTag>, style: StyleTag)
    requires !HasName(xs, style.name)
    ensures Toggle(Toggle(xs, style), style) == xs
  {
    var once := xs + [style];
    assert once[|xs|].name == style.name;
    assert HasName(once, style.name);
    RemoveNameAppend(xs, style);
  }

  lemma {:induction false} RemoveNameAppend(xs: seq<StyleTag>, style: StyleTag)
    requires !HasName(xs, style.name)
    ensures RemoveName(xs + [style], style.name) == xs
  {
    if |xs| == 0 {
      assert [style][1..] == [];
    } else {
      assert (xs + [style])[1..] == xs[1..] + [style];
      forall k | 0 <= k < |xs[1..]| ensures xs[1..][k].name != style.name {
        assert xs[1..][k] == xs[k + 1];
      }
      assert xs[0].name != style.name;
      RemoveNameAppend(xs[1..], style);
    }
  }

  // ---------------------------------------------------------------------------
  // Adding a typed-in tag
  // ---------------------------------------------------------------------------

  /** The four pieces of form state a new tag touches: the selection, the tags
      to create on submit, the tags shown as choices, and the input text. */
  datatype Editor = Editor(selected: seq<StyleTag>, added: seq<StyleTag>, shown: seq<StyleTag>, input: string)

  /** Record `name` as a new tag with the placeholder id "", unless a selected
      tag already has that name (then nothing changes and the input is kept). */
  function AddName(e: Editor, name: string): (r: Editor)
    ensures HasName(e.selected, name) ==> r == e
    ensures !HasName(e.selected, name) ==>
      var t := StyleTag("", name);
      r == Editor(e.selected + [t], e.added + [t], e.shown + [t], "")
  {
    if HasName(e.selected, name) then e
    else
      var t := StyleTag("", name);
      Editor(e.selected + [t], e.added + [t], e.shown + [t], "")
  }

  /** The add handler without validation: the raw input, unless it is empty. */
  function AddTyped(e: Editor): (r: Editor)
    ensures e.input == "" ==> r == e
    ensures e.input != "" ==> r == AddName(e, e.input)
  {
    if e.input == "" then e else AddName(e, e.input)
  }

  /** After an add the name is selected, and a second add of it changes nothing. */
  lemma AddNameSelects(e: Editor, name: string)
    ensures HasName(AddName(e, name).selected, name)
    ensures AddName(AddName(e, name), name) == AddName(e, name)
  {
    var r := AddName(e, name);
    if !HasName(e.selected, name) {
      assert r.selected[|e.selected|].name == name;
    }
  }

  /** A typed-in tag never adds a style id: the ids taken from the selection
      are those taken before the add. */
  lemma AddNameKeepsStyleIds(e: Editor, name: string)
    ensures TruthyIds(AddName(e, name).selected) == TruthyIds(e.selected)
    ensures TruthyIds(AddName(e, name).added) == TruthyIds(e.added)
  {
    if !HasName(e.selected, name) {
      FakeIdsDropped(e.selected, [StyleTag("", name)]);
      FakeIdsDropped(e.added, [StyleTag("", name)]);
    }
  }

  // ---------------------------------------------------------------------------
  // Typed-in tag names (the newer add form)
  // ---------------------------------------------------------------------------

  /** `/^[a-z\s]+$/`. */
  predicate LowerLettersAndSpaces(s: string) {
    |s| > 0 && forall i :: 0 <= i < |s| ==> IsAsciiLower(s[i]) || IsJsSpace(s[i])
  }

  datatype NameCheck = Blank | TooLong | NotLetters | Accepted(name: string)

  /** `handleAddNewStyle`'s checks, in their order: the trimmed, lower-cased
      name must be non-empty, at most 20 code units, and letters or spaces. */
  function CheckNewStyleName(input: string): (r: NameCheck)
    ensures r.Accepted? ==> r.name == ToLower(JsTrim(input))
    ensures r.Blank? <==> ToLower(JsTrim(input)) == ""
  {
    var name := ToLower(JsTrim(input));
    if name == "" then Blank
    else if Utf16Length(name) > 20 then TooLong
    else if !LowerLettersAndSpaces(name) then NotLetters
    else Accepted(name)
  }

  /** An accepted name is 1 to 20 lower-case letters and inner spaces, and
      checking it again accepts it unchanged. */
  lemma AcceptedNameShape(input: string)
    requires CheckNewStyleName(input).Accepted?
    ensures var n := CheckNewStyleName(input).name;
      && 1 <= |n| <= 20
      && (forall i :: 0 <= i < |n| ==> IsAsciiLower(n[i]) || IsJsSpace(n[i]))
      && !IsJsSpace(n[0]) && !IsJsSpace(n[|n| - 1])
      && CheckNewStyleName(n) == Accepted(n)
  {
    AcceptedNameForm(input);
    ToLowerIdempotent(JsTrim(input));
    RecheckAccepted(CheckNewStyleName(input).name);
  }

  lemma AcceptedNameForm(input: string)
    requires CheckNewStyleName(input).Accepted?
    ensures var n := CheckNewStyleName(input).name;
      && n == ToLower(JsTrim(input)) && LowerLettersAndSpaces(n) && Utf16Length(n) <= 20
      && !IsJsSpace(n[0]) && !IsJsSpace(n[|n| - 1])
  {
    var t := JsTrim(input);
    var n := CheckNewStyleName(input).name;
    assert n == ToLower(t) && n != "";
    assert n[0] == LowerChar(t[0]) && n[|n| - 1] == LowerChar(t[|t| - 1]);
  }

  /** A name already in accepted form is accepted as it is. */
  lemma RecheckAccepted(n: string)
    requires LowerLettersAndSpaces(n) && Utf16Length(n) <= 20
    requires !IsJsSpace(n[0]) && !IsJsSpace(n[|n| - 1]) && ToLower(n) == n
    ensures CheckNewStyleName(n) == Accepted(n)
  {
    JsTrimNoEdgeSpace(n);
  }

  /** Trimming a string with no white space at either end changes nothing. */
  lemma JsTrimNoEdgeSpace(s: string)
    requires |s| > 0 && !IsJsSpace(s[0]) && !IsJsSpace(s[|s| - 1])
    ensures JsTrim(s) == s
  {
    assert TrimStart(s, IsJsSpace) == s;
  }

  /** What the add handler does to the error text: `None` leaves it as it is. */
  function ErrorFor(c: NameCheck): (m: Option<string>)
    ensures c.Blank? <==> m.None?
    ensures c.Accepted? <==> m == Some("")
  {
    match c
    case Blank => None
    case TooLong => Some("Style name too long (max 20 chars).")
    case NotLetters => Some("Use letters only (no emojis/symbols).")
    case Accepted(_) => Some("")
  }

  /** The validating add handler: only an accepted name reaches the lists. */
  function AddChecked(e: Editor): (r: Editor)
    ensures !CheckNewStyleName(e.input).Accepted? ==> r == e
    ensures CheckNewStyleName(e.input).Accepted? ==> r == AddName(e, CheckNewStyleName(e.input).name)
  {
    match CheckNewStyleName(e.input)
    case Accepted(name) => AddName(e, name)
    case _ => e
  }

  /** Every tag the validating handler appends has an accepted name. */
  lemma AddCheckedAddsValidNames(e: Editor)
    ensures var r := AddChecked(e);
      forall t :: t in r.added && t !in e.added ==>
        t.id == "" && 1 <= |t.name| <= 20 && forall i :: 0 <= i < |t.name| ==> IsAsciiLower(t.name[i]) || IsJsSpace(t.name[i])
  {
    var r := AddChecked(e);
    if CheckNewStyleName(e.input).Accepted? {
      AcceptedNameShape(e.input);
      forall t | t in r.added && t !in e.added
        ensures t == StyleTag("", CheckNewStyleName(e.input).name)
      {
        if !HasName(e.selected, CheckNewStyleName(e.input).name) {
          assert t in e.added + [StyleTag("", CheckNewStyleName(e.input).name)];
        }
      }
    }
  }

  // ---------------------------------------------------------------------------
  // Style ids
  // ---------------------------------------------------------------------------

  /** The value of `Number(text)`: NaN unless the text is a decimal numeral. */
  datatype NumberValue = Num(value: nat) | NaN

  /** `Number(s)` for the numerals a database id can be: surrounding white
      space is ignored, an all-blank text is 0, decimal digits are read, and
      anything else is NaN. */
  function ToNumber(s: string): (r: NumberValue)
    ensures AllDigits(s) && s != "" ==> r == Num(DecimalValue(s))
  {
    var t := JsTrim(s);
    if t == "" then Num(0)
    else if AllDigits(t) then Num(DecimalValue(t))
    else NaN
  }

  /** `xs.filter(s => s.id).map(s => s.id)`: ids are truthy when they are
      non-empty strings. */
  function TruthyIds(xs: seq<StyleTag>): (r: seq<string>)
    ensures |r| <= |xs|
    ensures forall k :: 0 <= k < |r| ==> r[k] != ""
    ensures forall k :: 0 <= k < |xs| && xs[k].id != "" ==> xs[k].id in r
    ensures forall x :: x in r ==> exists k :: 0 <= k < |xs| && xs[k].id == x
  {
    if |xs| == 0 then []
    else
      var rest := TruthyIds(xs[1..]);
      assert forall k :: 1 <= k < |xs| ==> xs[k] == xs[1..][k - 1];
      assert forall x :: x in rest ==> exists k :: 0 <= k < |xs| && xs[k].id == x by {
        forall x | x in rest ensures exists k :: 0 <= k < |xs| && xs[k].id == x {
          var k :| 0 <= k < |xs[1..]| && xs[1..][k].id == x;
          assert xs[k + 1].id == x;
        }
      }
      if xs[0].id != "" then [xs[0].id] + rest else rest
  }

  /** The filter keeps the order of its input: the ids of a concatenation are
      those of the first part, then those of the second. */
  lemma {:induction false} TruthyIdsAppend(a: seq<StyleTag>, b: seq<StyleTag>)
    ensures TruthyIds(a + b) == TruthyIds(a) + TruthyIds(b)
  {
    if |a| == 0 {
      assert a + b == b;
    } else {
      assert (a + b)[1..] == a[1..] + b;
      TruthyIdsAppend(a[1..], b);
    }
  }

  /** One tag contributes its id exactly when the id is truthy. */
  lemma TruthyIdsSingle(t: StyleTag)
    ensures TruthyIds([t]) == if t.id != "" then [t.id] else []
  {
    assert [t][1..] == [];
  }

  function Numbers(ids: seq<string>): (r: seq<NumberValue>)
    ensures |r| == |ids|
    ensures forall k :: 0 <= k < |ids| ==> r[k] == ToNumber(ids[k])
  {
    if |ids| == 0 then [] else [ToNumber(ids[0])] + Numbers(ids[1..])
  }

  /** The `styleIds` list: the truthy ids of the selection, then those of the
      newly saved tags, each read by `Number`. */
  function StyleIds(selected: seq<StyleTag>, saved: seq<StyleTag>): (r: seq<NumberValue>)
    ensures |r| == |TruthyIds(selected)| + |TruthyIds(saved)|
    ensures forall k :: 0 <= k < |TruthyIds(selected)| ==> r[k] == ToNumber(TruthyIds(selected)[k])
    ensures forall k :: 0 <= k < |TruthyIds(saved)| ==> r[|TruthyIds(selected)| + k] == ToNumber(TruthyIds(saved)[k])
  {
    Numbers(TruthyIds(selected)) + Numbers(TruthyIds(saved))
  }

  /** The style ids are the same as reading the truthy ids of the two lists
      joined, in that order. */
  lemma StyleIdsJoined(selected: seq<StyleTag>, saved: seq<StyleTag>)
    ensures StyleIds(selected, saved) == Numbers(TruthyIds(selected + saved))
  {
    TruthyIdsAppend(selected, saved);
    NumbersAppend(TruthyIds(selected), TruthyIds(saved));
  }

  /** `Number` is applied to each id on its own, so it distributes over a
      concatenation. */
  lemma {:induction false} NumbersAppend(a: seq<string>, b: seq<string>)
    ensures Numbers(a + b) == Numbers(a) + Numbers(b)
  {
    if |a| == 0 {
      assert a + b == b;
    } else {
      assert (a + b)[1..] == a[1..] + b;
      NumbersAppend(a[1..], b);
    }
  }

  /** Tags typed in by the user carry id "" and so contribute no id. */
  lemma {:induction false} FakeIdsDropped(xs: seq<StyleTag>, fake: seq<StyleTag>)
    requires forall k :: 0 <= k < |fake| ==> fake[k].id == ""
    ensures TruthyIds(xs + fake) == TruthyIds(xs)
  {
    if |xs| == 0 {
      assert xs + fake == fake;
      FakeIdsEmpty(fake);
    } else {
      assert (xs + fake)[1..] == xs[1..] + fake;
      FakeIdsDropped(xs[1..], fake);
    }
  }

  lemma {:induction false} FakeIdsEmpty(fake: seq<StyleTag>)
    requires forall k :: 0 <= k < |fake| ==> fake[k].id == ""
    ensures TruthyIds(fake) == []
  {
    if |fake| > 0 {
      FakeIdsEmpty(fake[1..]);
    }
  }

  /** Tags whose ids are rendered database ids give back those ids, in order. */
  lemma StyleIdsOfRenderedIds(xs: seq<StyleTag>, ns: seq<nat>)
    requires |xs| == |ns|
    requires forall k :: 0 <= k < |xs| ==> xs[k].id == NatToString(ns[k])
    ensures |Numbers(TruthyIds(xs))| == |ns|
    ensures forall k :: 0 <= k < |ns| ==> Numbers(TruthyIds(xs))[k] == Num(ns[k])
  {
    TruthyIdsAll(xs);
    forall k | 0 <= k < |ns| ensures Numbers(TruthyIds(xs))[k] == Num(ns[k]) {
      ToNumberOfNat(ns[k]);
    }
  }

  /** When every id is truthy, all of them are taken, in order. */
  lemma {:induction false} TruthyIdsAll(xs: seq<StyleTag>)
    requires forall k :: 0 <= k < |xs| ==> xs[k].id != ""
    ensures |TruthyIds(xs)| == |xs|
    ensures forall k :: 0 <= k < |xs| ==> TruthyIds(xs)[k] == xs[k].id
  {
    if |xs| > 0 {
      var rest := xs[1..];
      assert forall k :: 0 <= k < |rest| ==> rest[k] == xs[k + 1];
      TruthyIdsAll(rest);
      var ids := TruthyIds(xs);
      assert ids == [xs[0].id] + TruthyIds(rest);
      forall k | 0 <= k < |xs| ensures ids[k] == xs[k].id {
        if k > 0 {
          assert ids[k] == TruthyIds(rest)[k - 1];
        }
      }
    }
  }

  /** `Number(String(n)) == n` for a database id. */
  lemma ToNumberOfNat(n: nat)
    ensures ToNumber(NatToString(n)) == Num(n)
  {
    DecimalOfNatToString(n);
  }

  /** One junction-table row per style id, all sharing the cloth id. */
  datatype ClothStyleRow = ClothStyleRow(clothId: NumberValue, styleId: NumberValue)

  function StyleRows(clothId: NumberValue, styleIds: seq<NumberValue>): (r: seq<ClothStyleRow>)
    ensures |r| == |styleIds|
    ensures forall k :: 0 <= k < |r| ==> r[k] == ClothStyleRow(clothId, styleIds[k])
  {
    if |styleIds| == 0 then [] else [ClothStyleRow(clothId, styleIds[0])] + StyleRows(clothId, styleIds[1..])
  }

  // ---------------------------------------------------------------------------
  // File names
  // ---------------------------------------------------------------------------

  /** The characters `[a-zA-Z0-9_\-\.]` keeps. */
  predicate SafeChar(c: char) {
    IsAsciiLower(c) || IsAsciiUpper(c) || IsAsciiDigit(c) || c == '_' || c == '-' || c == '.'
  }

  predicate Safe(s: string) {
    forall i :: 0 <= i < |s| ==> SafeChar(s[i])
  }

  /** Combining diacritical marks, U+0300 to U+036F. */
  predicate CombiningMark(c: char) {
    '\U{0300}' <= c <= '\U{036F}'
  }

  function RemoveMarks(s: string): string {
    if |s| == 0 then ""
    else if CombiningMark(s[0]) then RemoveMarks(s[1..])
    else [s[0]] + RemoveMarks(s[1..])
  }

  /** The result holds no combining mark, and every character of it comes
      from the input. */
  lemma {:induction false} RemoveMarksShape(s: string)
    ensures forall c :: c in RemoveMarks(s) ==> !CombiningMark(c) && c in s
  {
    if |s| > 0 {
      RemoveMarksShape(s[1..]);
      assert s == [s[0]] + s[1..];
    }
  }

  /** `replace(/\s+/g, "_")`: each maximal run of white space becomes one "_".
      Within a run every character but the last is dropped, and the last one
      is replaced. */
  function CollapseSpaces(s: string): string {
    if |s| == 0 then ""
    else if IsJsSpace(s[0]) && |s| > 1 && IsJsSpace(s[1]) then CollapseSpaces(s[1..])
    else [if IsJsSpace(s[0]) then '_' else s[0]] + CollapseSpaces(s[1..])
  }

  /** The result holds no white space. */
  lemma {:induction false} CollapseNoSpace(s: string)
    ensures forall i :: 0 <= i < |CollapseSpaces(s)| ==> !IsJsSpace(CollapseSpaces(s)[i])
  {
    if |s| > 0 {
      CollapseNoSpace(s[1..]);
    }
  }

  /** Every character of the result is an underscore or comes from the input. */
  lemma {:induction false} CollapseKeepsChars(s: string)
    ensures forall c :: c in CollapseSpaces(s) ==> c == '_' || c in s
  {
    if |s| > 0 {
      CollapseKeepsChars(s[1..]);
      assert s == [s[0]] + s[1..];
    }
  }

  function KeepSafe(s: string): (r: string)
    ensures Safe(r) && |r| <= |s|
  {
    if |s| == 0 then ""
    else if SafeChar(s[0]) then [s[0]] + KeepSafe(s[1..])
    else KeepSafe(s[1..])
  }

  /** `sanitizeFileName`; NFKD normalisation is taken as the identity. */
  function Sanitize(name: string): (r: string)
    ensures Safe(r)
  {
    KeepSafe(CollapseSpaces(RemoveMarks(name)))
  }

  /** A name made of safe characters only passes through unchanged, so
      sanitising is idempotent. */
  lemma SanitizeSafe(name: string)
    requires Safe(name)
    ensures Sanitize(name) == name
  {
    SafeNoMarks(name);
    SafeNoSpaces(name);
    SafeKept(name);
  }

  lemma SanitizeIdempotent(name: string)
    ensures Sanitize(Sanitize(name)) == Sanitize(name)
  {
    SanitizeSafe(Sanitize(name));
  }

  lemma {:induction false} SafeNoMarks(s: string)
    requires Safe(s)
    ensures RemoveMarks(s) == s
  {
    if |s| > 0 { SafeNoMarks(s[1..]); }
  }

  lemma {:induction false} SafeNoSpaces(s: string)
    requires Safe(s)
    ensures CollapseSpaces(s) == s
  {
    if |s| > 0 { SafeNoSpaces(s[1..]); }
  }

  lemma {:induction false} SafeKept(s: string)
    requires Safe(s)
    ensures KeepSafe(s) == s
  {
    if |s| > 0 { SafeKept(s[1..]); }
  }

  /** White space inside a name turns into underscores that survive the last step. */
  lemma SpaceBecomesUnderscore(a: string, b: string)
    requires Safe(a) && Safe(b)
    ensures Sanitize(a + " " + b) == a + "_" + b
  {
    var t := " " + b;
    var u := "_" + b;
    assert a + " " + b == a + t;
    assert a + "_" + b == a + u;
    MarksOfSpaceThenSafe(b);
    RemoveMarksSafePrefix(a, t);
    var m := RemoveMarks(a + t);
    assert m == a + t;
    CollapseOfSpaceThenSafe(b);
    CollapseSafePrefix(a, t);
    var c := CollapseSpaces(m);
    assert c == a + u;
    SafeUnderscoreJoin(a, b);
    SafeKept(a + u);
  }

  lemma SafeUnderscoreJoin(a: string, b: string)
    requires Safe(a) && Safe(b)
    ensures Safe(a + ("_" + b))
  {
    var u := "_" + b;
    assert forall i :: 0 <= i < |u| ==> SafeChar(u[i]) by {
      assert forall i :: 1 <= i < |u| ==> u[i] == b[i - 1];
    }
    assert forall i :: 0 <= i < |a + u| ==> (a + u)[i] == if i < |a| then a[i] else u[i - |a|];
  }

  lemma MarksOfSpaceThenSafe(b: string)
    requires Safe(b)
    ensures RemoveMarks(" " + b) == " " + b
  {
    assert (" " + b)[1..] == b;
    SafeNoMarks(b);
  }

  lemma CollapseOfSpaceThenSafe(b: string)
    requires Safe(b)
    ensures CollapseSpaces(" " + b) == "_" + b
  {
    assert (" " + b)[1..] == b;
    if |b| > 0 {
      SafeCharNotSpace(b[0]);
    }
    SafeNoSpaces(b);
  }

  lemma {:induction false} RemoveMarksSafePrefix(a: string, t: string)
    requires Safe(a)
    ensures RemoveMarks(a + t) == a + RemoveMarks(t)
  {
    if |a| == 0 {
      assert a + t == t;
    } else {
      RemoveMarksSafeHead(a, t);
      RemoveMarksSafePrefix(a[1..], t);
      assert [a[0]] + (a[1..] + RemoveMarks(t)) == a + RemoveMarks(t);
    }
  }

  lemma RemoveMarksSafeHead(a: string, t: string)
    requires Safe(a) && |a| > 0
    ensures RemoveMarks(a + t) == [a[0]] + RemoveMarks(a[1..] + t)
    ensures Safe(a[1..])
  {
    SafeCharNotSpace(a[0]);
    assert (a + t)[0] == a[0] && (a + t)[1..] == a[1..] + t;
    assert forall i :: 0 <= i < |a[1..]| ==> a[1..][i] == a[i + 1];
  }

  lemma {:induction false} CollapseSafePrefix(a: string, t: string)
    requires Safe(a)
    ensures CollapseSpaces(a + t) == a + CollapseSpaces(t)
  {
    if |a| == 0 {
      assert a + t == t;
    } else {
      CollapseSafeHead(a, t);
      CollapseSafePrefix(a[1..], t);
      assert [a[0]] + (a[1..] + CollapseSpaces(t)) == a + CollapseSpaces(t);
    }
  }

  /** One safe character is copied and the rest is still safe. */
  lemma CollapseSafeHead(a: string, t: string)
    requires Safe(a) && |a| > 0
    ensures CollapseSpaces(a + t) == [a[0]] + CollapseSpaces(a[1..] + t)
    ensures Safe(a[1..])
  {
    SafeCharNotSpace(a[0]);
    assert a + t == [a[0]] + (a[1..] + t);
    CollapseCons(a[0], a[1..] + t);
    assert forall i :: 0 <= i < |a[1..]| ==> a[1..][i] == a[i + 1];
  }

  lemma CollapseCons(c: char, s: string)
    requires !IsJsSpace(c)
    ensures CollapseSpaces([c] + s) == [c] + CollapseSpaces(s)
  {
    assert ([c] + s)[0] == c && ([c] + s)[1..] == s;
  }

  lemma SafeCharNotSpace(c: char)
    requires SafeChar(c)
    ensures !IsJsSpace(c) && !CombiningMark(c)
  {
  }

  /** `user.id.split("-")[0]`: everything before the first "-". */
  function ShortUserId(userId: string): (r: string)
    ensures '-' !in r && r <= userId
    ensures |r| < |userId| ==> userId[|r|] == '-'
  {
    match IndexOf(userId, '-')
    case None => userId
    case Some(i) => userId[..i]
  }

  /** The uploaded object's name: `shortUserId-clothId-sanitised-date`. */
  function UploadName(userId: string, clothId: int, fileName: string, today: string): (r: string)
    ensures ShortUserId(userId) <= r
  {
    ShortUserId(userId) + "-" + IntToString(clothId) + "-" + Sanitize(fileName) + "-" + today
  }

  /** The first two "-"-separated fields of a composed name are the short user
      id and the cloth id, whatever the file was called. */
  lemma UploadNameLeadingFields(userId: string, clothId: nat, fileName: string, today: string)
    ensures var r := UploadName(userId, clothId, fileName, today);
      SplitOnce(r, '-') == Some((ShortUserId(userId), IntToString(clothId) + "-" + Sanitize(fileName) + "-" + today))
  {
    var s := ShortUserId(userId);
    var id := IntToString(clothId);
    var name := Sanitize(fileName);
    DashJoin(s, id, name, today);
    UniqueSplit(UploadName(userId, clothId, fileName, today), s, id + "-" + name + "-" + today);
  }

  lemma DashJoin(s: string, id: string, name: string, today: string)
    ensures s + "-" + id + "-" + name + "-" + today == s + ['-'] + (id + "-" + name + "-" + today)
  {
  }

  lemma UniqueSplit(r: string, s: string, rest: string)
    requires r == s + ['-'] + rest && '-' !in s
    ensures SplitOnce(r, '-') == Some((s, rest))
  {
    assert r == s + (['-'] + rest);
    IndexOfAfterPrefix(s, ['-'] + rest, '-');
    assert r[..|s|] == s && r[|s| + 1..] == rest;
  }

  /** The first `c` of `s + t`, when `s` has none, is the first of `t`, shifted. */
  lemma {:induction false} IndexOfAfterPrefix(s: string, t: string, c: char)
    requires c !in s && |t| > 0 && t[0] == c
    ensures IndexOf(s + t, c) == Some(|s|)
  {
    if |s| == 0 {
      assert s + t == t;
    } else {
      assert (s + t)[1..] == s[1..] + t;
      IndexOfAfterPrefix(s[1..], t, c);
    }
  }

  // ---------------------------------------------------------------------------
  // Initial selection of the edit form
  // ---------------------------------------------------------------------------

  /** `db.find(dbs => dbs.name === name)`. */
  function FindByName(db: seq<StyleTag>, name: string): (r: Option<StyleTag>)
    ensures r.None? <==> !HasName(db, name)
    ensures r.Some? ==> r.value in db && r.value.name == name
    ensures r.Some? ==> exists i :: 0 <= i < |db| && db[i] == r.value && forall j :: 0 <= j < i ==> db[j].name != name
  {
    if |db| == 0 then None
    else if db[0].name == name then Some(db[0])
    else
      var r := FindByName(db[1..], name);
      assert r.Some? ==> exists i :: 0 <= i < |db| && db[i] == r.value && forall j :: 0 <= j < i ==> db[j].name != name by {
        if r.Some? {
          var i :| 0 <= i < |db[1..]| && db[1..][i] == r.value && forall j :: 0 <= j < i ==> db[1..][j].name != name;
          assert db[i + 1] == r.value;
          forall j | 0 <= j < i + 1 ensures db[j].name != name {
            if j > 0 { assert db[j] == db[1..][j - 1]; }
          }
        }
      }
      assert HasName(db, name) <==> HasName(db[1..], name) by {
        if HasName(db, name) {
          var k :| 0 <= k < |db| && db[k].name == name;
          assert k != 0;
          assert db[1..][k - 1].name == name;
        }
        if HasName(db[1..], name) {
          var k :| 0 <= k < |db[1..]| && db[1..][k].name == name;
          assert db[k + 1].name == name;
        }
      }
      r
  }

  /** `item.styles.map(name => db.find(...)).filter(Boolean)`: the stored style
      names matched to tags in `db`, unmatched names dropped. */
  function InitialSelection(names: seq<string>, db: seq<StyleTag>): (r: seq<StyleTag>)
    ensures |r| <= |names|
    ensures forall t :: t in r ==> t in db && t.name in names
    ensures Names(r) == MatchedNames(names, db)
    ensures forall k :: 0 <= k < |r| ==> FindByName(db, r[k].name) == Some(r[k])
  {
    if |names| == 0 then []
    else match FindByName(db, names[0])
      case None => InitialSelection(names[1..], db)
      case Some(t) => [t] + InitialSelection(names[1..], db)
  }

  function Names(xs: seq<StyleTag>): (r: seq<string>)
    ensures |r| == |xs| && forall k :: 0 <= k < |xs| ==> r[k] == xs[k].name
  {
    if |xs| == 0 then [] else [xs[0].name] + Names(xs[1..])
  }

  /** The stored names that some tag in `db` carries, in stored order. */
  function MatchedNames(names: seq<string>, db: seq<StyleTag>): seq<string> {
    if |names| == 0 then []
    else if HasName(db, names[0]) then [names[0]] + MatchedNames(names[1..], db)
    else MatchedNames(names[1..], db)
  }

  /** The selection of a concatenation of stored names is the selection of
      the first part followed by that of the second. */
  lemma {:induction false} InitialSelectionAppend(a: seq<string>, b: seq<string>, db: seq<StyleTag>)
    ensures InitialSelection(a + b, db) == InitialSelection(a, db) + InitialSelection(b, db)
  {
    if |a| == 0 {
      assert a + b == b;
    } else {
      assert (a + b)[0] == a[0];
      assert (a + b)[1..] == a[1..] + b;
      InitialSelectionAppend(a[1..], b, db);
    }
  }

  /** When every stored name has a tag in `db`, the selection lists exactly
      those names in the stored order. */
  lemma {:induction false} InitialSelectionComplete(names: seq<string>, db: seq<StyleTag>)
    requires forall k :: 0 <= k < |names| ==> HasName(db, names[k])
    ensures Names(InitialSelection(names, db)) == names
  {
    if |names| > 0 {
      assert HasName(db, names[0]);
      InitialSelectionComplete(names[1..], db);
    }
  }

  /** Names without a tag in `db` contribute nothing. */
  lemma {:induction false} InitialSelectionUnmatched(names: seq<string>, db: seq<StyleTag>)
    requires forall k :: 0 <= k < |names| ==> !HasName(db, names[k])
    ensures InitialSelection(names, db) == []
  {
    if |names| > 0 {
      InitialSelectionUnmatched(names[1..], db);
    }
  }

  // ---------------------------------------------------------------------------
  // Types and categories
  // ---------------------------------------------------------------------------

  /** The categories that `clothingTypes` assigns. */
  const Categories: set<string> := {"top", "bottom", "accessory", "outerwear", "dress", "shoes"}

  /** The types that `clothingTypes` lists. */
  const Kinds: set<string> := {"top", "bottom", "sunglasses", "bag", "skirt", "jacket", "dress", "shoes", "accessory"}

  /** `clothingTypes.find(ct => ct.type === type)?.category ?? ""`, the table
      entries read in declaration order. */
  function CategoryFor(kind: string): (c: string)
    ensures c == "" <==> kind !in Kinds
    ensures c != "" ==> c in Categories
    ensures kind in Kinds && kind in Categories ==> c == kind
  {
    if kind == "top" then "top"
    else if kind == "bottom" then "bottom"
    else if kind == "sunglasses" then "accessory"
    else if kind == "bag" then "accessory"
    else if kind == "skirt" then "bottom"
    else if kind == "jacket" then "outerwear"
    else if kind == "dress" then "dress"
    else if kind == "shoes" then "shoes"
    else if kind == "accessory" then "accessory"
    else ""
  }
}
