/** The cloth data layer (backend-flask/app/cloth/db_service.py): the paged
    wardrobe query and its projection, style-tag creation, the upsert of a
    cloth by name, the style partition of an update, and deletion. The
    database is a value passed in and returned; calls whose outcome the
    database decides (an upsert's returned rows, an RPC that raises) are
    parameters. */
module ClothDbService {
  import opened Common

  // ---------------------------------------------------------------------------
  // Rows
  // ---------------------------------------------------------------------------

  /** An embedded `styles` row; `name` is nullable. */
  datatype StyleRef = StyleRef(id: int, name: Option<string>)

  /** A `clothes_styles` entry: its many-to-one `styles` embed may be null. */
  datatype StyleLink = StyleLink(styles: Option<StyleRef>)

  /** A `clothes` row together with its embedded style links. */
  datatype ClothRow = ClothRow(id: int, name: string, kind: string, colour: string, category: string,
                               imageUrl: Option<string>, links: seq<StyleLink>)

  /** The dictionary `get_clothes_by_type` returns for one row. */
  datatype ClothItem = ClothItem(id: int, name: string, kind: string, colour: string, category: string,
                                 styles: seq<Option<string>>, imageUrl: Option<string>)

  /** A row of `styles`. */
  datatype StyleRow = StyleRow(id: int, name: string)

  // ---------------------------------------------------------------------------
  // get_clothes_by_type
  // ---------------------------------------------------------------------------

  /** The rows `range(first, last)` returns: those at positions first through
      last inclusive. */
  function Window<T>(rows: seq<T>, first: int, last: int): (r: seq<T>)
    ensures first >= 0 && first <= last + 1 && last < |rows| ==> r == rows[first..last + 1]
    ensures first >= |rows| || last < first ==> r == []
  {
    var lo := if first < 0 then 0 else first;
    var hi := if last + 1 > |rows| then |rows| else last + 1;
    if lo >= hi then [] else rows[lo..hi]
  }

  /** The window a page asks for: `range(offset, offset + limit - 1)`. */
  function Page<T>(rows: seq<T>, limit: int, offset: int): seq<T> {
    Window(rows, offset, offset + limit - 1)
  }

  /** A page holds `limit` rows starting at `offset`, fewer at the end of the
      table. */
  lemma PageSize<T>(rows: seq<T>, limit: nat, offset: nat)
    ensures |Page(rows, limit, offset)| == if offset >= |rows| then 0
                                           else if offset + limit <= |rows| then limit
                                           else |rows| - offset
    ensures forall k :: 0 <= k < |Page(rows, limit, offset)| ==> Page(rows, limit, offset)[k] == rows[offset + k]
  {
  }

  /** Whatever the arguments, a page is a run of the table's rows no longer
      than `limit`, starting at `offset` when that is not negative. */
  lemma PageWithin<T>(rows: seq<T>, limit: int, offset: int)
    ensures |Page(rows, limit, offset)| <= |rows|
    ensures limit >= 0 ==> |Page(rows, limit, offset)| <= limit
    ensures forall x :: x in Page(rows, limit, offset) ==> x in rows
    ensures offset >= 0 ==> forall k :: 0 <= k < |Page(rows, limit, offset)| ==>
      offset + k < |rows| && Page(rows, limit, offset)[k] == rows[offset + k]
  {
  }

  /** Consecutive pages tile the table: no row is skipped and none repeats. */
  lemma PagesTile<T>(rows: seq<T>, limit: nat, offset: nat)
    requires offset + 2 * limit <= |rows|
    ensures Page(rows, limit, offset) + Page(rows, limit, offset + limit) == Page(rows, 2 * limit, offset)
  {
    assert rows[offset..offset + 2 * limit] == rows[offset..offset + limit] + rows[offset + limit..offset + 2 * limit];
  }

  /** Python truthiness of an optional string. */
  predicate Truthy(s: Option<string>) {
    s.Some? && s.value != ""
  }

  /** The `!inner` joins keep only cloth rows that have a linked style. */
  predicate HasStyle(row: ClothRow) {
    exists i :: 0 <= i < |row.links| && row.links[i].styles.Some?
  }

  /** The rows the query matches: linked to a style, and in `category` when a
      truthy category is given. */
  function Matching(rows: seq<ClothRow>, category: Option<string>): (r: seq<ClothRow>)
    ensures forall x :: x in r <==> x in rows && HasStyle(x) && (Truthy(category) ==> x.category == category.value)
    ensures |r| <= |rows|
  {
    if |rows| == 0 then []
    else
      var init := rows[..|rows| - 1];
      var last := rows[|rows| - 1];
      assert rows == init + [last];
      Matching(init, category) + (if HasStyle(last) && (Truthy(category) ==> last.category == category.value) then [last] else [])
  }

  /** `[cs["styles"]["name"] for cs in links if cs.get("styles")]`. */
  function StyleNames(links: seq<StyleLink>): (r: seq<Option<string>>)
    ensures |r| <= |links|
    ensures forall n :: n in r ==> exists i :: 0 <= i < |links| && links[i].styles.Some? && links[i].styles.value.name == n
  {
    if |links| == 0 then []
    else
      var init := links[..|links| - 1];
      var last := links[|links| - 1];
      var r := StyleNames(init) + (if last.styles.Some? then [last.styles.value.name] else []);
      assert forall i :: 0 <= i < |init| ==> init[i] == links[i];
      r
  }

  function Project(row: ClothRow): (item: ClothItem)
    ensures item.id == row.id && item.name == row.name && item.kind == row.kind
    ensures item.colour == row.colour && item.category == row.category && item.imageUrl == row.imageUrl
    ensures item.styles == StyleNames(row.links)
  {
    ClothItem(row.id, row.name, row.kind, row.colour, row.category, StyleNames(row.links), row.imageUrl)
  }

  function ProjectAll(rows: seq<ClothRow>): (r: seq<ClothItem>)
    ensures |r| == |rows|
    ensures forall k :: 0 <= k < |rows| ==> r[k] == Project(rows[k])
  {
    if |rows| == 0 then [] else [Project(rows[0])] + ProjectAll(rows[1..])
  }

  /** `get_clothes_by_type`: the matching rows, one page of them, projected. */
  function ClothesByType(rows: seq<ClothRow>, category: Option<string>, limit: int, offset: int): (r: seq<ClothItem>)
    ensures |r| <= |Matching(rows, category)|
    ensures limit >= 0 ==> |r| <= limit
    ensures forall k :: 0 <= k < |r| ==>
      exists x :: x in rows && HasStyle(x) && (Truthy(category) ==> x.category == category.value) && r[k] == Project(x)
    ensures limit >= 0 && offset >= 0 ==>
      var m := Matching(rows, category);
      |r| == (if offset >= |m| then 0 else if offset + limit <= |m| then limit else |m| - offset)
    ensures offset >= 0 ==> forall k :: 0 <= k < |r| ==>
      offset + k < |Matching(rows, category)| && r[k] == Project(Matching(rows, category)[offset + k])
  {
    var m := Matching(rows, category);
    var w := Page(m, limit, offset);
    PageWithin(m, limit, offset);
    if offset >= 0 && limit >= 0 then
      PageSize(m, limit, offset);
      ProjectAll(w)
    else ProjectAll(w)
  }

  /** The projection keeps a style's name exactly when the link's style is
      present, and keeps the links' order. */
  lemma {:induction false} StyleNamesAppend(a: seq<StyleLink>, b: seq<StyleLink>)
    ensures StyleNames(a + b) == StyleNames(a) + StyleNames(b)
  {
    if |b| > 0 {
      var b' := b[..|b| - 1];
      assert (a + b)[..|a + b| - 1] == a + b';
      assert (a + b)[|a + b| - 1] == b[|b| - 1];
      StyleNamesAppend(a, b');
    } else {
      assert a + b == a;
    }
  }

  lemma StyleNamesOne(link: StyleLink)
    ensures StyleNames([link]) == if link.styles.Some? then [link.styles.value.name] else []
  {
    assert [link][..0] == [];
  }

  // ---------------------------------------------------------------------------
  // create_style_tags
  // ---------------------------------------------------------------------------

  /** `[name.strip().lower() for name in names if name.strip()]`. */
  function NewTags(names: seq<string>): (r: seq<string>)
    ensures |r| <= |names|
    ensures forall t :: t in r ==> t != "" && Plain(t) && NoUpper(t)
  {
    if |names| == 0 then []
    else
      var t := PyStrip(names[0]);
      if t != "" then LowerPlain(t); [ToLower(t)] + NewTags(names[1..]) else NewTags(names[1..])
  }

  predicate Plain(s: string) {
    |s| > 0 ==> !IsPySpace(s[0]) && !IsPySpace(s[|s| - 1])
  }

  predicate NoUpper(s: string) {
    forall i :: 0 <= i < |s| ==> !IsAsciiUpper(s[i])
  }

  lemma LowerPlain(s: string)
    requires Plain(s)
    ensures Plain(ToLower(s)) && NoUpper(ToLower(s)) && |ToLower(s)| == |s|
  {
  }

  lemma PlainStrip(s: string)
    requires Plain(s)
    ensures PyStrip(s) == s
  {
  }

  lemma LowerNoUpper(s: string)
    requires NoUpper(s)
    ensures ToLower(s) == s
  {
  }

  /** Normalising the tags a second time changes nothing. */
  lemma {:induction false} NewTagsIdempotent(names: seq<string>)
    ensures NewTags(NewTags(names)) == NewTags(names)
  {
    if |names| > 0 {
      NewTagsIdempotent(names[1..]);
      var t := PyStrip(names[0]);
      if t != "" {
        LowerPlain(t);
        NewTagsOfTag(ToLower(t), NewTags(names[1..]));
      }
    }
  }

  /** A tag already stripped and lower-cased is sent as it is. */
  lemma NewTagsOfTag(l: string, rest: seq<string>)
    requires l != "" && Plain(l) && NoUpper(l)
    ensures NewTags([l] + rest) == [l] + NewTags(rest)
  {
    PlainStrip(l);
    LowerNoUpper(l);
    assert ([l] + rest)[0] == l && ([l] + rest)[1..] == rest;
  }

  /** A name is sent exactly when it is not blank. */
  lemma {:induction false} NewTagsEmpty(names: seq<string>)
    ensures NewTags(names) == [] <==> forall i :: 0 <= i < |names| ==> PyStrip(names[i]) == ""
  {
    if |names| > 0 {
      NewTagsEmpty(names[1..]);
      assert forall i :: 1 <= i < |names| ==> names[i] == names[1..][i - 1];
    }
  }

  /** The tag request: `None` when nothing is left after normalising, so no
      database call is made. */
  datatype TagsResult = TagsResult(request: Option<seq<string>>, rows: Option<seq<StyleRow>>)

  /** `create_style_tags`: `upsert` stands for the database's answer, `None`
      when it raises. */
  function CreateStyleTags(names: seq<string>, upsert: seq<string> -> Option<seq<StyleRow>>): (r: TagsResult)
    ensures r.request.None? <==> forall i :: 0 <= i < |names| ==> PyStrip(names[i]) == ""
    ensures r.request.None? ==> r.rows == Some([])
    ensures r.request.Some? ==> r.request.value == NewTags(names) && r.rows == upsert(NewTags(names))
  {
    NewTagsEmpty(names);
    var tags := NewTags(names);
    if tags == [] then TagsResult(None, Some([])) else TagsResult(Some(tags), upsert(tags))
  }

  // ---------------------------------------------------------------------------
  // insert_cloth
  // ---------------------------------------------------------------------------

  /** `name.strip()`: case is kept. */
  function CleanName(name: string): string {
    PyStrip(name)
  }

  /** `value.strip().lower()`. */
  function CleanField(value: string): (r: string)
    ensures Plain(r) && NoUpper(r)
  {
    LowerPlain(PyStrip(value));
    ToLower(PyStrip(value))
  }

  lemma CleanFieldIdempotent(value: string)
    ensures CleanField(CleanField(value)) == CleanField(value)
  {
    var c := CleanField(value);
    PlainStrip(c);
    LowerNoUpper(c);
  }

  function IndexOfName(table: seq<ClothRow>, name: string): (r: Option<nat>)
    ensures r.None? <==> forall i :: 0 <= i < |table| ==> table[i].name != name
    ensures r.Some? ==> r.value < |table| && table[r.value].name == name
                        && forall i :: 0 <= i < r.value ==> table[i].name != name
  {
    if |table| == 0 then None
    else if table[0].name == name then Some(0)
    else match IndexOfName(table[1..], name)
      case None => None
      case Some(i) => Some(i + 1)
  }

  /** `update(...).eq("id", clothId)`: every row with that id gets the new
      type, category, colour and image. */
  function UpdateById(table: seq<ClothRow>, clothId: int, kind: string, category: string, colour: string,
                      imageUrl: Option<string>): (r: seq<ClothRow>)
    ensures |r| == |table|
    ensures forall i :: 0 <= i < |table| ==>
      r[i] == if table[i].id == clothId then table[i].(kind := kind, category := category, colour := colour, imageUrl := imageUrl)
              else table[i]
  {
    if |table| == 0 then []
    else
      var row := table[0];
      var r0 := if row.id == clothId then row.(kind := kind, category := category, colour := colour, imageUrl := imageUrl) else row;
      [r0] + UpdateById(table[1..], clothId, kind, category, colour, imageUrl)
  }

  /** `insert_cloth`: the name is stripped, type, category and colour are
      stripped and lower-cased; the first row with the same name is updated,
      otherwise a row with the id the database assigns (`newId`) is added.
      `id` is the table's primary key, so the updated row is the one the
      call returns.
      `dbError` stands for a failing call, which returns `None` and changes
      nothing. */
  function InsertCloth(table: seq<ClothRow>, name: string, kind: string, category: string, colour: string,
                       imageUrl: Option<string>, newId: int, dbError: bool): (r: (seq<ClothRow>, Option<ClothRow>))
    ensures dbError ==> r == (table, None)
    ensures !dbError ==> r.1.Some? && r.1.value in r.0
    ensures !dbError ==> (&& r.1.value.name == CleanName(name) && r.1.value.kind == CleanField(kind)
                          && r.1.value.category == CleanField(category) && r.1.value.colour == CleanField(colour)
                          && r.1.value.imageUrl == imageUrl)
    ensures !dbError ==> r.0 == Upsert(table, CleanName(name), CleanField(kind), CleanField(category), CleanField(colour), imageUrl, newId).0
  {
    if dbError then (table, None)
    else
      var u := Upsert(table, CleanName(name), CleanField(kind), CleanField(category), CleanField(colour), imageUrl, newId);
      (u.0, Some(u.1))
  }

  /** Upsert by name of already cleaned fields: the first row named `n` is
      updated (through its id), otherwise a new row is appended. */
  function Upsert(table: seq<ClothRow>, n: string, k: string, cat: string, col: string,
                  imageUrl: Option<string>, newId: int): (r: (seq<ClothRow>, ClothRow))
    ensures r.1 in r.0
    ensures r.1.name == n && r.1.kind == k && r.1.category == cat && r.1.colour == col && r.1.imageUrl == imageUrl
    ensures IndexOfName(table, n).Some? ==>
      |r.0| == |table| && r.1.id == table[IndexOfName(table, n).value].id
    ensures IndexOfName(table, n).None? ==>
      r.1 == ClothRow(newId, n, k, col, cat, imageUrl, []) && r.0 == table + [r.1]
  {
    match IndexOfName(table, n)
    case Some(i) =>
      var updated := UpdateById(table, table[i].id, k, cat, col, imageUrl);
      assert updated[i] == table[i].(kind := k, category := cat, colour := col, imageUrl := imageUrl);
      (updated, updated[i])
    case None =>
      var row := ClothRow(newId, n, k, col, cat, imageUrl, []);
      assert (table + [row])[|table|] == row;
      (table + [row], row)
  }

  function Ids(table: seq<ClothRow>): (r: seq<int>)
    ensures |r| == |table| && forall i :: 0 <= i < |table| ==> r[i] == table[i].id
  {
    if |table| == 0 then [] else [table[0].id] + Ids(table[1..])
  }

  /** Upsert by name: repeating the same call leaves the table as the first
      call made it. */
  lemma InsertClothTwice(table: seq<ClothRow>, name: string, kind: string, category: string, colour: string,
                         imageUrl: Option<string>, newId: int, newId2: int)
    requires newId !in Ids(table)
    ensures var once := InsertCloth(table, name, kind, category, colour, imageUrl, newId, false).0;
      InsertCloth(once, name, kind, category, colour, imageUrl, newId2, false).0 == once
  {
    UpsertTwice(table, CleanName(name), CleanField(kind), CleanField(category), CleanField(colour), imageUrl, newId, newId2);
  }

  lemma UpsertTwice(table: seq<ClothRow>, n: string, k: string, cat: string, col: string,
                    imageUrl: Option<string>, newId: int, newId2: int)
    requires newId !in Ids(table)
    ensures var once := Upsert(table, n, k, cat, col, imageUrl, newId).0;
      Upsert(once, n, k, cat, col, imageUrl, newId2).0 == once
  {
    if IndexOfName(table, n).Some? {
      UpsertTwiceExisting(table, n, k, cat, col, imageUrl, newId, newId2);
    } else {
      UpsertTwiceNew(table, n, k, cat, col, imageUrl, newId, newId2);
    }
  }

  lemma UpsertTwiceExisting(table: seq<ClothRow>, n: string, k: string, cat: string, col: string,
                            imageUrl: Option<string>, newId: int, newId2: int)
    requires IndexOfName(table, n).Some?
    ensures var once := Upsert(table, n, k, cat, col, imageUrl, newId).0;
      Upsert(once, n, k, cat, col, imageUrl, newId2).0 == once
  {
    var i := IndexOfName(table, n).value;
    var clothId := table[i].id;
    var once := UpdateById(table, clothId, k, cat, col, imageUrl);
    assert Upsert(table, n, k, cat, col, imageUrl, newId).0 == once;
    IndexOfNameIs(once, n, i);
    UpdateByIdNoop(once, clothId, k, cat, col, imageUrl);
  }

  lemma UpsertTwiceNew(table: seq<ClothRow>, n: string, k: string, cat: string, col: string,
                       imageUrl: Option<string>, newId: int, newId2: int)
    requires IndexOfName(table, n).None? && newId !in Ids(table)
    ensures var once := Upsert(table, n, k, cat, col, imageUrl, newId).0;
      Upsert(once, n, k, cat, col, imageUrl, newId2).0 == once
  {
    var row := ClothRow(newId, n, k, col, cat, imageUrl, []);
    var once := table + [row];
    assert Upsert(table, n, k, cat, col, imageUrl, newId).0 == once;
    assert forall t :: 0 <= t < |table| ==> once[t] == table[t];
    assert once[|table|] == row;
    IndexOfNameIs(once, n, |table|);
    assert Upsert(once, n, k, cat, col, imageUrl, newId2).0 == UpdateById(once, newId, k, cat, col, imageUrl);
    AppendedIdOnlyLast(table, row);
    UpdateByIdNoop(once, newId, k, cat, col, imageUrl);
  }

  /** A row appended with an id the table lacks is the only one with that id. */
  lemma AppendedIdOnlyLast(table: seq<ClothRow>, row: ClothRow)
    requires row.id !in Ids(table)
    ensures forall t :: 0 <= t < |table + [row]| && (table + [row])[t].id == row.id ==> t == |table|
  {
    forall t | 0 <= t < |table| ensures (table + [row])[t].id != row.id {
      assert Ids(table)[t] == table[t].id;
    }
  }

  lemma {:induction false} IndexOfNameIs(table: seq<ClothRow>, n: string, i: nat)
    requires i < |table| && table[i].name == n
    requires forall t :: 0 <= t < i ==> table[t].name != n
    ensures IndexOfName(table, n) == Some(i)
  {
    if i > 0 {
      IndexOfNameIs(table[1..], n, i - 1);
    }
  }

  lemma UpdateByIdNoop(table: seq<ClothRow>, clothId: int, kind: string, category: string, colour: string,
                       imageUrl: Option<string>)
    requires forall i :: 0 <= i < |table| && table[i].id == clothId ==>
      table[i].kind == kind && table[i].category == category && table[i].colour == colour && table[i].imageUrl == imageUrl
    ensures UpdateById(table, clothId, kind, category, colour, imageUrl) == table
  {
    var r := UpdateById(table, clothId, kind, category, colour, imageUrl);
    assert forall i :: 0 <= i < |table| ==> r[i] == table[i];
  }

  // ---------------------------------------------------------------------------
  // update_cloth_in_db: the style partition
  // ---------------------------------------------------------------------------

  /** A style's `id` as the client sends it: absent or null, a number, or text. */
  datatype IdValue = NoId | IdNumber(n: int) | IdText(s: string)

  datatype StyleInput = StyleInput(id: IdValue, name: Option<string>)

  predicate TruthyId(v: IdValue) {
    match v
    case NoId => false
    case IdNumber(n) => n != 0
    case IdText(s) => s != ""
  }

  /** Python `int(s)` on text: surrounding white space, an optional sign and
      ASCII digits; anything else raises. */
  function PyInt(s: string): (r: Option<int>)
    ensures r.Some? ==> PyStrip(s) != ""
  {
    var t := PyStrip(s);
    if |t| > 0 && (t[0] == '+' || t[0] == '-') then
      var d := t[1..];
      var v: int := if |d| > 0 && AllDigits(d) then DecimalValue(d) else 0;
      if |d| > 0 && AllDigits(d) then Some(if t[0] == '-' then -v else v) else None
    else if |t| > 0 && AllDigits(t) then Some(DecimalValue(t))
    else None
  }

  /** `int(s["id"])`. */
  function IdToInt(v: IdValue): Option<int> {
    match v
    case NoId => None
    case IdNumber(n) => Some(n)
    case IdText(s) => PyInt(s)
  }

  /** `int(str(n)) == n`: an id that went out as text comes back as the
      same number. */
  lemma PyIntOfIntToString(n: int)
    ensures PyInt(IntToString(n)) == Some(n)
  {
    var m: nat := if n < 0 then -n else n;
    DecimalOfNatToString(m);
    if n < 0 {
      PyIntOfNegativeDigits(NatToString(m));
    } else {
      PyIntOfDigits(NatToString(m));
    }
  }

  lemma PyIntOfDigits(d: string)
    requires |d| > 0 && AllDigits(d)
    ensures PyInt(d) == Some(DecimalValue(d))
  {
    NoSpaceDigits(d);
    PlainStrip(d);
  }

  lemma PyIntOfNegativeDigits(d: string)
    requires |d| > 0 && AllDigits(d)
    ensures PyInt("-" + d) == Some(0 - DecimalValue(d) as int)
  {
    NoSpaceDigits(d);
    var t := "-" + d;
    assert t[0] == '-' && t[1..] == d && t[|t| - 1] == d[|d| - 1];
    PlainStrip(t);
  }

  lemma NoSpaceDigits(s: string)
    requires |s| > 0 && AllDigits(s)
    ensures Plain(s) && s[0] != '+' && s[0] != '-'
  {
  }

  /** The loop's state after one style: a truthy id goes to the id list (its
      `int()` may raise), otherwise a truthy name goes, stripped and
      lower-cased, to the new names; a style with neither is skipped. */
  function PartitionStep(acc: (seq<int>, seq<string>), s: StyleInput): Option<(seq<int>, seq<string>)> {
    if TruthyId(s.id) then
      match IdToInt(s.id)
      case None => None
      case Some(n) => Some((acc.0 + [n], acc.1))
    else if Truthy(s.name) then Some((acc.0, acc.1 + [ToLower(PyStrip(s.name.value))]))
    else Some(acc)
  }

  /** The two lists after the loop has read `styles`; `None` once an `int()`
      has raised. */
  function Partitioned(styles: seq<StyleInput>): Option<(seq<int>, seq<string>)> {
    if |styles| == 0 then Some(([], []))
    else match Partitioned(styles[..|styles| - 1])
      case None => None
      case Some(acc) => PartitionStep(acc, styles[|styles| - 1])
  }

  lemma {:induction false} PartitionedFailureSticks(styles: seq<StyleInput>, n: nat)
    requires n <= |styles| && Partitioned(styles[..n]).None?
    ensures Partitioned(styles).None?
    decreases |styles| - n
  {
    if n < |styles| {
      assert styles[..n + 1][..n] == styles[..n];
      PartitionedFailureSticks(styles, n + 1);
    } else {
      assert styles[..n] == styles;
    }
  }

  /** The partition loop of `update_cloth_in_db`; a failing `int()` ends it. */
  method PartitionStyles(styles: seq<StyleInput>) returns (r: Option<(seq<int>, seq<string>)>)
    ensures r == Partitioned(styles)
  {
    var styleIds: seq<int> := [];
    var newStyleNames: seq<string> := [];
    var i := 0;
    while i < |styles|
      invariant 0 <= i <= |styles|
      invariant Partitioned(styles[..i]) == Some((styleIds, newStyleNames))
    {
      var s := styles[i];
      assert styles[..i + 1][..i] == styles[..i];
      assert styles[..i + 1][i] == s;
      if TruthyId(s.id) {
        var n := IdToInt(s.id);
        if n.None? {
          PartitionedFailureSticks(styles, i + 1);
          return None;
        }
        styleIds := styleIds + [n.value];
      } else if Truthy(s.name) {
        newStyleNames := newStyleNames + [ToLower(PyStrip(s.name.value))];
      }
      i := i + 1;
    }
    assert styles[..|styles|] == styles;
    return Some((styleIds, newStyleNames));
  }

  /** Every style lands in at most one list, and the new names are already
      normal: stripping and lower-casing them again changes nothing. */
  lemma {:induction false} PartitionShape(styles: seq<StyleInput>)
    requires Partitioned(styles).Some?
    ensures |Partitioned(styles).value.0| + |Partitioned(styles).value.1| <= |styles|
    ensures forall t :: t in Partitioned(styles).value.1 ==> CleanField(t) == t
  {
    if |styles| > 0 {
      var init := styles[..|styles| - 1];
      PartitionShape(init);
      var s := styles[|styles| - 1];
      if !TruthyId(s.id) && Truthy(s.name) {
        CleanFieldIdempotent(s.name.value);
      }
    }
  }

  /** Styles that all carry numeric ids give exactly those ids, in order, and
      no new names. */
  lemma {:induction false} PartitionKnownIds(styles: seq<StyleInput>)
    requires forall i :: 0 <= i < |styles| ==> styles[i].id.IdNumber? && styles[i].id.n != 0
    ensures Partitioned(styles) == Some((NumberIds(styles), []))
  {
    if |styles| > 0 {
      var init := styles[..|styles| - 1];
      PartitionKnownIds(init);
    }
  }

  function NumberIds(styles: seq<StyleInput>): seq<int>
    requires forall i :: 0 <= i < |styles| ==> styles[i].id.IdNumber?
  {
    if |styles| == 0 then [] else NumberIds(styles[..|styles| - 1]) + [styles[|styles| - 1].id.n]
  }

  // ---------------------------------------------------------------------------
  // update_cloth_in_db: the whole update
  // ---------------------------------------------------------------------------

  datatype ClothData = ClothData(name: string, colour: string, kind: string, styles: seq<StyleInput>)

  /** The `update_cloth_with_styles` RPC's arguments. */
  datatype RpcArgs = RpcArgs(clothId: int, name: string, colour: string, kind: string, styleIds: seq<int>)

  /** The RPC call made, if any, and the `success` flag returned. */
  datatype UpdateResult = UpdateResult(call: Option<RpcArgs>, success: bool)

  function RowIds(rows: seq<StyleRow>): (r: seq<int>)
    ensures |r| == |rows| && forall i :: 0 <= i < |rows| ==> r[i] == rows[i].id
  {
    seq(|rows|, i requires 0 <= i < |rows| => rows[i].id)
  }

  /** `update_cloth_in_db`: the partition, the tags for new names (a failed
      tag call counts as no rows), then the RPC with existing ids followed by
      new-row ids. `rpcRaises` stands for the RPC's failure. */
  function UpdateCloth(clothId: int, data: ClothData, upsert: seq<string> -> Option<seq<StyleRow>>, rpcRaises: bool): (r: UpdateResult)
    ensures Partitioned(data.styles).None? ==> r == UpdateResult(None, false)
    ensures Partitioned(data.styles).Some? ==> r.call.Some? && r.success == !rpcRaises
    ensures r.call.Some? ==> (&& r.call.value.clothId == clothId && r.call.value.name == data.name
                              && r.call.value.colour == data.colour && r.call.value.kind == data.kind)
    ensures r.call.Some? ==> Partitioned(data.styles).value.0 <= r.call.value.styleIds
    ensures Partitioned(data.styles).Some? && Partitioned(data.styles).value.1 == [] ==>
              r.call.value.styleIds == Partitioned(data.styles).value.0
    ensures Partitioned(data.styles).Some? && Partitioned(data.styles).value.1 != [] ==>
              var rows := CreateStyleTags(Partitioned(data.styles).value.1, upsert).rows;
              r.call.value.styleIds == Partitioned(data.styles).value.0 + (if rows.Some? then RowIds(rows.value) else [])
  {
    match Partitioned(data.styles)
    case None => UpdateResult(None, false)
    case Some((ids, names)) =>
      var rows := if names != [] then CreateStyleTags(names, upsert).rows else Some([]);
      var newIds := if rows.Some? then RowIds(rows.value) else [];
      UpdateResult(Some(RpcArgs(clothId, data.name, data.colour, data.kind, ids + newIds)), !rpcRaises)
  }

  /** When the tag call fails the new styles are silently dropped: the RPC
      still runs, with only the existing ids. (Blank names, which the loop
      keeps as "", make no tag call and give no rows either.) */
  lemma TagFailureDropsNewStyles(clothId: int, data: ClothData, upsert: seq<string> -> Option<seq<StyleRow>>)
    requires Partitioned(data.styles).Some? && Partitioned(data.styles).value.1 != []
    requires upsert(NewTags(Partitioned(data.styles).value.1)).None?
    ensures UpdateCloth(clothId, data, upsert, false) ==
      UpdateResult(Some(RpcArgs(clothId, data.name, data.colour, data.kind, Partitioned(data.styles).value.0)), true)
  {
    var p := Partitioned(data.styles).value;
    var t := CreateStyleTags(p.1, upsert);
    assert t.rows.None? || t.rows == Some([]);
    var newIds := if t.rows.Some? then RowIds(t.rows.value) else [];
    assert newIds == [];
    assert p.0 + newIds == p.0;
  }

  // ---------------------------------------------------------------------------
  // delete_cloth_in_db
  // ---------------------------------------------------------------------------

  function WithoutId(table: seq<ClothRow>, id: int): (r: seq<ClothRow>)
    ensures forall x :: x in r <==> x in table && x.id != id
    ensures |r| <= |table|
  {
    if |table| == 0 then []
    else
      var init := table[..|table| - 1];
      var last := table[|table| - 1];
      assert table == init + [last];
      WithoutId(init, id) + (if last.id == id then [] else [last])
  }

  /** `delete_cloth_in_db`: the rows with that id go, and the result is
      whether any did. */
  function DeleteCloth(table: seq<ClothRow>, id: int): (r: (seq<ClothRow>, bool))
    ensures r.1 <==> exists x :: x in table && x.id == id
    ensures forall x :: x in r.0 <==> x in table && x.id != id
    ensures !r.1 ==> r.0 == table
  {
    var rest := WithoutId(table, id);
    if exists x :: x in table && x.id == id then (rest, true)
    else
      WithoutIdNoop(table, id);
      (table, false)
  }

  lemma {:induction false} WithoutIdNoop(table: seq<ClothRow>, id: int)
    requires forall x :: x in table ==> x.id != id
    ensures WithoutId(table, id) == table
  {
    if |table| > 0 {
      var init := table[..|table| - 1];
      var last := table[|table| - 1];
      assert table == init + [last];
      assert last in table;
      assert forall x :: x in init ==> x in table;
      WithoutIdNoop(init, id);
    }
  }

  /** A second delete of the same id finds nothing. */
  lemma DeleteTwice(table: seq<ClothRow>, id: int)
    ensures !DeleteCloth(DeleteCloth(table, id).0, id).1
  {
  }
}
