/** `map_ai_text_to_db_items` (backend-flask/app/recommendation/parser.py):
    reads the model's `category: id` lines into an insertion-ordered outfit
    dictionary, resolving each id against the cloth details. */
module OutfitParser {
  import opened Common
  import opened RecommendationTypes

  const StylePhraseKey := "_style_phrase"

  /** A value of the outfit dictionary: the style phrase, or the chosen item's
      fields (`id`, `type`, `name`, `colour`, `image_url`, and `styles` taken
      from `clothes_styles`). */
  datatype Value = StylePhrase(text: string) | Chosen(item: DbItem)

  type Outfit = seq<(string, Value)>

  /** `next((item for item in all_items if str(item["id"]) == value), None)`. */
  function FindById(items: seq<DbItem>, value: string): (r: Option<DbItem>)
    ensures r.None? <==> forall i :: 0 <= i < |items| ==> IntToString(items[i].id) != value
    ensures r.Some? ==> r.value in items && IntToString(r.value.id) == value
    ensures r.Some? ==> exists k :: 0 <= k < |items| && r.value == items[k] && IntToString(items[k].id) == value
                                    && forall i :: 0 <= i < k ==> IntToString(items[i].id) != value
  {
    match FirstIndex(items, (x: DbItem) => IntToString(x.id) == value)
    case None => None
    case Some(k) => Some(items[k])
  }

  /** The key a line with a colon files under: the stripped, lower-cased text
      before the first colon. */
  function KeyOf(line: string): string
    requires ':' in line
  {
    ToLower(PyStrip(SplitOnce(line, ':').value.0))
  }

  /** The stripped text after the first colon. */
  function ValueOf(line: string): string
    requires ':' in line
  {
    PyStrip(SplitOnce(line, ':').value.1)
  }

  /** One pass of the loop body. */
  function Step(o: Outfit, line: string, items: seq<DbItem>): (r: Outfit)
    ensures PyStrip(line) == "" || ':' !in line ==> r == o
    ensures PyStrip(line) != "" && ':' in line && KeyOf(line) == "style phrase" ==>
              r == Put(o, StylePhraseKey, StylePhrase(ValueOf(line)))
    ensures PyStrip(line) != "" && ':' in line && KeyOf(line) != "style phrase" ==>
              r == match FindById(items, ValueOf(line))
                   case None => o
                   case Some(item) => Put(o, KeyOf(line), Chosen(item))
  {
    if PyStrip(line) == "" then o
    else match SplitOnce(line, ':')
      case None => o
      case Some((part, rest)) =>
        var category := ToLower(PyStrip(part));
        var value := PyStrip(rest);
        if category == "style phrase" then Put(o, StylePhraseKey, StylePhrase(value))
        else match FindById(items, value)
          case None => o
          case Some(item) => Put(o, category, Chosen(item))
  }

  /** The outfit after the loop has read `lines`. */
  function Parsed(lines: seq<string>, items: seq<DbItem>): Outfit {
    if |lines| == 0 then [] else Step(Parsed(lines[..|lines| - 1], items), lines[|lines| - 1], items)
  }

  /** `ai_text.strip().split("\n")`. */
  function Lines(aiText: string): seq<string> {
    Split(PyStrip(aiText), '\n')
  }

  /** The parser's loop: a line that cannot be split is reported and skipped,
      and the loop goes on with the next one. */
  method MapAiText(aiText: string, items: seq<DbItem>) returns (outfit: Outfit)
    ensures outfit == Parsed(Lines(aiText), items)
  {
    outfit := [];
    var lines := Split(PyStrip(aiText), '\n');
    var i := 0;
    while i < |lines|
      invariant 0 <= i <= |lines|
      invariant outfit == Parsed(lines[..i], items)
    {
      ParsedSnoc(lines, i, items);
      outfit := ReadLine(outfit, lines[i], items);
      i := i + 1;
    }
    assert lines[..|lines|] == lines;
  }

  /** The loop body for one line: blank lines and lines without a colon leave
      the outfit as it is. */
  method ReadLine(start: Outfit, line: string, items: seq<DbItem>) returns (outfit: Outfit)
    ensures outfit == Step(start, line, items)
  {
    outfit := start;
    if PyStrip(line) != "" {
      var parts := SplitOnce(line, ':');
      if parts.Some? {
        var category := ToLower(PyStrip(parts.value.0));
        var value := PyStrip(parts.value.1);
        if category == "style phrase" {
          outfit := Put(outfit, StylePhraseKey, StylePhrase(value));
        } else {
          var found := FindById(items, value);
          if found.Some? {
            outfit := Put(outfit, category, Chosen(found.value));
          }
        }
      }
    }
  }

  lemma ParsedSnoc(lines: seq<string>, i: nat, items: seq<DbItem>)
    requires i < |lines|
    ensures Parsed(lines[..i + 1], items) == Step(Parsed(lines[..i], items), lines[i], items)
  {
    assert lines[..i + 1][..i] == lines[..i];
  }

  /** The keys of the lines that have a colon, in line order. */
  function LineKeys(lines: seq<string>): seq<string> {
    if |lines| == 0 then []
    else
      var line := lines[|lines| - 1];
      LineKeys(lines[..|lines| - 1]) + (if ':' in line then [KeyOf(line)] else [])
  }

  /** Each of those keys is the key of some line with a colon. */
  lemma {:induction false} LineKeysFromLines(lines: seq<string>, k: string)
    requires k in LineKeys(lines)
    ensures exists i :: 0 <= i < |lines| && ':' in lines[i] && KeyOf(lines[i]) == k
  {
    var init := lines[..|lines| - 1];
    var line := lines[|lines| - 1];
    if k in LineKeys(init) {
      LineKeysFromLines(init, k);
      var i :| 0 <= i < |init| && ':' in init[i] && KeyOf(init[i]) == k;
      assert lines[i] == init[i];
    } else {
      assert ':' in lines[|lines| - 1] && KeyOf(lines[|lines| - 1]) == k;
    }
  }

  /** Every key comes from the text: it is the style-phrase key or the key of
      a line with a colon, and a "style phrase" line never becomes a category. */
  lemma {:induction false} KeysFromText(lines: seq<string>, items: seq<DbItem>)
    ensures forall k :: k in Keys(Parsed(lines, items)) ==> k == StylePhraseKey || k in LineKeys(lines)
    ensures "style phrase" !in Keys(Parsed(lines, items))
  {
    if |lines| > 0 {
      var init := lines[..|lines| - 1];
      var line := lines[|lines| - 1];
      KeysFromText(init, items);
      var o := Parsed(init, items);
      assert Parsed(lines, items) == Step(o, line, items);
      StepKeys(o, line, items);
      assert "style phrase" != StylePhraseKey;
      assert LineKeys(lines) == LineKeys(init) + (if ':' in line then [KeyOf(line)] else []);
    }
  }

  /** The keys one line can add. */
  lemma StepKeys(o: Outfit, line: string, items: seq<DbItem>)
    ensures forall k :: k in Keys(Step(o, line, items)) ==>
      k in Keys(o) || k == StylePhraseKey || (':' in line && KeyOf(line) == k && k != "style phrase")
  {
    if PyStrip(line) != "" && ':' in line {
      if KeyOf(line) == "style phrase" {
        PutKeysFrom(o, StylePhraseKey, StylePhrase(ValueOf(line)));
      } else if FindById(items, ValueOf(line)).Some? {
        PutKeysFrom(o, KeyOf(line), Chosen(FindById(items, ValueOf(line)).value));
      }
    }
  }

  lemma PutKeysFrom(o: Outfit, key: string, v: Value)
    ensures forall k :: k in Keys(Put(o, key, v)) ==> k in Keys(o) || k == key
  {
  }

  /** Every chosen value is one of the cloth details. */
  lemma {:induction false} ChosenFromItems(lines: seq<string>, items: seq<DbItem>)
    ensures forall j :: 0 <= j < |Parsed(lines, items)| && Parsed(lines, items)[j].1.Chosen? ==>
      Parsed(lines, items)[j].1.item in items
  {
    if |lines| > 0 {
      var init := lines[..|lines| - 1];
      ChosenFromItems(init, items);
      var o := Parsed(init, items);
      var line := lines[|lines| - 1];
      if PyStrip(line) != "" && ':' in line {
        if KeyOf(line) == "style phrase" {
          PutValues(o, StylePhraseKey, StylePhrase(ValueOf(line)), items);
        } else if FindById(items, ValueOf(line)).Some? {
          PutValues(o, KeyOf(line), Chosen(FindById(items, ValueOf(line)).value), items);
        }
      }
    }
  }

  lemma {:induction false} PutValues(o: Outfit, k: string, v: Value, items: seq<DbItem>)
    requires forall j :: 0 <= j < |o| && o[j].1.Chosen? ==> o[j].1.item in items
    requires v.Chosen? ==> v.item in items
    ensures forall j :: 0 <= j < |Put(o, k, v)| && Put(o, k, v)[j].1.Chosen? ==> Put(o, k, v)[j].1.item in items
  {
    if |o| > 0 && o[0].0 != k {
      PutValues(o[1..], k, v, items);
      var r := Put(o, k, v);
      assert r == [o[0]] + Put(o[1..], k, v);
      forall j | 0 <= j < |r| && r[j].1.Chosen? ensures r[j].1.item in items {
        if j > 0 {
          assert r[j] == Put(o[1..], k, v)[j - 1];
        }
      }
    }
  }

  /** The outfit never holds a key twice. */
  lemma {:induction false} ParsedUniqueKeys(lines: seq<string>, items: seq<DbItem>)
    ensures UniqueKeys(Parsed(lines, items))
  {
    if |lines| > 0 {
      var init := lines[..|lines| - 1];
      ParsedUniqueKeys(init, items);
      var o := Parsed(init, items);
      var line := lines[|lines| - 1];
      if PyStrip(line) != "" && ':' in line {
        if KeyOf(line) == "style phrase" {
          PutKeepsUniqueKeys(o, StylePhraseKey, StylePhrase(ValueOf(line)));
        } else if FindById(items, ValueOf(line)).Some? {
          PutKeepsUniqueKeys(o, KeyOf(line), Chosen(FindById(items, ValueOf(line)).value));
        }
      }
    }
  }

  /** A later line for the same category overwrites the earlier entry, and
      leaves every other key as it was. */
  lemma LaterLineWins(lines: seq<string>, items: seq<DbItem>, line: string, item: DbItem, k: string)
    requires PyStrip(line) != "" && ':' in line && KeyOf(line) != "style phrase"
    requires FindById(items, ValueOf(line)) == Some(item)
    ensures Lookup(Parsed(lines + [line], items), k)
            == if k == KeyOf(line) then Some(Chosen(item)) else Lookup(Parsed(lines, items), k)
  {
    assert (lines + [line])[..|lines|] == lines;
    PutLookup(Parsed(lines, items), KeyOf(line), Chosen(item), k);
  }

  /** A line without a colon adds nothing, and parsing goes on after it. */
  lemma NoColonSkipped(lines: seq<string>, items: seq<DbItem>, line: string)
    requires ':' !in line
    ensures Parsed(lines + [line], items) == Parsed(lines, items)
  {
    assert (lines + [line])[..|lines|] == lines;
  }

  /** A line with no white space at its ends. */
  predicate Plain(s: string) {
    |s| > 0 ==> !IsPySpace(s[0]) && !IsPySpace(s[|s| - 1])
  }

  lemma PyStripPlain(s: string)
    requires Plain(s)
    ensures PyStrip(s) == s
  {
  }

  lemma ColonLine(key: string, value: string)
    requires ':' !in key && Plain(key) && Plain(value)
    ensures ':' in key + ":" + value && PyStrip(key + ":" + value) != ""
    ensures KeyOf(key + ":" + value) == ToLower(key) && ValueOf(key + ":" + value) == value
  {
    var line := key + ":" + value;
    assert line == key + [':'] + value;
    assert line[|key|] == ':';
    assert !IsPySpace(line[|key|]);
    PyStripEmpty(line);
    SplitOnceAt(key, ':', value);
    assert SplitOnce(line, ':') == Some((key, value));
    PyStripPlain(key);
    PyStripPlain(value);
  }

  lemma SplitOnceAt(a: string, sep: char, b: string)
    requires sep !in a
    ensures SplitOnce(a + [sep] + b, sep) == Some((a, b))
  {
    var s := a + [sep] + b;
    IndexOfAfter(a, sep, b);
    assert s[..|a|] == a && s[|a| + 1..] == b;
  }

  lemma {:induction false} IndexOfAfter(a: string, sep: char, b: string)
    requires sep !in a
    ensures IndexOf(a + [sep] + b, sep) == Some(|a|)
  {
    var s := a + [sep] + b;
    if |a| > 0 {
      assert s[0] == a[0] && s[1..] == a[1..] + [sep] + b;
      IndexOfAfter(a[1..], sep, b);
    } else {
      assert s[0] == sep;
    }
  }

  /** A reply line `<Category>:<id>` naming an item files that item under
      the lower-cased category. */
  lemma CategoryLine(o: Outfit, key: string, items: seq<DbItem>, item: DbItem)
    requires ':' !in key && Plain(key) && ToLower(key) != "style phrase"
    requires FindById(items, IntToString(item.id)) == Some(item)
    requires Plain(IntToString(item.id))
    ensures Step(o, key + ":" + IntToString(item.id), items) == Put(o, ToLower(key), Chosen(item))
  {
    ColonLine(key, IntToString(item.id));
  }

  /** A `Style Phrase: <text>` line, in any letter case, stores the phrase
      under its own key. */
  lemma StylePhraseLine(o: Outfit, key: string, text: string, items: seq<DbItem>)
    requires ':' !in key && Plain(key) && ToLower(key) == "style phrase" && Plain(text)
    ensures Step(o, key + ":" + text, items) == Put(o, StylePhraseKey, StylePhrase(text))
  {
    ColonLine(key, text);
  }
}
