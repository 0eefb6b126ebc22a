/** The prompt that `ask_openrouter_for_outfit` builds
    (backend-flask/app/recommendation/llm_service.py:38-58): a header naming
    the selected item, one line per candidate, and a fixed instruction block.
    The request to the model is not part of this model. */
module LlmService {
  import opened Common
  import opened RecommendationTypes

  const Header := "You are a fashion stylist. Create a complete outfit based on:\n"
  const CandidatesHeading := "Here are the candidates:\n"
  const Instructions :=
    "\nInstructions:"
    + "\n- Pick 1 item per category."
    + "\n- If no perfect match, pick the closest."
    + "\n- Return outfit in 'category: id' format for all given categories."
    + "\n- After the outfit, add ONE short phrase describing the outfit\U{2019}s overall style as: "
    + "Style Phrase: (e.g., \"casual chic\", \"spring clean-fit\", \"all-white chic\")."
    + "\n- Do NOT invent categories."
    + "\n- Do NOT explain or justify your choices."

  /** The shortlist: candidate lists in category order. */
  type Shortlist = seq<(string, seq<DbItem>)>

  function StyleList(item: DbItem): string {
    Join(item.styles, ", ")
  }

  /** The line describing the selected item, followed by a blank line. */
  function SelectedLine(sel: DbItem): string {
    "- " + sel.name + ", color: " + sel.colour + ", style: " + StyleList(sel) + "\n\n"
  }

  /** `- <type> (id: <id>): <name>, color: <colour>, styles: <styles>`. */
  function CandidateLine(item: DbItem): string {
    "- " + item.kind + " (id: " + IntToString(item.id) + "): " + item.name
    + ", color: " + item.colour + ", styles: " + StyleList(item) + "\n"
  }

  /** The text the inner loop adds for one category's list, each remaining
      item rendered by `line`. */
  function ItemsText(items: seq<DbItem>, selectedId: int, line: DbItem -> string): string {
    if |items| == 0 then ""
    else
      var last := items[|items| - 1];
      ItemsText(items[..|items| - 1], selectedId, line) + (if last.id == selectedId then "" else line(last))
  }

  /** The text both loops add for the whole shortlist. */
  function ShortlistText(s: Shortlist, selectedId: int, line: DbItem -> string): string {
    if |s| == 0 then "" else ShortlistText(s[..|s| - 1], selectedId, line) + ItemsText(s[|s| - 1].1, selectedId, line)
  }

  function PromptFor(s: Shortlist, sel: DbItem): string {
    Header + SelectedLine(sel) + CandidatesHeading + ShortlistText(s, sel.id, CandidateLine) + Instructions
  }

  /** The inner loop: `prompt += line(item)` for each item of one category
      except the selected one; the prompt passes `CandidateLine`. */
  method AppendItems(start: string, items: seq<DbItem>, selectedId: int, line: DbItem -> string) returns (prompt: string)
    ensures prompt == start + ItemsText(items, selectedId, line)
  {
    prompt := start;
    var k := 0;
    while k < |items|
      invariant 0 <= k <= |items|
      invariant prompt == start + ItemsText(items[..k], selectedId, line)
    {
      ItemsTextSnoc(items, k, selectedId, line);
      if items[k].id != selectedId {
        prompt := prompt + line(items[k]);
      }
      k := k + 1;
    }
    assert items[..|items|] == items;
  }

  lemma ItemsTextSnoc(items: seq<DbItem>, k: nat, selectedId: int, line: DbItem -> string)
    requires k < |items|
    ensures ItemsText(items[..k + 1], selectedId, line)
            == ItemsText(items[..k], selectedId, line) + (if items[k].id == selectedId then "" else line(items[k]))
  {
    assert items[..k + 1][..k] == items[..k];
  }

  lemma ShortlistTextSnoc(s: Shortlist, c: nat, selectedId: int, line: DbItem -> string)
    requires c < |s|
    ensures ShortlistText(s[..c + 1], selectedId, line)
            == ShortlistText(s[..c], selectedId, line) + ItemsText(s[c].1, selectedId, line)
  {
    assert s[..c + 1][..c] == s[..c];
    assert s[..c + 1][c] == s[c];
  }

  /** The outer loop over the shortlist's categories. */
  method AppendShortlist(start: string, shortlist: Shortlist, selectedId: int, line: DbItem -> string) returns (prompt: string)
    ensures prompt == start + ShortlistText(shortlist, selectedId, line)
  {
    prompt := start;
    var c := 0;
    while c < |shortlist|
      invariant 0 <= c <= |shortlist|
      invariant prompt == start + ShortlistText(shortlist[..c], selectedId, line)
    {
      ShortlistTextSnoc(shortlist, c, selectedId, line);
      prompt := AppendItems(prompt, shortlist[c].1, selectedId, line);
      c := c + 1;
    }
    assert shortlist[..|shortlist|] == shortlist;
  }

  /** The prompt-building code: header, selected item, the candidate loops,
      then the instruction block. */
  method BuildPrompt(shortlist: Shortlist, sel: DbItem) returns (prompt: string)
    ensures prompt == PromptFor(shortlist, sel)
  {
    prompt := Header;
    prompt := prompt + SelectedLine(sel);
    prompt := prompt + CandidatesHeading;
    prompt := AppendShortlist(prompt, shortlist, sel.id, CandidateLine);
    prompt := prompt + Instructions;
  }

  // The candidates the prompt lists -----------------------------------------------

  /** The shortlist's items other than the selected one, category by category
      and in list order. */
  function Remaining(s: Shortlist, selectedId: int): (r: seq<DbItem>)
    ensures forall x :: x in r ==> x.id != selectedId
  {
    if |s| == 0 then [] else Remaining(s[..|s| - 1], selectedId) + Without(s[|s| - 1].1, selectedId)
  }

  function Without(items: seq<DbItem>, id: int): (r: seq<DbItem>)
    ensures forall x :: x in r <==> x in items && x.id != id
  {
    if |items| == 0 then []
    else
      var last := items[|items| - 1];
      assert items == items[..|items| - 1] + [last];
      Without(items[..|items| - 1], id) + (if last.id == id then [] else [last])
  }

  /** The lines of `items`, in order. */
  function Lines(items: seq<DbItem>, line: DbItem -> string): string {
    if |items| == 0 then "" else Lines(items[..|items| - 1], line) + line(items[|items| - 1])
  }

  lemma {:induction false} LinesAppend(a: seq<DbItem>, b: seq<DbItem>, line: DbItem -> string)
    ensures Lines(a + b, line) == Lines(a, line) + Lines(b, line)
  {
    if |b| > 0 {
      var b' := b[..|b| - 1];
      assert (a + b)[..|a + b| - 1] == a + b';
      assert (a + b)[|a + b| - 1] == b[|b| - 1];
      LinesAppend(a, b', line);
    } else {
      assert a + b == a;
    }
  }

  lemma {:induction false} ItemsTextIsLines(items: seq<DbItem>, selectedId: int, line: DbItem -> string)
    ensures ItemsText(items, selectedId, line) == Lines(Without(items, selectedId), line)
  {
    if |items| > 0 {
      var init := items[..|items| - 1];
      var last := items[|items| - 1];
      ItemsTextIsLines(init, selectedId, line);
      var w := Without(init, selectedId);
      if last.id != selectedId {
        assert Without(items, selectedId) == w + [last];
        assert ItemsText(items, selectedId, line) == Lines(w, line) + line(last);
        LinesAppend(w, [last], line);
        assert [last][..0] == [];
        assert Lines([last], line) == line(last);
      } else {
        assert Without(items, selectedId) == w;
        assert ItemsText(items, selectedId, line) == Lines(w, line) + "";
      }
    }
  }

  /** The candidate part of the prompt is exactly one line per remaining
      candidate, in category order and then list order: the selected item has
      no line. */
  lemma {:induction false} PromptListsRemaining(s: Shortlist, sel: DbItem)
    ensures PromptFor(s, sel) == Header + SelectedLine(sel) + CandidatesHeading
                                  + Lines(Remaining(s, sel.id), CandidateLine) + Instructions
  {
    ShortlistIsLines(s, sel.id, CandidateLine);
  }

  lemma {:induction false} ShortlistIsLines(s: Shortlist, selectedId: int, line: DbItem -> string)
    ensures ShortlistText(s, selectedId, line) == Lines(Remaining(s, selectedId), line)
  {
    if |s| > 0 {
      ShortlistIsLines(s[..|s| - 1], selectedId, line);
      ItemsTextIsLines(s[|s| - 1].1, selectedId, line);
      LinesAppend(Remaining(s[..|s| - 1], selectedId), Without(s[|s| - 1].1, selectedId), line);
    }
  }

  /** The prompt opens with the stylist header and closes with the
      instruction block, whatever the shortlist. */
  lemma PromptFrame(s: Shortlist, sel: DbItem)
    ensures Header <= PromptFor(s, sel)
    ensures PromptFor(s, sel)[|PromptFor(s, sel)| - |Instructions|..] == Instructions
  {
    Framed(Header, SelectedLine(sel) + CandidatesHeading + ShortlistText(s, sel.id, CandidateLine), Instructions);
  }

  lemma Framed(a: string, b: string, c: string)
    ensures a <= a + b + c && (a + b + c)[|a + b + c| - |c|..] == c
  {
    assert a + b + c == a + (b + c);
  }

  /** Every item of the shortlist other than the selected one is listed. */
  lemma {:induction false} RemainingComplete(s: Shortlist, selectedId: int, c: nat, x: DbItem)
    requires c < |s| && x in s[c].1 && x.id != selectedId
    ensures x in Remaining(s, selectedId)
  {
    if c < |s| - 1 {
      assert s[..|s| - 1][c] == s[c];
      RemainingComplete(s[..|s| - 1], selectedId, c, x);
    }
  }
}
