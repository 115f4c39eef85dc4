/**
 * The plain-text form of a shopping list (`formatListForSharing` in
 * components/ShoppingListModal.tsx): one block per category, blocks separated by
 * an empty line, each block a `*category*` line followed by one line per item.
 */
module ShoppingListModal {
  import opened Types
  import opened Text

  /** `- name: quantity (buy: purchaseSize)`. */
  function ItemLine(item: ShoppingListItem): string {
    "- " + item.name + ": " + item.quantity + " (buy: " + item.purchaseSize + ")"
  }

  function ItemLines(items: seq<ShoppingListItem>): (lines: seq<string>)
    ensures |lines| == |items|
    ensures forall i :: 0 <= i < |items| ==> lines[i] == ItemLine(items[i])
  {
    seq(|items|, i requires 0 <= i < |items| => ItemLine(items[i]))
  }

  /** The block of one category: its starred name, a line break, and its item
      lines joined by line breaks (nothing after the break when it has no items). */
  function CategoryBlock(category: ShoppingListCategory): (r: string)
    ensures |r| >= |category.category| + 3 && r[..|category.category| + 3] == "*" + category.category + "*\n"
    ensures category.items == [] ==> r == "*" + category.category + "*\n"
  {
    "*" + category.category + "*\n" + Join(ItemLines(category.items), "\n")
  }

  function CategoryBlocks(list: ShoppingList): (blocks: seq<string>)
    ensures |blocks| == |list|
    ensures forall i :: 0 <= i < |list| ==> blocks[i] == CategoryBlock(list[i])
  {
    seq(|list|, i requires 0 <= i < |list| => CategoryBlock(list[i]))
  }

  /** `formatListForSharing`: the category blocks, in order, joined by an empty line. */
  function FormatListForSharing(list: ShoppingList): (r: string)
    ensures list == [] ==> r == ""
    ensures |list| == 1 ==> r == CategoryBlock(list[0])
  {
    Join(CategoryBlocks(list), "\n\n")
  }

  /** Formatting is compositional: two non-empty lists format to their two texts
      with one empty line between them, so each category keeps its own block in
      list order. */
  lemma {:induction false} FormatConcat(list1: ShoppingList, list2: ShoppingList)
    requires |list1| > 0 && |list2| > 0
    ensures FormatListForSharing(list1 + list2)
         == FormatListForSharing(list1) + "\n\n" + FormatListForSharing(list2)
  {
    assert CategoryBlocks(list1 + list2) == CategoryBlocks(list1) + CategoryBlocks(list2);
    JoinAppend(CategoryBlocks(list1), CategoryBlocks(list2), "\n\n");
  }

  // ---------------------------------------------------------------------------
  // The text, line by line
  // ---------------------------------------------------------------------------

  /** The lines of one block: the starred name, then the item lines, or one empty
      line when there are no items. */
  function BlockLines(category: ShoppingListCategory): seq<string> {
    ["*" + category.category + "*"] +
    (if category.items == [] then [""] else ItemLines(category.items))
  }

  /** The lines of the whole text, read independently of the joins: the lines of
      each block in category order, with one empty line between two blocks. */
  function ListLines(list: ShoppingList): seq<string>
    decreases |list|
  {
    if |list| == 0 then [""]
    else if |list| == 1 then BlockLines(list[0])
    else BlockLines(list[0]) + [""] + ListLines(list[1..])
  }

  /** No field of the list holds a line break. */
  predicate SingleLineFields(list: ShoppingList) {
    forall c :: c in list ==>
      '\n' !in c.category &&
      forall item :: item in c.items ==> '\n' !in item.name && '\n' !in item.quantity && '\n' !in item.purchaseSize
  }

  lemma {:induction false} BlockAsLines(category: ShoppingListCategory)
    ensures CategoryBlock(category) == Join(BlockLines(category), "\n")
  {
    var head := "*" + category.category + "*";
    var rest := if category.items == [] then [""] else ItemLines(category.items);
    JoinPrepend(head, rest, "\n");
    assert Join(rest, "\n") == Join(ItemLines(category.items), "\n");
    StarredLine(category.category, Join(rest, "\n"));
  }

  lemma {:induction false} StarredLine(name: string, rest: string)
    ensures "*" + name + "*\n" + rest == ("*" + name + "*") + "\n" + rest
  {
  }

  /** The text is the join of its lines. */
  lemma {:induction false} FormatAsLines(list: ShoppingList)
    ensures FormatListForSharing(list) == Join(ListLines(list), "\n")
    decreases |list|
  {
    if |list| == 1 {
      BlockAsLines(list[0]);
    } else if |list| > 1 {
      var blocks := CategoryBlocks(list);
      var tail := list[1..];
      CategoryBlocksTail(list);
      FormatAsLines(tail);
      BlockAsLines(list[0]);
      var b := BlockLines(list[0]);
      var t := ListLines(tail);
      assert |t| > 0;
      assert FormatListForSharing(list) == blocks[0] + "\n\n" + Join(blocks[1..], "\n\n");
      ListLinesCons(list);
      JoinAppend(b, [""] + t, "\n");
      JoinPrepend("", t, "\n");
      EmptyLineBetween(FormatListForSharing(list), blocks[0], Join(blocks[1..], "\n\n"),
                       Join(b, "\n"), Join(t, "\n"), Join(ListLines(list), "\n"), Join([""] + t, "\n"));
    }
  }

  lemma {:induction false} CategoryBlocksTail(list: ShoppingList)
    requires |list| > 0
    ensures CategoryBlocks(list[1..]) == CategoryBlocks(list)[1..]
  {
  }

  lemma {:induction false} ListLinesCons(list: ShoppingList)
    requires |list| > 1
    ensures ListLines(list) == BlockLines(list[0]) + ([""] + ListLines(list[1..]))
  {
  }

  /** An empty line between two texts is two line breaks. */
  lemma {:induction false} EmptyLineBetween(text: string, first: string, rest: string,
                                           firstLines: string, restLines: string,
                                           lines: string, afterFirst: string)
    requires text == first + "\n\n" + rest && first == firstLines && rest == restLines
    requires lines == firstLines + "\n" + afterFirst && afterFirst == "" + "\n" + restLines
    ensures text == lines
  {
    assert "\n\n" == "\n" + "\n";
  }

  lemma {:induction false} ItemLinesSingle(items: seq<ShoppingListItem>)
    requires forall item :: item in items ==> '\n' !in item.name && '\n' !in item.quantity && '\n' !in item.purchaseSize
    ensures forall i :: 0 <= i < |items| ==> '\n' !in ItemLines(items)[i]
  {
    forall i | 0 <= i < |items| ensures '\n' !in ItemLines(items)[i] {
      assert items[i] in items;
    }
  }

  lemma {:induction false} ListLinesSingle(list: ShoppingList)
    requires SingleLineFields(list)
    ensures forall i :: 0 <= i < |ListLines(list)| ==> '\n' !in ListLines(list)[i]
    decreases |list|
  {
    if |list| > 0 {
      assert list[0] in list;
      ItemLinesSingle(list[0].items);
      var b := BlockLines(list[0]);
      assert forall i :: 0 <= i < |b| ==> '\n' !in b[i];
      if |list| > 1 {
        assert SingleLineFields(list[1..]) by {
          forall c | c in list[1..] ensures c in list { }
        }
        ListLinesSingle(list[1..]);
      }
    }
  }

  /** Splitting the text at its line breaks gives back exactly ListLines: the
      starred category name, its item lines in order, an empty line, the next
      category, and so on. */
  lemma {:induction false} SplitFormattedList(list: ShoppingList)
    requires SingleLineFields(list)
    ensures Split(FormatListForSharing(list), '\n') == ListLines(list)
  {
    FormatAsLines(list);
    ListLinesSingle(list);
    var lines := ListLines(list);
    assert |lines| > 0;
    SplitJoin(lines, '\n');
  }
}
