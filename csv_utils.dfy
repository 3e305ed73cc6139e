/** `convertToCSV`: a header line and one line per item, joined by `\n`,
    each line's fields joined by `,`, with no quoting or escaping. */
module CsvUtils {
  import opened Strings

  /** The shape `convertToCSV` reads; `category` is free text here. */
  datatype StockItem = StockItem(name: string, category: string, quantity: int, minThreshold: int)

  const HeaderFields: seq<string> := ["Name", "Category", "Current Quantity", "Min Threshold"]

  /** The header line `Name,Category,Current Quantity,Min Threshold`. */
  const Header: string := "Name" + [','] + "Category" + [','] + "Current Quantity" + [','] + "Min Threshold"

  /** The header fields joined by commas are the header line. */
  lemma HeaderLine()
    ensures Join(HeaderFields, ',') == Header
  {
    JoinFour("Name", "Category", "Current Quantity", "Min Threshold", ',');
  }

  /** An item's fields, verbatim: the name, the lower-cased category and the two numbers in decimal. */
  function Fields(item: StockItem): seq<string> {
    [item.name, ToLower(item.category), IntToString(item.quantity), IntToString(item.minThreshold)]
  }

  function Row(item: StockItem): string {
    Join(Fields(item), ',')
  }

  /** The rows, in input order. */
  function Rows(items: seq<StockItem>): (r: seq<string>)
    ensures |r| == |items|
    ensures forall i :: 0 <= i < |items| ==> r[i] == Row(items[i])
  {
    seq(|items|, i requires 0 <= i < |items| => Row(items[i]))
  }

  /** The CSV text: the header line, then the rows, separated by `\n`. */
  function ConvertToCSV(items: seq<StockItem>): (r: string)
    ensures |r| >= |Header| && r[..|Header|] == Header
  {
    HeaderLine();
    JoinStartsWith([Join(HeaderFields, ',')] + Rows(items), '\n');
    Join([Join(HeaderFields, ',')] + Rows(items), '\n')
  }

  /** An empty list gives the header line alone, without a newline. */
  lemma EmptyIsHeader()
    ensures ConvertToCSV([]) == Header
  {
    HeaderLine();
    assert [Join(HeaderFields, ',')] + Rows([]) == [Header];
  }

  /** Appending an item appends a newline and its row. */
  lemma AppendRow(items: seq<StockItem>, x: StockItem)
    ensures ConvertToCSV(items + [x]) == ConvertToCSV(items) + "\n" + Row(x)
  {
    var h := Join(HeaderFields, ',');
    assert [h] + Rows(items + [x]) == ([h] + Rows(items)) + [Row(x)];
    JoinAppend([h] + Rows(items), Row(x), '\n');
  }

  /** The text never ends in a newline: it ends with the header's last letter or a digit. */
  lemma NoTrailingNewline(items: seq<StockItem>)
    ensures var r := ConvertToCSV(items); |r| >= 1 && r[|r| - 1] != '\n'
  {
    HeaderLine();
    var lines := [Join(HeaderFields, ',')] + Rows(items);
    JoinEndsWith(lines, '\n');
    var last := lines[|lines| - 1];
    if |items| > 0 {
      var x := items[|items| - 1];
      assert last == Row(x);
      JoinEndsWith(Fields(x), ',');
      assert last[|last| - 1] == IntToString(x.minThreshold)[|IntToString(x.minThreshold)| - 1];
    } else {
      assert last == Header;
    }
    var r := ConvertToCSV(items);
    assert r[|r| - 1] == last[|last| - 1];
  }

  predicate NewlineFree(item: StockItem) {
    '\n' !in item.name && '\n' !in item.category
  }

  lemma RowNewlineFree(item: StockItem)
    requires NewlineFree(item)
    ensures '\n' !in Row(item)
  {
    ToLowerAvoids(item.category, '\n');
    JoinAvoids(Fields(item), ',', '\n');
  }

  /** When no name or category holds a newline, the lines of the text are the
      header and then row i for item i, so there are `|items| + 1` lines. */
  lemma Lines(items: seq<StockItem>)
    requires forall i :: 0 <= i < |items| ==> NewlineFree(items[i])
    ensures Split(ConvertToCSV(items), '\n') == [Header] + Rows(items)
    ensures |Split(ConvertToCSV(items), '\n')| == |items| + 1
  {
    HeaderLine();
    var lines := [Header] + Rows(items);
    forall i | 0 <= i < |lines| ensures '\n' !in lines[i] {
      if i > 0 {
        RowNewlineFree(items[i - 1]);
      }
    }
    SplitJoin(lines, '\n');
  }

  /** When neither the name nor the category holds a comma, a row splits back into the item's fields. */
  lemma RowFields(item: StockItem)
    requires ',' !in item.name && ',' !in item.category
    ensures Split(Row(item), ',') == [item.name, ToLower(item.category), IntToString(item.quantity), IntToString(item.minThreshold)]
  {
    ToLowerAvoids(item.category, ',');
    SplitJoin(Fields(item), ',');
  }

  lemma JoinFour(a: string, b: string, c: string, d: string, sep: char)
    ensures Join([a, b, c, d], sep) == a + [sep] + b + [sep] + c + [sep] + d
  {
    assert [a, b, c, d][1..] == [b, c, d] && [b, c, d][1..] == [c, d] && [c, d][1..] == [d];
    assert Join([c, d], sep) == c + [sep] + d;
    assert Join([b, c, d], sep) == b + [sep] + (c + [sep] + d);
    assert Join([a, b, c, d], sep) == a + [sep] + (b + [sep] + (c + [sep] + d));
  }

  lemma LowerFood()
    ensures ToLower("FOOD") == "food"
  {
  }

  /** Fields are not quoted: a comma in a name is copied as is, and the row
      then splits into five pieces instead of four. */
  lemma NoQuoting()
    ensures Split(Row(StockItem("Salt, coarse", "FOOD", 3, 1)), ',') == ["Salt", " coarse", "food", "3", "1"]
  {
    var row := Row(StockItem("Salt, coarse", "FOOD", 3, 1));
    LowerFood();
    assert IntToString(3) == "3" && IntToString(1) == "1";
    JoinFour("Salt, coarse", "food", "3", "1", ',');
    assert row == "Salt, coarse" + [','] + "food" + [','] + "3" + [','] + "1";
    var rest := " coarse" + [','] + "food" + [','] + "3" + [','] + "1";
    assert "Salt, coarse" == "Salt" + [','] + " coarse";
    assert row == "Salt" + [','] + rest;
    JoinFour(" coarse", "food", "3", "1", ',');
    SplitJoin([" coarse", "food", "3", "1"], ',');
    SplitAtFirstSeparator("Salt", rest, ',');
  }

  lemma ExampleRow()
    ensures Row(StockItem("Test Item", "FOOD", 5, 2)) == "Test Item,food,5,2"
  {
    LowerFood();
    assert IntToString(5) == "5" && IntToString(2) == "2";
    JoinFour("Test Item", "food", "5", "2", ',');
    assert "Test Item" + [','] + "food" + [','] + "5" + [','] + "2" == "Test Item,food,5,2";
  }

  /** A single item gives the header line, a newline and its row. */
  lemma OneItem(x: StockItem)
    ensures ConvertToCSV([x]) == Header + "\n" + Row(x)
  {
    assert [] + [x] == [x];
    AppendRow([], x);
    EmptyIsHeader();
  }

  /** One item of category FOOD, quantity 5 and threshold 2. */
  lemma OneItemExample()
    ensures ConvertToCSV([StockItem("Test Item", "FOOD", 5, 2)])
            == Header + "\n" + "Test Item,food,5,2"
  {
    OneItem(StockItem("Test Item", "FOOD", 5, 2));
    ExampleRow();
  }
}
