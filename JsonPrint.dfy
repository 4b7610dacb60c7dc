/**
 * The pretty-printer. The text each value prints as is given by functions
 * (`NodeText` and its helpers); the printers the source writes, which
 * append to an output stream in loops, are methods over an output string
 * proved to append exactly that text. A `double` is written with the
 * host's stream formatting, which is a parameter here.
 */
module JsonPrint {
  import opened Decimal
  import opened JsonNode

  /** `Indent`: four spaces per level. */
  function IndentText(indent: nat): (r: string)
    ensures |r| == 4 * indent
  {
    if indent == 0 then [] else IndentText(indent - 1) + "    "
  }

  /** What `PrintString` writes for one character: CR, LF, `"` and `\` are escaped. */
  function EscapeChar(c: char): string {
    if c == '\r' then "\\r"
    else if c == '\n' then "\\n"
    else if c == '"' then "\\\""
    else if c == '\\' then "\\\\"
    else [c]
  }

  /** The escaped characters of a string, in order. */
  function Escaped(str: string): string {
    if str == [] then [] else EscapeChar(str[0]) + Escaped(str[1..])
  }

  /** `PrintString`: the escaped string between double quotes. */
  function StringText(str: string): string {
    "\"" + Escaped(str) + "\""
  }

  /** The text a node prints as at nesting level `indent`. */
  function NodeText(n: Node, indent: nat, format: DoubleFormat): string
    decreases n, 2
  {
    match n
    case Array(items) => ArrayText(n, items, indent, format)
    case Dict(entries) => MapText(n, entries, indent, format)
    case String(s) => StringText(s)
    case Null => "null"
    case Int(i) => IntToDecimal(i as int)
    case Double(d) => format(d)
    case Bool(b) => if b then "true" else "false"
  }

  /** `PrintArray`: `[`, one element per line one level deeper, and `]` at this level. */
  function ArrayText(ghost parent: Node, items: seq<Node>, indent: nat, format: DoubleFormat): string
    requires forall i :: 0 <= i < |items| ==> items[i] < parent
    decreases parent, 1
  {
    "[\n" + ItemLines(parent, items, 0, indent, format) + IndentText(indent) + "]"
  }

  /** The line of the `i`-th element: indented one level deeper, with a comma unless it is the last. */
  function ItemLine(ghost parent: Node, items: seq<Node>, i: nat, indent: nat, format: DoubleFormat): string
    requires i < |items|
    requires forall i :: 0 <= i < |items| ==> items[i] < parent
    decreases parent, 0, |items| - i, 0
  {
    IndentText(indent + 1) + NodeText(items[i], indent + 1, format) + (if i < |items| - 1 then "," else "") + "\n"
  }

  /** The lines of the elements from the `i`-th on. */
  function ItemLines(ghost parent: Node, items: seq<Node>, i: nat, indent: nat, format: DoubleFormat): string
    requires i <= |items|
    requires forall i :: 0 <= i < |items| ==> items[i] < parent
    decreases parent, 0, |items| - i, 1
  {
    if i == |items| then [] else ItemLine(parent, items, i, indent, format) + ItemLines(parent, items, i + 1, indent, format)
  }

  /** `PrintMap`: `{`, one `"key": value` line per member one level deeper, and `}` at this level. */
  function MapText(ghost parent: Node, entries: seq<(string, Node)>, indent: nat, format: DoubleFormat): string
    requires forall i :: 0 <= i < |entries| ==> entries[i].1 < parent
    decreases parent, 1
  {
    "{\n" + MemberLines(parent, entries, 0, indent, format) + IndentText(indent) + "}"
  }

  /** The indented key of a member, written as it is, then the colon and a space. */
  function KeyText(key: string, indent: nat): string {
    IndentText(indent) + "\"" + key + "\": "
  }

  /** The line of the `i`-th member; the key is written as it is, without escaping. */
  function MemberLine(ghost parent: Node, entries: seq<(string, Node)>, i: nat, indent: nat, format: DoubleFormat): string
    requires i < |entries|
    requires forall i :: 0 <= i < |entries| ==> entries[i].1 < parent
    decreases parent, 0, |entries| - i, 0
  {
    KeyText(entries[i].0, indent + 1) + NodeText(entries[i].1, indent + 1, format)
    + (if i < |entries| - 1 then "," else "") + "\n"
  }

  /** The lines of the members from the `i`-th on. */
  function MemberLines(ghost parent: Node, entries: seq<(string, Node)>, i: nat, indent: nat, format: DoubleFormat): string
    requires i <= |entries|
    requires forall i :: 0 <= i < |entries| ==> entries[i].1 < parent
    decreases parent, 0, |entries| - i, 1
  {
    if i == |entries| then [] else MemberLine(parent, entries, i, indent, format) + MemberLines(parent, entries, i + 1, indent, format)
  }

  /** `json::Print`: the root at level 0. */
  function DocumentText(doc: Document, format: DoubleFormat): string {
    NodeText(doc.root, 0, format)
  }

  // ---------------------------------------------------------------------
  // The printers, writing to an output string
  // ---------------------------------------------------------------------

  /** `Indent`: the loop that appends four spaces `indent` times. */
  method Indent(indent: nat) returns (r: string)
    ensures r == IndentText(indent)
  {
    r := [];
    for i := 0 to indent
      invariant r == IndentText(i)
    {
      r := r + "    ";
    }
  }

  /** The escaping switch of `PrintString`'s loop, for one character. */
  method PrintChar(c: char, output: string) returns (out: string)
    ensures out == output + EscapeChar(c)
  {
    if c == '\r' {
      out := output + "\\r";
    } else if c == '\n' {
      out := output + "\\n";
    } else if c == '"' {
      out := output + "\\\"";
    } else if c == '\\' {
      out := output + "\\\\";
    } else {
      out := output + [c];
    }
  }

  /** `PrintString`: the quote, each character through the escaping switch, the quote. */
  method PrintString(str: string, output: string) returns (out: string)
    ensures out == output + StringText(str)
  {
    out := output + "\"";
    for i := 0 to |str|
      invariant out + Escaped(str[i..]) == output + "\"" + Escaped(str)
    {
      ghost var before := out;
      ghost var rest := Escaped(str[i + 1..]);
      assert Escaped(str[i..]) == EscapeChar(str[i]) + rest;
      out := PrintChar(str[i], out);
      assert out + rest == before + (EscapeChar(str[i]) + rest);
    }
    assert str[|str|..] == [];
    assert out == output + "\"" + Escaped(str);
    out := out + "\"";
    assert out == output + ("\"" + Escaped(str) + "\"");
  }

  /** `PrintNode`: dispatch on the alternative the node holds. */
  method PrintNode(n: Node, indent: nat, format: DoubleFormat, output: string) returns (out: string)
    ensures out == output + NodeText(n, indent, format)
    decreases n, 2
  {
    match n
    case Array(items) =>
      out := PrintArray(n, items, indent, format, output);
    case Dict(entries) =>
      out := PrintMap(n, entries, indent, format, output);
    case String(s) =>
      out := PrintString(s, output);
    case Null =>
      out := output + "null";
    case Int(i) =>
      out := output + IntToDecimal(i as int);
    case Double(d) =>
      out := output + format(d);
    case Bool(b) =>
      out := output + if b then "true" else "false";
  }

  /** One pass of `PrintArray`'s loop: the indentation, the element and the separator. */
  method PrintItem(ghost parent: Node, items: seq<Node>, i: nat, indent: nat, inner: string,
                   format: DoubleFormat, output: string) returns (out: string)
    requires i < |items| && inner == IndentText(indent + 1)
    requires forall i :: 0 <= i < |items| ==> items[i] < parent
    ensures out == output + ItemLine(parent, items, i, indent, format)
    decreases parent, 0
  {
    out := output + inner;
    out := PrintNode(items[i], indent + 1, format, out);
    if i < |items| - 1 {
      out := out + ",";
    }
    out := out + "\n";
  }

  /** `PrintArray`: the index loop over the elements. */
  method PrintArray(ghost parent: Node, items: seq<Node>, indent: nat, format: DoubleFormat, output: string) returns (out: string)
    requires forall i :: 0 <= i < |items| ==> items[i] < parent
    ensures out == output + ArrayText(parent, items, indent, format)
    decreases parent, 1
  {
    out := output + "[\n";
    var inner := Indent(indent + 1);
    for i := 0 to |items|
      invariant out + ItemLines(parent, items, i, indent, format) == output + "[\n" + ItemLines(parent, items, 0, indent, format)
    {
      ghost var before := out;
      out := PrintItem(parent, items, i, indent, inner, format, out);
      ghost var line := ItemLine(parent, items, i, indent, format);
      ghost var rest := ItemLines(parent, items, i + 1, indent, format);
      assert ItemLines(parent, items, i, indent, format) == line + rest;
      assert out + rest == before + (line + rest);
    }
    assert out == output + "[\n" + ItemLines(parent, items, 0, indent, format);
    var closing := Indent(indent);
    out := out + closing + "]";
    assert out == output + ("[\n" + ItemLines(parent, items, 0, indent, format) + closing + "]");
  }

  /** One pass of `PrintMap`'s loop: the indented key, the value and the separator. */
  method PrintMember(ghost parent: Node, entries: seq<(string, Node)>, i: nat, indent: nat, inner: string,
                     format: DoubleFormat, output: string) returns (out: string)
    requires i < |entries| && inner == IndentText(indent + 1)
    requires forall i :: 0 <= i < |entries| ==> entries[i].1 < parent
    ensures out == output + MemberLine(parent, entries, i, indent, format)
    decreases parent, 0
  {
    var (key, value) := entries[i];
    out := output + inner + "\"" + key + "\": ";
    assert out == output + KeyText(key, indent + 1);
    out := PrintNode(value, indent + 1, format, out);
    if i < |entries| - 1 {
      out := out + ",";
    }
    out := out + "\n";
  }

  /** `PrintMap`: the loop over the members with its counter `i`. */
  method PrintMap(ghost parent: Node, entries: seq<(string, Node)>, indent: nat, format: DoubleFormat, output: string) returns (out: string)
    requires forall i :: 0 <= i < |entries| ==> entries[i].1 < parent
    ensures out == output + MapText(parent, entries, indent, format)
    decreases parent, 1
  {
    out := output + "{\n";
    var inner := Indent(indent + 1);
    var i := 0;
    while i < |entries|
      invariant i <= |entries|
      invariant out + MemberLines(parent, entries, i, indent, format) == output + "{\n" + MemberLines(parent, entries, 0, indent, format)
    {
      ghost var before := out;
      out := PrintMember(parent, entries, i, indent, inner, format, out);
      ghost var line := MemberLine(parent, entries, i, indent, format);
      ghost var rest := MemberLines(parent, entries, i + 1, indent, format);
      assert MemberLines(parent, entries, i, indent, format) == line + rest;
      assert out + rest == before + (line + rest);
      i := i + 1;
    }
    assert out == output + "{\n" + MemberLines(parent, entries, 0, indent, format);
    var closing := Indent(indent);
    out := out + closing + "}";
    assert out == output + ("{\n" + MemberLines(parent, entries, 0, indent, format) + closing + "}");
  }

  /** `json::Print`: prints the root at level 0. */
  method Print(doc: Document, format: DoubleFormat, output: string) returns (out: string)
    ensures out == output + DocumentText(doc, format)
  {
    out := PrintNode(doc.GetRoot(), 0, format, output);
  }
}
