/**
 * Where the pretty-printer puts each character. `Laid(s, a, n, ...)` says,
 * character by character, that the text `PrintNode` writes for `n` sits in
 * `s` at position `a`: brackets, line breaks, indentation, commas and the
 * `"key": ` prefixes at the places the printer puts them, and the text of
 * every scalar at its place. `LaidPrinted` proves that the printed text has
 * exactly this layout, and that it is `Len` characters long.
 */
module JsonLayout {
  import opened Text
  import opened Decimal
  import opened JsonNode
  import opened JsonPrint

  // ---------------------------------------------------------------------
  // The layout
  // ---------------------------------------------------------------------

  /** `k` spaces at `p`. */
  predicate Blank(s: string, p: nat, k: nat)
    decreases k
  {
    p + k <= |s| && (k == 0 || (s[p] == ' ' && Blank(s, p + 1, k - 1)))
  }

  /** The end of an element or member line at `e`: a comma and a line break, or only a line break after the last one. */
  predicate LineEnd(s: string, e: nat, comma: bool) {
    if comma then e + 2 <= |s| && s[e] == ',' && s[e + 1] == '\n'
    else e + 1 <= |s| && s[e] == '\n'
  }

  /** The indentation of level `indent` at `p`, then the closing bracket. */
  predicate CloseLaid(s: string, p: nat, indent: nat, close: char) {
    Blank(s, p, 4 * indent) && p + 4 * indent < |s| && s[p + 4 * indent] == close
  }

  /** The length of a line's separator: the comma, if any, and the line break. */
  function SepLen(comma: bool): nat {
    if comma then 2 else 1
  }

  /** The text of a value that is not a container. */
  function ScalarText(n: Node, format: DoubleFormat): string
    requires !n.Array? && !n.Dict?
  {
    match n
    case String(str) => StringText(str)
    case Null => "null"
    case Int(i) => IntToDecimal(i as int)
    case Double(d) => format(d)
    case Bool(b) => if b then "true" else "false"
  }

  /** The length of the text of `n` at nesting level `indent`. */
  function Len(n: Node, indent: nat, format: DoubleFormat): nat
    decreases n, 2
  {
    match n
    case Array(items) => 2 + ItemsLen(n, items, 0, indent, format) + 4 * indent + 1
    case Dict(entries) => 2 + MembersLen(n, entries, 0, indent, format) + 4 * indent + 1
    case _ => |ScalarText(n, format)|
  }

  /** The length of the element lines from the `i`-th on. */
  function ItemsLen(ghost parent: Node, items: seq<Node>, i: nat, indent: nat, format: DoubleFormat): nat
    requires i <= |items|
    requires forall k :: 0 <= k < |items| ==> items[k] < parent
    decreases parent, 1, |items| - i
  {
    if i == |items| then 0
    else 4 * (indent + 1) + Len(items[i], indent + 1, format) + SepLen(i < |items| - 1)
         + ItemsLen(parent, items, i + 1, indent, format)
  }

  /** The length of the member lines from the `i`-th on. */
  function MembersLen(ghost parent: Node, entries: seq<(string, Node)>, i: nat, indent: nat, format: DoubleFormat): nat
    requires i <= |entries|
    requires forall k :: 0 <= k < |entries| ==> entries[k].1 < parent
    decreases parent, 1, |entries| - i
  {
    if i == |entries| then 0
    else 4 * (indent + 1) + |entries[i].0| + 4 + Len(entries[i].1, indent + 1, format) + SepLen(i < |entries| - 1)
         + MembersLen(parent, entries, i + 1, indent, format)
  }

  /** The text of `n` at nesting level `indent` sits in `s` at `a`. */
  predicate Laid(s: string, a: nat, n: Node, indent: nat, format: DoubleFormat)
    decreases n, 2
  {
    match n
    case Array(items) =>
      a + 2 <= |s| && s[a] == '[' && s[a + 1] == '\n' && ItemsLaid(s, a + 2, n, items, 0, indent, format)
    case Dict(entries) =>
      a + 2 <= |s| && s[a] == '{' && s[a + 1] == '\n' && MembersLaid(s, a + 2, n, entries, 0, indent, format)
    case _ => At(s, a, ScalarText(n, format))
  }

  /** The element lines from the `i`-th on, then the indentation and `]`, sit in `s` at `p`. */
  predicate ItemsLaid(s: string, p: nat, ghost parent: Node, items: seq<Node>, i: nat, indent: nat, format: DoubleFormat)
    requires i <= |items|
    requires forall k :: 0 <= k < |items| ==> items[k] < parent
    decreases parent, 1, |items| - i
  {
    if i == |items| then CloseLaid(s, p, indent, ']')
    else
      var c := p + 4 * (indent + 1);
      var e := c + Len(items[i], indent + 1, format);
      Blank(s, p, 4 * (indent + 1)) && Laid(s, c, items[i], indent + 1, format)
      && LineEnd(s, e, i < |items| - 1)
      && ItemsLaid(s, e + SepLen(i < |items| - 1), parent, items, i + 1, indent, format)
  }

  /** The member lines from the `i`-th on, then the indentation and `}`, sit in `s` at `p`. */
  predicate MembersLaid(s: string, p: nat, ghost parent: Node, entries: seq<(string, Node)>, i: nat, indent: nat,
                        format: DoubleFormat)
    requires i <= |entries|
    requires forall k :: 0 <= k < |entries| ==> entries[k].1 < parent
    decreases parent, 1, |entries| - i
  {
    if i == |entries| then CloseLaid(s, p, indent, '}')
    else
      var c := p + 4 * (indent + 1);
      var v := c + |entries[i].0| + 4;
      var e := v + Len(entries[i].1, indent + 1, format);
      Blank(s, p, 4 * (indent + 1)) && At(s, c, "\"" + entries[i].0 + "\": ")
      && Laid(s, v, entries[i].1, indent + 1, format)
      && LineEnd(s, e, i < |entries| - 1)
      && MembersLaid(s, e + SepLen(i < |entries| - 1), parent, entries, i + 1, indent, format)
  }

  // ---------------------------------------------------------------------
  // The printed text has that layout
  // ---------------------------------------------------------------------

  /** Indentation is made of spaces only. */
  lemma {:induction false} IndentSpace(indent: nat, k: nat)
    requires k < |IndentText(indent)|
    ensures IndentText(indent)[k] == ' '
    decreases indent
  {
    if indent > 0 {
      var r := IndentText(indent - 1);
      assert IndentText(indent) == r + "    ";
      if k < |r| {
        IndentSpace(indent - 1, k);
      }
    }
  }

  lemma {:induction false} IndentBlank(s: string, p: nat, indent: nat)
    requires At(s, p, IndentText(indent))
    ensures Blank(s, p, 4 * indent)
  {
    forall j | p <= j < p + 4 * indent
      ensures s[j] == ' '
    {
      AtIndex(s, p, IndentText(indent), j - p);
      IndentSpace(indent, j - p);
    }
    SpacesBlank(s, p, 4 * indent);
  }

  /** A run of `k` spaces, stated character by character, is `Blank`. */
  lemma {:induction false} SpacesBlank(s: string, p: nat, k: nat)
    requires p + k <= |s| && forall j :: p <= j < p + k ==> s[j] == ' '
    ensures Blank(s, p, k)
    decreases k
  {
    if k > 0 {
      SpacesBlank(s, p + 1, k - 1);
    }
  }

  lemma {:induction false} CloseFrom(s: string, p: nat, indent: nat, close: string)
    requires |close| == 1
    requires At(s, p, IndentText(indent) + close)
    ensures CloseLaid(s, p, indent, close[0])
  {
    AtSplit(s, p, IndentText(indent), close);
    IndentBlank(s, p, indent);
    AtIndex(s, p + 4 * indent, close, 0);
  }

  /** The two characters that open a container, then the rest of its text. */
  lemma {:induction false} OpenSplit(s: string, a: nat, open: string, lines: string, ind: string, close: string)
    requires |open| == 2
    requires At(s, a, open + lines + ind + close)
    ensures a + 2 <= |s| && s[a] == open[0] && s[a + 1] == open[1]
    ensures At(s, a + 2, lines + ind + close)
  {
    assert open + lines + ind + close == open + (lines + ind + close);
    AtSplit(s, a, open, lines + ind + close);
    AtIndex(s, a, open, 0);
    AtIndex(s, a, open, 1);
  }

  /** One line and what follows it: a prefix, a value's text, the separator and the line break. */
  lemma {:induction false} LineParts(s: string, p: nat, prefix: string, nt: string, sep: string, next: string, ind: string,
                                     close: string, c: nat, e: nat, q: nat)
    requires At(s, p, prefix + nt + sep + "\n" + next + ind + close)
    requires c == p + |prefix| && e == c + |nt| && q == e + |sep| + 1
    ensures At(s, p, prefix) && At(s, c, nt) && At(s, e, sep + "\n") && At(s, q, next + ind + close)
  {
    assert prefix + nt + sep + "\n" + next + ind + close == prefix + (nt + ((sep + "\n") + (next + ind + close)));
    AtSplit(s, p, prefix, nt + ((sep + "\n") + (next + ind + close)));
    AtSplit(s, c, nt, (sep + "\n") + (next + ind + close));
    AtSplit(s, e, sep + "\n", next + ind + close);
  }

  /** One member line and what follows it: the indentation, `"key": `, the value's text, the separator and the line break. */
  lemma {:induction false} MemberLineParts(s: string, p: nat, ind: string, key: string, nt: string, sep: string, next: string,
                                           closeInd: string, close: string, v: nat, e: nat, q: nat)
    requires At(s, p, ind + key + nt + sep + "\n" + next + closeInd + close)
    requires v == p + |ind| + |key| && e == v + |nt| && q == e + |sep| + 1
    ensures At(s, p, ind) && At(s, p + |ind|, key) && At(s, v, nt) && At(s, e, sep + "\n")
    ensures At(s, q, next + closeInd + close)
  {
    assert ind + key + nt + sep + "\n" + next + closeInd + close
        == ind + (key + (nt + ((sep + "\n") + (next + closeInd + close))));
    AtSplit(s, p, ind, key + (nt + ((sep + "\n") + (next + closeInd + close))));
    AtSplit(s, p + |ind|, key, nt + ((sep + "\n") + (next + closeInd + close)));
    AtSplit(s, v, nt, (sep + "\n") + (next + closeInd + close));
    AtSplit(s, e, sep + "\n", next + closeInd + close);
  }

  /** A separator followed by a line break is a line end. */
  lemma {:induction false} SepLineEnd(s: string, e: nat, sep: string)
    requires sep == "," || sep == ""
    requires At(s, e, sep + "\n")
    ensures LineEnd(s, e, sep == ",") && |sep| + 1 == SepLen(sep == ",")
  {
    AtIndex(s, e, sep + "\n", 0);
    if sep == "," {
      AtIndex(s, e, sep + "\n", 1);
    }
  }

  /** The `i`-th element line, unfolded. */
  lemma {:induction false} ItemLinesStep(parent: Node, items: seq<Node>, i: nat, indent: nat, format: DoubleFormat)
    requires i < |items|
    requires forall k :: 0 <= k < |items| ==> items[k] < parent
    ensures ItemLines(parent, items, i, indent, format)
            == IndentText(indent + 1) + NodeText(items[i], indent + 1, format) + (if i < |items| - 1 then "," else "") + "\n"
               + ItemLines(parent, items, i + 1, indent, format)
    ensures |ItemLines(parent, items, i, indent, format)|
            == 4 * (indent + 1) + |NodeText(items[i], indent + 1, format)| + SepLen(i < |items| - 1)
               + |ItemLines(parent, items, i + 1, indent, format)|
    ensures ItemsLen(parent, items, i, indent, format)
            == 4 * (indent + 1) + Len(items[i], indent + 1, format) + SepLen(i < |items| - 1)
               + ItemsLen(parent, items, i + 1, indent, format)
  {
  }

  /** The `i`-th member line, unfolded. */
  lemma {:induction false} MemberLinesStep(parent: Node, entries: seq<(string, Node)>, i: nat, indent: nat, format: DoubleFormat)
    requires i < |entries|
    requires forall k :: 0 <= k < |entries| ==> entries[k].1 < parent
    ensures MemberLines(parent, entries, i, indent, format)
            == IndentText(indent + 1) + ("\"" + entries[i].0 + "\": ") + NodeText(entries[i].1, indent + 1, format)
               + (if i < |entries| - 1 then "," else "") + "\n"
               + MemberLines(parent, entries, i + 1, indent, format)
  {
  }

  /** The length of the `i`-th member line, and of the lines after it. */
  lemma {:induction false} MemberLinesLen(parent: Node, entries: seq<(string, Node)>, i: nat, indent: nat, format: DoubleFormat)
    requires i < |entries|
    requires forall k :: 0 <= k < |entries| ==> entries[k].1 < parent
    ensures |MemberLines(parent, entries, i, indent, format)|
            == 4 * (indent + 1) + |entries[i].0| + 4 + |NodeText(entries[i].1, indent + 1, format)|
               + SepLen(i < |entries| - 1) + |MemberLines(parent, entries, i + 1, indent, format)|
  {
    var sep := if i < |entries| - 1 then "," else "";
    var keyq := "\"" + entries[i].0 + "\": ";
    MemberLinesStep(parent, entries, i, indent, format);
    assert |keyq| == |entries[i].0| + 4;
    assert |sep| + 1 == SepLen(i < |entries| - 1);
  }

  /** `ItemsLaid` for a line that is there: the line's parts, then the lines after it. */
  lemma {:induction false} ItemsLaidStep(s: string, p: nat, parent: Node, items: seq<Node>, i: nat, indent: nat,
                                         format: DoubleFormat, c: nat, e: nat, q: nat)
    requires i < |items|
    requires forall k :: 0 <= k < |items| ==> items[k] < parent
    requires c == p + 4 * (indent + 1) && e == c + Len(items[i], indent + 1, format) && q == e + SepLen(i < |items| - 1)
    ensures ItemsLaid(s, p, parent, items, i, indent, format)
            <==> Blank(s, p, 4 * (indent + 1)) && Laid(s, c, items[i], indent + 1, format)
                 && LineEnd(s, e, i < |items| - 1) && ItemsLaid(s, q, parent, items, i + 1, indent, format)
    ensures ItemsLen(parent, items, i, indent, format) == q - p + ItemsLen(parent, items, i + 1, indent, format)
  {
  }

  /** `MembersLaid` for a line that is there: the line's parts, then the lines after it. */
  lemma {:induction false} MembersLaidStep(s: string, p: nat, parent: Node, entries: seq<(string, Node)>, i: nat,
                                           indent: nat, format: DoubleFormat, v: nat, e: nat, q: nat)
    requires i < |entries|
    requires forall k :: 0 <= k < |entries| ==> entries[k].1 < parent
    requires v == p + 4 * (indent + 1) + |entries[i].0| + 4 && e == v + Len(entries[i].1, indent + 1, format)
    requires q == e + SepLen(i < |entries| - 1)
    ensures MembersLaid(s, p, parent, entries, i, indent, format)
            <==> Blank(s, p, 4 * (indent + 1)) && At(s, p + 4 * (indent + 1), "\"" + entries[i].0 + "\": ")
                 && Laid(s, v, entries[i].1, indent + 1, format)
                 && LineEnd(s, e, i < |entries| - 1) && MembersLaid(s, q, parent, entries, i + 1, indent, format)
    ensures MembersLen(parent, entries, i, indent, format) == q - p + MembersLen(parent, entries, i + 1, indent, format)
  {
  }

  /** The printed text of `n` has the layout `Laid` describes and `Len` characters. */
  lemma {:induction false} LaidPrinted(n: Node, indent: nat, format: DoubleFormat, s: string, a: nat)
    requires At(s, a, NodeText(n, indent, format))
    ensures Laid(s, a, n, indent, format) && Len(n, indent, format) == |NodeText(n, indent, format)|
    decreases n, 3
  {
    match n
    case Array(items) => ArrayLaidPrinted(n, indent, format, s, a);
    case Dict(entries) => DictLaidPrinted(n, indent, format, s, a);
    case _ => assert NodeText(n, indent, format) == ScalarText(n, format);
  }

  lemma {:induction false} ArrayLaidPrinted(n: Node, indent: nat, format: DoubleFormat, s: string, a: nat)
    requires n.Array?
    requires At(s, a, NodeText(n, indent, format))
    ensures Laid(s, a, n, indent, format) && Len(n, indent, format) == |NodeText(n, indent, format)|
    decreases n, 2
  {
    var lines := ItemLines(n, n.items, 0, indent, format);
    assert NodeText(n, indent, format) == "[\n" + lines + IndentText(indent) + "]";
    OpenSplit(s, a, "[\n", lines, IndentText(indent), "]");
    ItemsLaidPrinted(n, n.items, 0, indent, format, s, a + 2);
  }

  lemma {:induction false} DictLaidPrinted(n: Node, indent: nat, format: DoubleFormat, s: string, a: nat)
    requires n.Dict?
    requires At(s, a, NodeText(n, indent, format))
    ensures Laid(s, a, n, indent, format) && Len(n, indent, format) == |NodeText(n, indent, format)|
    decreases n, 2
  {
    var lines := MemberLines(n, n.entries, 0, indent, format);
    assert NodeText(n, indent, format) == "{\n" + lines + IndentText(indent) + "}";
    OpenSplit(s, a, "{\n", lines, IndentText(indent), "}");
    MembersLaidPrinted(n, n.entries, 0, indent, format, s, a + 2);
  }

  /** The `i`-th element line of the printed text, split into its parts. */
  lemma {:induction false} ItemLineLaid(parent: Node, items: seq<Node>, i: nat, indent: nat, format: DoubleFormat,
                                        s: string, p: nat, c: nat, e: nat, q: nat)
    requires i < |items|
    requires forall k :: 0 <= k < |items| ==> items[k] < parent
    requires At(s, p, ItemLines(parent, items, i, indent, format) + IndentText(indent) + "]")
    requires c == p + 4 * (indent + 1) && e == c + |NodeText(items[i], indent + 1, format)|
    requires q == e + SepLen(i < |items| - 1)
    ensures Blank(s, p, 4 * (indent + 1)) && At(s, c, NodeText(items[i], indent + 1, format))
    ensures LineEnd(s, e, i < |items| - 1)
    ensures At(s, q, ItemLines(parent, items, i + 1, indent, format) + IndentText(indent) + "]")
    ensures |ItemLines(parent, items, i, indent, format)| == q - p + |ItemLines(parent, items, i + 1, indent, format)|
  {
    var sep := if i < |items| - 1 then "," else "";
    ItemLinesStep(parent, items, i, indent, format);
    LineParts(s, p, IndentText(indent + 1), NodeText(items[i], indent + 1, format), sep,
              ItemLines(parent, items, i + 1, indent, format), IndentText(indent), "]", c, e, q);
    IndentBlank(s, p, indent + 1);
    SepLineEnd(s, e, sep);
  }

  /** The `i`-th member line of the printed text, split into its parts. */
  lemma {:induction false} MemberLineLaid(parent: Node, entries: seq<(string, Node)>, i: nat, indent: nat,
                                          format: DoubleFormat, s: string, p: nat, v: nat, e: nat, q: nat)
    requires i < |entries|
    requires forall k :: 0 <= k < |entries| ==> entries[k].1 < parent
    requires At(s, p, MemberLines(parent, entries, i, indent, format) + IndentText(indent) + "}")
    requires v == p + 4 * (indent + 1) + |entries[i].0| + 4 && e == v + |NodeText(entries[i].1, indent + 1, format)|
    requires q == e + SepLen(i < |entries| - 1)
    ensures Blank(s, p, 4 * (indent + 1)) && At(s, p + 4 * (indent + 1), "\"" + entries[i].0 + "\": ")
    ensures At(s, v, NodeText(entries[i].1, indent + 1, format))
    ensures LineEnd(s, e, i < |entries| - 1)
    ensures At(s, q, MemberLines(parent, entries, i + 1, indent, format) + IndentText(indent) + "}")
  {
    var key := entries[i].0;
    var sep := if i < |entries| - 1 then "," else "";
    MemberLinesStep(parent, entries, i, indent, format);
    MemberLineParts(s, p, IndentText(indent + 1), "\"" + key + "\": ", NodeText(entries[i].1, indent + 1, format), sep,
                    MemberLines(parent, entries, i + 1, indent, format), IndentText(indent), "}", v, e, q);
    IndentBlank(s, p, indent + 1);
    SepLineEnd(s, e, sep);
  }

  lemma {:induction false} ItemsLaidPrinted(parent: Node, items: seq<Node>, i: nat, indent: nat, format: DoubleFormat,
                                            s: string, p: nat)
    requires i <= |items|
    requires forall k :: 0 <= k < |items| ==> items[k] < parent
    requires At(s, p, ItemLines(parent, items, i, indent, format) + IndentText(indent) + "]")
    ensures ItemsLaid(s, p, parent, items, i, indent, format)
    ensures ItemsLen(parent, items, i, indent, format) == |ItemLines(parent, items, i, indent, format)|
    decreases parent, 1, |items| - i
  {
    if i == |items| {
      assert ItemLines(parent, items, i, indent, format) + IndentText(indent) + "]" == IndentText(indent) + "]";
      CloseFrom(s, p, indent, "]");
    } else {
      var c := p + 4 * (indent + 1);
      var e := c + |NodeText(items[i], indent + 1, format)|;
      var q := e + SepLen(i < |items| - 1);
      ItemLineLaid(parent, items, i, indent, format, s, p, c, e, q);
      LaidPrinted(items[i], indent + 1, format, s, c);
      ItemsLaidPrinted(parent, items, i + 1, indent, format, s, q);
      ItemsLaidStep(s, p, parent, items, i, indent, format, c, e, q);
    }
  }

  lemma {:induction false} MembersLaidPrinted(parent: Node, entries: seq<(string, Node)>, i: nat, indent: nat,
                                              format: DoubleFormat, s: string, p: nat)
    requires i <= |entries|
    requires forall k :: 0 <= k < |entries| ==> entries[k].1 < parent
    requires At(s, p, MemberLines(parent, entries, i, indent, format) + IndentText(indent) + "}")
    ensures MembersLaid(s, p, parent, entries, i, indent, format)
    ensures MembersLen(parent, entries, i, indent, format) == |MemberLines(parent, entries, i, indent, format)|
    decreases parent, 1, |entries| - i
  {
    if i == |entries| {
      assert MemberLines(parent, entries, i, indent, format) + IndentText(indent) + "}" == IndentText(indent) + "}";
      CloseFrom(s, p, indent, "}");
    } else {
      var v := p + 4 * (indent + 1) + |entries[i].0| + 4;
      var e := v + |NodeText(entries[i].1, indent + 1, format)|;
      var q := e + SepLen(i < |entries| - 1);
      MemberLineLaid(parent, entries, i, indent, format, s, p, v, e, q);
      MemberLinesLen(parent, entries, i, indent, format);
      LaidPrinted(entries[i].1, indent + 1, format, s, v);
      MembersLaidPrinted(parent, entries, i + 1, indent, format, s, q);
      MembersLaidStep(s, p, parent, entries, i, indent, format, v, e, q);
    }
  }
}
