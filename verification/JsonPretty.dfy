/** What an indented document should look like, without columns or state: each
  * part is laid out on its own and then moved to the right as a whole. */
module JsonPretty {
  import opened JsonLexing
  import opened Lists
  import opened JsonStrings
  import opened JsonNumbers
  import opened JsonValues
  import opened JsonStyledWriter

  function Join(texts: seq<string>, separator: string): string {
    if texts == [] then ""
    else if |texts| == 1 then texts[0]
    else Join(texts[..|texts| - 1], separator) + separator + texts[|texts| - 1]
  }

  /** The text with every line after the first moved `d` columns to the right. */
  function Indented(s: string, d: nat): string {
    if s == "" then "" else [s[0]] + (if s[0] == '\n' then Blank(d) else "") + Indented(s[1..], d)
  }

  /** An array goes on one line when it has fewer than 25 elements with nothing
    * inside them and the line is shorter than 74 columns. */
  function Pretty(v: Value): string
    decreases v, 2
  {
    match v
    case Arr(items) =>
      if items == [] then "[]"
      else if OnOneLine(v) then Row(v) else "[" + Join(ItemRows(v, |items|), ",") + "\n]"
    case Obj(members) =>
      if members == [] then "{}" else "{" + Join(MemberRows(v, |members|), ",") + "\n}"
    case _ => Flat(v)
  }

  function Row(v: Value): string
    requires v.Arr?
    decreases v, 0
  {
    "[ " + Join(seq(|v.items|, i requires 0 <= i < |v.items| => Pretty(v.items[i])), ", ") + " ]"
  }

  predicate OnOneLine(v: Value)
    requires v.Arr?
    decreases v, 1
  {
    |v.items| < 25 && IsFlat(v) && |Row(v)| < 74
  }

  function ItemRows(v: Value, k: nat): (rows: seq<string>)
    requires v.Arr? && k <= |v.items|
    decreases v, 0
  {
    seq(k, i requires 0 <= i < k => "\n   " + Indented(Pretty(v.items[i]), 3))
  }

  function MemberRows(v: Value, k: nat): (rows: seq<string>)
    requires v.Obj? && k <= |v.members|
    decreases v, 0
  {
    seq(k, i requires 0 <= i < k =>
      "\n   " + (Quote(v.members[i].name) + " : " + Indented(Pretty(v.members[i].value), 3)))
  }

  // ---------------------------------------------------------------- moving text to the right

  predicate OneLine(s: string) {
    forall c <- s :: c != '\n'
  }

  lemma {:induction false} IndentedConcat(a: string, b: string, d: nat)
    ensures Indented(a + b, d) == Indented(a, d) + Indented(b, d)
  {
    if a == "" {
      assert a + b == b;
    } else {
      IndentedConcat(a[1..], b, d);
      assert (a + b)[1..] == a[1..] + b && (a + b)[0] == a[0];
      Regroup<char>([a[0]] + (if a[0] == '\n' then Blank(d) else ""), Indented(a[1..], d), Indented(b, d));
    }
  }

  lemma {:induction false} IndentedLine(s: string, d: nat)
    requires OneLine(s)
    ensures Indented(s, d) == s
  {
    if s != "" {
      assert s[0] in s && s == [s[0]] + s[1..];
      assert forall c <- s[1..] :: c in s;
      IndentedLine(s[1..], d);
      Trivial<char>([s[0]]);
    }
  }

  lemma BlankIsLine(d: nat)
    ensures OneLine(Blank(d))
  {
  }

  lemma BlankConcat(d: nat, e: nat)
    ensures Blank(e) + Blank(d) == Blank(d + e)
  {
  }

  lemma IndentedBreak(d: nat, e: nat)
    ensures Indented("\n" + Blank(d), e) == "\n" + Blank(d + e)
  {
    BlankIsLine(d);
    IndentedLine(Blank(d), e);
    assert ("\n" + Blank(d))[1..] == Blank(d);
    BlankConcat(d, e);
    hide Blank;
    Regroup<char>("\n", Blank(e), Blank(d));
  }

  /** Moving twice is moving once by the sum. */
  lemma {:induction false} IndentedTwice(s: string, d: nat, e: nat)
    ensures Indented(Indented(s, d), e) == Indented(s, d + e)
  {
    if s != "" {
      IndentedTwice(s[1..], d, e);
      var head := [s[0]] + if s[0] == '\n' then Blank(d) else "";
      IndentedConcat(head, Indented(s[1..], d), e);
      if s[0] == '\n' {
        IndentedBreak(d, e);
      } else {
        Trivial<char>([s[0]]);
        IndentedLine([s[0]], e);
      }
    }
  }

  // ---------------------------------------------------------------- texts without line breaks

  lemma {:induction false} EscapedIsLine(s: string)
    ensures OneLine(Escaped(s))
  {
    if s != "" {
      EscapedIsLine(s[1..]);
      EscapeIsLine(s[0]);
      hide Escape;
      forall c | c in Escaped(s) ensures c != '\n' {
        assert c in Escape(s[0]) || c in Escaped(s[1..]);
      }
    }
  }

  lemma EscapeIsLine(c: char)
    ensures OneLine(Escape(c))
  {
  }

  lemma QuoteIsLine(s: string)
    ensures OneLine(Quote(s))
  {
    EscapedIsLine(s);
    hide Escaped;
  }

  lemma NumberIsLine(text: string)
    requires IsNumberText(text)
    ensures OneLine(text)
  {
  }

  lemma FlatIsLine(v: Value)
    requires Size(v) == 0
    ensures OneLine(Flat(v))
  {
    hide Quote, Decimal;
    match v {
      case Str(s) => QuoteIsLine(s);
      case Int(i) => NumberIsLine(Decimal(i));
      case UInt(u) => NumberIsLine(Decimal(u));
      case Real(text) => NumberIsLine(text);
      case _ =>
    }
  }

  // ---------------------------------------------------------------- rows

  lemma JoinOneMore(texts: seq<string>, text: string, separator: string)
    ensures Join(texts + [text], separator) == Join(texts, separator) + (if texts == [] then "" else separator) + text
  {
    assert (texts + [text])[..|texts|] == texts;
    if texts == [] { Trivial<char>(text); }
  }

  function Texts(v: Value, k: nat): seq<string>
    requires v.Arr? && k <= |v.items|
  {
    seq(k, i requires 0 <= i < k => Pretty(v.items[i]))
  }

  lemma FlatIsPretty(v: Value)
    requires Size(v) == 0
    ensures Pretty(v) == Flat(v)
  {
  }

  /** The elements on one line, and how wide that is. */
  lemma {:induction false} FlatLineIsJoined(v: Value, k: nat)
    requires v.Arr? && IsFlat(v) && k <= |v.items|
    ensures FlatLine(v, k) == Join(Texts(v, k), ", ")
    ensures |FlatLine(v, k)| == Width(v, k) + if k == 0 then 0 else 2 * (k - 1)
    ensures OneLine(FlatLine(v, k))
  {
    hide Flat, Pretty, Join;
    if k == 0 {
      JoinNothing(", ");
      assert Texts(v, 0) == [];
    } else {
      var x := v.items[k - 1];
      FlatLineIsJoined(v, k - 1);
      FlatIsPretty(x);
      FlatIsLine(x);
      MoreTexts(v, k);
      JoinOneMore(Texts(v, k - 1), Flat(x), ", ");
      hide Texts;
      LinesJoin(FlatLine(v, k - 1), if k > 1 then ", " else "", Flat(x));
    }
  }

  lemma JoinNothing(separator: string)
    ensures Join([], separator) == ""
  {
  }

  lemma MoreTexts(v: Value, k: nat)
    requires v.Arr? && 0 < k <= |v.items|
    ensures Texts(v, k) == Texts(v, k - 1) + [Pretty(v.items[k - 1])] && |Texts(v, k - 1)| == k - 1
  {
    hide Pretty;
  }

  lemma LinesJoin(a: string, b: string, c: string)
    requires OneLine(a) && OneLine(b) && OneLine(c)
    ensures OneLine(a + b + c)
  {
  }

  lemma RowIsFlatLine(v: Value)
    requires v.Arr? && v.items != [] && IsFlat(v)
    ensures Row(v) == "[ " + FlatLine(v, |v.items|) + " ]"
    ensures |Row(v)| == 4 + (|v.items| - 1) * 2 + Width(v, |v.items|)
    ensures OneLine(Row(v))
  {
    FlatLineIsJoined(v, |v.items|);
    assert Texts(v, |v.items|) == seq(|v.items|, i requires 0 <= i < |v.items| => Pretty(v.items[i]));
    hide FlatLine, Pretty, Join, Width, Flat;
  }

  lemma OneLineOrMany(v: Value)
    requires v.Arr? && v.items != []
    ensures OnOneLine(v) <==> !IsMultiline(v)
    ensures OnOneLine(v) ==> IsFlat(v)
  {
    if IsFlat(v) { RowIsFlatLine(v); }
    hide Row, Width, Flat;
  }

  /** A line of its own, moved to the right. */
  lemma LineMoves(head: string, body: string, d: nat)
    requires OneLine(head)
    ensures Indented("\n   " + (head + Indented(body, 3)), d) == NewLine(d + 3) + (head + Indented(body, d + 3))
  {
    assert "\n" + Blank(3) == "\n   ";
    hide Indented;
    IndentedConcat("\n" + Blank(3), head + Indented(body, 3), d);
    IndentedBreak(3, d);
    IndentedConcat(head, Indented(body, 3), d);
    IndentedLine(head, d);
    IndentedTwice(body, 3, d);
    assert d + 3 == 3 + d;
  }

  lemma JoinMoves(rows: seq<string>, row: string, d: nat)
    ensures Indented(Join(rows + [row], ","), d)
      == Indented(Join(rows, ","), d) + (if rows == [] then "" else ",") + Indented(row, d)
  {
    JoinOneMore(rows, row, ",");
    var comma := if rows == [] then "" else ",";
    hide Join;
    IndentedConcat(Join(rows, ",") + comma, row, d);
    IndentedConcat(Join(rows, ","), comma, d);
    IndentedLine(comma, d);
  }

  // ---------------------------------------------------------------- the layout

  /** The layout at a depth is the pretty text moved to the right by it. */
  lemma {:induction false} LayoutIsPretty(v: Value, d: nat)
    ensures Layout(v, d) == Indented(Pretty(v), d)
    decreases v, 2
  {
    hide Indented, Join, OnOneLine, IsMultiline, NewLine, Row;
    assert "\n" + "]" == "\n]" && "\n" + "}" == "\n}";
    if Size(v) == 0 {
      FlatLayout(v, d);
      FlatIsPretty(v);
      FlatIsLine(v);
      IndentedLine(Flat(v), d);
    } else if v.Obj? {
      MembersArePretty(v, |v.members|, d);
      ClosedMoves("{", Join(MemberRows(v, |v.members|), ","), "}", d);
    } else {
      OneLineOrMany(v);
      if IsMultiline(v) {
        ItemsArePretty(v, |v.items|, d);
        ClosedMoves("[", Join(ItemRows(v, |v.items|), ","), "]", d);
      } else {
        RowIsFlatLine(v);
        IndentedLine(Row(v), d);
      }
    }
  }

  lemma ClosedMoves(open: string, lines: string, close: string, d: nat)
    requires OneLine(open) && OneLine(close)
    ensures Indented(open + lines + ("\n" + close), d) == open + Indented(lines, d) + NewLine(d) + close
  {
    hide Indented;
    IndentedConcat(open + lines + "\n", close, d);
    IndentedConcat(open + lines, "\n", d);
    IndentedConcat(open, lines, d);
    IndentedLine(open, d);
    IndentedLine(close, d);
    IndentedBreak(0, d);
    assert "\n" + Blank(0) == "\n";
    Regroup<char>(open + lines, "\n", close);
    Regroup<char>(open + Indented(lines, d), NewLine(d), close);
  }

  lemma {:induction false} ItemsArePretty(v: Value, k: nat, d: nat)
    requires v.Arr? && k <= |v.items|
    ensures ItemLines(v, k, d + 3) == Indented(Join(ItemRows(v, k), ","), d)
    decreases v, 1, k
  {
    hide Layout, Pretty, NewLine, Blank;
    if k > 0 {
      ItemsArePretty(v, k - 1, d);
      var x := v.items[k - 1];
      LayoutIsPretty(x, d + 3);
      var row := "\n   " + Indented(Pretty(x), 3);
      assert ItemRows(v, k) == ItemRows(v, k - 1) + [row];
      hide Indented, Join;
      JoinMoves(ItemRows(v, k - 1), row, d);
      Trivial<char>(Indented(Pretty(x), 3));
      Trivial<char>(Indented(Pretty(x), d + 3));
      LineMoves("", Pretty(x), d);
      Regroup<char>(ItemLines(v, k - 1, d + 3) + (if k > 1 then "," else ""), NewLine(d + 3), Layout(x, d + 3));
    }
  }

  lemma {:induction false} MembersArePretty(v: Value, k: nat, d: nat)
    requires v.Obj? && k <= |v.members|
    ensures MemberLines(v, k, d + 3) == Indented(Join(MemberRows(v, k), ","), d)
    decreases v, 1, k
  {
    hide Layout, Pretty, NewLine, Blank, Quote;
    if k > 0 {
      MembersArePretty(v, k - 1, d);
      var m := v.members[k - 1];
      LayoutIsPretty(m.value, d + 3);
      var head := Quote(m.name) + " : ";
      var row := "\n   " + (head + Indented(Pretty(m.value), 3));
      assert MemberRows(v, k) == MemberRows(v, k - 1) + [row];
      assert MemberText(m, d + 3) == head + Indented(Pretty(m.value), d + 3);
      QuoteIsLine(m.name);
      hide Indented, Join, MemberText;
      JoinMoves(MemberRows(v, k - 1), row, d);
      LineMoves(head, Pretty(m.value), d);
      Regroup<char>(MemberLines(v, k - 1, d + 3) + (if k > 1 then "," else ""), NewLine(d + 3), MemberText(m, d + 3));
    }
  }

  /** At the left margin nothing moves. */
  lemma {:induction false} IndentedByNothing(s: string)
    ensures Indented(s, 0) == s
  {
    if s != "" {
      IndentedByNothing(s[1..]);
      assert Blank(0) == "" && s == [s[0]] + s[1..];
    }
  }

  lemma TopIsPretty(v: Value)
    ensures Layout(v, 0) == Pretty(v)
  {
    LayoutIsPretty(v, 0);
    IndentedByNothing(Pretty(v));
  }
}
