/** Parsing a loaded map file into rows: the text is split on every `'\n'`,
    exactly as JavaScript's `String.prototype.split('\n')` does. There is
    no trimming: an empty text gives one empty row, and a text ending in
    `'\n'` gives a trailing empty row that counts toward the map height.
 */
module MapText {

  /** Number of line feeds in `s`. */
  function NewlineCount(s: string): nat
  {
    multiset(s)['\n']
  }

  /** Rows joined back together with a `'\n'` between neighbours. */
  function Join(rows: seq<string>): string
    requires |rows| >= 1
  {
    if |rows| == 1 then rows[0] else rows[0] + "\n" + Join(rows[1..])
  }

  predicate NoNewline(rows: seq<string>)
  {
    forall k :: 0 <= k < |rows| ==> '\n' !in rows[k]
  }

  /** `text.split('\n')`. */
  function Split(text: string): (rows: seq<string>)
    ensures |rows| == NewlineCount(text) + 1
    ensures NoNewline(rows)
    ensures Join(rows) == text
  {
    if |text| == 0 then [""]
    else
      var rest := Split(text[1..]);
      CountFirst(text);
      if text[0] == '\n' then
        assert Join([""] + rest) == text by {
          assert ([""] + rest)[1..] == rest;
          assert text == "\n" + text[1..];
        }
        [""] + rest
      else
        JoinPrepend([text[0]], rest);
        assert text == [text[0]] + text[1..];
        [[text[0]] + rest[0]] + rest[1..]
  }

  lemma CountFirst(text: string)
    requires |text| > 0
    ensures NewlineCount(text) == NewlineCount(text[1..]) + (if text[0] == '\n' then 1 else 0)
  {
    assert text == [text[0]] + text[1..];
  }

  /** Prefixing the first row prefixes the joined text. */
  lemma {:induction false} JoinPrepend(x: string, rows: seq<string>)
    requires |rows| >= 1
    ensures Join([x + rows[0]] + rows[1..]) == x + Join(rows)
  {
    var r := [x + rows[0]] + rows[1..];
    if |rows| == 1 {
      assert r == [x + rows[0]];
    } else {
      assert r[1..] == rows[1..];
      assert Join(r) == (x + rows[0]) + "\n" + Join(rows[1..]);
      assert Join(rows) == rows[0] + "\n" + Join(rows[1..]);
    }
  }

  /** Splitting a text that starts with a line `a` puts `a` in front of
      the first row of the rest. */
  lemma {:induction false} SplitAfterLine(a: string, t: string)
    requires '\n' !in a
    ensures Split(a + t) == [a + Split(t)[0]] + Split(t)[1..]
    decreases |a|
  {
    var st := Split(t);
    if |a| == 0 {
      assert a + t == t;
      assert st == [st[0]] + st[1..];
      assert a + st[0] == st[0];
    } else {
      var text := a + t;
      var t' := a[1..] + t;
      assert text[1..] == t';
      assert text[0] == a[0] && a[0] != '\n';
      SplitAfterLine(a[1..], t);
      var rest := Split(t');
      assert rest == [a[1..] + st[0]] + st[1..];
      assert Split(text) == [[a[0]] + rest[0]] + rest[1..];
      assert rest[1..] == st[1..];
      ConsAppend(a, st[0]);
    }
  }

  lemma ConsAppend(a: string, b: string)
    requires |a| > 0
    ensures [a[0]] + (a[1..] + b) == a + b
  {
    assert a == [a[0]] + a[1..];
  }

  /** Joining rows free of line feeds and splitting again gives the rows back. */
  lemma {:induction false} SplitJoin(rows: seq<string>)
    requires |rows| >= 1 && NoNewline(rows)
    ensures Split(Join(rows)) == rows
  {
    var a := rows[0];
    if |rows| == 1 {
      SplitAfterLine(a, "");
      assert a + "" == a;
    } else {
      var tail := Join(rows[1..]);
      SplitJoin(rows[1..]);
      assert Join(rows) == a + ("\n" + tail);
      SplitAfterLine(a, "\n" + tail);
      assert ("\n" + tail)[1..] == tail;
      assert Split("\n" + tail) == [""] + rows[1..];
      assert a + "" == a;
    }
  }

  /** The rows `Split` returns are the only line-feed-free rows that join
      back to the text: the split is exactly the inverse of `Join`. */
  lemma SplitIsUnique(text: string, rows: seq<string>)
    requires |rows| >= 1 && NoNewline(rows)
    ensures Join(rows) == text <==> Split(text) == rows
  {
    if Join(rows) == text {
      SplitJoin(rows);
    }
  }

  /** Joining one more row appends a line feed and that row. */
  lemma {:induction false} JoinAppend(rows: seq<string>, x: string)
    requires |rows| >= 1
    ensures Join(rows + [x]) == Join(rows) + "\n" + x
    decreases |rows|
  {
    var all := rows + [x];
    if |rows| == 1 {
      assert all[1..] == [x];
    } else {
      assert all[1..] == rows[1..] + [x];
      JoinAppend(rows[1..], x);
    }
  }

  /** A text ending in a line feed has one more, empty, row than the text
      without it: the trailing line feed adds a row to the map height. */
  lemma TrailingNewline(text: string)
    ensures Split(text + "\n") == Split(text) + [""]
  {
    var rows := Split(text) + [""];
    JoinAppend(Split(text), "");
    assert Join(rows) == text + "\n";
    SplitIsUnique(text + "\n", rows);
  }
}
