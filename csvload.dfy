/** `csvLoad`: a table of rows of string fields, one row per non-empty line of a
    file. A line splits at every comma, quoted or not; a double quote toggles the
    quote flag, which persists across commas, and never reaches a field; outside
    quotes whitespace is dropped. */
module CsvLoad {
  import opened Wrappers

  /** C's `isspace` in the default locale: space, tab, newline, vertical tab, form
      feed and carriage return. */
  predicate IsSpace(c: char) {
    c == ' ' || 9 <= c as int <= 13
  }

  /** The quote flag after the first `n` characters of `line`: on after an odd
      number of double quotes. */
  function QuoteAfter(line: string, n: nat): bool
    requires n <= |line|
  {
    if n == 0 then false else QuoteAfter(line, n - 1) != (line[n - 1] == '"')
  }

  /** The commas among the first `n` characters of `line`. */
  function CommasIn(line: string, n: nat): nat
    requires n <= |line|
  {
    if n == 0 then 0 else CommasIn(line, n - 1) + if line[n - 1] == ',' then 1 else 0
  }

  /** Whether character `n - 1` of `line` is kept: a comma, or any character but a
      double quote and unquoted whitespace. */
  predicate KeptAt(line: string, n: nat)
    requires 0 < n <= |line|
  {
    var c := line[n - 1];
    c == ',' || (c != '"' && (QuoteAfter(line, n - 1) || !IsSpace(c)))
  }

  /** The first `n` characters of `line` with the double quotes and the unquoted
      whitespace taken out. */
  function Kept(line: string, n: nat): string
    requires n <= |line|
  {
    if n == 0 then [] else Kept(line, n - 1) + if KeptAt(line, n) then [line[n - 1]] else []
  }

  /** The fields of a row written back with a comma between each two. */
  function Joined(fields: seq<string>): string
    requires 0 < |fields|
  {
    if |fields| == 1 then fields[0] else Joined(fields[..|fields| - 1]) + [','] + fields[|fields| - 1]
  }

  /** No field of `fields` holds a comma or a double quote. */
  predicate Clean(fields: seq<string>) {
    forall k, e :: 0 <= k < |fields| && 0 <= e < |fields[k]| ==> fields[k][e] != ',' && fields[k][e] != '"'
  }

  /** What `csvLoad` makes a line into: one field more than the line has commas, no
      field with a comma or a double quote, and, written back with commas, the line
      without its quotes and its unquoted whitespace. */
  predicate SplitOf(row: seq<string>, line: string) {
    && |row| == CommasIn(line, |line|) + 1
    && Clean(row)
    && Joined(row) == Kept(line, |line|)
  }

  /** The row loop of `csvLoad` for one line. */
  method SplitLine(line: string) returns (row: seq<string>)
    ensures SplitOf(row, line)
  {
    row := [];
    var word: string := [];
    var quote := false;
    var i := 0;
    while i < |line|
      invariant 0 <= i <= |line| && quote == QuoteAfter(line, i) && |row| == CommasIn(line, i)
      invariant Clean(row + [word]) && Joined(row + [word]) == Kept(line, i)
    {
      var c := line[i];
      if c == ',' {
        JoinedNext(row, word);
        row, word := row + [word], [];
      } else if c == '"' {
        quote := !quote;
      } else if quote || !IsSpace(c) {
        JoinedGrow(row, word, c);
        word := word + [c];
      }
      i := i + 1;
    }
    row := row + [word];
  }

  /** Starting a new, empty field writes back as one more comma. */
  lemma JoinedNext(row: seq<string>, word: string)
    requires Clean(row + [word])
    ensures Clean(row + [word] + [[]])
    ensures Joined(row + [word] + [[]]) == Joined(row + [word]) + [',']
  {
    var fs := row + [word] + [[]];
    assert fs[..|fs| - 1] == row + [word];
  }

  /** Growing the last field by `c` writes back as `c` appended. */
  lemma JoinedGrow(row: seq<string>, word: string, c: char)
    requires Clean(row + [word]) && c != ',' && c != '"'
    ensures Clean(row + [word + [c]])
    ensures Joined(row + [word + [c]]) == Joined(row + [word]) + [c]
  {
    var fs, gs := row + [word + [c]], row + [word];
    if |row| > 0 {
      assert fs[..|fs| - 1] == row == gs[..|gs| - 1];
    }
    forall k, e | 0 <= k < |fs| && 0 <= e < |fs[k]| ensures fs[k][e] != ',' && fs[k][e] != '"' {
      if k < |row| {
        assert fs[k] == gs[k];
      } else if e < |word| {
        assert fs[k][e] == gs[k][e];
      }
    }
  }

  /** The position of the last comma of `s`, or -1 without one. */
  function LastComma(s: string): (p: int)
    ensures -1 <= p < |s|
  {
    if s == [] then -1 else if s[|s| - 1] == ',' then |s| - 1 else LastComma(s[..|s| - 1])
  }

  /** After a comma-free tail, the last comma is the one before it. */
  lemma {:induction false} LastCommaBefore(a: string, tail: string)
    requires forall e :: 0 <= e < |tail| ==> tail[e] != ','
    ensures LastComma(a + [','] + tail) == |a|
    decreases |tail|
  {
    var s := a + [','] + tail;
    if tail != [] {
      var shorter := tail[..|tail| - 1];
      assert s[..|s| - 1] == a + [','] + shorter;
      LastCommaBefore(a, shorter);
    }
  }

  /** With clean fields, the written-back row determines the row: `SplitOf` leaves
      no choice. */
  lemma {:induction false} JoinedInjective(r1: seq<string>, r2: seq<string>)
    requires 0 < |r1| == |r2| && Clean(r1) && Clean(r2) && Joined(r1) == Joined(r2)
    ensures r1 == r2
    decreases |r1|
  {
    if |r1| > 1 {
      var n := |r1| - 1;
      var p1, p2 := r1[..n], r2[..n];
      var j1, j2 := Joined(p1), Joined(p2);
      assert Clean(p1) by {
        forall k, e | 0 <= k < |p1| && 0 <= e < |p1[k]| ensures p1[k][e] != ',' && p1[k][e] != '"' {
          assert p1[k] == r1[k];
        }
      }
      assert Clean(p2) by {
        forall k, e | 0 <= k < |p2| && 0 <= e < |p2[k]| ensures p2[k][e] != ',' && p2[k][e] != '"' {
          assert p2[k] == r2[k];
        }
      }
      assert forall e :: 0 <= e < |r1[n]| ==> r1[n][e] != ',';
      assert forall e :: 0 <= e < |r2[n]| ==> r2[n][e] != ',';
      LastCommaBefore(j1, r1[n]);
      LastCommaBefore(j2, r2[n]);
      var s := Joined(r1);
      assert s == j1 + [','] + r1[n] && s == j2 + [','] + r2[n];
      assert |j1| == |j2|;
      assert j1 == s[..|j1|] == j2;
      assert r1[n] == s[|j1| + 1..] == r2[n];
      JoinedInjective(p1, p2);
      assert r1 == p1 + [r1[n]] && r2 == p2 + [r2[n]];
    }
  }

  /** A line has exactly one split. */
  lemma SplitUnique(r1: seq<string>, r2: seq<string>, line: string)
    requires SplitOf(r1, line) && SplitOf(r2, line)
    ensures r1 == r2
  {
    JoinedInjective(r1, r2);
  }

  /** The lines that give rows: all but the empty ones, in order. */
  function NonEmpty(lines: seq<string>): (r: seq<string>)
    ensures forall k :: 0 <= k < |r| ==> r[k] != []
  {
    if lines == [] then []
    else NonEmpty(lines[..|lines| - 1]) + if lines[|lines| - 1] == [] then [] else [lines[|lines| - 1]]
  }

  /** `csvLoad`, given the lines `getline` reads from the file, or `None` when the
      file does not open. A file that fails to open gives the empty table; otherwise
      each non-empty line, in order, gives the row `SplitOf` describes. */
  method Load(file: Option<seq<string>>) returns (table: seq<seq<string>>)
    ensures file.None? ==> table == []
    ensures file.Some? ==>
      && |table| == |NonEmpty(file.value)|
      && forall k :: 0 <= k < |table| ==> SplitOf(table[k], NonEmpty(file.value)[k])
  {
    if file.None? {
      return [];
    }
    var lines := file.value;
    table := [];
    var i := 0;
    while i < |lines|
      invariant 0 <= i <= |lines| && |table| == |NonEmpty(lines[..i])|
      invariant forall k :: 0 <= k < |table| ==> SplitOf(table[k], NonEmpty(lines[..i])[k])
    {
      assert lines[..i + 1][..i] == lines[..i];
      var line := lines[i];
      if line == [] {
        i := i + 1;
        continue;
      }
      var row := SplitLine(line);
      table := table + [row];
      i := i + 1;
    }
    assert lines[..|lines|] == lines;
  }
}
