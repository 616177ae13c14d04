/**
 * The GTFS text handling shared by the transit service and the static
 * snapshot build: the quote-aware CSV line splitter, line splitting, the
 * header lookup and the row parser.
 */
module Gtfs {
  import opened Geo
  import opened Text

  // ---------------------------------------------------------------------
  // One CSV line
  // ---------------------------------------------------------------------

  /** `c` added to the front of the first field. */
  function Prepend(c: char, fields: seq<string>): (r: seq<string>)
    requires |fields| >= 1
    ensures |r| == |fields| && r[0] == [c] + fields[0] && r[1..] == fields[1..]
  {
    [[c] + fields[0]] + fields[1..]
  }

  /**
   * The fields of `s`, read from the front in the given quote state: a
   * doubled quote gives one quote character in either state, a single quote
   * switches the state and is dropped, an unquoted comma ends a field, and
   * every other character belongs to the current field.
   */
  function Fields(s: string, inQuotes: bool): (r: seq<string>)
    ensures |r| >= 1
    decreases |s|
  {
    if |s| == 0 then [""]
    else if s[0] == '"' && |s| >= 2 && s[1] == '"' then Prepend('"', Fields(s[2..], inQuotes))
    else if s[0] == '"' then Fields(s[1..], !inQuotes)
    else if s[0] == ',' && !inQuotes then [""] + Fields(s[1..], inQuotes)
    else Prepend(s[0], Fields(s[1..], inQuotes))
  }

  /** The fields already pushed, the field being built, and the fields of the rest of the line. */
  function Glue(values: seq<string>, current: string, rest: seq<string>): seq<string>
    requires |rest| >= 1
  {
    values + [current + rest[0]] + rest[1..]
  }

  lemma GluePrepend(values: seq<string>, current: string, c: char, rest: seq<string>)
    requires |rest| >= 1
    ensures Glue(values, current, Prepend(c, rest)) == Glue(values, current + [c], rest)
  {
    assert current + ([c] + rest[0]) == (current + [c]) + rest[0];
  }

  lemma GlueComma(values: seq<string>, current: string, rest: seq<string>)
    requires |rest| >= 1
    ensures Glue(values, current, [""] + rest) == Glue(values + [current], "", rest)
  {
    assert ([""] + rest)[1..] == rest;
    assert "" + rest[0] == rest[0];
    assert current + "" == current;
    assert rest == [rest[0]] + rest[1..];
  }

  /** `splitCsvLine`: the character loop with its `currentValue` and `inQuotes` state. */
  method SplitCsvLine(line: string) returns (values: seq<string>)
    ensures values == Fields(line, false)
  {
    values := [];
    var currentValue := "";
    var inQuotes := false;
    var index := 0;
    assert line[0..] == line;
    ghost var whole := Fields(line, false);
    assert "" + whole[0] == whole[0] && whole == [whole[0]] + whole[1..];
    while index < |line|
      invariant 0 <= index <= |line|
      invariant Glue(values, currentValue, Fields(line[index..], inQuotes)) == Fields(line, false)
      decreases |line| - index
    {
      var character := line[index];
      var rest := line[index..];
      if character == '"' && index + 1 < |line| && line[index + 1] == '"' {
        assert rest[2..] == line[index + 2..];
        GluePrepend(values, currentValue, '"', Fields(line[index + 2..], inQuotes));
        currentValue := currentValue + "\"";
        index := index + 2;
        continue;
      }
      assert rest[1..] == line[index + 1..];
      if character == '"' {
        inQuotes := !inQuotes;
        index := index + 1;
        continue;
      }
      if character == ',' && !inQuotes {
        GlueComma(values, currentValue, Fields(line[index + 1..], inQuotes));
        values := values + [currentValue];
        currentValue := "";
        index := index + 1;
        continue;
      }
      GluePrepend(values, currentValue, character, Fields(line[index + 1..], inQuotes));
      currentValue := currentValue + [character];
      index := index + 1;
    }
    assert line[index..] == "";
    assert currentValue + "" == currentValue;
    values := values + [currentValue];
  }

  lemma {:induction false} JoinPrepend(c: char, fields: seq<string>)
    requires |fields| >= 1
    ensures Join(Prepend(c, fields), ",") == [c] + Join(fields, ",")
  {
    var p := Prepend(c, fields);
    if |fields| > 1 {
      assert p[1..] == fields[1..];
    }
  }

  /**
   * A line without quote characters splits into exactly its comma-separated
   * pieces: no field holds a comma or a quote, and joining the fields with
   * commas gives the line back.
   */
  lemma {:induction false} QuoteFreeFields(s: string)
    requires '"' !in s
    ensures Join(Fields(s, false), ",") == s
    ensures forall f :: f in Fields(s, false) ==> ',' !in f && '"' !in f
    decreases |s|
  {
    if |s| > 0 {
      var rest := Fields(s[1..], false);
      assert '"' !in s[1..] by {
        forall i | 0 <= i < |s[1..]| ensures s[1..][i] != '"' {
          assert s[1..][i] == s[i + 1];
        }
      }
      QuoteFreeFields(s[1..]);
      assert s == [s[0]] + s[1..];
      if s[0] == ',' {
        assert Fields(s, false) == [""] + rest;
        assert ([""] + rest)[1..] == rest;
        assert Join([""] + rest, ",") == "" + "," + Join(rest, ",");
        assert "" + "," + s[1..] == s;
        forall f | f in [""] + rest ensures ',' !in f && '"' !in f {
          if f != "" { assert f in rest; }
        }
      } else {
        assert Fields(s, false) == Prepend(s[0], rest);
        JoinPrepend(s[0], rest);
        forall f | f in Prepend(s[0], rest) ensures ',' !in f && '"' !in f {
          if f != Prepend(s[0], rest)[0] {
            assert f in rest[1..];
          } else {
            assert rest[0] in rest;
          }
        }
      }
    }
  }

  /** Inside an open quote a quote-free text stays one field, commas included. */
  lemma {:induction false} QuotedTextIsOneField(s: string)
    requires '"' !in s
    ensures Fields(s, true) == [s]
    decreases |s|
  {
    if |s| > 0 {
      assert '"' !in s[1..] by {
        forall i | 0 <= i < |s[1..]| ensures s[1..][i] != '"' {
          assert s[1..][i] == s[i + 1];
        }
      }
      QuotedTextIsOneField(s[1..]);
      assert s == [s[0]] + s[1..];
    }
  }

  /**
   * A quoted, quote-free, non-empty text keeps its commas: it starts the
   * first field, and the rest of the line goes on as if it were not there.
   */
  lemma {:induction false} QuotedFieldKeepsCommas(s: string, rest: string)
    requires '"' !in s && |s| > 0
    requires |rest| == 0 || rest[0] != '"'
    ensures var r := Fields("\"" + s + "\"" + rest, false);
      var t := Fields(rest, false);
      |r| == |t| && r[0] == s + t[0] && r[1..] == t[1..]
  {
    QuotedPrefix(s, rest);
    var line := s + "\"" + rest;
    var q := "\"" + s + "\"" + rest;
    assert q == "\"" + line;
    assert q[1..] == line;
    assert q[1] == s[0];
  }

  lemma {:induction false} QuotedPrefix(s: string, rest: string)
    requires '"' !in s
    requires |rest| == 0 || rest[0] != '"'
    ensures var r := Fields(s + "\"" + rest, true);
      var t := Fields(rest, false);
      |r| == |t| && r[0] == s + t[0] && r[1..] == t[1..]
    decreases |s|
  {
    var line := s + "\"" + rest;
    if |s| == 0 {
      assert line == "\"" + rest;
      assert line[1..] == rest;
      assert "" + Fields(rest, false)[0] == Fields(rest, false)[0];
    } else {
      assert '"' !in s[1..] by {
        forall i | 0 <= i < |s[1..]| ensures s[1..][i] != '"' {
          assert s[1..][i] == s[i + 1];
        }
      }
      QuotedPrefix(s[1..], rest);
      assert line[1..] == s[1..] + "\"" + rest;
      assert s == [s[0]] + s[1..];
      assert [s[0]] + (s[1..] + Fields(rest, false)[0]) == s + Fields(rest, false)[0];
      assert line[0] == s[0];
    }
  }

  /** An empty quoted field `""` is a doubled quote, so it reads as one quote character. */
  lemma EmptyQuotedField()
    ensures Fields("a,\"\",b", false) == ["a", "\"", "b"]
  {
    var s := "a,\"\",b";
    assert s[5..] == "b" && "b"[1..] == "" && "b"[0] == 'b';
    assert ['b'] + "" == "b" && ['"'] + "" == "\"" && ['a'] + "" == "a";
    assert Fields("b", false) == ["b"];
    assert s[4..] == ",b" && ",b"[1..] == "b";
    assert Fields(",b", false) == ["", "b"];
    assert s[2..] == "\"\",b" && "\"\",b"[2..] == ",b";
    assert Fields("\"\",b", false) == ["\"", "b"];
    assert s[1..] == ",\"\",b" && ",\"\",b"[1..] == "\"\",b";
    assert Fields(",\"\",b", false) == ["", "\"", "b"];
  }

  // ---------------------------------------------------------------------
  // Lines, the header lookup and rows
  // ---------------------------------------------------------------------

  /** `text.split(/\r?\n/)`: pieces between line breaks, a carriage return before a line feed dropped. */
  function SplitLines(text: string): (r: seq<string>)
    ensures |r| >= 1
    ensures forall line :: line in r ==> '\n' !in line
    decreases |text|
  {
    if |text| == 0 then [""]
    else if text[0] == '\n' then [""] + SplitLines(text[1..])
    else if |text| >= 2 && text[0] == '\r' && text[1] == '\n' then [""] + SplitLines(text[2..])
    else
      var rest := SplitLines(text[1..]);
      assert rest[0] in rest;
      [[text[0]] + rest[0]] + rest[1..]
  }

  /** `buildColumnLookup`: each column name mapped to its index, a later duplicate overwriting an earlier one. */
  function ColumnLookup(columns: seq<string>): (r: map<string, nat>)
    ensures forall name :: name in r <==> name in columns
    ensures forall name :: name in r ==> r[name] < |columns| && columns[r[name]] == name
  {
    if |columns| == 0 then map[]
    else ColumnLookup(columns[..|columns| - 1])[columns[|columns| - 1] := |columns| - 1]
  }

  /** Each name maps to the last index holding it. */
  lemma {:induction false} ColumnLookupLastIndex(columns: seq<string>, name: string)
    requires name in columns
    ensures forall j :: ColumnLookup(columns)[name] < j < |columns| ==> columns[j] != name
  {
    var n := |columns|;
    var init := columns[..n - 1];
    if columns[n - 1] != name {
      assert name in init by {
        var k :| 0 <= k < n && columns[k] == name;
        assert init[k] == name;
      }
      ColumnLookupLastIndex(init, name);
      var last := ColumnLookup(init)[name];
      assert ColumnLookup(columns)[name] == last;
      forall j | last < j < n ensures columns[j] != name {
        if j < n - 1 {
          assert init[j] == columns[j];
        }
      }
    }
  }

  /** The reduce that fills the lookup object, index by index. */
  method BuildColumnLookup(columns: seq<string>) returns (lookup: map<string, nat>)
    ensures lookup == ColumnLookup(columns)
  {
    lookup := map[];
    for index := 0 to |columns|
      invariant lookup == ColumnLookup(columns[..index])
    {
      assert columns[..index + 1][..index] == columns[..index];
      lookup := lookup[columns[index] := index];
    }
    assert columns[..|columns|] == columns;
  }

  /** A parsed row: every header name, with `None` where the line has no field at that index. */
  type Row = map<string, Option<string>>

  function ParseRow(values: seq<string>, columns: map<string, nat>): (row: Row)
    ensures row.Keys == columns.Keys
  {
    map name | name in columns :: if columns[name] < |values| then Some(values[columns[name]]) else None
  }

  /** The lines of a CSV text, white space trimmed at both ends first. */
  function CsvLines(text: string): (r: seq<string>)
    ensures |r| >= 1
  {
    SplitLines(Trim(text))
  }

  /** `parseCsv`: one row per line after the header, each keyed by exactly the header's names. */
  function ParseCsv(text: string): (rows: seq<Row>)
    ensures |rows| == |CsvLines(text)| - 1
    ensures forall i :: 0 <= i < |rows| ==>
      forall name :: name in rows[i] <==> name in Fields(CsvLines(text)[0], false)
  {
    var lines := CsvLines(text);
    var header := Fields(lines[0], false);
    var columns := ColumnLookup(header);
    var rows := seq(|lines| - 1, i requires 0 <= i < |lines| - 1 => ParseRow(Fields(lines[i + 1], false), columns));
    assert forall i :: 0 <= i < |rows| ==> rows[i].Keys == columns.Keys;
    rows
  }

  /** A row's value for a name is the line's field at the last header index of that name, if the line has one. */
  lemma ParseCsvValue(text: string, i: nat, name: string) returns (k: nat)
    requires i < |ParseCsv(text)| && name in Fields(CsvLines(text)[0], false)
    ensures var header := Fields(CsvLines(text)[0], false);
      var values := Fields(CsvLines(text)[i + 1], false);
      k < |header| && header[k] == name &&
      (forall j :: k < j < |header| ==> header[j] != name) &&
      ParseCsv(text)[i][name] == (if k < |values| then Some(values[k]) else None)
  {
    var header := Fields(CsvLines(text)[0], false);
    ColumnLookupLastIndex(header, name);
    k := ColumnLookup(header)[name];
    assert ParseCsv(text)[i] == ParseRow(Fields(CsvLines(text)[i + 1], false), ColumnLookup(header));
  }

  /** `row.name`: `undefined` when the row has no such column or the line no such field. */
  function Field(row: Row, name: string): Option<string>
  {
    if name in row then row[name] else None
  }

  /** `Number(text)` of a field; `undefined` gives NaN. */
  function NumberOf(v: Option<string>): Option<real>
  {
    if v.None? then None else ParseNumber(v.value)
  }

  /** `normalizeColor`: the default blue for a missing or empty colour, otherwise `#` added unless present. */
  function NormalizeColor(routeColor: Option<string>): (r: string)
    ensures StartsWith(r, "#")
    ensures routeColor.None? || routeColor.value == "" ==> r == "#2a62c9"
    ensures routeColor.Some? && StartsWith(routeColor.value, "#") ==> r == routeColor.value
    ensures routeColor.Some? && routeColor.value != "" && !StartsWith(routeColor.value, "#") ==> r == "#" + routeColor.value
  {
    if routeColor.None? || routeColor.value == "" then "#2a62c9"
    else if StartsWith(routeColor.value, "#") then routeColor.value
    else "#" + routeColor.value
  }

  lemma NormalizeColorIdempotent(routeColor: Option<string>)
    ensures NormalizeColor(Some(NormalizeColor(routeColor))) == NormalizeColor(routeColor)
  {
  }
}
