/** Comma-separated text: how fields are quoted, and a reader for it after section 2 of RFC 4180
    with line feeds ending the records. The text of an unquoted field is any but the characters that
    section 2 sets apart: the quote, the comma, the line feed and the carriage return. */
module Csv {
  import opened Sequences
  import opened Wrappers

  predicate NeedsQuotes(value: string) { ',' in value || '"' in value || '\n' in value }

  /** Every quote doubled. */
  function Doubled(value: string): string {
    if value == "" then ""
    else (if value[0] == '"' then ['"', '"'] else [value[0]]) + Doubled(value[1..])
  }

  /** Quotes a field that holds a comma, a quote or a line feed. */
  function Escape(value: string): string {
    if NeedsQuotes(value) then ['"'] + (Doubled(value) + ['"']) else value
  }

  /** One record: its fields escaped, separated by commas and ended by a line feed. */
  function Record(fields: seq<string>): string
    requires fields != []
  {
    if |fields| == 1 then Escape(fields[0]) + ['\n'] else Escape(fields[0]) + [','] + Record(fields[1..])
  }

  predicate NoneEmpty(rows: seq<seq<string>>) { forall i :: 0 <= i < |rows| ==> rows[i] != [] }

  function Records(rows: seq<seq<string>>): string
    requires NoneEmpty(rows)
  {
    if rows == [] then "" else Record(rows[0]) + Records(rows[1..])
  }

  // ---------------------------------------------------------------------------------------
  // Reader
  // ---------------------------------------------------------------------------------------

  /** Something read off the front of a text, with what is left of it. */
  datatype Parsed<T> = Parsed(value: T, rest: string) | Malformed

  /** The inside of a quoted field up to its closing quote; a doubled quote is one quote. */
  function ReadQuoted(s: string): (r: Parsed<string>)
    ensures r.Parsed? ==> |r.rest| < |s|
  {
    if s == "" then Malformed
    else if s[0] != '"' then Prefixed(s[0], ReadQuoted(s[1..]))
    else if |s| > 1 && s[1] == '"' then Prefixed('"', ReadQuoted(s[2..]))
    else Parsed("", s[1..])
  }

  /** A field without quotes ends before a comma or a line feed. The standard allows no carriage
      return in it; a reader with `bareReturns` does. */
  function ReadPlain(s: string, bareReturns: bool): (r: Parsed<string>)
    ensures r.Parsed? ==> |r.rest| <= |s|
  {
    if s == "" || s[0] == ',' || s[0] == '\n' then Parsed("", s)
    else if s[0] == '"' || (s[0] == '\r' && !bareReturns) then Malformed
    else Prefixed(s[0], ReadPlain(s[1..], bareReturns))
  }

  function Prefixed(c: char, r: Parsed<string>): Parsed<string> {
    if r.Parsed? then Parsed([c] + r.value, r.rest) else Malformed
  }

  function ReadField(s: string, bareReturns: bool): (r: Parsed<string>)
    ensures r.Parsed? ==> |r.rest| <= |s|
  {
    if s != "" && s[0] == '"' then ReadQuoted(s[1..]) else ReadPlain(s, bareReturns)
  }

  function ReadRecord(s: string, bareReturns: bool): (r: Parsed<seq<string>>)
    ensures r.Parsed? ==> |r.rest| < |s|
    decreases |s|
  {
    var field := ReadField(s, bareReturns);
    if field.Malformed? || field.rest == "" then Malformed
    else if field.rest[0] == '\n' then Parsed([field.value], field.rest[1..])
    else if field.rest[0] == ',' then
      var more := ReadRecord(field.rest[1..], bareReturns);
      if more.Parsed? then Parsed([field.value] + more.value, more.rest) else Malformed
    else Malformed
  }

  function ReadRecords(s: string, bareReturns: bool): Option<seq<seq<string>>>
    decreases |s|
  {
    if s == "" then Some([])
    else
      var record := ReadRecord(s, bareReturns);
      if record.Malformed? then None
      else
        var more := ReadRecords(record.rest, bareReturns);
        if more.Some? then Some([record.value] + more.value) else None
  }

  // ---------------------------------------------------------------------------------------
  // Laws
  // ---------------------------------------------------------------------------------------

  lemma {:induction false} QuotedFieldReads(value: string, rest: string)
    requires rest == "" || rest[0] != '"'
    ensures ReadQuoted(Doubled(value) + ['"'] + rest) == Parsed(value, rest)
  {
    var s := Doubled(value) + ['"'] + rest;
    if value == "" {
      assert s[1..] == rest;
    } else {
      QuotedFieldReads(value[1..], rest);
      var tail := Doubled(value[1..]) + ['"'] + rest;
      assert [value[0]] + value[1..] == value;
      if value[0] == '"' {
        assert s[2..] == tail;
      } else {
        assert s[1..] == tail;
      }
    }
  }

  /** The quoting rule does not look at carriage returns: such a field is written bare. */
  predicate BareReturn(value: string) { '\r' in value && !NeedsQuotes(value) }

  predicate Readable(fields: seq<string>) { forall i :: 0 <= i < |fields| ==> !BareReturn(fields[i]) }

  lemma {:induction false} PlainFieldReads(value: string, rest: string, bareReturns: bool)
    requires !NeedsQuotes(value) && rest != "" && (rest[0] == ',' || rest[0] == '\n')
    ensures ReadPlain(value + rest, bareReturns) ==
            if '\r' in value && !bareReturns then Malformed else Parsed(value, rest)
  {
    var s := value + rest;
    if value == "" {
      assert s == rest;
    } else {
      assert value == [value[0]] + value[1..] && value[0] in value;
      assert forall c :: c in value <==> c == value[0] || c in value[1..];
      PlainFieldReads(value[1..], rest, bareReturns);
      assert s[1..] == value[1..] + rest;
    }
  }

  /** A field is read back whatever characters it holds, but for a bare carriage return. */
  lemma FieldReads(value: string, rest: string, bareReturns: bool)
    requires rest != "" && (rest[0] == ',' || rest[0] == '\n')
    ensures ReadField(Escape(value) + rest, bareReturns) ==
            if BareReturn(value) && !bareReturns then Malformed else Parsed(value, rest)
  {
    if NeedsQuotes(value) {
      QuotedFieldReads(value, rest);
      OpensQuoted(Doubled(value) + ['"'], rest, bareReturns);
    } else {
      PlainFieldReads(value, rest, bareReturns);
      StartsPlain(value, rest, bareReturns);
    }
  }

  lemma OpensQuoted(body: string, rest: string, bareReturns: bool)
    ensures ReadField(['"'] + body + rest, bareReturns) == ReadQuoted(body + rest)
  {
    assert (['"'] + body + rest)[1..] == body + rest;
  }

  lemma StartsPlain(value: string, rest: string, bareReturns: bool)
    requires !NeedsQuotes(value) && rest != "" && rest[0] != '"'
    ensures ReadField(value + rest, bareReturns) == ReadPlain(value + rest, bareReturns)
  {
    assert value != "" ==> value[0] in value;
  }

  lemma {:induction false} RecordReads(fields: seq<string>, rest: string, bareReturns: bool)
    requires fields != []
    ensures ReadRecord(Record(fields) + rest, bareReturns) ==
            if Readable(fields) || bareReturns then Parsed(fields, rest) else Malformed
  {
    if |fields| == 1 {
      FieldReads(fields[0], ['\n'] + rest, bareReturns);
      Assoc(Escape(fields[0]), ['\n'], rest);
      assert [fields[0]] == fields;
    } else {
      var more := Record(fields[1..]);
      FieldReads(fields[0], [','] + (more + rest), bareReturns);
      RecordReads(fields[1..], rest, bareReturns);
      assert Record(fields) + rest == Escape(fields[0]) + ([','] + (more + rest));
      assert [fields[0]] + fields[1..] == fields;
      ReadableSplits(fields);
    }
  }

  lemma ReadableSplits(fields: seq<string>)
    requires fields != []
    ensures Readable(fields) <==> !BareReturn(fields[0]) && Readable(fields[1..])
  {
    assert forall i :: 1 <= i < |fields| ==> fields[1..][i - 1] == fields[i];
  }

  /** Reading a file gives back every row of it, exactly when every field with a carriage return has
      a comma, a quote or a line feed too. A reader with `bareReturns` gives every file back. */
  lemma {:induction false} RecordsRead(rows: seq<seq<string>>, bareReturns: bool)
    requires NoneEmpty(rows)
    ensures ReadRecords(Records(rows), bareReturns) ==
            if bareReturns || (forall i :: 0 <= i < |rows| ==> Readable(rows[i])) then Some(rows) else None
  {
    if rows != [] {
      RecordReads(rows[0], Records(rows[1..]), bareReturns);
      RecordsRead(rows[1..], bareReturns);
      assert [rows[0]] + rows[1..] == rows;
      assert forall i :: 1 <= i < |rows| ==> rows[1..][i - 1] == rows[i];
    }
  }

  /** An input the standard's reader refuses. */
  lemma BareReturnIsRefused()
    ensures ReadRecords(Records([["a\rb"]]), false) == None
  {
    var fields := ["a\rb"];
    assert fields[0][1] == '\r' && BareReturn(fields[0]);
    RecordsRead([fields], false);
    assert [fields][0] == fields;
  }

  lemma {:induction false} RecordsSnoc(rows: seq<seq<string>>, row: seq<string>)
    requires row != [] && NoneEmpty(rows)
    ensures Records(rows + [row]) == Records(rows) + Record(row)
  {
    if rows == [] {
      assert [row][1..] == [] && rows + [row] == [row];
    } else {
      RecordsSnoc(rows[1..], row);
      assert (rows + [row])[1..] == rows[1..] + [row];
      Assoc(Record(rows[0]), Records(rows[1..]), Record(row));
    }
  }
}
