/** How a string-slice flag takes its value apart: the first record that Go's
    `encoding/csv` reads in it. */
module Csv {
  import opened GoStrings

  /** Line ends as the reader sees them: a carriage return is dropped before a
      newline and at the end of the text. */
  function Unix(s: string): (r: string)
    ensures |r| <= |s|
  {
    if s == "" || s == "\r" then ""
    else if s[0] == '\r' && s[1] == '\n' then "\n" + Unix(s[2..])
    else [s[0]] + Unix(s[1..])
  }

  /** Empty lines before the record are skipped. */
  function SkipEmpty(s: string): (r: string)
    ensures |r| <= |s|
  {
    if s != "" && s[0] == '\n' then SkipEmpty(s[1..]) else s
  }

  /** Up to the comma or newline that ends a plain field. */
  function PlainEnd(s: string): (n: nat)
    ensures n <= |s| && (n < |s| ==> s[n] in ",\n")
    ensures forall i :: 0 <= i < n ==> s[i] !in ",\n"
  {
    if s == "" || s[0] in ",\n" then 0 else 1 + PlainEnd(s[1..])
  }

  function Quote(s: string): (n: nat)
    ensures n <= |s| && (n < |s| ==> s[n] == '"')
  {
    if s == "" || s[0] == '"' then 0 else 1 + Quote(s[1..])
  }

  /** A quoted field after its opening quote: its text, and what follows the
      closing quote. Two quotes stand for one. */
  function Quoted(s: string): (r: Option<(string, string)>)
    ensures r.Some? ==> |r.value.0| + |r.value.1| < |s|
    decreases |s|
  {
    var n := Quote(s);
    if n == |s| then None
    else
      var rest := s[n + 1..];
      if rest != "" && rest[0] == '"' then
        match Quoted(rest[1..])
        case None => None
        case Some((text, after)) => Some((s[..n] + "\"" + text, after))
      else if rest == "" || rest[0] in ",\n" then Some((s[..n], rest))
      else None
  }

  /** The record at the start of the text. */
  function Record(s: string): (r: Option<seq<string>>)
    ensures r.Some? ==> r.value != []
    decreases |s|, 1
  {
    if s != "" && s[0] == '"' then
      match Quoted(s[1..])
      case None => None
      case Some((text, after)) => Following(text, after)
    else
      var n := PlainEnd(s);
      if '"' in s[..n] then None else Following(s[..n], s[n..])
  }

  function Following(field: string, after: string): (r: Option<seq<string>>)
    ensures r.Some? ==> r.value != [] && r.value[0] == field
    decreases |after|, 0
  {
    if after != "" && after[0] == ',' then
      match Record(after[1..])
      case None => None
      case Some(more) => Some([field] + more)
    else Some([field])
  }

  /** The values a flag gets from one text: none from an empty one. */
  function Fields(value: string): Option<seq<string>> {
    if value == "" then Some([])
    else
      var text := SkipEmpty(Unix(value));
      if text == "" then None else Record(text)
  }

  /** A text that is one plain field. */
  predicate Plain(s: string) {
    s != "" && ',' !in s && '"' !in s && '\n' !in s && s[|s| - 1] != '\r'
  }

  lemma {:induction false} UnixPlain(s: string)
    requires '\n' !in s && (s != "" ==> s[|s| - 1] != '\r')
    ensures Unix(s) == s
    decreases |s|
  {
    if s != "" {
      assert s == [s[0]] + s[1..];
      UnixPlain(s[1..]);
    }
  }

  /** Nothing is lost only from a text without such ends. */
  lemma {:induction false} UnixLength(s: string)
    requires |Unix(s)| == |s|
    ensures Unix(s) == s && (s != "" ==> s[|s| - 1] != '\r')
    decreases |s|
  {
    if s != "" {
      assert s == [s[0]] + s[1..];
      UnixLength(s[1..]);
    }
  }

  lemma RecordPlain(s: string)
    requires s != "" && ',' !in s && '"' !in s && '\n' !in s
    ensures Record(s) == Some([s])
  {
    var n := PlainEnd(s);
    assert forall i :: 0 <= i < |s| ==> s[i] in s;
    assert s[..n] == s && s[n..] == "";
  }

  /** A first field as long as the text is the whole text, and plain. */
  lemma RecordLength(s: string)
    requires s != "" && Record(s).Some?
    ensures |Record(s).value[0]| <= |s|
    ensures |Record(s).value[0]| == |s| ==> Record(s) == Some([s]) && ',' !in s && '"' !in s && '\n' !in s
  {
    if s[0] != '"' {
      var n := PlainEnd(s);
      if n == |s| {
        assert s[..n] == s && s[n..] == "";
      }
    }
  }

  /** The first value is the text itself exactly for a plain text, and then there
      is no other. */
  lemma FieldsExact(value: string)
    requires value != ""
    ensures Plain(value) ==> Fields(value) == Some([value])
    ensures Fields(value).Some? && Fields(value).value != [] && Fields(value).value[0] == value ==> Plain(value)
    ensures Fields(value).Some? ==> Fields(value).value != []
  {
    var u := Unix(value);
    var text := SkipEmpty(u);
    if Plain(value) {
      UnixPlain(value);
      assert value[0] in value;
      RecordPlain(value);
    }
    if text != "" && Record(text).Some? {
      RecordLength(text);
      if Record(text).value[0] == value {
        assert |text| == |u| == |value|;
        UnixLength(value);
      }
    }
  }

  /** Without quotes and newlines the text is cut at its commas. */
  lemma {:induction false} RecordSplit(s: string)
    requires '"' !in s && '\n' !in s
    ensures Record(s) == Some(Split(s, ','))
    decreases |s|
  {
    var n := PlainEnd(s);
    assert forall c :: c in s[..n] ==> c in s;
    if n < |s| {
      assert s == s[..n] + [','] + s[n + 1..];
      SplitAtSep(s[..n], s[n + 1..], ',');
      SplitWord(s[..n], ',');
      assert s[n..][1..] == s[n + 1..];
      assert forall c :: c in s[n + 1..] ==> c in s;
      RecordSplit(s[n + 1..]);
    } else {
      assert s[..n] == s && s[n..] == "";
      SplitWord(s, ',');
    }
  }

  lemma {:induction false} UnixKeeps(s: string, c: char)
    requires c != '\r' && c != '\n'
    ensures c in Unix(s) <==> c in s
    decreases |s|
  {
    if s != "" && s != "\r" {
      if s[0] == '\r' && s[1] == '\n' {
        assert s == [s[0]] + [s[1]] + s[2..];
        UnixKeeps(s[2..], c);
      } else {
        assert s == [s[0]] + s[1..];
        UnixKeeps(s[1..], c);
      }
    }
  }

  lemma {:induction false} UnixNoNewline(s: string)
    requires '\n' !in s
    ensures '\n' !in Unix(s)
    decreases |s|
  {
    if s != "" && s != "\r" {
      assert s == [s[0]] + s[1..];
      UnixNoNewline(s[1..]);
    }
  }

  /** A comma, without quotes and newlines, gives two values or more, none of them
      the text. */
  lemma CommaCuts(value: string)
    requires ',' in value && '"' !in value && '\n' !in value
    ensures Fields(value).Some? && |Fields(value).value| >= 2 && value !in Fields(value).value
  {
    var u := Unix(value);
    UnixKeeps(value, ',');
    UnixKeeps(value, '"');
    UnixNoNewline(value);
    assert u[0] in u;
    RecordSplit(u);
    match Cut(u, ',') {
      case Some((a, b)) => SplitAtSep(a, b, ',');
    }
  }
}
