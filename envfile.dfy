/**
 * The `.env` parser shared by scripts/verify-setup.js and scripts/copy-supabase-credentials.js:
 * split the content at '\n', and for each line (trimmed, not blank, not a `#` comment) split
 * at '=' into a key and the rest, and store the trimmed, unquoted value under the trimmed key.
 */
module EnvFile {
  import opened Common
  import opened JsString

  /** The variables OnTurn's `.env.local` defines. */
  const UrlVar := "NEXT_PUBLIC_SUPABASE_URL"
  const AnonKeyVar := "NEXT_PUBLIC_SUPABASE_ANON_KEY"
  const VapidVar := "NEXT_PUBLIC_VAPID_PUBLIC_KEY"

  /** `vars.NAME` on the parsed dictionary: undefined when the key was never defined. */
  function Lookup(vars: map<string, string>, name: string): Option<string> {
    if name in vars then Some(vars[name]) else None
  }

  /** JavaScript truthiness of a possibly-undefined string. */
  predicate Truthy(v: Option<string>) {
    v.Some? && v.value != ""
  }

  // ---------------------------------------------------------------------------------
  // `split` and `join` on one separator character.

  /** `s.split(c)`: the pieces between separators; there is always at least one. */
  function Split(s: string, c: char): (r: seq<string>)
    ensures |r| >= 1
    ensures forall i | 0 <= i < |r| :: c !in r[i]
  {
    if s == [] then [""]
    else
      var rest := Split(s[1..], c);
      if s[0] == c then [""] + rest else [[s[0]] + rest[0]] + rest[1..]
  }

  /** `pieces.join(c)` */
  function Join(pieces: seq<string>, c: char): string
    requires |pieces| >= 1
  {
    if |pieces| == 1 then pieces[0] else pieces[0] + [c] + Join(pieces[1..], c)
  }

  /** Joining the pieces back gives the original text. */
  lemma {:induction false} JoinSplit(s: string, c: char)
    ensures Join(Split(s, c), c) == s
  {
    if s != [] {
      var rest := Split(s[1..], c);
      JoinSplit(s[1..], c);
      if s[0] == c {
        assert Split(s, c)[1..] == rest;
      } else {
        var r := Split(s, c);
        if |rest| > 1 {
          assert r[1..] == rest[1..];
          assert Join(r, c) == ([s[0]] + rest[0]) + [c] + Join(rest[1..], c);
          assert Join(rest, c) == rest[0] + [c] + Join(rest[1..], c);
        }
      }
    }
  }

  /** A text without the separator is a single piece. */
  lemma {:induction false} SplitNone(s: string, c: char)
    requires c !in s
    ensures Split(s, c) == [s]
  {
    if s != [] {
      SplitNone(s[1..], c);
      assert [s[0]] + s[1..] == s;
    }
  }

  /** Splitting at the first separator: the text before it is the first piece. */
  lemma {:induction false} SplitFirst(k: string, rest: string, c: char)
    requires c !in k
    ensures Split(k + [c] + rest, c) == [k] + Split(rest, c)
  {
    if k == [] {
      assert k + [c] + rest == [c] + rest;
      assert ([c] + rest)[1..] == rest;
    } else {
      assert (k + [c] + rest)[1..] == k[1..] + [c] + rest;
      SplitFirst(k[1..], rest, c);
      assert [k[0]] + k[1..] == k;
    }
  }

  /** Pieces free of the separator are recovered by splitting their join. */
  lemma {:induction false} SplitJoin(pieces: seq<string>, c: char)
    requires |pieces| >= 1 && forall i | 0 <= i < |pieces| :: c !in pieces[i]
    ensures Split(Join(pieces, c), c) == pieces
  {
    if |pieces| == 1 {
      SplitNone(pieces[0], c);
    } else {
      SplitJoin(pieces[1..], c);
      SplitFirst(pieces[0], Join(pieces[1..], c), c);
      assert [pieces[0]] + pieces[1..] == pieces;
    }
  }

  // ---------------------------------------------------------------------------------
  // One line.

  predicate IsQuote(c: char) {
    c == '"' || c == '\''
  }

  /** `value.replace(/^["']|["']$/g, '')`: one leading and one trailing quote, each on its own. */
  function StripQuotes(v: string): (r: string)
    ensures |v| - 2 <= |r| <= |v|
    ensures v == [] || !IsQuote(v[0]) ==> r == v[..|r|]
    ensures v != [] && IsQuote(v[0]) ==> |r| < |v| && r == v[1..|r| + 1]
  {
    var a := if v != [] && IsQuote(v[0]) then v[1..] else v;
    if a != [] && IsQuote(a[|a| - 1]) then a[..|a| - 1] else a
  }

  /** The entry a line defines, if any. */
  function ParseLine(raw: string): Option<(string, string)> {
    var line := Trim(raw);
    if line == "" || StartsWith(line, "#") then None
    else
      var parts := Split(line, '=');
      if parts[0] != "" && |parts| > 1 then
        Some((Trim(parts[0]), StripQuotes(Trim(Join(parts[1..], '=')))))
      else None
  }

  /** Blank lines and comments define nothing. */
  lemma BlankAndCommentLines(raw: string)
    requires Trim(raw) == "" || StartsWith(Trim(raw), "#")
    ensures ParseLine(raw).None?
  {
  }

  /**
   * The key is the trimmed text before the first '=', the value everything after it (later
   * '=' included), trimmed and unquoted.
   */
  lemma ParseAtFirstEquals(raw: string, key: string, rest: string)
    requires Trim(raw) == key + "=" + rest && '=' !in key && key != "" && key[0] != '#'
    ensures ParseLine(raw) == Some((Trim(key), StripQuotes(Trim(rest))))
  {
    var line := Trim(raw);
    SplitFirst(key, rest, '=');
    var parts := Split(line, '=');
    assert parts == [key] + Split(rest, '=');
    assert parts[0] == key && |parts| > 1;
    assert parts[1..] == Split(rest, '=');
    JoinSplit(rest, '=');
    assert line[0] == key[0];
    assert !StartsWith(line, "#");
  }

  /** A line with no '=' in it, or with nothing before its first '=', defines nothing. */
  lemma NoKeyNoEntry(raw: string)
    requires '=' !in Trim(raw) || (Trim(raw) != "" && Trim(raw)[0] == '=')
    ensures ParseLine(raw).None?
  {
    var line := Trim(raw);
    if '=' !in line {
      SplitNone(line, '=');
    } else {
      assert line == [] + "=" + line[1..];
      SplitFirst([], line[1..], '=');
    }
  }

  /** `KEY=` defines KEY as the empty string. */
  lemma EmptyValue(key: string)
    requires key != "" && '=' !in key && key[0] != '#' && !IsSpace(key[0]) && !IsSpace(key[|key| - 1])
    ensures ParseLine(key + "=") == Some((key, ""))
  {
    var line := key + "=";
    assert line[0] == key[0] && line[|line| - 1] == '=';
    TrimUnchanged(line);
    TrimUnchanged(key);
    assert line == key + "=" + "";
    ParseAtFirstEquals(line, key, "");
    TrimUnchanged("");
    assert StripQuotes("") == "";
  }

  /** A line whose first character is `#` is a comment, whatever follows. */
  lemma CommentLine(raw: string)
    requires raw != [] && raw[0] == '#'
    ensures ParseLine(raw).None?
  {
    assert TrimStart(raw) == raw;
    TrimEndShape(raw);
    var line := Trim(raw);
    assert line != [] && line[0] == '#';
    assert StartsWith(line, "#");
  }

  /** A value that neither starts nor ends with a quote is stored as it is. */
  lemma StripQuotesUnchanged(v: string)
    requires v == [] || (!IsQuote(v[0]) && !IsQuote(v[|v| - 1]))
    ensures StripQuotes(v) == v
  {
  }

  /** A value that survives a `KEY=value` line unchanged: one line, no white space or quote at either end. */
  predicate Bare(v: string) {
    '\n' !in v && (v == [] || (!IsSpace(v[0]) && !IsSpace(v[|v| - 1]) && !IsQuote(v[0]) && !IsQuote(v[|v| - 1])))
  }

  /** A key the parser reads back as written: non-empty, no '=', not a comment, no white space at either end. */
  predicate GoodKey(k: string) {
    k != "" && '=' !in k && '\n' !in k && k[0] != '#' && !IsSpace(k[0]) && !IsSpace(k[|k| - 1])
  }

  /** `KEY=value` with a good key and a bare value defines exactly that key as that value. */
  lemma AssignmentLine(key: string, value: string)
    requires GoodKey(key) && Bare(value)
    ensures ParseLine(key + "=" + value) == Some((key, value))
  {
    var line := key + "=" + value;
    assert line[0] == key[0];
    assert line[|line| - 1] == if value == [] then '=' else value[|value| - 1];
    TrimUnchanged(line);
    TrimUnchanged(key);
    TrimUnchanged(value);
    StripQuotesUnchanged(value);
    ParseAtFirstEquals(line, key, value);
  }

  // ---------------------------------------------------------------------------------
  // The whole file.

  /** What each line defines, line by line. */
  function Entries(lines: seq<string>): (r: seq<Option<(string, string)>>)
    ensures |r| == |lines| && forall i | 0 <= i < |lines| :: r[i] == ParseLine(lines[i])
  {
    seq(|lines|, i requires 0 <= i < |lines| => ParseLine(lines[i]))
  }

  /** The dictionary after the entries in order: a left fold, written on the prefix. */
  function Fold(entries: seq<Option<(string, string)>>): map<string, string> {
    if entries == [] then map[]
    else
      var vars := Fold(entries[..|entries| - 1]);
      var e := entries[|entries| - 1];
      if e.None? then vars else vars[e.value.0 := e.value.1]
  }

  /** The dictionary a file's lines produce. */
  function Collect(lines: seq<string>): map<string, string> {
    Fold(Entries(lines))
  }

  /** The `content.split('\n').forEach(...)` loop filling the dictionary. */
  method ParseEnv(content: string) returns (vars: map<string, string>)
    ensures vars == Collect(Split(content, '\n'))
  {
    var lines := Split(content, '\n');
    ghost var entries := Entries(lines);
    vars := map[];
    var i := 0;
    while i < |lines|
      invariant 0 <= i <= |lines|
      invariant vars == Fold(entries[..i])
    {
      assert entries[..i + 1][..i] == entries[..i];
      var entry := ParseLine(lines[i]);
      if entry.Some? {
        vars := vars[entry.value.0 := entry.value.1];
      }
      i := i + 1;
    }
    assert entries[..|lines|] == entries;
  }

  predicate Defines(e: Option<(string, string)>, key: string) {
    e.Some? && e.value.0 == key
  }

  /** A later definition of a key overrides every earlier one. */
  lemma {:induction false} LastDefinitionWins(entries: seq<Option<(string, string)>>, j: nat, key: string, value: string)
    requires j < |entries| && entries[j] == Some((key, value))
    requires forall i | j < i < |entries| :: !Defines(entries[i], key)
    ensures key in Fold(entries) && Fold(entries)[key] == value
  {
    var init := entries[..|entries| - 1];
    if j < |entries| - 1 {
      assert init[j] == entries[j];
      assert !Defines(entries[|entries| - 1], key);
      LastDefinitionWins(init, j, key, value);
    }
  }

  /** A key is defined exactly when some entry defines it. */
  lemma {:induction false} DefinedKeys(entries: seq<Option<(string, string)>>, key: string)
    ensures key in Fold(entries) <==> exists i | 0 <= i < |entries| :: Defines(entries[i], key)
  {
    if entries != [] {
      var init := entries[..|entries| - 1];
      DefinedKeys(init, key);
      assert forall i | 0 <= i < |init| :: init[i] == entries[i];
      if Defines(entries[|entries| - 1], key) {
        assert key in Fold(entries);
      }
    }
  }

  /** A value the fold stores is the value of some entry. */
  lemma {:induction false} StoredValueFromEntry(entries: seq<Option<(string, string)>>, key: string)
    requires key in Fold(entries)
    ensures exists i | 0 <= i < |entries| :: entries[i] == Some((key, Fold(entries)[key]))
  {
    var init := entries[..|entries| - 1];
    var e := entries[|entries| - 1];
    if !Defines(e, key) {
      StoredValueFromEntry(init, key);
      var i :| 0 <= i < |init| && init[i] == Some((key, Fold(init)[key]));
      assert entries[i] == init[i];
    }
  }

  /** A file free of characters `c` at line level yields values free of it: no value holds '\n'. */
  lemma ValuesHaveNoNewline(content: string, key: string)
    requires key in Collect(Split(content, '\n'))
    ensures '\n' !in Collect(Split(content, '\n'))[key]
  {
    var lines := Split(content, '\n');
    StoredValueFromEntry(Entries(lines), key);
    var i :| 0 <= i < |lines| && Entries(lines)[i] == Some((key, Collect(lines)[key]));
    ParsedValueInLine(lines[i]);
  }

  /** A parsed value is made of characters of its line. */
  lemma ParsedValueInLine(raw: string)
    requires ParseLine(raw).Some?
    ensures forall ch | ch in ParseLine(raw).value.1 :: ch in raw
  {
    var line := Trim(raw);
    var parts := Split(line, '=');
    var rest := Join(parts[1..], '=');
    JoinSplit(line, '=');
    assert [parts[0]] + parts[1..] == parts;
    assert line == parts[0] + "=" + rest;
    var t := Trim(rest);
    var v := StripQuotes(t);
    TrimWithin(raw);
    TrimWithin(rest);
    forall ch | ch in v ensures ch in raw {
      var i :| 0 <= i < |v| && v[i] == ch;
      assert ch in t;
      assert ch in rest;
      assert ch in line;
    }
  }
}
