/** The reader and the writer of the operator's dotenv file (env.py). */
module Dotenv {
  import opened Text
  import opened Wrappers

  // ---------------------------------------------------------------------
  // Reading

  /** Text-mode reading: CR LF and lone CR become LF. */
  function Universal(raw: string): string {
    if raw == "" then ""
    else if raw[0] == '\r' then "\n" + Universal(if |raw| > 1 && raw[1] == '\n' then raw[2..] else raw[1..])
    else [raw[0]] + Universal(raw[1..])
  }

  /** The line boundaries of `str.splitlines`. */
  predicate IsBreak(c: char) {
    var n := c as int;
    0x0A <= n <= 0x0D || 0x1C <= n <= 0x1E || n == 0x85 || n == 0x2028 || n == 0x2029
  }

  function FirstBreak(s: string): nat
    ensures FirstBreak(s) <= |s|
  {
    if s == "" || IsBreak(s[0]) then 0 else 1 + FirstBreak(s[1..])
  }

  /** `str.splitlines` on text without CR. */
  function Lines(s: string): seq<string>
    decreases |s|
  {
    if s == "" then []
    else
      var i := FirstBreak(s);
      [s[..i]] + if i < |s| then Lines(s[i + 1..]) else []
  }

  function Find(s: string, c: char): nat
    ensures Find(s, c) <= |s|
  {
    if s == "" || s[0] == c then 0 else 1 + Find(s[1..], c)
  }

  /** What one line assigns to `name`, if it assigns it at all. */
  function Assignment(rawLine: string, name: string): Option<string> {
    var line := Strip(rawLine);
    var i := Find(line, '=');
    if line == "" || line[0] == '#' || i == |line| || Strip(line[..i]) != name then None
    else Some(Strip(line[i + 1..]))
  }

  /** The first line that assigns `name` decides. */
  function Lookup(lines: seq<string>, name: string): Option<string> {
    if lines == [] then None
    else if Assignment(lines[0], name).Some? then Assignment(lines[0], name)
    else Lookup(lines[1..], name)
  }

  /** What the reader returns: an empty value counts as none. */
  function Existing(text: string, name: string): Option<string> {
    if Lookup(Lines(text), name) == Some("") then None else Lookup(Lines(text), name)
  }

  predicate AssignedIn(text: string, name: string) {
    exists i :: 0 <= i < |Lines(text)| && Assignment(Lines(text)[i], name).Some?
  }

  // ---------------------------------------------------------------------
  // Writing

  function EnvLine(name: string, value: string): string {
    name + "=" + value + "\n"
  }

  function NewText(text: string, name: string, key: string): string {
    (if text != "" && text[|text| - 1] != '\n' then text + "\n" else text) + EnvLine(name, key)
  }

  /** A variable name a dotenv line can carry. */
  predicate EnvName(name: string) {
    && name != "" && Stripped(name) && name[0] != '#'
    && forall i :: 0 <= i < |name| ==> name[i] != '=' && !IsBreak(name[i])
  }

  /** Holds of every Fernet key: url-safe base64 with `=` padding. */
  predicate KeyLike(key: string) {
    key != "" && Stripped(key) && forall i :: 0 <= i < |key| ==> !IsBreak(key[i])
  }

  /** The file as stored, before newline translation. */
  datatype File = Missing | Stored(raw: string) | Unreadable

  datatype Status = Present | Wrote | Failed

  datatype Host = Host(file: File, environ: map<string, string>)

  datatype EnvResult = EnvResult(key: string, status: Status)

  function TextOf(f: File): string {
    if f.Stored? then Universal(f.raw) else ""
  }

  /** `generated` is what the key generator returns, `fails` whether the atomic write raises. */
  function Ensured(h: Host, name: string, generated: string, fails: bool): (Host, EnvResult) {
    match Existing(TextOf(h.file), name)
    case Some(key) => (h.(environ := h.environ[name := key]), EnvResult(key, Present))
    case None =>
      var file := if fails then h.file else Stored(NewText(TextOf(h.file), name, generated));
      (Host(file, h.environ[name := generated]), EnvResult(generated, if fails then Failed else Wrote))
  }

  // ---------------------------------------------------------------------
  // Facts about lines

  lemma {:induction false} FirstBreakIs(s: string)
    ensures forall i :: 0 <= i < FirstBreak(s) ==> !IsBreak(s[i])
    ensures FirstBreak(s) < |s| ==> IsBreak(s[FirstBreak(s)])
  {
    if s != "" && !IsBreak(s[0]) {
      FirstBreakIs(s[1..]);
    }
  }

  /** A break before position `|a|` is found whatever follows. */
  lemma {:induction false} FirstBreakStays(a: string, b: string)
    requires FirstBreak(a) < |a|
    ensures FirstBreak(a + b) == FirstBreak(a)
  {
    assert (a + b)[0] == a[0];
    if !IsBreak(a[0]) {
      assert (a + b)[1..] == a[1..] + b;
      FirstBreakStays(a[1..], b);
    }
  }

  lemma {:induction false} FirstBreakAfter(a: string, c: char, b: string)
    requires IsBreak(c) && forall i :: 0 <= i < |a| ==> !IsBreak(a[i])
    ensures FirstBreak(a + [c] + b) == |a|
  {
    if a != "" {
      assert (a + [c] + b)[1..] == a[1..] + [c] + b;
      FirstBreakAfter(a[1..], c, b);
    }
  }

  /** Text that ends in a line boundary splits independently of what follows. */
  lemma {:induction false} LinesConcat(a: string, b: string)
    requires a == "" || IsBreak(a[|a| - 1])
    ensures Lines(a + b) == Lines(a) + Lines(b)
    decreases |a|
  {
    if a == "" {
      assert a + b == b;
    } else {
      FirstBreakIs(a);
      var i := FirstBreak(a);
      assert i < |a|;
      FirstBreakStays(a, b);
      assert (a + b)[..i] == a[..i];
      assert (a + b)[i + 1..] == a[i + 1..] + b;
      LinesConcat(a[i + 1..], b);
      Prepend(a[..i], Lines(a[i + 1..]), Lines(b));
    }
  }

  lemma Prepend(line: string, a: seq<string>, b: seq<string>)
    ensures [line] + (a + b) == ([line] + a) + b
  {}

  lemma LinesOfOne(a: string, c: char)
    requires IsBreak(c) && forall i :: 0 <= i < |a| ==> !IsBreak(a[i])
    ensures Lines(a + [c]) == [a]
  {
    FirstBreakAfter(a, c, "");
    assert a + [c] + "" == a + [c];
    assert (a + [c])[..|a|] == a && (a + [c])[|a| + 1..] == "";
  }

  /** A missing final newline: adding it changes no line that assigns anything. */
  lemma {:induction false} LookupNewline(text: string, name: string)
    ensures Lookup(Lines(text + "\n"), name) == Lookup(Lines(text), name)
    decreases |text|
  {
    if text == "" {
      LinesOfOne("", '\n');
      assert "" + "\n" == "\n" && Lines(text + "\n") == [""];
      assert Lookup([""], name) == Lookup([], name);
    } else {
      FirstBreakIs(text);
      var i := FirstBreak(text);
      if i < |text| {
        FirstBreakStays(text, "\n");
        assert (text + "\n")[..i] == text[..i];
        assert (text + "\n")[i + 1..] == text[i + 1..] + "\n";
        LookupNewline(text[i + 1..], name);
        assert Lines(text)[1..] == Lines(text[i + 1..]);
        assert Lines(text + "\n")[1..] == Lines(text[i + 1..] + "\n");
      } else {
        LinesOfOne(text, '\n');
        assert text[..i] == text;
      }
    }
  }

  lemma {:induction false} LookupConcat(a: seq<string>, b: seq<string>, name: string)
    ensures Lookup(a + b, name) == if Lookup(a, name).Some? then Lookup(a, name) else Lookup(b, name)
  {
    if a == [] {
      assert a + b == b;
    } else {
      assert (a + b)[1..] == a[1..] + b;
      LookupConcat(a[1..], b, name);
    }
  }

  lemma {:induction false} FindAt(a: string, c: char, b: string)
    requires c !in a
    ensures Find(a + [c] + b, c) == |a|
  {
    if a != "" {
      assert (a + [c] + b)[1..] == a[1..] + [c] + b;
      FindAt(a[1..], c, b);
    }
  }

  /** The written line assigns its own variable and no other. */
  lemma EnvLineAssigns(name: string, key: string, other: string)
    requires EnvName(name) && KeyLike(key)
    ensures Assignment(name + "=" + key, other) == if other == name then Some(key) else None
  {
    var line := name + "=" + key;
    EnvLineParts(name, key);
    FindAt(name, '=', key);
    StrippedUnchanged(line);
    StrippedUnchanged(name);
    StrippedUnchanged(key);
  }

  /** A line that assigns `value` to `name`: white space is allowed around both. */
  predicate Assigns(line: string, name: string, value: string, b: (string, string, string, string)) {
    && Blank(b.0) && Blank(b.1) && Blank(b.2) && Blank(b.3) && Stripped(value)
    && line == b.0 + (name + b.1 + "=" + b.2 + value) + b.3
  }

  lemma AssignsIsRead(line: string, name: string, value: string, b: (string, string, string, string))
    requires EnvName(name) && Assigns(line, name, value, b)
    ensures Assignment(line, name) == Some(value)
  {
    var left := name + b.1;
    assert '=' !in left by {
      assert forall i :: 0 <= i < |b.1| ==> IsSpace(b.1[i]);
    }
    StripDrops("", name, b.1);
    assert "" + name + b.1 == left;
    if value == "" {
      assert line == b.0 + (left + "=") + (b.2 + b.3);
      StripDrops(b.0, left + "=", b.2 + b.3);
      FindAt(left, '=', "");
      assert left + ['='] + "" == left + "=";
    } else {
      var core := left + "=" + b.2 + value;
      assert line == b.0 + core + b.3 && Stripped(core);
      StripDrops(b.0, core, b.3);
      assert core == left + ['='] + (b.2 + value);
      FindAt(left, '=', b.2 + value);
      assert core[..|left|] == left && core[|left| + 1..] == b.2 + value;
      StripDrops(b.2, value, "");
      assert b.2 + value + "" == b.2 + value;
    }
  }

  lemma {:induction false} FoundAt(s: string, c: char)
    ensures Find(s, c) < |s| ==> s[Find(s, c)] == c
  {
    if s != "" && s[0] != c {
      FoundAt(s[1..], c);
    }
  }

  /** Exactly the lines that are a name, `=` and a value with white space around them assign. */
  lemma AssignmentExactly(line: string, name: string, value: string)
    requires EnvName(name)
    ensures Assignment(line, name) == Some(value) <==> exists b :: Assigns(line, name, value, b)
  {
    forall b | Assigns(line, name, value, b) ensures Assignment(line, name) == Some(value) {
      AssignsIsRead(line, name, value, b);
    }
    if Assignment(line, name) == Some(value) {
      var b := ReadIsAssigned(line, name, value);
    }
  }

  lemma ReadIsAssigned(line: string, name: string, value: string) returns (b: (string, string, string, string))
    requires EnvName(name) && Assignment(line, name) == Some(value)
    ensures Assigns(line, name, value, b)
  {
    var core := Strip(line);
    var i := Find(core, '=');
    FoundAt(core, '=');
    var b0, b3 := StripSplits(line);
    var l, b1 := StripSplits(core[..i]);
    var b2, r := StripSplits(core[i + 1..]);
    StripIsStripped(line);
    StripIsStripped(core[i + 1..]);
    BlanksInside(core, i, l, name, b1, b2, value, r);
    b := (b0, b1, b2, b3);
  }

  /** A stripped line has its white space around the `=` only. */
  lemma BlanksInside(core: string, i: nat, l: string, name: string, b1: string, b2: string, value: string, r: string)
    requires Stripped(core) && i < |core| && core[i] == '=' && name != "" && !IsSpace(name[0])
    requires core[..i] == l + name + b1 && core[i + 1..] == b2 + value + r && Blank(l) && Blank(b2) && Blank(r)
    ensures l == "" && r == "" && core == name + b1 + "=" + b2 + value
  {
    assert core == core[..i] + ['='] + core[i + 1..];
  }

  lemma EnvLineParts(name: string, key: string)
    requires EnvName(name) && KeyLike(key)
    ensures
      var line := name + "=" + key;
      && Stripped(line) && line != "" && line[0] == name[0]
      && |line| == |name| + 1 + |key| && line[..|name|] == name && line[|name| + 1..] == key
  {}

  /** After a write, every lookup is that of the old text, the new line deciding what is left. */
  lemma LookupAfterWrite(text: string, name: string, key: string, other: string)
    requires EnvName(name) && KeyLike(key)
    ensures Lookup(Lines(NewText(text, name, key)), other)
      == if Lookup(Lines(text), other).Some? then Lookup(Lines(text), other)
         else if other == name then Some(key) else None
  {
    var base := if text != "" && text[|text| - 1] != '\n' then text + "\n" else text;
    LookupNewline(text, other);
    LookupAppended(base, name, key, other);
  }

  lemma LookupAppended(base: string, name: string, key: string, other: string)
    requires EnvName(name) && KeyLike(key) && (base == "" || IsBreak(base[|base| - 1]))
    ensures Lookup(Lines(base + EnvLine(name, key)), other)
      == if Lookup(Lines(base), other).Some? then Lookup(Lines(base), other)
         else if other == name then Some(key) else None
  {
    var line := name + "=" + key;
    LinesConcat(base, EnvLine(name, key));
    LinesOfEnvLine(name, key);
    LookupConcat(Lines(base), [line], other);
    LookupEnvLine(name, key, other);
  }

  lemma LinesOfEnvLine(name: string, key: string)
    requires EnvName(name) && KeyLike(key)
    ensures Lines(EnvLine(name, key)) == [name + "=" + key]
  {
    var line := name + "=" + key;
    assert EnvLine(name, key) == line + ['\n'];
    LinesOfOne(line, '\n');
  }

  lemma LookupEnvLine(name: string, key: string, other: string)
    requires EnvName(name) && KeyLike(key)
    ensures Lookup([name + "=" + key], other) == if other == name then Some(key) else None
  {
    var line := name + "=" + key;
    EnvLineAssigns(name, key, other);
    assert [line][1..] == [] && Lookup([], other).None?;
  }

  lemma {:induction false} LookupFindsAssignment(lines: seq<string>, name: string)
    ensures Lookup(lines, name).Some? <==> exists i :: 0 <= i < |lines| && Assignment(lines[i], name).Some?
  {
    if lines != [] {
      var rest := lines[1..];
      LookupFindsAssignment(rest, name);
      if Lookup(rest, name).Some? {
        var i :| 0 <= i < |rest| && Assignment(rest[i], name).Some?;
        assert Assignment(lines[i + 1], name).Some?;
      }
      forall i | 0 <= i < |lines| ensures lines[i] == lines[0] || exists j :: 0 <= j < |rest| && rest[j] == lines[i] {
        if i > 0 {
          assert rest[i - 1] == lines[i];
        }
      }
    }
  }

  // ---------------------------------------------------------------------
  // The main results

  /** The key just written is read back exactly when no line of the old text assigned the variable.
  An empty `VAR=` line hides every line added after it. */
  lemma ReadsBackExactly(h: Host, name: string, key: string)
    requires EnvName(name) && KeyLike(key) && Existing(TextOf(h.file), name).None?
    ensures Existing(NewText(TextOf(h.file), name, key), name) == Some(key)
      <==> !AssignedIn(TextOf(h.file), name)
  {
    LookupAfterWrite(TextOf(h.file), name, key, name);
    LookupFindsAssignment(Lines(TextOf(h.file)), name);
  }

  /** Lookups of other names are what they were. */
  lemma OthersUnchanged(h: Host, name: string, key: string, other: string)
    requires EnvName(name) && KeyLike(key) && other != name
    ensures Lookup(Lines(NewText(TextOf(h.file), name, key)), other) == Lookup(Lines(TextOf(h.file)), other)
  {
    LookupAfterWrite(TextOf(h.file), name, key, other);
  }

  lemma {:induction false} UniversalFixed(s: string)
    requires '\r' !in s
    ensures Universal(s) == s
  {
    if s != "" {
      UniversalFixed(s[1..]);
    }
  }

  lemma {:induction false} UniversalNoCr(s: string)
    ensures '\r' !in Universal(s)
    decreases |s|
  {
    if s != "" {
      UniversalNoCr(s[1..]);
      if |s| > 1 {
        UniversalNoCr(s[2..]);
      }
    }
  }

  /** The text with CR LF, or a lone CR, for every line feed. */
  function WithBreaks(text: string, windows: bool): string {
    if text == "" then ""
    else (if text[0] == '\n' then (if windows then "\r\n" else "\r") else [text[0]]) + WithBreaks(text[1..], windows)
  }

  /** Reading gives back the text whichever way its lines were ended. */
  lemma {:induction false} UniversalUndoesBreaks(text: string, windows: bool)
    requires '\r' !in text
    ensures Universal(WithBreaks(text, windows)) == text
    ensures !windows ==> '\n' !in WithBreaks(text, windows)
  {
    if text != "" {
      var rest := WithBreaks(text[1..], windows);
      UniversalUndoesBreaks(text[1..], windows);
      var raw := WithBreaks(text, windows);
      if text[0] != '\n' {
        assert raw[1..] == rest;
      } else if windows {
        assert raw[2..] == rest;
      } else {
        assert raw[1..] == rest;
      }
    }
  }

  lemma NewTextFixed(h: Host, name: string, key: string)
    requires EnvName(name) && KeyLike(key)
    ensures Universal(NewText(TextOf(h.file), name, key)) == NewText(TextOf(h.file), name, key)
  {
    if h.file.Stored? {
      UniversalNoCr(h.file.raw);
    }
    var new_ := NewText(TextOf(h.file), name, key);
    forall i | 0 <= i < |new_| ensures new_[i] != '\r' {}
    UniversalFixed(new_);
  }

  /** A second call finds the key of the first and leaves the file alone, exactly when no line of
  the old text assigned the variable; otherwise each further call writes another key. */
  lemma SecondCall(h: Host, name: string, key: string, again: string)
    requires EnvName(name) && KeyLike(key) && KeyLike(again) && Existing(TextOf(h.file), name).None?
    ensures
      var (first, _) := Ensured(h, name, key, false);
      var (second, result) := Ensured(first, name, again, false);
      if !AssignedIn(TextOf(h.file), name) then result == EnvResult(key, Present) && second == first
      else result == EnvResult(again, Wrote) && second.file != first.file
  {
    NewTextFixed(h, name, key);
    ReadsBackExactly(h, name, key);
    LookupAfterWrite(TextOf(h.file), name, key, name);
    LookupFindsAssignment(Lines(TextOf(h.file)), name);
    assert |NewText(NewText(TextOf(h.file), name, key), name, again)| > |NewText(TextOf(h.file), name, key)|;
  }

  lemma {:induction false} PrefixOfUniversal(raw: string, rest: string)
    ensures raw <= Universal(raw) + rest <==> '\r' !in raw
  {
    if raw != "" {
      if raw[0] == '\r' {
        assert (Universal(raw) + rest)[0] == '\n';
      } else {
        PrefixOfUniversal(raw[1..], rest);
        PrefixCons(raw[0], raw[1..], Universal(raw[1..]) + rest);
        assert raw == [raw[0]] + raw[1..];
        assert Universal(raw) + rest == [raw[0]] + (Universal(raw[1..]) + rest);
      }
    }
  }

  lemma PrefixCons(c: char, s: string, t: string)
    ensures [c] + s <= [c] + t <==> s <= t
  {
    if [c] + s <= [c] + t {
      assert s == ([c] + s)[1..] && t[..|s|] == ([c] + t)[1..|s| + 1];
    }
  }

  /** The stored file is a prefix of the new one exactly when it holds no carriage return: reading
  translates them and writing does not bring them back. */
  lemma FilePreservedExactly(raw: string, environ: map<string, string>, name: string, key: string)
    requires Existing(Universal(raw), name).None?
    ensures raw <= Ensured(Host(Stored(raw), environ), name, key, false).0.file.raw <==> '\r' !in raw
  {
    var rest := NewTextExtends(Universal(raw), name, key);
    PrefixOfUniversal(raw, rest);
  }

  lemma NewTextExtends(text: string, name: string, key: string) returns (rest: string)
    ensures NewText(text, name, key) == text + rest
  {
    var line := EnvLine(name, key);
    if text != "" && text[|text| - 1] != '\n' {
      rest := "\n" + line;
      assert (text + "\n") + line == text + ("\n" + line);
    } else {
      rest := line;
    }
  }

  /** For example a file of one line `NAME=`: the key written below it is never read back. */
  lemma EmptyLineExample(name: string, key: string)
    requires EnvName(name) && KeyLike(key)
    ensures Existing(name + "=\n", name).None? && Existing(NewText(name + "=\n", name, key), name).None?
  {
    var line, text := name + "=", name + "=\n";
    assert text == line + ['\n'];
    LinesOfOne(line, '\n');
    EmptyAssignment(name);
    assert Lookup([line], name) == Some("");
    LookupAfterWrite(text, name, key, name);
  }

  lemma EmptyAssignment(name: string)
    requires EnvName(name)
    ensures Assignment(name + "=", name) == Some("")
  {
    var line := name + "=";
    assert Stripped(line) && line[..|name|] == name && line[|name| + 1..] == "";
    assert name + ['='] + "" == line;
    FindAt(name, '=', "");
    StrippedUnchanged(line);
    StrippedUnchanged(name);
  }

  /** For example a file that is one carriage return: it is not the beginning of the new file. */
  lemma CarriageReturnExample(environ: map<string, string>, name: string, key: string)
    requires EnvName(name)
    ensures !("\r" <= Ensured(Host(Stored("\r"), environ), name, key, false).0.file.raw)
  {
    assert Universal("\r") == "\n" by {
      assert "\r"[1..] == "";
    }
    assert "\n" == "" + ['\n'];
    LinesOfOne("", '\n');
    var lines := Lines("\n");
    assert lines == [""] && Assignment(lines[0], name).None?;
    assert lines[1..] == [] && Lookup(lines[1..], name).None?;
    FilePreservedExactly("\r", environ, name, key);
  }

  // ---------------------------------------------------------------------
  // The helper as the source has it

  lemma LookupStep(lines: seq<string>, i: nat, name: string)
    requires i < |lines|
    ensures Lookup(lines[i..], name)
      == if Assignment(lines[i], name).Some? then Assignment(lines[i], name) else Lookup(lines[i + 1..], name)
  {
    assert lines[i..][0] == lines[i] && lines[i..][1..] == lines[i + 1..];
  }

  /** The scanning loop of the reader. */
  method ReadExisting(f: File, name: string) returns (found: Option<string>)
    ensures found == Existing(TextOf(f), name)
  {
    if !f.Stored? {
      return None;
    }
    var lines, i := Lines(Universal(f.raw)), 0;
    while i < |lines|
      invariant 0 <= i <= |lines| && Lookup(lines, name) == Lookup(lines[i..], name)
    {
      LookupStep(lines, i, name);
      var line := Strip(lines[i]);
      if line != "" && line[0] != '#' {
        var at := Find(line, '=');
        if at < |line| && Strip(line[..at]) == name {
          var value := Strip(line[at + 1..]);
          return if value == "" then None else Some(value);
        }
      }
      i := i + 1;
    }
    found := None;
  }

  class Process {
    var host: Host

    constructor (host: Host)
      ensures this.host == host
    {
      this.host := host;
    }

    /** An unreadable file that can be replaced is replaced by the one new line. */
    method EnsureKey(name: string, generated: string, fails: bool) returns (result: EnvResult)
      modifies this
      ensures (host, result) == Ensured(old(host), name, generated, fails)
      ensures host.environ[name] == result.key
      ensures result.status.Present? <==> Existing(TextOf(old(host).file), name).Some?
      ensures result.status.Failed? <==> fails && Existing(TextOf(old(host).file), name).None?
      ensures host.file == if result.status.Wrote? then Stored(NewText(TextOf(old(host).file), name, generated))
                           else old(host).file
      ensures old(host).file.Unreadable? && !fails ==> host.file == Stored(EnvLine(name, generated))
    {
      var existing := ReadExisting(host.file, name);
      if existing.Some? {
        host := host.(environ := host.environ[name := existing.value]);
        return EnvResult(existing.value, Present);
      }
      var text := if host.file.Stored? then Universal(host.file.raw) else "";
      var content := if text != "" && text[|text| - 1] != '\n'
                     then text + "\n" + EnvLine(name, generated)
                     else text + EnvLine(name, generated);
      var file := if fails then host.file else Stored(content);
      host := Host(file, host.environ[name := generated]);
      result := EnvResult(generated, if fails then Failed else Wrote);
    }
  }
}
