/** Python's `str.strip` and what follows from it. */
module Text {

  /** The characters `str.strip` removes: Unicode white space and the four separators 1C-1F. */
  predicate IsSpace(c: char) {
    var n := c as int;
    || 0x09 <= n <= 0x0D || 0x1C <= n <= 0x20 || n == 0x85 || n == 0xA0 || n == 0x1680
    || 0x2000 <= n <= 0x200A || n == 0x2028 || n == 0x2029 || n == 0x202F || n == 0x205F || n == 0x3000
  }

  /** Of the ASCII characters these are tab to carriage return, the separators, and the blank. */
  lemma AsciiSpaces(c: char)
    requires c as int < 128
    ensures IsSpace(c) <==>
      c == '\t' || c == '\n' || c == '\r' || c == ' ' || c as int in {0x0B, 0x0C, 0x1C, 0x1D, 0x1E, 0x1F}
  {}

  function TrimLeft(s: string): string {
    if s != "" && IsSpace(s[0]) then TrimLeft(s[1..]) else s
  }

  function TrimRight(s: string): string {
    if s != "" && IsSpace(s[|s| - 1]) then TrimRight(s[..|s| - 1]) else s
  }

  function Strip(s: string): string {
    TrimRight(TrimLeft(s))
  }

  /** Nothing for `strip` to remove. */
  predicate Stripped(s: string) {
    s == "" || (!IsSpace(s[0]) && !IsSpace(s[|s| - 1]))
  }

  lemma {:induction false} TrimRightEnds(s: string)
    ensures var t := TrimRight(s); t <= s && (t != "" ==> t[0] == s[0] && !IsSpace(t[|t| - 1]))
  {
    if s != "" && IsSpace(s[|s| - 1]) {
      TrimRightEnds(s[..|s| - 1]);
    }
  }

  lemma {:induction false} TrimLeftStarts(s: string)
    ensures var t := TrimLeft(s); t == "" || !IsSpace(t[0])
  {
    if s != "" && IsSpace(s[0]) {
      TrimLeftStarts(s[1..]);
    }
  }

  /** `strip` returns a string it would not change. */
  lemma StripIsStripped(s: string)
    ensures Stripped(Strip(s)) && Strip(Strip(s)) == Strip(s)
  {
    TrimLeftStarts(s);
    TrimRightEnds(TrimLeft(s));
  }

  predicate Blank(s: string) {
    forall i :: 0 <= i < |s| ==> IsSpace(s[i])
  }

  lemma {:induction false} TrimRightSplits(s: string) returns (r: string)
    ensures s == TrimRight(s) + r && Blank(r)
  {
    if s != "" && IsSpace(s[|s| - 1]) {
      r := TrimRightSplits(s[..|s| - 1]);
      r := r + [s[|s| - 1]];
    } else {
      r := "";
    }
  }

  lemma {:induction false} TrimLeftSplits(s: string) returns (l: string)
    ensures s == l + TrimLeft(s) && Blank(l)
  {
    if s != "" && IsSpace(s[0]) {
      l := TrimLeftSplits(s[1..]);
      l := [s[0]] + l;
    } else {
      l := "";
    }
  }

  lemma StripSplits(s: string) returns (l: string, r: string)
    ensures s == l + Strip(s) + r && Blank(l) && Blank(r)
  {
    l := TrimLeftSplits(s);
    r := TrimRightSplits(TrimLeft(s));
  }

  lemma {:induction false} TrimRightDrops(core: string, r: string)
    requires Stripped(core) && Blank(r)
    ensures TrimRight(core + r) == core
  {
    if r == "" {
      assert core + r == core;
    } else {
      TrimRightDrops(core, r[..|r| - 1]);
      assert (core + r)[..|core + r| - 1] == core + r[..|r| - 1];
    }
  }

  lemma {:induction false} TrimLeftDrops(l: string, s: string)
    requires Blank(l) && (s == "" || !IsSpace(s[0]))
    ensures TrimLeft(l + s) == s
  {
    if l == "" {
      assert l + s == s;
    } else {
      TrimLeftDrops(l[1..], s);
      assert (l + s)[1..] == l[1..] + s;
    }
  }

  lemma StripDrops(l: string, core: string, r: string)
    requires Blank(l) && Stripped(core) && Blank(r)
    ensures Strip(l + core + r) == core
  {
    if core == "" {
      assert l + core + r == (l + r) + "";
      TrimLeftDrops(l + r, "");
    } else {
      assert l + core + r == l + (core + r);
      TrimLeftDrops(l, core + r);
      TrimRightDrops(core, r);
    }
  }

  /** `strip` removes all the white space at both ends and nothing else. */
  lemma StripExactly(s: string, core: string)
    ensures Strip(s) == core <==> Stripped(core) && exists l, r :: Blank(l) && Blank(r) && s == l + core + r
  {
    StripIsStripped(s);
    var left, right := StripSplits(s);
    if Stripped(core) && exists l, r :: Blank(l) && Blank(r) && s == l + core + r {
      var l, r :| Blank(l) && Blank(r) && s == l + core + r;
      StripDrops(l, core, r);
    }
  }

  lemma StrippedUnchanged(s: string)
    requires Stripped(s)
    ensures Strip(s) == s
  {}
}
