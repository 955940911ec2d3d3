/** The component scanner over the text dump of an Android manifest: one line per element
    (`E: tag`) or attribute, nesting shown by indentation. */
module Manifest {
  import opened Text

  // Lines

  predicate IsBlank(c: char) { c == ' ' || c == '\t' }

  /** strings.TrimRight(s, " \t"). */
  function TrimRight(s: string): string {
    if s != "" && IsBlank(s[|s| - 1]) then TrimRight(s[..|s| - 1]) else s
  }

  /** countLeadingSpaces. */
  function LeadingSpaces(s: string): (n: nat)
    ensures n <= |s|
  {
    if s != "" && IsBlank(s[0]) then 1 + LeadingSpaces(s[1..]) else 0
  }

  predicate HasPrefix(s: string, prefix: string) { prefix <= s }

  predicate Contains(s: string, sub: string) {
    HasPrefix(s, sub) || (s != "" && Contains(s[1..], sub))
  }

  lemma {:induction false} ContainsIff(s: string, sub: string)
    ensures Contains(s, sub) <==> exists i :: 0 <= i <= |s| && sub <= s[i..]
  {
    assert s[0..] == s;
    if s != "" {
      var t := s[1..];
      ContainsIff(t, sub);
      assert forall i :: 0 <= i <= |t| ==> t[i..] == s[i + 1..];
      if i :| 0 < i <= |s| && sub <= s[i..] {
        assert sub <= t[i - 1..];
      }
      if i :| 0 <= i <= |t| && sub <= t[i..] {
        assert sub <= s[i + 1..];
      }
    }
  }

  /** strings.Join(lines, "\n"). */
  function Join(lines: seq<string>): string {
    if lines == [] then "" else if |lines| == 1 then lines[0]
    else Join(lines[..|lines| - 1]) + "\n" + lines[|lines| - 1]
  }

  const ELEMENT := "E:"
  const APPLICATION := "E: application"
  const NAME := "android:name"

  function Header(tag: string): string { "E: " + tag }

  /** The blocks worth keeping, as text: those that mention a name. */
  function Named(blocks: seq<seq<string>>): seq<string> {
    if blocks == [] then []
    else
      var last := Join(blocks[|blocks| - 1]);
      Named(blocks[..|blocks| - 1]) + (if Contains(last, NAME) then [last] else [])
  }

  lemma {:induction false} NamedConcat(a: seq<seq<string>>, b: seq<seq<string>>)
    ensures Named(a + b) == Named(a) + Named(b)
  {
    if b == [] {
      assert a + b == a;
    } else {
      assert (a + b)[..|a + b| - 1] == a + b[..|b| - 1];
      NamedConcat(a, b[..|b| - 1]);
    }
  }

  // The scanner

  datatype Scan = Scan(blocks: seq<string>, current: seq<string>, inBlock: bool, inApp: bool,
                       appIndent: int, componentIndent: int)

  const INIT := Scan([], [], false, false, -1, -1)

  /** Save the open block, if it has a name. */
  function Saved(sc: Scan): Scan { sc.(blocks := sc.blocks + Named([sc.current])) }

  /** One non-empty line: its indentation, its trimmed text and the line itself. */
  function Feed(sc: Scan, component: string, indent: nat, text: string, line: string): Scan {
    if HasPrefix(text, APPLICATION) then sc.(inApp := true, appIndent := indent)
    else if sc.inApp && indent <= sc.appIndent && HasPrefix(text, ELEMENT) then
      if indent == sc.appIndent then sc.(inApp := false, appIndent := -1) else sc
    else if !sc.inApp then sc
    else if HasPrefix(text, Header(component)) then
      var closed := if sc.inBlock && |sc.current| > 0 then Saved(sc) else sc;
      closed.(current := [line], inBlock := true, componentIndent := indent)
    else if sc.inBlock then
      if indent > sc.componentIndent || (indent == sc.componentIndent && !HasPrefix(text, ELEMENT)) then
        sc.(current := sc.current + [line])
      else Saved(sc).(inBlock := false, componentIndent := -1)
    else sc
  }

  function FeedRaw(sc: Scan, component: string, raw: string): Scan {
    var line := TrimRight(raw);
    if line == "" then sc else Feed(sc, component, LeadingSpaces(line), TrimSpace(line), line)
  }

  function FeedAll(sc: Scan, component: string, lines: seq<string>): Scan
    decreases |lines|
  {
    if lines == [] then sc else FeedAll(FeedRaw(sc, component, lines[0]), component, lines[1..])
  }

  function Finish(sc: Scan): seq<string> {
    if sc.inBlock && |sc.current| > 0 then Saved(sc).blocks else sc.blocks
  }

  /** extractComponentBlocks, with its step back: a line that ends a block is looked at again. */
  method ExtractComponentBlocks(lines: seq<string>, component: string) returns (blocks: seq<string>)
    ensures blocks == Finish(FeedAll(INIT, component, lines))
  {
    hide TrimRight, TrimSpace, LeadingSpaces, Named, Header;
    var sc := INIT;
    var i := 0;
    while i < |lines|
      invariant 0 <= i <= |lines|
      invariant FeedAll(sc, component, lines[i..]) == FeedAll(INIT, component, lines)
      decreases |lines| - i, if sc.inBlock then 1 else 0
    {
      assert lines[i..][1..] == lines[i + 1..];
      var line := TrimRight(lines[i]);
      if line == "" {
        i := i + 1;
        continue;
      }
      var indent, text := LeadingSpaces(line), TrimSpace(line);
      if HasPrefix(text, APPLICATION) {
        sc := sc.(inApp := true, appIndent := indent);
        i := i + 1;
        continue;
      }
      if sc.inApp && indent <= sc.appIndent && HasPrefix(text, ELEMENT) {
        if indent == sc.appIndent {
          sc := sc.(inApp := false, appIndent := -1);
        }
        i := i + 1;
        continue;
      }
      if !sc.inApp {
        i := i + 1;
        continue;
      }
      if HasPrefix(text, Header(component)) {
        if sc.inBlock && |sc.current| > 0 {
          sc := Saved(sc);
        }
        sc := sc.(current := [line], inBlock := true, componentIndent := indent);
        i := i + 1;
        continue;
      }
      if sc.inBlock {
        if indent > sc.componentIndent || (indent == sc.componentIndent && !HasPrefix(text, ELEMENT)) {
          sc := sc.(current := sc.current + [line]);
          i := i + 1;
        } else {
          sc := Saved(sc).(inBlock := false, componentIndent := -1);
        }
      } else {
        i := i + 1;
      }
    }
    blocks := Finish(sc);
  }
}
