/** What the component scanner returns for the dump of any manifest tree. */
module ManifestTree {
  import opened Text
  import opened Manifest

  /** An element with its tag text, the texts of its attribute lines, and its children. */
  datatype Elem = Elem(tag: string, attrs: seq<string>, children: seq<Elem>)

  function Pad(n: nat): string { if n == 0 then "" else " " + Pad(n - 1) }

  // Dumps, at indentation d, each level `step` deeper

  function AttrLines(attrs: seq<string>, d: nat): seq<string> {
    if attrs == [] then [] else [Pad(d) + attrs[0]] + AttrLines(attrs[1..], d)
  }

  function Top(e: Elem, d: nat, step: nat): (lines: seq<string>)
    ensures lines != []
  {
    [Pad(d) + Header(e.tag)] + AttrLines(e.attrs, d + step)
  }

  function Render(e: Elem, d: nat, step: nat): seq<string>
    decreases e, 0
  {
    Top(e, d, step) + RenderAll(e.children, d + step, step)
  }

  function RenderAll(es: seq<Elem>, d: nat, step: nat): seq<string>
    decreases es, 1
  {
    if es == [] then [] else Render(es[0], d, step) + RenderAll(es[1..], d, step)
  }

  /** Text that keeps its shape when a line is trimmed. */
  predicate Tight(text: string) {
    text != "" && !IsSpace(text[0]) && !IsSpace(text[|text| - 1])
  }

  predicate GoodAttrs(attrs: seq<string>) {
    forall i :: 0 <= i < |attrs| ==> Tight(attrs[i]) && !HasPrefix(attrs[i], ELEMENT)
  }

  /** Well-formed, and with no element whose tag starts like `application`. */
  predicate Plain(e: Elem)
    decreases e, 0
  {
    Tight(Header(e.tag)) && GoodAttrs(e.attrs) && !HasPrefix(Header(e.tag), APPLICATION) && AllPlain(e.children)
  }

  predicate AllPlain(es: seq<Elem>)
    decreases es, 1
  {
    es == [] || (Plain(es[0]) && AllPlain(es[1..]))
  }

  // The specification

  predicate Matching(e: Elem, c: string) { HasPrefix(Header(e.tag), Header(c)) }

  predicate HasMatch(e: Elem, c: string)
    decreases e, 0
  {
    Matching(e, c) || AnyMatch(e.children, c)
  }

  predicate AnyMatch(es: seq<Elem>, c: string)
    decreases es, 1
  {
    es != [] && (HasMatch(es[0], c) || AnyMatch(es[1..], c))
  }

  /** The lines of a dump before its first matching element. */
  function Lead(e: Elem, c: string, d: nat, step: nat): seq<string>
    decreases e, 0
  {
    if Matching(e, c) then [] else Top(e, d, step) + LeadAll(e.children, c, d + step, step)
  }

  function LeadAll(es: seq<Elem>, c: string, d: nat, step: nat): seq<string>
    decreases es, 1
  {
    if es == [] then []
    else if HasMatch(es[0], c) then Lead(es[0], c, d, step)
    else Render(es[0], d, step) + LeadAll(es[1..], c, d, step)
  }

  /** A component's block: its own lines and its descendants' up to a nested component. */
  function Cut(e: Elem, c: string, d: nat, step: nat): seq<string> {
    Top(e, d, step) + LeadAll(e.children, c, d + step, step)
  }

  /** One block per matching element, in document order. */
  function Pieces(e: Elem, c: string, d: nat, step: nat): seq<seq<string>>
    decreases e, 0
  {
    (if Matching(e, c) then [Cut(e, c, d, step)] else []) + PiecesAll(e.children, c, d + step, step)
  }

  function PiecesAll(es: seq<Elem>, c: string, d: nat, step: nat): seq<seq<string>>
    decreases es, 1
  {
    if es == [] then [] else Pieces(es[0], c, d, step) + PiecesAll(es[1..], c, d, step)
  }

  // Reading an indented line

  lemma {:induction false} TrimSpaceTight(text: string, d: nat)
    requires Tight(text)
    ensures TrimSpace(Pad(d) + text) == text
  {
    hide Piece, Blank;
    if d > 0 {
      assert (Pad(d) + text)[1..] == Pad(d - 1) + text;
      TrimSpaceTight(text, d - 1);
    } else {
      assert Pad(d) + text == text;
    }
  }

  lemma {:induction false} LeadingTight(text: string, d: nat)
    requires Tight(text)
    ensures LeadingSpaces(Pad(d) + text) == d
  {
    if d > 0 {
      assert (Pad(d) + text)[1..] == Pad(d - 1) + text;
      LeadingTight(text, d - 1);
    } else {
      assert Pad(d) + text == text;
    }
  }

  /** The scanner sees an indented line as its indentation and its text. */
  lemma FeedLine(sc: Scan, c: string, d: nat, text: string)
    requires Tight(text)
    ensures FeedRaw(sc, c, Pad(d) + text) == Feed(sc, c, d, text, Pad(d) + text)
  {
    hide Feed, TrimSpace, LeadingSpaces;
    var line := Pad(d) + text;
    assert line[|line| - 1] == text[|text| - 1];
    TrimSpaceTight(text, d);
    LeadingTight(text, d);
  }

  lemma {:induction false} FeedConcat(sc: Scan, c: string, a: seq<string>, b: seq<string>)
    ensures FeedAll(sc, c, a + b) == FeedAll(FeedAll(sc, c, a), c, b)
    decreases |a|
  {
    hide FeedRaw;
    if a == [] {
      assert a + b == b;
    } else {
      assert (a + b)[1..] == a[1..] + b;
      FeedConcat(FeedRaw(sc, c, a[0]), c, a[1..], b);
    }
  }

  lemma FeedOne(sc: Scan, c: string, line: string)
    ensures FeedAll(sc, c, [line]) == FeedRaw(sc, c, line)
  {
    hide FeedRaw;
    assert [line][1..] == [];
  }

  // Inside the application element

  predicate InApp(sc: Scan, d: nat) {
    sc.inApp && sc.appIndent < d && (sc.inBlock ==> sc.current != [])
  }

  /** Lines at indentation `d` belong to the open block. */
  predicate Inside(sc: Scan, d: nat) { sc.inBlock && sc.componentIndent < d }

  /** The open block, with what it is about to gain. */
  function Pending(sc: Scan, d: nat, gain: seq<string>): seq<seq<string>> {
    if !sc.inBlock then [] else if Inside(sc, d) then [sc.current + gain] else [sc.current]
  }

  lemma AttrNeutral(text: string, c: string)
    requires Tight(text) && !HasPrefix(text, ELEMENT)
    ensures !HasPrefix(text, APPLICATION) && !HasPrefix(text, Header(c))
  {
    assert ELEMENT <= Header(c) && ELEMENT <= APPLICATION;
  }

  lemma {:induction false} FeedAttrs(sc: Scan, c: string, attrs: seq<string>, d: nat)
    requires InApp(sc, d) && GoodAttrs(attrs) && (sc.inBlock ==> Inside(sc, d))
    ensures FeedAll(sc, c, AttrLines(attrs, d)) ==
            if sc.inBlock then sc.(current := sc.current + AttrLines(attrs, d)) else sc
    decreases |attrs|
  {
    hide FeedRaw;
    if attrs != [] {
      var line := Pad(d) + attrs[0];
      FeedLine(sc, c, d, attrs[0]);
      AttrNeutral(attrs[0], c);
      var next := if sc.inBlock then sc.(current := sc.current + [line]) else sc;
      assert FeedRaw(sc, c, line) == next;
      FeedAttrs(next, c, attrs[1..], d);
      assert sc.current + [line] + AttrLines(attrs[1..], d) == sc.current + AttrLines(attrs, d);
      assert AttrLines(attrs, d)[1..] == AttrLines(attrs[1..], d);
    }
  }

  // The header line of an element

  /** A matching header starts a block, saving the open one. */
  lemma FeedMatching(sc: Scan, c: string, e: Elem, d: nat, step: nat)
    requires InApp(sc, d) && Plain(e) && Matching(e, c) && step > 0
    ensures FeedAll(sc, c, Top(e, d, step)) ==
            sc.(blocks := sc.blocks + Named(Pending(sc, d, [])), current := Top(e, d, step), inBlock := true,
                componentIndent := d)
  {
    hide FeedAll, Named, AttrLines, Pad;
    var line := Pad(d) + Header(e.tag);
    FeedMatchingHeader(sc, c, e.tag, d);
    FeedConcat(sc, c, [line], AttrLines(e.attrs, d + step));
    var next := sc.(blocks := sc.blocks + Named(Pending(sc, d, [])), current := [line], inBlock := true,
                    componentIndent := d);
    FeedAttrs(next, c, e.attrs, d + step);
  }

  lemma FeedMatchingHeader(sc: Scan, c: string, tag: string, d: nat)
    requires InApp(sc, d) && Tight(Header(tag)) && !HasPrefix(Header(tag), APPLICATION)
             && HasPrefix(Header(tag), Header(c))
    ensures FeedAll(sc, c, [Pad(d) + Header(tag)]) ==
            sc.(blocks := sc.blocks + Named(Pending(sc, d, [])), current := [Pad(d) + Header(tag)], inBlock := true,
                componentIndent := d)
  {
    hide FeedRaw, FeedAll, Named;
    FeedLine(sc, c, d, Header(tag));
    FeedOne(sc, c, Pad(d) + Header(tag));
    assert sc.current + [] == sc.current;
    assert Named([]) == [] by { NamedNone(); }
  }

  lemma NamedNone()
    ensures Named([]) == []
  {}

  /** Any other header inside the open block extends it; outside, it closes the open block. */
  function Passed(sc: Scan, d: nat, lines: seq<string>): Scan {
    if Inside(sc, d) then sc.(current := sc.current + lines)
    else if sc.inBlock then Saved(sc).(inBlock := false, componentIndent := -1)
    else sc
  }

  lemma FeedOtherHeader(sc: Scan, c: string, tag: string, d: nat)
    requires InApp(sc, d) && Tight(Header(tag)) && !HasPrefix(Header(tag), APPLICATION)
             && !HasPrefix(Header(tag), Header(c))
    ensures FeedAll(sc, c, [Pad(d) + Header(tag)]) == Passed(sc, d, [Pad(d) + Header(tag)])
  {
    hide FeedRaw, FeedAll, Saved;
    FeedLine(sc, c, d, Header(tag));
    FeedOne(sc, c, Pad(d) + Header(tag));
    assert ELEMENT <= Header(tag);
  }

  lemma FeedOther(sc: Scan, c: string, e: Elem, d: nat, step: nat)
    requires InApp(sc, d) && Plain(e) && !Matching(e, c) && step > 0
    ensures FeedAll(sc, c, Top(e, d, step)) == Passed(sc, d, Top(e, d, step))
  {
    hide FeedAll, Saved, AttrLines, Pad;
    var line := Pad(d) + Header(e.tag);
    FeedOtherHeader(sc, c, e.tag, d);
    FeedConcat(sc, c, [line], AttrLines(e.attrs, d + step));
    assert Saved(sc).inApp && Saved(sc).appIndent == sc.appIndent by { SavedFrame(sc); }
    FeedAttrs(Passed(sc, d, [line]), c, e.attrs, d + step);
    assert sc.current + [line] + AttrLines(e.attrs, d + step) == sc.current + Top(e, d, step);
  }

  lemma SavedFrame(sc: Scan)
    ensures Saved(sc).inApp == sc.inApp && Saved(sc).appIndent == sc.appIndent
  {}

  // Whole subtrees

  /** What scanning a dump at indentation `d` leaves behind: `lead` are its lines before the
      first matching element, `pieces` its blocks, `all` its lines if none matches. */
  predicate Scanned(sc: Scan, after: Scan, d: nat, lead: seq<string>, pieces: seq<seq<string>>,
                    matched: bool, all: seq<string>)
  {
    && after.inApp && after.appIndent == sc.appIndent && (after.inBlock ==> after.current != [])
    && Finish(after) == sc.blocks + Named(Pending(sc, d, lead) + pieces)
    && (if Inside(sc, d) && !matched then after == sc.(current := sc.current + all) else !Inside(after, d))
  }

  lemma FeedNone(sc: Scan, c: string)
    ensures FeedAll(sc, c, []) == sc
  {}

  lemma FinishOpen(sc: Scan)
    requires sc.inBlock ==> sc.current != []
    ensures Finish(sc) == sc.blocks + Named(if sc.inBlock then [sc.current] else [])
  {}

  lemma FinishOutside(sc: Scan, d: nat, gain: seq<string>)
    requires (sc.inBlock ==> sc.current != []) && !Inside(sc, d)
    ensures Finish(sc) == sc.blocks + Named(Pending(sc, d, gain))
  {}

  lemma {:induction false} LeadNone(e: Elem, c: string, d: nat, step: nat)
    requires !HasMatch(e, c)
    ensures Lead(e, c, d, step) == Render(e, d, step) && Pieces(e, c, d, step) == []
    decreases e, 0
  {
    LeadAllNone(e.children, c, d + step, step);
  }

  lemma {:induction false} LeadAllNone(es: seq<Elem>, c: string, d: nat, step: nat)
    requires !AnyMatch(es, c)
    ensures LeadAll(es, c, d, step) == RenderAll(es, d, step) && PiecesAll(es, c, d, step) == []
    decreases es, 1
  {
    if es != [] {
      LeadNone(es[0], c, d, step);
      LeadAllNone(es[1..], c, d, step);
    }
  }

  lemma {:induction false} ScanElem(sc: Scan, c: string, e: Elem, d: nat, step: nat)
    requires InApp(sc, d) && Plain(e) && step > 0
    ensures Scanned(sc, FeedAll(sc, c, Render(e, d, step)), d, Lead(e, c, d, step), Pieces(e, c, d, step),
                    HasMatch(e, c), Render(e, d, step))
    decreases e, 0
  {
    hide FeedAll, Named, RenderAll, LeadAll, PiecesAll, AnyMatch, Top, Finish;
    var top, rest := Top(e, d, step), RenderAll(e.children, d + step, step);
    FeedConcat(sc, c, top, rest);
    var mid := FeedAll(sc, c, top);
    if Matching(e, c) {
      FeedMatching(sc, c, e, d, step);
      ScanForest(mid, c, e.children, d + step, step);
      MatchingStep(sc, mid, FeedAll(mid, c, rest), c, e, d, step);
    } else {
      FeedOther(sc, c, e, d, step);
      ScanForest(mid, c, e.children, d + step, step);
      OtherStep(sc, mid, FeedAll(mid, c, rest), c, e, d, step);
    }
  }

  lemma {:induction false} ScanForest(sc: Scan, c: string, es: seq<Elem>, d: nat, step: nat)
    requires InApp(sc, d) && AllPlain(es) && step > 0
    ensures Scanned(sc, FeedAll(sc, c, RenderAll(es, d, step)), d, LeadAll(es, c, d, step), PiecesAll(es, c, d, step),
                    AnyMatch(es, c), RenderAll(es, d, step))
    decreases es, 1
  {
    hide FeedAll, Named, Render, Lead, Pieces, HasMatch, Finish, Plain;
    if es == [] {
      assert FeedAll(sc, c, RenderAll(es, d, step)) == sc by { FeedNone(sc, c); }
      assert sc.current + [] == sc.current;
      assert Pending(sc, d, []) == if sc.inBlock then [sc.current] else [];
      assert Pending(sc, d, []) + [] == Pending(sc, d, []);
      assert Finish(sc) == sc.blocks + Named(Pending(sc, d, []) + []) by { FinishOpen(sc); }
    } else {
      ScanElem(sc, c, es[0], d, step);
      var mid := FeedAll(sc, c, Render(es[0], d, step));
      ScanForest(mid, c, es[1..], d, step);
      FeedConcat(sc, c, Render(es[0], d, step), RenderAll(es[1..], d, step));
      ForestStep(sc, mid, FeedAll(sc, c, RenderAll(es, d, step)), c, es, d, step);
    }
  }

  lemma ForestStep(sc: Scan, mid: Scan, after: Scan, c: string, es: seq<Elem>, d: nat, step: nat)
    requires es != [] && InApp(sc, d)
    requires Scanned(sc, mid, d, Lead(es[0], c, d, step), Pieces(es[0], c, d, step), HasMatch(es[0], c),
                     Render(es[0], d, step))
    requires Scanned(mid, after, d, LeadAll(es[1..], c, d, step), PiecesAll(es[1..], c, d, step), AnyMatch(es[1..], c),
                     RenderAll(es[1..], d, step))
    ensures Scanned(sc, after, d, LeadAll(es, c, d, step), PiecesAll(es, c, d, step), AnyMatch(es, c),
                    RenderAll(es, d, step))
  {
    hide Named, Lead, Pieces, HasMatch, Render, Finish, LeadAll, PiecesAll, AnyMatch, RenderAll;
    Unfold(c, es, d, step);
    var lead, render := Lead(es[0], c, d, step), Render(es[0], d, step);
    var pieces, rest := Pieces(es[0], c, d, step), PiecesAll(es[1..], c, d, step);
    if Inside(sc, d) && !HasMatch(es[0], c) {
      LeadNone(es[0], c, d, step);
      assert pieces + rest == rest;
      assert sc.current + render + LeadAll(es[1..], c, d, step) == sc.current + LeadAll(es, c, d, step);
      assert sc.current + render + RenderAll(es[1..], d, step) == sc.current + RenderAll(es, d, step);
    } else {
      JoinScans(sc, mid, after, d, lead, pieces, LeadAll(es[1..], c, d, step), rest);
      assert Pending(sc, d, lead) + pieces + rest
          == Pending(sc, d, LeadAll(es, c, d, step)) + PiecesAll(es, c, d, step);
    }
  }

  /** Two scans in a row, the first of which leaves no block open at this depth. */
  lemma JoinScans(sc: Scan, mid: Scan, after: Scan, d: nat, lead: seq<string>, pieces: seq<seq<string>>,
                  lead': seq<string>, pieces': seq<seq<string>>)
    requires (mid.inBlock ==> mid.current != []) && !Inside(mid, d)
    requires Finish(mid) == sc.blocks + Named(Pending(sc, d, lead) + pieces)
    requires Finish(after) == mid.blocks + Named(Pending(mid, d, lead') + pieces')
    ensures Finish(after) == sc.blocks + Named(Pending(sc, d, lead) + pieces + pieces')
  {
    hide Named, Finish;
    FinishOutside(mid, d, lead');
    NamedConcat(Pending(mid, d, lead'), pieces');
    NamedConcat(Pending(sc, d, lead) + pieces, pieces');
    assert Finish(after) == Finish(mid) + Named(pieces');
  }

  lemma Unfold(c: string, es: seq<Elem>, d: nat, step: nat)
    requires es != []
    ensures LeadAll(es, c, d, step) == if HasMatch(es[0], c) then Lead(es[0], c, d, step)
                                       else Render(es[0], d, step) + LeadAll(es[1..], c, d, step)
    ensures PiecesAll(es, c, d, step) == Pieces(es[0], c, d, step) + PiecesAll(es[1..], c, d, step)
    ensures RenderAll(es, d, step) == Render(es[0], d, step) + RenderAll(es[1..], d, step)
    ensures AnyMatch(es, c) <==> HasMatch(es[0], c) || AnyMatch(es[1..], c)
  {
    hide Lead, Pieces, Render, HasMatch;
  }

  lemma MatchingStep(sc: Scan, mid: Scan, after: Scan, c: string, e: Elem, d: nat, step: nat)
    requires InApp(sc, d) && Matching(e, c) && step > 0
    requires mid == sc.(blocks := sc.blocks + Named(Pending(sc, d, [])), current := Top(e, d, step), inBlock := true,
                        componentIndent := d)
    requires Scanned(mid, after, d + step, LeadAll(e.children, c, d + step, step),
                     PiecesAll(e.children, c, d + step, step),
                     AnyMatch(e.children, c), RenderAll(e.children, d + step, step))
    ensures Scanned(sc, after, d, Lead(e, c, d, step), Pieces(e, c, d, step), HasMatch(e, c), Render(e, d, step))
  {
    hide Named, LeadAll, PiecesAll, AnyMatch, RenderAll, Finish, Top;
    var cut, rest := [Cut(e, c, d, step)], PiecesAll(e.children, c, d + step, step);
    NamedConcat(Pending(sc, d, []), cut + rest);
  }

  lemma OtherStep(sc: Scan, mid: Scan, after: Scan, c: string, e: Elem, d: nat, step: nat)
    requires InApp(sc, d) && !Matching(e, c) && step > 0
    requires mid == Passed(sc, d, Top(e, d, step))
    requires Scanned(mid, after, d + step, LeadAll(e.children, c, d + step, step),
                     PiecesAll(e.children, c, d + step, step),
                     AnyMatch(e.children, c), RenderAll(e.children, d + step, step))
    ensures Scanned(sc, after, d, Lead(e, c, d, step), Pieces(e, c, d, step), HasMatch(e, c), Render(e, d, step))
  {
    hide Named, LeadAll, PiecesAll, AnyMatch, RenderAll, Finish, Top;
    var rest := PiecesAll(e.children, c, d + step, step);
    assert Pieces(e, c, d, step) == rest;
    if Inside(sc, d) {
      assert sc.current + Top(e, d, step) + LeadAll(e.children, c, d + step, step) == sc.current + Lead(e, c, d, step);
      assert sc.current + Top(e, d, step) + RenderAll(e.children, d + step, step) == sc.current + Render(e, d, step);
    } else {
      assert [] + rest == rest;
      NamedConcat(Pending(sc, d, Lead(e, c, d, step)), rest);
      assert Named([]) == [] by { NamedNone(); }
    }
  }

  // Documents

  /** A manifest dump: lines before the root element (namespaces), the root, and among the root's
      children one element whose tag starts like `application`. */
  datatype Doc = Doc(prologue: seq<string>, root: string, attrs: seq<string>,
                     before: seq<Elem>, app: Elem, beyond: seq<Elem>)

  predicate QuietLines(lines: seq<string>) {
    forall i :: 0 <= i < |lines| ==> !HasPrefix(TrimSpace(TrimRight(lines[i])), APPLICATION)
  }

  predicate GoodDoc(doc: Doc) {
    && QuietLines(doc.prologue)
    && Tight(Header(doc.root)) && !HasPrefix(Header(doc.root), APPLICATION) && GoodAttrs(doc.attrs)
    && AllPlain(doc.before) && AllPlain(doc.beyond)
    && Tight(Header(doc.app.tag)) && HasPrefix(Header(doc.app.tag), APPLICATION)
    && GoodAttrs(doc.app.attrs) && AllPlain(doc.app.children)
  }

  function RenderDoc(doc: Doc, d: nat, step: nat): seq<string> {
    doc.prologue + Top(Elem(doc.root, doc.attrs, []), d, step)
    + RenderAll(doc.before, d + step, step)
    + (Render(doc.app, d + step, step) + RenderAll(doc.beyond, d + step, step))
  }

  // Outside the application element nothing happens

  lemma {:induction false} FeedQuiet(sc: Scan, c: string, lines: seq<string>)
    requires !sc.inApp && QuietLines(lines)
    ensures FeedAll(sc, c, lines) == sc
    decreases |lines|
  {
    hide TrimSpace, TrimRight, LeadingSpaces, Header, Named;
    if lines != [] {
      FeedQuiet(sc, c, lines[1..]);
    }
  }

  lemma QuietConcat(a: seq<string>, b: seq<string>)
    requires QuietLines(a) && QuietLines(b)
    ensures QuietLines(a + b)
  {
    hide TrimSpace, TrimRight;
  }

  lemma QuietLine(d: nat, text: string)
    requires Tight(text) && !HasPrefix(text, APPLICATION)
    ensures QuietLines([Pad(d) + text])
  {
    hide TrimSpace;
    var line := Pad(d) + text;
    assert line[|line| - 1] == text[|text| - 1];
    TrimSpaceTight(text, d);
  }

  lemma {:induction false} QuietAttrs(attrs: seq<string>, d: nat)
    requires GoodAttrs(attrs)
    ensures QuietLines(AttrLines(attrs, d))
    decreases |attrs|
  {
    hide QuietLines, Pad;
    if attrs == [] {
      QuietNone();
    } else {
      AttrNeutral(attrs[0], "");
      QuietLine(d, attrs[0]);
      QuietAttrs(attrs[1..], d);
      QuietConcat([Pad(d) + attrs[0]], AttrLines(attrs[1..], d));
    }
  }

  lemma QuietNone()
    ensures QuietLines([])
  {}

  lemma QuietTop(e: Elem, d: nat, step: nat)
    requires Tight(Header(e.tag)) && GoodAttrs(e.attrs) && !HasPrefix(Header(e.tag), APPLICATION)
    ensures QuietLines(Top(e, d, step))
  {
    hide QuietLines, Pad, AttrLines;
    QuietLine(d, Header(e.tag));
    QuietAttrs(e.attrs, d + step);
    QuietConcat([Pad(d) + Header(e.tag)], AttrLines(e.attrs, d + step));
  }

  lemma {:induction false} QuietElem(e: Elem, d: nat, step: nat)
    requires Plain(e)
    ensures QuietLines(Render(e, d, step))
    decreases e, 0
  {
    hide QuietLines, Top;
    QuietTop(e, d, step);
    QuietForest(e.children, d + step, step);
    QuietConcat(Top(e, d, step), RenderAll(e.children, d + step, step));
  }

  lemma {:induction false} QuietForest(es: seq<Elem>, d: nat, step: nat)
    requires AllPlain(es)
    ensures QuietLines(RenderAll(es, d, step))
    decreases es, 1
  {
    hide QuietLines, Render;
    if es == [] {
      QuietNone();
    } else {
      QuietElem(es[0], d, step);
      QuietForest(es[1..], d, step);
      QuietConcat(Render(es[0], d, step), RenderAll(es[1..], d, step));
    }
  }

  // Around the application element

  /** Its own lines open the search; an attribute line of it is never part of a block. */
  lemma EnterApp(sc: Scan, c: string, app: Elem, d: nat, step: nat)
    requires !sc.inBlock && step > 0
    requires Tight(Header(app.tag)) && HasPrefix(Header(app.tag), APPLICATION) && GoodAttrs(app.attrs)
    ensures FeedAll(sc, c, Top(app, d, step)) == sc.(inApp := true, appIndent := d)
  {
    hide FeedRaw, FeedAll, AttrLines, Pad;
    var line := Pad(d) + Header(app.tag);
    FeedLine(sc, c, d, Header(app.tag));
    FeedOne(sc, c, line);
    FeedConcat(sc, c, [line], AttrLines(app.attrs, d + step));
    FeedAttrs(sc.(inApp := true, appIndent := d), c, app.attrs, d + step);
  }

  /** A sibling after it ends the search and leaves the open block to the end of the input. */
  lemma LeaveApp(sc: Scan, c: string, es: seq<Elem>, d: nat, step: nat)
    requires sc.inApp && sc.appIndent == d && AllPlain(es)
    ensures Finish(FeedAll(sc, c, RenderAll(es, d, step))) == Finish(sc)
  {
    hide FeedRaw, FeedAll, AttrLines, Pad, Finish, QuietLines;
    if es == [] {
      FeedNone(sc, c);
    } else {
      var e := es[0];
      var line := Pad(d) + Header(e.tag);
      var body := AttrLines(e.attrs, d + step) + RenderAll(e.children, d + step, step) + RenderAll(es[1..], d, step);
      assert RenderAll(es, d, step) == [line] + body;
      FeedConcat(sc, c, [line], body);
      FeedOne(sc, c, line);
      FeedLine(sc, c, d, Header(e.tag));
      assert ELEMENT <= Header(e.tag);
      var left := sc.(inApp := false, appIndent := -1);
      assert FeedRaw(sc, c, line) == left;
      QuietAttrs(e.attrs, d + step);
      QuietForest(e.children, d + step, step);
      QuietForest(es[1..], d, step);
      QuietConcat(AttrLines(e.attrs, d + step), RenderAll(e.children, d + step, step));
      QuietConcat(AttrLines(e.attrs, d + step) + RenderAll(e.children, d + step, step), RenderAll(es[1..], d, step));
      FeedQuiet(left, c, body);
      assert Finish(left) == Finish(sc) by { FinishLeft(sc); }
    }
  }

  lemma FinishLeft(sc: Scan)
    ensures Finish(sc.(inApp := false, appIndent := -1)) == Finish(sc)
  {
    hide Named;
  }

  /** The lines before the application element change nothing. */
  lemma SkipToApp(c: string, doc: Doc, d: nat, step: nat)
    requires GoodDoc(doc)
    ensures FeedAll(INIT, c, doc.prologue + Top(Elem(doc.root, doc.attrs, []), d, step)
                             + RenderAll(doc.before, d + step, step)) == INIT
  {
    hide FeedAll, QuietLines, Top, RenderAll;
    var root := Elem(doc.root, doc.attrs, []);
    QuietTop(root, d, step);
    QuietForest(doc.before, d + step, step);
    QuietConcat(doc.prologue, Top(root, d, step));
    QuietConcat(doc.prologue + Top(root, d, step), RenderAll(doc.before, d + step, step));
    FeedQuiet(INIT, c, doc.prologue + Top(root, d, step) + RenderAll(doc.before, d + step, step));
  }

  lemma ScanApp(c: string, app: Elem, d: nat, step: nat)
    requires step > 0 && Tight(Header(app.tag)) && HasPrefix(Header(app.tag), APPLICATION)
    requires GoodAttrs(app.attrs) && AllPlain(app.children)
    ensures var sc := FeedAll(INIT, c, Render(app, d, step));
            sc.inApp && sc.appIndent == d && Finish(sc) == Named(PiecesAll(app.children, c, d + step, step))
  {
    hide FeedAll, Named, Finish, Top, RenderAll, LeadAll, PiecesAll, AnyMatch;
    var sc := INIT.(inApp := true, appIndent := d);
    FeedConcat(INIT, c, Top(app, d, step), RenderAll(app.children, d + step, step));
    EnterApp(INIT, c, app, d, step);
    ScanForest(sc, c, app.children, d + step, step);
    assert [] + PiecesAll(app.children, c, d + step, step) == PiecesAll(app.children, c, d + step, step);
  }

  // Any text with the same lines

  /** The lines left once trailing blanks and empty lines are gone. */
  function Clean(lines: seq<string>): seq<string> {
    if lines == [] then []
    else (if TrimRight(lines[0]) == "" then [] else [TrimRight(lines[0])]) + Clean(lines[1..])
  }

  lemma {:induction false} TrimRightTwice(s: string)
    ensures TrimRight(TrimRight(s)) == TrimRight(s)
    decreases |s|
  {
    if s != "" && IsBlank(s[|s| - 1]) { TrimRightTwice(s[..|s| - 1]); }
  }

  lemma {:induction false} FeedClean(sc: Scan, c: string, lines: seq<string>)
    ensures FeedAll(sc, c, lines) == FeedAll(sc, c, Clean(lines))
    decreases |lines|
  {
    hide TrimRight, Feed, TrimSpace, LeadingSpaces;
    if lines != [] {
      TrimRightTwice(lines[0]);
      var next := FeedRaw(sc, c, lines[0]);
      FeedClean(next, c, lines[1..]);
      if TrimRight(lines[0]) != "" {
        assert Clean(lines)[1..] == Clean(lines[1..]);
      } else {
        assert Clean(lines) == Clean(lines[1..]);
      }
    }
  }

  /** The main result: from any text that dumps a manifest tree the scanner returns, in document
      order, the block of every matching element under the application element whose block
      mentions a name, and nothing else. */
  lemma ExtractsPieces(lines: seq<string>, c: string, doc: Doc, d: nat, step: nat)
    requires GoodDoc(doc) && step > 0
    requires Clean(lines) == Clean(RenderDoc(doc, d, step))
    ensures Finish(FeedAll(INIT, c, lines)) == Named(PiecesAll(doc.app.children, c, d + 2 * step, step))
  {
    hide FeedAll, Named, Finish, Top, Render, RenderAll, PiecesAll, Clean, GoodDoc;
    FeedClean(INIT, c, lines);
    FeedClean(INIT, c, RenderDoc(doc, d, step));
    var pre := doc.prologue + Top(Elem(doc.root, doc.attrs, []), d, step) + RenderAll(doc.before, d + step, step);
    var app, beyond := Render(doc.app, d + step, step), RenderAll(doc.beyond, d + step, step);
    FeedConcat(INIT, c, pre, app + beyond);
    SkipToApp(c, doc, d, step);
    FeedConcat(INIT, c, app, beyond);
    GoodParts(doc);
    ScanApp(c, doc.app, d + step, step);
    LeaveApp(FeedAll(INIT, c, app), c, doc.beyond, d + step, step);
    assert d + step + step == d + 2 * step;
  }

  lemma GoodParts(doc: Doc)
    requires GoodDoc(doc)
    ensures Tight(Header(doc.app.tag)) && HasPrefix(Header(doc.app.tag), APPLICATION)
    ensures GoodAttrs(doc.app.attrs) && AllPlain(doc.app.children) && AllPlain(doc.beyond)
  {}

  // When is a block the whole element?

  lemma {:induction false} RenderGrows(e: Elem, c: string, d: nat, step: nat)
    requires HasMatch(e, c)
    ensures |Lead(e, c, d, step)| < |Render(e, d, step)|
    decreases e, 0
  {
    if !Matching(e, c) { RenderAllGrows(e.children, c, d + step, step); }
  }

  lemma {:induction false} RenderAllGrows(es: seq<Elem>, c: string, d: nat, step: nat)
    requires AnyMatch(es, c)
    ensures |LeadAll(es, c, d, step)| < |RenderAll(es, d, step)|
    decreases es, 1
  {
    if HasMatch(es[0], c) {
      RenderGrows(es[0], c, d, step);
    } else {
      RenderAllGrows(es[1..], c, d, step);
    }
  }

  /** A component's block holds all its lines exactly when no component of its kind is nested in it. */
  lemma WholeIff(e: Elem, c: string, d: nat, step: nat)
    ensures Cut(e, c, d, step) == Render(e, d, step) <==> !AnyMatch(e.children, c)
  {
    hide LeadAll, RenderAll, AnyMatch, Top;
    if AnyMatch(e.children, c) {
      RenderAllGrows(e.children, c, d + step, step);
      assert |Cut(e, c, d, step)| < |Render(e, d, step)|;
    } else {
      LeadAllNone(e.children, c, d + step, step);
    }
  }

  /** Elements of a forest whose own tag matches, dumped whole. */
  function Wholes(es: seq<Elem>, c: string, d: nat, step: nat): seq<seq<string>> {
    if es == [] then []
    else (if Matching(es[0], c) then [Render(es[0], d, step)] else []) + Wholes(es[1..], c, d, step)
  }

  /** Components sit directly under the application element, never deeper. */
  predicate Flat(es: seq<Elem>, c: string) {
    forall i :: 0 <= i < |es| ==> !AnyMatch(es[i].children, c)
  }

  lemma {:induction false} FlatPieces(es: seq<Elem>, c: string, d: nat, step: nat)
    requires Flat(es, c)
    ensures PiecesAll(es, c, d, step) == Wholes(es, c, d, step)
    decreases |es|
  {
    if es != [] {
      assert !AnyMatch(es[0].children, c);
      LeadAllNone(es[0].children, c, d + step, step);
      FlatPieces(es[1..], c, d, step);
    }
  }

  /** For a manifest whose components sit directly under the application element, the scanner
      returns exactly the lines of each named one. */
  lemma ExtractsComponents(lines: seq<string>, c: string, doc: Doc, d: nat, step: nat)
    requires GoodDoc(doc) && step > 0 && Flat(doc.app.children, c)
    requires Clean(lines) == Clean(RenderDoc(doc, d, step))
    ensures Finish(FeedAll(INIT, c, lines)) == Named(Wholes(doc.app.children, c, d + 2 * step, step))
  {
    hide FeedAll, Named, Finish, GoodDoc, Flat, Clean;
    ExtractsPieces(lines, c, doc, d, step);
    FlatPieces(doc.app.children, c, d + 2 * step, step);
  }

  // Prefix matching and the tag that was asked for

  /** The element's tag is `c` itself, perhaps with what a dump puts behind it. */
  predicate Exact(e: Elem, c: string) { e.tag == c || HasPrefix(e.tag, c + " ") }

  lemma ExactMatches(e: Elem, c: string)
    requires Exact(e, c)
    ensures Matching(e, c)
  {
    assert HasPrefix(e.tag, c);
    assert Header(c) == "E: " + c && Header(e.tag) == "E: " + e.tag;
  }

  /** The blocks of the elements with that very tag, in document order. */
  function ExactPieces(e: Elem, c: string, d: nat, step: nat): seq<seq<string>>
    decreases e, 0
  {
    (if Exact(e, c) then [Cut(e, c, d, step)] else []) + ExactPiecesAll(e.children, c, d + step, step)
  }

  function ExactPiecesAll(es: seq<Elem>, c: string, d: nat, step: nat): seq<seq<string>>
    decreases es, 1
  {
    if es == [] then [] else ExactPieces(es[0], c, d, step) + ExactPiecesAll(es[1..], c, d, step)
  }

  predicate HasName(block: seq<string>) { Contains(Join(block), NAME) }

  /** Somewhere in the tree an element with a longer tag of the same prefix has a named block. */
  predicate HasStray(e: Elem, c: string, d: nat, step: nat)
    decreases e, 0
  {
    (Matching(e, c) && !Exact(e, c) && HasName(Cut(e, c, d, step))) || AnyStray(e.children, c, d + step, step)
  }

  predicate AnyStray(es: seq<Elem>, c: string, d: nat, step: nat)
    decreases es, 1
  {
    es != [] && (HasStray(es[0], c, d, step) || AnyStray(es[1..], c, d, step))
  }

  lemma NamedOne(block: seq<string>)
    ensures Named([block]) == if HasName(block) then [Join(block)] else []
  {
    hide Contains, Join;
    assert [block][..0] == [];
  }

  /** `more` are the named blocks of all matching elements, `exact` those of the exact ones. */
  predicate Surplus(more: seq<string>, exact: seq<string>, stray: bool) {
    if stray then |more| > |exact| else more == exact
  }

  lemma SurplusConcat(m1: seq<string>, e1: seq<string>, s1: bool, m2: seq<string>, e2: seq<string>, s2: bool)
    requires Surplus(m1, e1, s1) && Surplus(m2, e2, s2)
    ensures Surplus(m1 + m2, e1 + e2, s1 || s2)
  {}

  lemma {:induction false} StrayElem(e: Elem, c: string, d: nat, step: nat)
    ensures Surplus(Named(Pieces(e, c, d, step)), Named(ExactPieces(e, c, d, step)), HasStray(e, c, d, step))
    decreases e, 0
  {
    hide Named, HasName, Cut, PiecesAll, ExactPiecesAll, AnyStray;
    var cut := [Cut(e, c, d, step)];
    var own := if Matching(e, c) then cut else [];
    var ownExact := if Exact(e, c) then cut else [];
    if Exact(e, c) { ExactMatches(e, c); }
    hide Matching, Exact, Surplus;
    NamedOne(Cut(e, c, d, step));
    NamedNone();
    StrayForest(e.children, c, d + step, step);
    var pieces, exact := PiecesAll(e.children, c, d + step, step), ExactPiecesAll(e.children, c, d + step, step);
    NamedConcat(own, pieces);
    NamedConcat(ownExact, exact);
    var stray := Matching(e, c) && !Exact(e, c) && HasName(Cut(e, c, d, step));
    assert Surplus(Named(own), Named(ownExact), stray) by { OwnSurplus(Named(own), Named(ownExact), stray); }
    SurplusConcat(Named(own), Named(ownExact), stray, Named(pieces), Named(exact),
                  AnyStray(e.children, c, d + step, step));
  }

  lemma OwnSurplus(more: seq<string>, exact: seq<string>, stray: bool)
    requires if stray then |more| > |exact| else more == exact
    ensures Surplus(more, exact, stray)
  {}

  lemma {:induction false} StrayForest(es: seq<Elem>, c: string, d: nat, step: nat)
    ensures Surplus(Named(PiecesAll(es, c, d, step)), Named(ExactPiecesAll(es, c, d, step)), AnyStray(es, c, d, step))
    decreases es, 1
  {
    hide Named, Pieces, ExactPieces, HasStray;
    if es != [] {
      StrayElem(es[0], c, d, step);
      StrayForest(es[1..], c, d, step);
      NamedConcat(Pieces(es[0], c, d, step), PiecesAll(es[1..], c, d, step));
      NamedConcat(ExactPieces(es[0], c, d, step), ExactPiecesAll(es[1..], c, d, step));
      SurplusConcat(Named(Pieces(es[0], c, d, step)), Named(ExactPieces(es[0], c, d, step)),
                    HasStray(es[0], c, d, step),
                    Named(PiecesAll(es[1..], c, d, step)), Named(ExactPiecesAll(es[1..], c, d, step)),
                    AnyStray(es[1..], c, d, step));
    }
  }

  /** For every manifest: the scanner returns the named blocks of exactly the elements with
      the tag it was asked for if and only if no named element under application has a longer
      tag that starts the same. */
  lemma ExtractsTagIff(lines: seq<string>, c: string, doc: Doc, d: nat, step: nat)
    requires GoodDoc(doc) && step > 0
    requires Clean(lines) == Clean(RenderDoc(doc, d, step))
    ensures Finish(FeedAll(INIT, c, lines)) == Named(ExactPiecesAll(doc.app.children, c, d + 2 * step, step))
       <==> !AnyStray(doc.app.children, c, d + 2 * step, step)
  {
    hide FeedAll, Finish, GoodDoc, Clean, Named, PiecesAll, ExactPiecesAll, AnyStray;
    ExtractsPieces(lines, c, doc, d, step);
    StrayForest(doc.app.children, c, d + 2 * step, step);
  }

  // Asking for activities also yields activity aliases

  lemma {:induction false} ContainsWithin(pre: string, sub: string, post: string)
    ensures Contains(pre + sub + post, sub)
    decreases |pre|
  {
    if pre == "" {
      assert pre + sub + post == sub + post;
    } else {
      ContainsWithin(pre[1..], sub, post);
      assert (pre + sub + post)[1..] == pre[1..] + sub + post;
    }
  }

  /** A childless element with one attribute line, its name. */
  function NamedLeaf(tag: string, name: string): Elem { Elem(tag, ["A: " + NAME + "=" + name], []) }

  lemma LeafLines(tag: string, name: string, d: nat, step: nat)
    ensures var e := NamedLeaf(tag, name);
            Render(e, d, step) == Top(e, d, step) == [Pad(d) + Header(tag), Pad(d + step) + ("A: " + NAME + "=" + name)]
  {
    var e := NamedLeaf(tag, name);
    assert e.attrs[1..] == [];
    assert AttrLines(e.attrs, d + step) == [Pad(d + step) + e.attrs[0]];
    assert RenderAll(e.children, d + step, step) == [];
  }

  lemma LeafHasName(tag: string, name: string, d: nat, step: nat)
    ensures HasName(Render(NamedLeaf(tag, name), d, step))
  {
    hide Contains, Pad, Render, Top;
    LeafLines(tag, name, d, step);
    var first, second := Pad(d) + Header(tag), Pad(d + step) + ("A: " + NAME + "=" + name);
    assert Join([first, second]) == first + "\n" + second by { JoinTwo(first, second); }
    ContainsWithin(first + "\n" + Pad(d + step) + "A: ", NAME, "=" + name);
    assert first + "\n" + second == first + "\n" + Pad(d + step) + "A: " + NAME + ("=" + name);
  }

  lemma JoinTwo(a: string, b: string)
    ensures Join([a, b]) == a + "\n" + b
  {
    assert [a, b][..1] == [a];
  }

  lemma LeafPlain(tag: string, name: string)
    requires Tight(Header(tag)) && !HasPrefix(Header(tag), APPLICATION) && Tight(name)
    ensures Plain(NamedLeaf(tag, name))
  {
    var text := "A: " + NAME + "=" + name;
    assert text[|text| - 1] == name[|name| - 1] && text[0] == 'A';
  }

  const ACTIVITY := "activity"
  const ALIAS := "activity-alias"

  /** A manifest with one activity and one alias. */
  function AliasDoc(name: string, alias: string): Doc {
    Doc([], "manifest", [], [], Elem("application", [], [NamedLeaf(ACTIVITY, name), NamedLeaf(ALIAS, alias)]), [])
  }

  lemma AliasDocGood(name: string, alias: string)
    requires Tight(name) && Tight(alias)
    ensures GoodDoc(AliasDoc(name, alias))
  {
    hide Header, HasPrefix, Tight, Plain;
    AliasHeaders();
    LeafPlain(ACTIVITY, name);
    LeafPlain(ALIAS, alias);
    var children := AliasDoc(name, alias).app.children;
    assert children[1..] == [NamedLeaf(ALIAS, alias)] && children[1..][1..] == [];
    assert AllPlain(children[1..]) && AllPlain(children);
    assert Header(AliasDoc(name, alias).root) == Header("manifest") && GoodAttrs([]) && QuietLines([]);
  }

  lemma AliasHeaders()
    ensures Tight(Header(ACTIVITY)) && Tight(Header(ALIAS)) && Tight(Header("manifest")) && Tight(Header("application"))
    ensures !HasPrefix(Header(ACTIVITY), APPLICATION) && !HasPrefix(Header(ALIAS), APPLICATION)
    ensures !HasPrefix(Header("manifest"), APPLICATION) && HasPrefix(Header("application"), APPLICATION)
  {
    assert Header(ACTIVITY)[4] == 'c' && Header(ALIAS)[4] == 'c' && APPLICATION[4] == 'p'
           && Header("manifest")[3] == 'm';
    assert Header("application") == APPLICATION;
  }

  /** There the scanner, asked for activities, returns the alias as well. */
  lemma AliasCollected(name: string, alias: string, d: nat, step: nat)
    requires Tight(name) && Tight(alias) && step > 0
    ensures !Exact(NamedLeaf(ALIAS, alias), ACTIVITY)
    ensures Finish(FeedAll(INIT, ACTIVITY, RenderDoc(AliasDoc(name, alias), d, step)))
         == [Join(Render(NamedLeaf(ACTIVITY, name), d + 2 * step, step)),
             Join(Render(NamedLeaf(ALIAS, alias), d + 2 * step, step))]
  {
    hide FeedAll, Finish, Named, Join, Render, GoodDoc, Clean, RenderDoc;
    var doc, d' := AliasDoc(name, alias), d + 2 * step;
    AliasDocGood(name, alias);
    ExtractsPieces(RenderDoc(doc, d, step), ACTIVITY, doc, d, step);
    var a, b := NamedLeaf(ACTIVITY, name), NamedLeaf(ALIAS, alias);
    AliasPieces(name, alias, d', step);
    NamedConcat([Render(a, d', step)], [Render(b, d', step)]);
    LeafHasName(ACTIVITY, name, d', step);
    LeafHasName(ALIAS, alias, d', step);
    NamedOne(Render(a, d', step));
    NamedOne(Render(b, d', step));
    assert ALIAS[8] == '-';
  }

  lemma AliasPieces(name: string, alias: string, d: nat, step: nat)
    ensures var a, b := NamedLeaf(ACTIVITY, name), NamedLeaf(ALIAS, alias);
            PiecesAll([a, b], ACTIVITY, d, step) == [Render(a, d, step)] + [Render(b, d, step)]
  {
    var a, b := NamedLeaf(ACTIVITY, name), NamedLeaf(ALIAS, alias);
    assert HasPrefix(Header(ACTIVITY), Header(ACTIVITY)) && HasPrefix(Header(ALIAS), Header(ACTIVITY));
    LeafPieces(a, ACTIVITY, d, step);
    LeafPieces(b, ACTIVITY, d, step);
    hide Pieces, Render;
    assert [a, b][1..] == [b] && [b][1..] == [];
    assert PiecesAll([b], ACTIVITY, d, step) == [Render(b, d, step)] + PiecesAll([], ACTIVITY, d, step);
  }

  lemma LeafPieces(e: Elem, c: string, d: nat, step: nat)
    requires e.children == [] && Matching(e, c)
    ensures Pieces(e, c, d, step) == [Render(e, d, step)]
  {
    assert LeadAll(e.children, c, d + step, step) == RenderAll(e.children, d + step, step) == [];
  }
}
